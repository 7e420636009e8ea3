/** The price micro-grammar of the product import: the regular expression
      (?:(?<country>\w{2})-)?(?<currency>\w{3}) (?<centAmount>\d+)(?:|\d+)?(?: (?<customerGroup>\w+))?(?:#(?<channel>[\w\-]+))?$
    used with `Matcher.find()`, so the match must end at the end of the token but may
    start anywhere in it; the leftmost start wins. `MatchAt` follows the matcher's
    backtracking at one start position; `MatchesAt` says declaratively what a match is.

    The group `(?:|\d+)?` never takes a digit: the greedy `\d+` before it has already
    consumed the whole digit run, and every shorter split of the run leaves a digit in
    front of parts that cannot start with one. The groups of a success are therefore
    those of the same pattern without it, with a maximal digit run. */
module PriceGrammar {
  import opened Wrappers

  /** `\w` without UNICODE_CHARACTER_CLASS: `[a-zA-Z_0-9]`. */
  predicate IsWordChar(c: char) {
    'a' <= c <= 'z' || 'A' <= c <= 'Z' || '0' <= c <= '9' || c == '_'
  }

  /** `\d`: `[0-9]`. */
  predicate IsDigit(c: char) {
    '0' <= c <= '9'
  }

  /** `[\w\-]`, the characters of a channel key. */
  predicate IsChannelChar(c: char) {
    IsWordChar(c) || c == '-'
  }

  /** The characters a `$` without MULTILINE or UNIX_LINES may stand in front of. */
  predicate IsLineTerminator(c: char) {
    c == '\n' || c == '\r' || c == '\U{85}' || c == '\U{2028}' || c == '\U{2029}'
  }

  datatype CharClass = Word | Digit | ChannelKey

  predicate InClass(c: char, k: CharClass) {
    match k
    case Word => IsWordChar(c)
    case Digit => IsDigit(c)
    case ChannelKey => IsChannelChar(c)
  }

  predicate AllIn(t: string, k: CharClass) {
    forall i :: 0 <= i < |t| ==> InClass(t[i], k)
  }

  /** Java's `$` at position `p`: the end of the input, or just before a line
      terminator that ends the input (`\r\n` counts as one, and `$` never falls
      between its two characters). */
  predicate EndAnchor(s: string, p: nat)
    requires p <= |s|
  {
    || p == |s|
    || (p + 1 == |s| && IsLineTerminator(s[p]) && !(s[p] == '\n' && p > 0 && s[p - 1] == '\r'))
    || (p + 2 == |s| && s[p] == '\r' && s[p + 1] == '\n')
  }

  /** The end of the longest run of class `k` that starts at `i` (a greedy `+` or `*`). */
  function RunEnd(s: string, i: nat, k: CharClass): (e: nat)
    requires i <= |s|
    ensures i <= e <= |s|
    ensures e == |s| || !InClass(s[e], k)
    decreases |s| - i
  {
    if i < |s| && InClass(s[i], k) then RunEnd(s, i + 1, k) else i
  }

  /** Every character the run `RunEnd` finds is of its class. */
  lemma {:induction false} RunEndInClass(s: string, i: nat, k: CharClass)
    requires i <= |s|
    ensures forall t :: i <= t < RunEnd(s, i, k) ==> InClass(s[t], k)
    decreases |s| - i
  {
    if i < |s| && InClass(s[i], k) {
      RunEndInClass(s, i + 1, k);
    }
  }

  /** A run of class `k` from `i` that stops in front of a character outside `k`
      is the one `RunEnd` finds. */
  lemma {:induction false} RunEndUnique(s: string, i: nat, e: nat, k: CharClass)
    requires i <= e <= |s|
    requires forall t :: i <= t < e ==> InClass(s[t], k)
    requires e == |s| || !InClass(s[e], k)
    ensures RunEnd(s, i, k) == e
    decreases e - i
  {
    if i < e {
      RunEndUnique(s, i + 1, e, k);
    }
  }

  /** The named groups of a match; a `None` group did not participate. */
  datatype PriceMatch = PriceMatch(
    country: Option<string>,
    currency: string,
    centAmount: string,
    customerGroup: Option<string>,
    channel: Option<string>)

  /** A successful `find()`: where the match starts and what its groups hold. */
  datatype Found = Found(start: nat, groups: PriceMatch)

  function CountryPart(m: PriceMatch): string {
    if m.country.Some? then m.country.value + "-" else ""
  }

  function GroupPart(m: PriceMatch): string {
    if m.customerGroup.Some? then " " + m.customerGroup.value else ""
  }

  function ChannelPart(m: PriceMatch): string {
    if m.channel.Some? then "#" + m.channel.value else ""
  }

  /** The text a match spans: `[CC-]CUR DIGITS[ GROUP][#CHANNEL]`. */
  function Render(m: PriceMatch): string {
    CountryPart(m) + (m.currency + (" " + (m.centAmount + (GroupPart(m) + ChannelPart(m)))))
  }

  /** Every group holds what its sub-pattern accepts. */
  predicate WellFormed(m: PriceMatch) {
    && (m.country.Some? ==> |m.country.value| == 2 && AllIn(m.country.value, Word))
    && |m.currency| == 3 && AllIn(m.currency, Word)
    && |m.centAmount| >= 1 && AllIn(m.centAmount, Digit)
    && (m.customerGroup.Some? ==> |m.customerGroup.value| >= 1 && AllIn(m.customerGroup.value, Word))
    && (m.channel.Some? ==> |m.channel.value| >= 1 && AllIn(m.channel.value, ChannelKey))
  }

  /** The front of a match at `i`: the country part, the currency, a space and the
      digits, one after the other. */
  predicate FrontAt(s: string, i: nat, m: PriceMatch) {
    var j := i + |CountryPart(m)|;
    var p := j + 4 + |m.centAmount|;
    && p <= |s|
    && s[i..j] == CountryPart(m)
    && s[j..j + 3] == m.currency
    && s[j + 3] == ' '
    && s[j + 4..p] == m.centAmount
  }

  /** Where the front of a match started at `i` ends. */
  function FrontEnd(i: nat, m: PriceMatch): nat {
    i + |CountryPart(m)| + 4 + |m.centAmount|
  }

  /** The back of a match at `p`: the group part and the channel part, one after
      the other, and `$` behind them. */
  predicate BackAt(s: string, p: nat, m: PriceMatch) {
    var q := p + |GroupPart(m)|;
    var r := q + |ChannelPart(m)|;
    && r <= |s|
    && s[p..q] == GroupPart(m)
    && s[q..r] == ChannelPart(m)
    && EndAnchor(s, r)
  }

  /** The pattern matches `s` from `i` with groups `m`: the groups are well formed,
      and the text from `i` is the front of the match followed by its back. */
  predicate MatchesAt(s: string, i: nat, m: PriceMatch) {
    WellFormed(m) && FrontAt(s, i, m) && BackAt(s, FrontEnd(i, m), m)
  }

  /** `\w{2}-` at `i`. */
  predicate CountryAt(s: string, i: nat) {
    i + 3 <= |s| && IsWordChar(s[i]) && IsWordChar(s[i + 1]) && s[i + 2] == '-'
  }

  /** `\w{3} \d` at `j`: a currency, the space and the first digit. */
  predicate CurrencyAt(s: string, j: nat) {
    j + 5 <= |s| && IsWordChar(s[j]) && IsWordChar(s[j + 1]) && IsWordChar(s[j + 2])
    && s[j + 3] == ' ' && IsDigit(s[j + 4])
  }

  /** ` \w` at `p`: the start of a customer group. */
  predicate GroupAt(s: string, p: nat) {
    p + 1 < |s| && s[p] == ' ' && IsWordChar(s[p + 1])
  }

  /** `#[\w\-]` at `q`: the start of a channel key. */
  predicate ChannelAt(s: string, q: nat) {
    q + 1 < |s| && s[q] == '#' && IsChannelChar(s[q + 1])
  }

  /** Where the currency starts when the match starts at `i`. */
  function CurrencyStart(s: string, i: nat): nat {
    if CountryAt(s, i) then i + 3 else i
  }

  /** Where the digit run ends. */
  function DigitsEnd(s: string, i: nat): nat
    requires CurrencyAt(s, CurrencyStart(s, i))
  {
    RunEnd(s, CurrencyStart(s, i) + 4, Digit)
  }

  /** Where the customer group ends (the digit run's end if there is none). */
  function GroupEnd(s: string, i: nat): nat
    requires CurrencyAt(s, CurrencyStart(s, i))
  {
    var p := DigitsEnd(s, i);
    if GroupAt(s, p) then RunEnd(s, p + 1, Word) else p
  }

  /** Where the channel key ends (the group's end if there is none). */
  function ChannelEnd(s: string, i: nat): nat
    requires CurrencyAt(s, CurrencyStart(s, i))
  {
    var q := GroupEnd(s, i);
    if ChannelAt(s, q) then RunEnd(s, q + 1, ChannelKey) else q
  }

  /** The matcher at start position `i`. Each optional part is taken when its
      first characters are present (greedy `?`), and every run is maximal: giving
      any of them back leaves a character no later part can start with, so the
      backtracking alternatives all fail. An optional country that is present but
      leads nowhere cannot be skipped either: the currency would then have to
      contain its `-`. */
  function MatchAt(s: string, i: nat): Option<PriceMatch>
    requires i <= |s|
  {
    if CurrencyAt(s, CurrencyStart(s, i)) && EndAnchor(s, ChannelEnd(s, i)) then Some(GroupsAt(s, i))
    else None
  }

  /** The groups the matcher reads from `i` once it has seen a currency. */
  function GroupsAt(s: string, i: nat): PriceMatch
    requires CurrencyAt(s, CurrencyStart(s, i))
  {
    var j, p, q, r := CurrencyStart(s, i), DigitsEnd(s, i), GroupEnd(s, i), ChannelEnd(s, i);
    PriceMatch(
      if CountryAt(s, i) then Some(s[i..i + 2]) else None,
      s[j..j + 3],
      s[j + 4..p],
      if GroupAt(s, p) then Some(s[p + 1..q]) else None,
      if ChannelAt(s, q) then Some(s[q + 1..r]) else None)
  }

  lemma SliceJoin(s: string, a: nat, b: nat, c: nat)
    requires a <= b <= c <= |s|
    ensures s[a..b] + s[b..c] == s[a..c]
  {
  }

  lemma SliceAllIn(s: string, a: nat, b: nat, k: CharClass)
    requires a <= b <= |s|
    requires forall t :: a <= t < b ==> InClass(s[t], k)
    ensures AllIn(s[a..b], k)
  {
  }

  /** The groups `MatchAt` reads off the token are well formed. */
  lemma MatchAtWellFormed(s: string, i: nat)
    requires i <= |s| && CurrencyAt(s, CurrencyStart(s, i))
    ensures WellFormed(GroupsAt(s, i))
  {
    FrontGroupsWellFormed(s, i);
    GroupWellFormed(s, i);
    ChannelWellFormed(s, i);
  }

  /** The country, currency and amount `MatchAt` reads are what their
      sub-patterns accept. */
  lemma FrontGroupsWellFormed(s: string, i: nat)
    requires i <= |s| && CurrencyAt(s, CurrencyStart(s, i))
    ensures var m := GroupsAt(s, i);
            && (m.country.Some? ==> |m.country.value| == 2 && AllIn(m.country.value, Word))
            && |m.currency| == 3 && AllIn(m.currency, Word)
            && |m.centAmount| >= 1 && AllIn(m.centAmount, Digit)
  {
    var j := CurrencyStart(s, i);
    if CountryAt(s, i) {
      SliceAllIn(s, i, i + 2, Word);
    }
    SliceAllIn(s, j, j + 3, Word);
    RunSliceAllIn(s, j + 4, Digit);
  }

  /** The customer group `MatchAt` reads is a non-empty run of word characters. */
  lemma GroupWellFormed(s: string, i: nat)
    requires i <= |s| && CurrencyAt(s, CurrencyStart(s, i))
    ensures var g := GroupsAt(s, i).customerGroup;
            g.Some? ==> |g.value| >= 1 && AllIn(g.value, Word)
  {
    var p := DigitsEnd(s, i);
    if GroupAt(s, p) {
      RunSliceAllIn(s, p + 1, Word);
    }
  }

  /** The channel key `MatchAt` reads is a non-empty run of channel characters. */
  lemma ChannelWellFormed(s: string, i: nat)
    requires i <= |s| && CurrencyAt(s, CurrencyStart(s, i))
    ensures var c := GroupsAt(s, i).channel;
            c.Some? ==> |c.value| >= 1 && AllIn(c.value, ChannelKey)
  {
    var q := GroupEnd(s, i);
    if ChannelAt(s, q) {
      RunSliceAllIn(s, q + 1, ChannelKey);
    }
  }

  /** A run of class `k` that starts with a character of `k` is a non-empty text
      of `k`. */
  lemma RunSliceAllIn(s: string, a: nat, k: CharClass)
    requires a < |s| && InClass(s[a], k)
    ensures |s[a..RunEnd(s, a, k)]| >= 1 && AllIn(s[a..RunEnd(s, a, k)], k)
  {
    RunEndInClass(s, a, k);
    SliceAllIn(s, a, RunEnd(s, a, k), k);
  }

  /** An optional part read as `lead` followed by the group's text, or nothing. */
  lemma LedPart(s: string, p: nat, q: nat, lead: char, present: bool, g: Option<string>, part: string)
    requires p <= q <= |s|
    requires present ==> p < q && s[p] == lead
    requires !present ==> q == p
    requires g == (if present then Some(s[p + 1..q]) else None)
    requires part == (if g.Some? then [lead] + g.value else "")
    ensures part == s[p..q]
  {
    if present {
      assert s[p..q] == [s[p]] + s[p + 1..q];
    }
  }

  /** Parts laid out one after the other spell the slice they cover. */
  lemma PartsSpan(s: string, i: nat, j: nat, p: nat, q: nat, r: nat, m: PriceMatch)
    requires i <= j && j + 4 <= p <= q <= r <= |s|
    requires CountryPart(m) == s[i..j]
    requires m.currency == s[j..j + 3] && s[j + 3] == ' '
    requires m.centAmount == s[j + 4..p]
    requires GroupPart(m) == s[p..q]
    requires ChannelPart(m) == s[q..r]
    ensures Render(m) == s[i..r]
  {
    assert " " == s[j + 3..j + 4];
    SliceJoin(s, p, q, r);
    SliceJoin(s, j + 4, p, r);
    SliceJoin(s, j + 3, j + 4, r);
    SliceJoin(s, j, j + 3, r);
    SliceJoin(s, i, j, r);
  }

  /** The front of the groups `MatchAt` reads off the token is laid out from `i`,
      and ends where the digit run ends. */
  lemma MatchAtFront(s: string, i: nat)
    requires i <= |s| && CurrencyAt(s, CurrencyStart(s, i))
    ensures FrontAt(s, i, GroupsAt(s, i)) && FrontEnd(i, GroupsAt(s, i)) == DigitsEnd(s, i)
  {
    var m := GroupsAt(s, i);
    var j := CurrencyStart(s, i);
    assert CountryPart(m) == s[i..j] by {
      if CountryAt(s, i) {
        assert s[i..i + 3] == s[i..i + 2] + [s[i + 2]];
      }
    }
  }

  /** The back of the groups `MatchAt` reads off the token is laid out from the end
      of the digit run when the anchor holds behind the channel key. */
  lemma MatchAtBack(s: string, i: nat)
    requires i <= |s| && CurrencyAt(s, CurrencyStart(s, i)) && EndAnchor(s, ChannelEnd(s, i))
    ensures BackAt(s, DigitsEnd(s, i), GroupsAt(s, i))
  {
    var m := GroupsAt(s, i);
    var p, q, r := DigitsEnd(s, i), GroupEnd(s, i), ChannelEnd(s, i);
    LedPart(s, p, q, ' ', GroupAt(s, p), m.customerGroup, GroupPart(m));
    LedPart(s, q, r, '#', ChannelAt(s, q), m.channel, ChannelPart(m));
  }

  /** What `MatchAt` reports is a match: its groups are well formed, laid out from
      `i` on, and the anchor holds behind them. */
  lemma MatchAtSound(s: string, i: nat)
    requires i <= |s|
    ensures MatchAt(s, i).Some? ==> MatchesAt(s, i, MatchAt(s, i).value)
  {
    if MatchAt(s, i).Some? {
      MatchAtWellFormed(s, i);
      MatchAtFront(s, i);
      MatchAtBack(s, i);
    }
  }

  /** A match spells the rendering of its groups, with `$` behind it. */
  lemma MatchIsRendered(s: string, i: nat, m: PriceMatch)
    requires MatchesAt(s, i, m)
    ensures i + |Render(m)| <= |s| && s[i..i + |Render(m)|] == Render(m) && EndAnchor(s, i + |Render(m)|)
  {
    var j := i + |CountryPart(m)|;
    var p := FrontEnd(i, m);
    var q := p + |GroupPart(m)|;
    var r := q + |ChannelPart(m)|;
    assert |Render(m)| == r - i;
    PartsSpan(s, i, j, p, q, r, m);
  }

  /** A rendering of well-formed groups with `$` behind it is a match. */
  lemma RenderedIsMatch(s: string, i: nat, m: PriceMatch)
    requires WellFormed(m)
    requires i + |Render(m)| <= |s| && s[i..i + |Render(m)|] == Render(m) && EndAnchor(s, i + |Render(m)|)
    ensures MatchesAt(s, i, m)
  {
    var cp, gp, chp := CountryPart(m), GroupPart(m), ChannelPart(m);
    var j := i + |cp|;
    assert |Render(m)| == FrontEnd(i, m) + |gp| + |chp| - i;
    assert Render(m) == cp + (m.currency + (" " + (m.centAmount + (gp + chp))));
    SixParts(s, i, cp, m.currency, " ", m.centAmount, gp, chp);
    assert s[j + 3] == s[j + 3..j + 4][0];
  }

  /** A match, read as a whole: the rendering of its groups stands at `i`, and `$`
      holds behind it. */
  lemma MatchesAtRendered(s: string, i: nat, m: PriceMatch)
    ensures MatchesAt(s, i, m) <==>
      && WellFormed(m)
      && i + |Render(m)| <= |s|
      && s[i..i + |Render(m)|] == Render(m)
      && EndAnchor(s, i + |Render(m)|)
  {
    if MatchesAt(s, i, m) {
      MatchIsRendered(s, i, m);
    }
    if WellFormed(m) && i + |Render(m)| <= |s| && s[i..i + |Render(m)|] == Render(m) && EndAnchor(s, i + |Render(m)|) {
      RenderedIsMatch(s, i, m);
    }
  }

  /** Reading a part `x` off the front of a slice that spells `x + y`. */
  lemma SliceSplit(s: string, a: nat, x: string, y: string)
    requires a + |x| + |y| <= |s|
    requires s[a..a + |x| + |y|] == x + y
    ensures s[a..a + |x|] == x
    ensures s[a + |x|..a + |x| + |y|] == y
  {
    assert s[a..a + |x|] == (x + y)[..|x|];
    assert s[a + |x|..a + |x| + |y|] == (x + y)[|x|..];
  }

  /** A line terminator is none of the characters the pattern consumes. */
  lemma EndAnchorChar(s: string, p: nat)
    requires p < |s| && EndAnchor(s, p)
    ensures !IsWordChar(s[p]) && !IsChannelChar(s[p]) && !IsDigit(s[p]) && s[p] != ' ' && s[p] != '#'
  {
  }

  /** Six parts read off a slice that spells their concatenation. */
  lemma SixParts(s: string, i: nat, a: string, b: string, c: string, d: string, e: string, f: string)
    requires i + |a + (b + (c + (d + (e + f))))| <= |s|
    requires s[i..i + |a + (b + (c + (d + (e + f))))|] == a + (b + (c + (d + (e + f))))
    ensures var j1 := i + |a|;
            var j2 := j1 + |b|;
            var j3 := j2 + |c|;
            var j4 := j3 + |d|;
            var j5 := j4 + |e|;
            && s[i..j1] == a && s[j1..j2] == b && s[j2..j3] == c
            && s[j3..j4] == d && s[j4..j5] == e && s[j5..j5 + |f|] == f
  {
    SliceSplit(s, i, a, b + (c + (d + (e + f))));
    SliceSplit(s, i + |a|, b, c + (d + (e + f)));
    SliceSplit(s, i + |a| + |b|, c, d + (e + f));
    SliceSplit(s, i + |a| + |b| + |c|, d, e + f);
    SliceSplit(s, i + |a| + |b| + |c| + |d|, e, f);
  }

  /** What stands behind the digits of a match, at the start `p` of its back: no
      digit, and no space when there is no group; behind the group part no word
      character, and no `#` when there is no channel; behind the channel part no
      character of a channel key. */
  lemma StopAfterDigits(s: string, p: nat, m: PriceMatch)
    requires BackAt(s, p, m)
    ensures p == |s| || !IsDigit(s[p])
    ensures m.customerGroup.None? ==> p == |s| || s[p] != ' '
    ensures var q := p + |GroupPart(m)|;
            (q == |s| || !IsWordChar(s[q])) && (m.channel.None? ==> q == |s| || s[q] != '#')
    ensures var r := p + |GroupPart(m)| + |ChannelPart(m)|;
            r == |s| || !IsChannelChar(s[r])
  {
    var q, r := p + |GroupPart(m)|, p + |GroupPart(m)| + |ChannelPart(m)|;
    if r < |s| {
      EndAnchorChar(s, r);
    }
    if m.customerGroup.Some? {
      assert s[p] == s[p..q][0];
    }
    if m.channel.Some? {
      assert s[q] == s[q..r][0];
    }
  }

  /** The optional country of a match is the one the matcher sees, so the
      currency starts where the match says. */
  lemma CountryStart(s: string, i: nat, j: nat, m: PriceMatch)
    requires WellFormed(m) && FrontAt(s, i, m) && j == i + |CountryPart(m)|
    ensures CountryAt(s, i) == m.country.Some?
    ensures m.country.Some? ==> s[i..i + 2] == m.country.value
    ensures CurrencyStart(s, i) == j
  {
    var cp := CountryPart(m);
    if m.country.Some? {
      assert s[i] == cp[0] && s[i + 1] == cp[1] && s[i + 2] == cp[2] == '-';
      assert s[i..i + 2] == s[i..j][..2];
    } else {
      assert s[i + 2] == s[i..i + 3][2] == m.currency[2];
    }
  }

  /** The currency and digit run of a match, when the run stops before a
      non-digit: the matcher sees the currency there and reads exactly that run. */
  lemma CurrencyDigits(s: string, i: nat, j: nat, p: nat, m: PriceMatch)
    requires WellFormed(m) && FrontAt(s, i, m) && j == i + |CountryPart(m)| && p == FrontEnd(i, m)
    requires p == |s| || !IsDigit(s[p])
    ensures CurrencyAt(s, j)
    ensures RunEnd(s, j + 4, Digit) == p
  {
    assert forall t :: 0 <= t < 3 ==> s[j + t] == m.currency[t];
    assert forall t :: j + 4 <= t < p ==> s[t] == m.centAmount[t - (j + 4)];
    RunEndUnique(s, j + 4, p, Digit);
  }

  /** A part `lead + x` laid out at `p`, where `x` is a run of class `k` followed by
      a character outside `k`: the matcher sees the part and reads exactly `x`. */
  lemma LedRun(s: string, p: nat, lead: char, x: string, k: CharClass)
    requires p + 1 + |x| <= |s| && |x| >= 1 && AllIn(x, k)
    requires s[p..p + 1 + |x|] == [lead] + x
    requires p + 1 + |x| == |s| || !InClass(s[p + 1 + |x|], k)
    ensures s[p] == lead && InClass(s[p + 1], k)
    ensures RunEnd(s, p + 1, k) == p + 1 + |x|
    ensures s[p + 1..p + 1 + |x|] == x
  {
    var q := p + 1 + |x|;
    assert s[p] == s[p..q][0];
    assert s[p + 1..q] == s[p..q][1..];
    assert forall t :: p + 1 <= t < q ==> s[t] == x[t - (p + 1)];
    RunEndUnique(s, p + 1, q, k);
  }

  /** The group part of a match's back at `p`: the matcher sees a group exactly
      when `m` has one, and reads it whole. */
  lemma GroupRead(s: string, p: nat, m: PriceMatch)
    requires WellFormed(m) && BackAt(s, p, m)
    requires p + |GroupPart(m)| == |s| || !IsWordChar(s[p + |GroupPart(m)|])
    requires m.customerGroup.None? ==> p == |s| || s[p] != ' '
    ensures GroupAt(s, p) == m.customerGroup.Some?
    ensures (if GroupAt(s, p) then RunEnd(s, p + 1, Word) else p) == p + |GroupPart(m)|
    ensures m.customerGroup.Some? ==> s[p + 1..p + |GroupPart(m)|] == m.customerGroup.value
  {
    if m.customerGroup.Some? {
      LedRun(s, p, ' ', m.customerGroup.value, Word);
    }
  }

  /** The channel part of a match's back at `p`, from `q` on: the matcher sees a
      channel exactly when `m` has one, and reads it whole. */
  lemma ChannelRead(s: string, p: nat, q: nat, m: PriceMatch)
    requires WellFormed(m) && BackAt(s, p, m) && q == p + |GroupPart(m)|
    requires q + |ChannelPart(m)| == |s| || !IsChannelChar(s[q + |ChannelPart(m)|])
    requires m.channel.None? ==> q == |s| || s[q] != '#'
    ensures ChannelAt(s, q) == m.channel.Some?
    ensures (if ChannelAt(s, q) then RunEnd(s, q + 1, ChannelKey) else q) == q + |ChannelPart(m)|
    ensures m.channel.Some? ==> s[q + 1..q + |ChannelPart(m)|] == m.channel.value
  {
    if m.channel.Some? {
      LedRun(s, q, '#', m.channel.value, ChannelKey);
    }
  }

  /** What the matcher reads at the front of a match with groups `m` at `i`: a country
      exactly when `m` has one, the currency at `j` and the digit run from `j + 4`
      to `p`, each spelling the group of `m`. */
  predicate ReadsFront(s: string, i: nat, j: nat, p: nat, m: PriceMatch) {
    && i <= j && j + 4 <= p <= |s|
    && CurrencyStart(s, i) == j && CurrencyAt(s, j) && RunEnd(s, j + 4, Digit) == p
    && CountryAt(s, i) == m.country.Some?
    && (m.country.Some? ==> s[i..i + 2] == m.country.value)
    && s[j..j + 3] == m.currency && s[j + 4..p] == m.centAmount
  }

  /** What the matcher reads at the back of a match with groups `m`: a customer group
      from `p` to `q` exactly when `m` has one, a channel from `q` to `r` exactly when
      `m` has one, and the anchor at `r`. */
  predicate ReadsBack(s: string, p: nat, q: nat, r: nat, m: PriceMatch) {
    && p <= q <= r <= |s|
    && GroupAt(s, p) == m.customerGroup.Some?
    && (if GroupAt(s, p) then RunEnd(s, p + 1, Word) else p) == q
    && (m.customerGroup.Some? ==> p + 1 <= q && s[p + 1..q] == m.customerGroup.value)
    && ChannelAt(s, q) == m.channel.Some?
    && (if ChannelAt(s, q) then RunEnd(s, q + 1, ChannelKey) else q) == r
    && (m.channel.Some? ==> q + 1 <= r && s[q + 1..r] == m.channel.value)
    && EndAnchor(s, r)
  }

  /** The front of a match as the matcher reads it. */
  lemma ReadFront(s: string, i: nat, j: nat, p: nat, m: PriceMatch)
    requires MatchesAt(s, i, m) && j == i + |CountryPart(m)| && p == FrontEnd(i, m)
    ensures ReadsFront(s, i, j, p, m)
  {
    StopAfterDigits(s, p, m);
    CountryStart(s, i, j, m);
    CurrencyDigits(s, i, j, p, m);
  }

  /** The back of a match at `p` as the matcher reads it. */
  lemma ReadBack(s: string, p: nat, q: nat, r: nat, m: PriceMatch)
    requires WellFormed(m) && BackAt(s, p, m) && q == p + |GroupPart(m)| && r == q + |ChannelPart(m)|
    ensures ReadsBack(s, p, q, r, m)
  {
    StopAfterDigits(s, p, m);
    GroupRead(s, p, m);
    ChannelRead(s, p, q, m);
  }

  /** The matcher assembles its groups from what it reads at the front and at the
      back of a match. */
  lemma MatchAtFromParts(s: string, i: nat, m: PriceMatch, j: nat, p: nat, q: nat, r: nat)
    requires ReadsFront(s, i, j, p, m) && ReadsBack(s, p, q, r, m)
    ensures MatchAt(s, i) == Some(m)
  {
    assert DigitsEnd(s, i) == p && GroupEnd(s, i) == q && ChannelEnd(s, i) == r;
    assert GroupsAt(s, i) == m;
  }

  /** Every match the pattern admits at `i` is the one the matcher reports there:
      at a given start the groups are determined. */
  lemma MatchAtComplete(s: string, i: nat, m: PriceMatch)
    requires i <= |s|
    requires MatchesAt(s, i, m)
    ensures MatchAt(s, i) == Some(m)
  {
    var j := i + |CountryPart(m)|;
    var p := FrontEnd(i, m);
    var q := p + |GroupPart(m)|;
    var r := q + |ChannelPart(m)|;
    ReadFront(s, i, j, p, m);
    ReadBack(s, p, q, r, m);
    MatchAtFromParts(s, i, m, j, p, q, r);
  }

  /** `MatchAt` and `MatchesAt` agree. */
  lemma MatchAtExact(s: string, i: nat, m: PriceMatch)
    requires i <= |s|
    ensures MatchAt(s, i) == Some(m) <==> MatchesAt(s, i, m)
  {
    MatchAtSound(s, i);
    if MatchesAt(s, i, m) {
      MatchAtComplete(s, i, m);
    }
  }

  /** `find()` from position `i`: the first start position with a match. */
  function FindFrom(s: string, i: nat): (r: Option<Found>)
    requires i <= |s|
    ensures r.Some? ==> i <= r.value.start <= |s| && MatchAt(s, r.value.start) == Some(r.value.groups)
    ensures r.Some? ==> forall j :: i <= j < r.value.start ==> MatchAt(s, j).None?
    ensures r.None? ==> forall j :: i <= j <= |s| ==> MatchAt(s, j).None?
    decreases |s| - i
  {
    match MatchAt(s, i)
    case Some(m) => Some(Found(i, m))
    case None => if i == |s| then None else FindFrom(s, i + 1)
  }

  /** `PRICE_PATTERN.matcher(s).find()`. */
  function Find(s: string): Option<Found> {
    FindFrom(s, 0)
  }

  /** What `find()` reports is the leftmost match, and it reports nothing exactly
      when the pattern matches nowhere in `s`. */
  lemma FindIsLeftmostMatch(s: string)
    ensures Find(s).Some? ==> MatchesAt(s, Find(s).value.start, Find(s).value.groups)
    ensures Find(s).Some? ==> forall j: nat, m :: j < Find(s).value.start ==> !MatchesAt(s, j, m)
    ensures Find(s).None? <==> forall j: nat, m :: j <= |s| ==> !MatchesAt(s, j, m)
  {
    forall j: nat, m | j <= |s| && MatchesAt(s, j, m) ensures MatchAt(s, j) == Some(m) {
      MatchAtComplete(s, j, m);
    }
    if Find(s).Some? {
      MatchAtSound(s, Find(s).value.start);
    }
  }

  /** Round trip: a token written in the grammar's syntax is recognized from its
      first character, with exactly the groups it was written from. */
  lemma FindRendered(m: PriceMatch)
    requires WellFormed(m)
    ensures Find(Render(m)) == Some(Found(0, m))
  {
    var s := Render(m);
    assert s[0..|s|] == s;
    MatchesAtRendered(s, 0, m);
    MatchAtComplete(s, 0, m);
  }

  /** The start is not anchored: one character in front of a well-formed price is
      skipped, and the price is found right after it. */
  lemma FindSkipsLeadingChar(c: char, m: PriceMatch)
    requires WellFormed(m)
    ensures Find([c] + Render(m)) == Some(Found(1, m))
  {
    var s := [c] + Render(m);
    var R := Render(m);
    assert s[1..1 + |R|] == R;
    MatchesAtRendered(s, 1, m);
    MatchAtComplete(s, 1, m);
    assert InClass(m.currency[1], Word) && InClass(m.currency[2], Word);
    assert m.country.Some? ==> InClass(m.country.value[1], Word);
    RenderHead(m);
    NoMatchBeforeHead(s, c, R);
  }

  /** No match starts at a character followed by a word character and then a
      character that is not a space: neither a country nor a currency fits. */
  lemma NoMatchBeforeHead(s: string, c: char, R: string)
    requires s == [c] + R && |R| >= 3 && IsWordChar(R[1]) && R[2] != ' '
    ensures MatchAt(s, 0).None?
  {
    assert s[2] == R[1] && s[3] == R[2];
    assert !CountryAt(s, 0);
  }

  /** The second and third characters of a rendered price: a word character
      followed by a character that is not a space. */
  lemma RenderHead(m: PriceMatch)
    requires |m.currency| == 3 && IsWordChar(m.currency[1]) && IsWordChar(m.currency[2])
    requires m.country.Some? ==> |m.country.value| == 2 && IsWordChar(m.country.value[1])
    ensures |Render(m)| >= 3 && IsWordChar(Render(m)[1]) && Render(m)[2] != ' '
  {
    var cp := CountryPart(m);
    var x := m.currency + (" " + (m.centAmount + (GroupPart(m) + ChannelPart(m))));
    assert Render(m) == cp + x;
    if m.country.Some? {
      assert cp == m.country.value + "-";
      assert cp[1] == m.country.value[1] && cp[2] == '-';
      assert (cp + x)[1] == cp[1] && (cp + x)[2] == cp[2];
    } else {
      assert cp == [];
      assert x[1] == m.currency[1] && x[2] == m.currency[2];
    }
  }

  /** A token without a space is never a price: the space after the currency is
      mandatory. */
  lemma NoSpaceNoMatch(s: string)
    requires ' ' !in s
    ensures Find(s).None?
  {
  }

  /** The value of a run of decimal digits. */
  function DecimalValue(d: string): nat
    requires AllIn(d, Digit)
    decreases |d|
  {
    if d == [] then 0
    else DecimalValue(d[..|d| - 1]) * 10 + (d[|d| - 1] as int - '0' as int)
  }

  /** The shortest decimal numeral of `n`. */
  function DigitsOf(n: nat): (d: string)
    ensures |d| >= 1 && AllIn(d, Digit)
  {
    var last := ('0' as int + n % 10) as char;
    if n < 10 then [last] else DigitsOf(n / 10) + [last]
  }

  /** Reading back a written numeral gives the number. */
  lemma {:induction false} DecimalValueOfDigits(n: nat)
    ensures DecimalValue(DigitsOf(n)) == n
  {
    var d := DigitsOf(n);
    if n >= 10 {
      DecimalValueOfDigits(n / 10);
      assert d[..|d| - 1] == DigitsOf(n / 10);
    }
  }

  /** Leading zeros do not change the value. */
  lemma {:induction false} DecimalValueLeadingZero(d: string)
    requires AllIn(d, Digit)
    ensures AllIn("0" + d, Digit) && DecimalValue("0" + d) == DecimalValue(d)
    decreases |d|
  {
    if d != [] {
      assert ("0" + d)[..|"0" + d| - 1] == "0" + d[..|d| - 1];
      DecimalValueLeadingZero(d[..|d| - 1]);
    }
  }

  /** `Long.MAX_VALUE`: `Long.parseLong` rejects any larger digit run. */
  const LongMax: nat := 0x7fff_ffff_ffff_ffff
}
