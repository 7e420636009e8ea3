/** The few `java.lang.String` operations the importer relies on, with Java's edge cases. */
module JavaStrings {

  /** `s.startsWith(prefix)`. */
  predicate StartsWith(s: string, prefix: string) {
    |prefix| <= |s| && s[..|prefix|] == prefix
  }

  /** Does `t` occur in `s` starting at index `k`? */
  predicate OccursAt(s: string, t: string, k: nat) {
    k + |t| <= |s| && s[k..k + |t|] == t
  }

  /** The pieces of `s` between occurrences of `d`, empty pieces included: what
      `split` produces before it discards trailing empty strings. */
  function Fields(s: string, d: char): (r: seq<string>)
    ensures |r| >= 1
    ensures forall k :: 0 <= k < |r| ==> d !in r[k]
    ensures d !in s ==> r == [s]
    decreases |s|
  {
    if s == [] then [[]]
    else
      var rest := Fields(s[1..], d);
      if s[0] == d then [[]] + rest
      else
        assert s == [s[0]] + s[1..];
        [[s[0]] + rest[0]] + rest[1..]
  }

  /** The pieces glued back together with `d` between them. */
  function Join(xs: seq<string>, d: char): string
    requires |xs| >= 1
  {
    if |xs| == 1 then xs[0] else xs[0] + [d] + Join(xs[1..], d)
  }

  /** Joining the fields of `s` gives back `s`. */
  lemma {:induction false} JoinFields(s: string, d: char)
    ensures Join(Fields(s, d), d) == s
    decreases |s|
  {
    if s != [] {
      var rest := Fields(s[1..], d);
      JoinFields(s[1..], d);
      if s[0] == d {
        assert ([[]] + rest)[1..] == rest;
      } else if |rest| > 1 {
        assert ([[s[0]] + rest[0]] + rest[1..])[1..] == rest[1..];
      }
    }
  }

  /** Cutting off one leading piece that does not contain the delimiter. */
  lemma {:induction false} FieldsCons(x: string, t: string, d: char)
    requires d !in x
    ensures Fields(x + [d] + t, d) == [x] + Fields(t, d)
    decreases |x|
  {
    if x == [] {
      assert ([d] + t)[1..] == t;
    } else {
      assert (x + [d] + t)[1..] == x[1..] + [d] + t;
      FieldsCons(x[1..], t, d);
      assert [x[0]] + x[1..] == x;
    }
  }

  /** Fields are the only delimiter-free pieces that join back to `s`. */
  lemma {:induction false} FieldsUnique(xs: seq<string>, s: string, d: char)
    requires |xs| >= 1
    requires forall k :: 0 <= k < |xs| ==> d !in xs[k]
    requires Join(xs, d) == s
    ensures Fields(s, d) == xs
    decreases |xs|
  {
    if |xs| > 1 {
      FieldsUnique(xs[1..], Join(xs[1..], d), d);
      FieldsCons(xs[0], Join(xs[1..], d), d);
      assert [xs[0]] + xs[1..] == xs;
    }
  }

  /** `xs` with its trailing empty strings removed. */
  function StripTrailingEmpty(xs: seq<string>): (r: seq<string>)
    ensures r <= xs
    ensures r == [] || r[|r| - 1] != []
    ensures forall k :: |r| <= k < |xs| ==> xs[k] == []
  {
    if xs == [] || xs[|xs| - 1] != [] then xs else StripTrailingEmpty(xs[..|xs| - 1])
  }

  /** `s.split(String.valueOf(d))`: no delimiter gives `[s]` (so `""` gives `[""]`);
      otherwise all fields, with the trailing empty ones removed. */
  function Split(s: string, d: char): (r: seq<string>)
    ensures d !in s ==> r == [s]
    ensures d in s ==> r <= Fields(s, d) && (r == [] || r[|r| - 1] != [])
    ensures d in s ==> forall k :: |r| <= k < |Fields(s, d)| ==> Fields(s, d)[k] == []
    ensures forall k :: 0 <= k < |r| ==> d !in r[k]
  {
    if d !in s then [s] else StripTrailingEmpty(Fields(s, d))
  }

  /** The non-empty strings of `xs`, in order: `filter(x -> !x.isEmpty())`. */
  function NonEmpty(xs: seq<string>): (r: seq<string>)
    ensures |r| <= |xs|
    ensures forall k :: 0 <= k < |r| ==> r[k] != []
    ensures forall t :: t in r <==> t in xs && t != []
  {
    if xs == [] then []
    else if xs[0] == [] then NonEmpty(xs[1..])
    else [xs[0]] + NonEmpty(xs[1..])
  }

  /** Filtering distributes over concatenation, so the order of `xs` is kept. */
  lemma {:induction false} NonEmptyAppend(xs: seq<string>, ys: seq<string>)
    ensures NonEmpty(xs + ys) == NonEmpty(xs) + NonEmpty(ys)
    decreases |xs|
  {
    if xs != [] {
      assert (xs + ys)[0] == xs[0];
      assert (xs + ys)[1..] == xs[1..] + ys;
      NonEmptyAppend(xs[1..], ys);
      if xs[0] == [] {
        assert NonEmpty(xs + ys) == NonEmpty(xs[1..] + ys);
        assert NonEmpty(xs) == NonEmpty(xs[1..]);
      } else {
        assert NonEmpty(xs + ys) == [xs[0]] + NonEmpty(xs[1..] + ys);
        assert NonEmpty(xs) == [xs[0]] + NonEmpty(xs[1..]);
      }
    } else {
      assert xs + ys == ys;
    }
  }

  /** The non-empty tokens of `s.split(d)`: the pieces of a `d`-separated list. */
  function Tokens(s: string, d: char): seq<string>
  {
    NonEmpty(Split(s, d))
  }

  /** The trailing empty strings `split` drops make no difference once empty
      tokens are filtered out: the tokens are exactly the non-empty fields. */
  lemma TokensAreNonEmptyFields(s: string, d: char)
    ensures Tokens(s, d) == NonEmpty(Fields(s, d))
    ensures forall k :: 0 <= k < |Tokens(s, d)| ==> Tokens(s, d)[k] != [] && d !in Tokens(s, d)[k]
  {
    var fs := Fields(s, d);
    if d in s {
      var r := Split(s, d);
      var tail := fs[|r|..];
      assert fs == r + tail;
      NonEmptyAppend(r, tail);
      NonEmptyOfEmpties(tail);
    }
    var ts := Tokens(s, d);
    forall k | 0 <= k < |ts| ensures d !in ts[k] {
      assert ts[k] in Split(s, d);
    }
  }

  /** Only empty strings: nothing survives the filter. */
  lemma NonEmptyOfEmpties(xs: seq<string>)
    requires forall k :: 0 <= k < |xs| ==> xs[k] == []
    ensures NonEmpty(xs) == []
  {
  }

  /** `s.replace(t, "")`: every occurrence of `t`, scanned left to right without
      overlap, is removed. */
  function RemoveAll(s: string, t: string): string
    requires |t| > 0
    decreases |s|
  {
    if |s| < |t| then s
    else if s[..|t|] == t then RemoveAll(s[|t|..], t)
    else [s[0]] + RemoveAll(s[1..], t)
  }

  /** Removing a target that never occurs leaves the string unchanged. */
  lemma {:induction false} RemoveAllAbsent(s: string, t: string)
    requires |t| > 0
    requires forall k :: 0 <= k <= |s| ==> !OccursAt(s, t, k)
    ensures RemoveAll(s, t) == s
    decreases |s|
  {
    if |s| >= |t| {
      assert !OccursAt(s, t, 0);
      forall k | 0 <= k <= |s[1..]| ensures !OccursAt(s[1..], t, k) {
        assert !OccursAt(s, t, k + 1);
        if k + |t| <= |s[1..]| {
          assert s[1..][k..k + |t|] == s[k + 1..k + 1 + |t|];
        }
      }
      RemoveAllAbsent(s[1..], t);
    }
  }

  /** A leading occurrence is removed: `(t + rest).replace(t, "")` is `rest` when `t`
      does not occur in `rest`. */
  lemma RemoveLeading(t: string, rest: string)
    requires |t| > 0
    requires forall k :: 0 <= k <= |rest| ==> !OccursAt(rest, t, k)
    ensures RemoveAll(t + rest, t) == rest
  {
    assert (t + rest)[..|t|] == t;
    assert (t + rest)[|t|..] == rest;
    RemoveAllAbsent(rest, t);
  }
}
