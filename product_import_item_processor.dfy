/** `ProductImportItemProcessor`: turns the group of CSV lines of one product (the
    product line followed by its variant lines) into a product draft. The cached
    platform lookups are the `Resources` maps and the binding of a line to a
    `ProductCsvEntry` is the function `bind`. */
module ProductImportItemProcessor {
  import opened Wrappers
  import opened JavaStrings
  import opened PriceGrammar
  import opened StreamOps
  import opened ProductModel

  /** A line binder: Spring's `BeanWrapperFieldSetMapper`, kept abstract. */
  type Binder = Line -> Result<CsvEntry, BindFailure>

  /** Is the column absent or empty (`value == null || value.isEmpty()`)? */
  predicate Blank(o: Option<string>) {
    o.None? || o.value == []
  }

  // ---------------------------------------------------------------- images

  /** `parseImages`: one image per non-empty `;`-separated token, each of size 0×0;
      `null` for a missing or empty column. */
  function ParseImages(images: Option<string>): (r: Option<seq<Image>>)
    ensures r.None? <==> Blank(images)
    ensures r.Some? ==> |r.value| == |Tokens(images.value, ';')|
    ensures r.Some? ==> forall k :: 0 <= k < |r.value| ==>
              r.value[k].url == Tokens(images.value, ';')[k] && r.value[k].width == 0 && r.value[k].height == 0
  {
    if Blank(images) then None
    else
      var ts := Tokens(images.value, ';');
      Some(seq(|ts|, k requires 0 <= k < |ts| => Image(ts[k], 0, 0)))
  }

  /** The images of a column are its non-empty `;`-separated pieces, in order:
      URLs that are never empty and never contain `;`. */
  lemma ImagesAreNonEmptyPieces(s: string)
    requires s != []
    ensures var r := ParseImages(Some(s));
            r.Some? && |r.value| == |NonEmpty(Fields(s, ';'))|
            && forall k :: 0 <= k < |r.value| ==>
                 r.value[k].url == NonEmpty(Fields(s, ';'))[k] && r.value[k].url != [] && ';' !in r.value[k].url
  {
    TokensAreNonEmptyFields(s, ';');
  }

  // ---------------------------------------------------------------- prices

  /** `parsePrice`: the leftmost match of the price pattern in the token, its digit
      run read as a `long`, its currency handed to `MoneyImpl`, and its optional
      country, customer group and channel looked up. */
  function ParsePrice(res: Resources, token: string): Result<PriceDraft, ProcessError> {
    match Find(token)
    case None => Err(CannotParsePrice(token))
    case Some(found) =>
      FindIsLeftmostMatch(token);
      var m := found.groups;
      var cents := DecimalValue(m.centAmount);
      if cents > LongMax then Err(CentAmountOutOfRange(token))
      else if m.currency !in res.currencies then Err(UnknownCurrency(m.currency))
      else Ok(DraftOfGroups(res, m))
  }

  /** The draft built from the groups `m` of a match. */
  function DraftOfGroups(res: Resources, m: PriceMatch): PriceDraft
    requires WellFormed(m)
  {
    PriceDraft(
      Money(DecimalValue(m.centAmount), m.currency),
      if m.country.Some? then Lookup(res.countries, m.country.value) else None,
      if m.customerGroup.Some? then Lookup(res.customerGroupIds, m.customerGroup.value) else None,
      if m.channel.Some? then Lookup(res.channels, m.channel.value) else None)
  }

  /** A parsed price comes from the leftmost match of the pattern in the token: the
      amount is the value of the digit group, the currency is the currency group,
      and country, customer group and channel are present only when their group
      matched, and are then the answers of the lookups. */
  lemma ParsePriceFromMatch(res: Resources, token: string)
    requires ParsePrice(res, token).Ok?
    ensures exists i: nat, m :: MatchesAt(token, i, m)
              && (forall j: nat, m' :: j < i ==> !MatchesAt(token, j, m'))
              && DecimalValue(m.centAmount) <= LongMax && m.currency in res.currencies
              && ParsePrice(res, token).value == DraftOfGroups(res, m)
  {
    FindIsLeftmostMatch(token);
    var found := Find(token).value;
    assert MatchesAt(token, found.start, found.groups);
  }

  /** "Cannot parse price" is thrown exactly when the pattern matches nowhere in
      the token. */
  lemma ParsePriceRejects(res: Resources, token: string)
    ensures ParsePrice(res, token) == Err(CannotParsePrice(token))
            <==> forall j: nat, m :: j <= |token| ==> !MatchesAt(token, j, m)
  {
    FindIsLeftmostMatch(token);
  }

  /** Round trip: a price written in the pattern's syntax parses back to the draft of
      its own groups, unless its amount exceeds `Long.MAX_VALUE` or its currency is
      unknown, which throw. */
  lemma ParsePriceOfRendered(res: Resources, m: PriceMatch)
    requires WellFormed(m)
    ensures ParsePrice(res, Render(m)) ==
      if DecimalValue(m.centAmount) > LongMax then Err(CentAmountOutOfRange(Render(m)))
      else if m.currency !in res.currencies then Err(UnknownCurrency(m.currency))
      else Ok(DraftOfGroups(res, m))
  {
    FindRendered(m);
  }

  /** A price with only currency and amount has no country, group or channel. */
  lemma ParsePricePlainToken(res: Resources)
    requires "EUR" in res.currencies
    ensures ParsePrice(res, "EUR 1000") == Ok(PriceDraft(Money(1000, "EUR"), None, None, None))
  {
    var m := PriceMatch(None, "EUR", "1000", None, None);
    PlainTokenGroups();
    ParsePriceOfRendered(res, m);
  }

  /** The groups of `EUR 1000`. */
  lemma PlainTokenGroups()
    ensures var m := PriceMatch(None, "EUR", "1000", None, None);
            WellFormed(m) && Render(m) == "EUR 1000" && DecimalValue(m.centAmount) == 1000
  {
    var m := PriceMatch(None, "EUR", "1000", None, None);
    assert WellFormed(m);
    assert Render(m) == "EUR 1000";
    assert DecimalValue("1000") == 1000 by {
      assert "1000"[..3] == "100" && "100"[..2] == "10" && "10"[..1] == "1" && "1"[..0] == [];
    }
  }

  /** A full price token: country, currency, amount, customer group and channel. */
  lemma ParsePriceFullToken(res: Resources)
    requires "EUR" in res.currencies
    ensures ParsePrice(res, "DE-EUR 999 b2b#outlet") == Ok(PriceDraft(Money(999, "EUR"),
              Lookup(res.countries, "DE"), Lookup(res.customerGroupIds, "b2b"), Lookup(res.channels, "outlet")))
  {
    var m := PriceMatch(Some("DE"), "EUR", "999", Some("b2b"), Some("outlet"));
    FullTokenWellFormed();
    FullTokenRendered();
    ParsePriceOfRendered(res, m);
  }

  /** The groups of `DE-EUR 999 b2b#outlet` are well formed. */
  lemma FullTokenWellFormed()
    ensures WellFormed(PriceMatch(Some("DE"), "EUR", "999", Some("b2b"), Some("outlet")))
  {
  }

  /** The groups of `DE-EUR 999 b2b#outlet` spell it, with the amount 999. */
  lemma FullTokenRendered()
    ensures var m := PriceMatch(Some("DE"), "EUR", "999", Some("b2b"), Some("outlet"));
            Render(m) == "DE-EUR 999 b2b#outlet" && DecimalValue(m.centAmount) == 999
  {
    var m := PriceMatch(Some("DE"), "EUR", "999", Some("b2b"), Some("outlet"));
    assert CountryPart(m) == "DE-" && GroupPart(m) == " b2b" && ChannelPart(m) == "#outlet";
    assert DecimalValue("999") == 999 by {
      assert "999"[..2] == "99" && "99"[..1] == "9" && "9"[..0] == [];
    }
  }

  /** One character in front of a price token is skipped: the price parses as if
      it were not there. */
  lemma ParsePriceOfLeadingChar(res: Resources, c: char, m: PriceMatch)
    requires WellFormed(m)
    ensures ParsePrice(res, [c] + Render(m)) ==
      if DecimalValue(m.centAmount) > LongMax then Err(CentAmountOutOfRange([c] + Render(m)))
      else if m.currency !in res.currencies then Err(UnknownCurrency(m.currency))
      else Ok(DraftOfGroups(res, m))
  {
    FindSkipsLeadingChar(c, m);
  }

  /** The start of the pattern is not anchored: in `DEU-EUR 100` the leading `D` is
      skipped and the country is `EU`. */
  lemma ParsePriceUnanchoredStart(res: Resources)
    requires "EUR" in res.currencies
    ensures ParsePrice(res, "DEU-EUR 100") == Ok(PriceDraft(Money(100, "EUR"), Lookup(res.countries, "EU"), None, None))
  {
    var m := PriceMatch(Some("EU"), "EUR", "100", None, None);
    UnanchoredTokenGroups();
    ParsePriceOfLeadingChar(res, 'D', m);
  }

  /** The groups of `EU-EUR 100`, behind which `DEU-EUR 100` has one more character. */
  lemma UnanchoredTokenGroups()
    ensures var m := PriceMatch(Some("EU"), "EUR", "100", None, None);
            WellFormed(m) && ['D'] + Render(m) == "DEU-EUR 100" && DecimalValue(m.centAmount) == 100
  {
    var m := PriceMatch(Some("EU"), "EUR", "100", None, None);
    assert WellFormed(m);
    UnanchoredTokenRendered();
  }

  /** The groups of `EU-EUR 100` spell it, with the amount 100. */
  lemma UnanchoredTokenRendered()
    ensures var m := PriceMatch(Some("EU"), "EUR", "100", None, None);
            ['D'] + Render(m) == "DEU-EUR 100" && DecimalValue(m.centAmount) == 100
  {
    var m := PriceMatch(Some("EU"), "EUR", "100", None, None);
    assert CountryPart(m) == "EU-";
    assert DecimalValue("100") == 100 by {
      assert "100"[..2] == "10" && "10"[..1] == "1" && "1"[..0] == [];
    }
  }

  /** A token without a space cannot be a price. */
  lemma ParsePriceNeedsSpace(res: Resources, token: string)
    requires ' ' !in token
    ensures ParsePrice(res, token) == Err(CannotParsePrice(token))
  {
    NoSpaceNoMatch(token);
  }

  /** The price step of the stream: `parsePrice` never yields `null`. */
  function PriceItem(res: Resources): string -> Result<Option<PriceDraft>, ProcessError> {
    (t: string) => AsItem(ParsePrice(res, t))
  }

  /** `parsePrices`: `null` for a missing or empty column; otherwise the prices of
      the non-empty `;`-separated tokens, in order, or the first token's error. */
  function ParsePrices(res: Resources, prices: Option<string>): (r: Result<Option<seq<PriceDraft>>, ProcessError>)
    ensures r == Ok(None) <==> Blank(prices)
  {
    if Blank(prices) then Ok(None)
    else
      match MapFilter(Tokens(prices.value, ';'), PriceItem(res))
      case Err(e) => Err(e)
      case Ok(ps) => Ok(Some(ps))
  }

  /** A column's prices parse exactly when each of its tokens does. */
  lemma ParsePricesOkIff(res: Resources, s: string)
    requires s != []
    ensures ParsePrices(res, Some(s)).Ok? <==> forall k :: 0 <= k < |Tokens(s, ';')| ==> ParsePrice(res, Tokens(s, ';')[k]).Ok?
  {
    var ts, f := Tokens(s, ';'), PriceItem(res);
    assert forall k :: 0 <= k < |ts| ==> f(ts[k]) == AsItem(ParsePrice(res, ts[k]));
    MapFilterOkIff(ts, f);
  }

  /** When the prices of a column parse, there is one price per token, in order. */
  lemma ParsePricesPerToken(res: Resources, s: string)
    requires s != [] && ParsePrices(res, Some(s)).Ok?
    ensures var ts, r := Tokens(s, ';'), ParsePrices(res, Some(s));
            && r.value.Some? && |r.value.value| == |ts|
            && forall k :: 0 <= k < |ts| ==> Ok(r.value.value[k]) == ParsePrice(res, ts[k])
  {
    var ts, f := Tokens(s, ';'), PriceItem(res);
    ParsePricesOkIff(res, s);
    assert forall k :: 0 <= k < |ts| ==> f(ts[k]) == AsItem(ParsePrice(res, ts[k]));
    MapFilterKeepsAll(ts, f);
  }

  /** When the prices of a column fail, the error is that of the first token that
      does not parse. */
  lemma ParsePricesFirstError(res: Resources, s: string)
    requires s != [] && ParsePrices(res, Some(s)).Err?
    ensures var ts, r := Tokens(s, ';'), ParsePrices(res, Some(s));
            exists k :: (0 <= k < |ts| && ParsePrice(res, ts[k]) == Err(r.error)
                         && forall j :: 0 <= j < k ==> ParsePrice(res, ts[j]).Ok?)
  {
    var ts, f := Tokens(s, ';'), PriceItem(res);
    assert forall k :: 0 <= k < |ts| ==> f(ts[k]) == AsItem(ParsePrice(res, ts[k]));
    MapFilterFirstError(ts, f);
  }

  // ---------------------------------------------------------------- attributes

  /** The attribute types read from the single column of the attribute's name. */
  predicate IsStringLike(t: AttributeType) {
    t.DateTimeType? || t.StringType? || t.EnumType? || t.LocalizedEnumType? || t.BooleanType?
  }

  /** The attribute types `parseAttribute` handles. */
  predicate IsSupported(t: AttributeType) {
    IsStringLike(t) || t.LocalizedStringType? || t.SetType?
  }

  /** `extractStringLikeAttributeDraft`: the column of the attribute's name, or no
      draft when it is missing or empty. */
  function StringLikeDraft(line: Line, name: string): (r: Option<AttributeDraft>)
    ensures r.Some? <==> name in line.properties && line.properties[name] != []
    ensures r.Some? ==> r.value == AttributeDraft(name, TextValue(line.properties[name]))
  {
    var value := Lookup(line.properties, name);
    if Blank(value) then None else Some(AttributeDraft(name, TextValue(value.value)))
  }

  /** `streamOfLocalizedFields`: the column names that start with `<name>.`, in
      header order. */
  function LocalizedColumns(names: seq<string>, attrName: string): (r: seq<string>)
    ensures forall c :: c in r <==> c in names && StartsWith(c, attrName + ".")
    ensures |r| <= |names|
  {
    if names == [] then []
    else
      var rest := LocalizedColumns(names[1..], attrName);
      if StartsWith(names[0], attrName + ".") then [names[0]] + rest else rest
  }

  /** The entries of `extractLocalizedStringAttributeDraft` for the given columns:
      the locale is the column name with every `<name>.` removed, and columns whose
      value is missing or empty are dropped. */
  function LocalizedEntries(line: Line, attrName: string, columns: seq<string>): (r: seq<LocalizedEntry>)
    ensures forall e :: e in r <==> exists c :: (c in columns && c in line.properties
              && line.properties[c] != [] && e == LocalizedEntry(RemoveAll(c, attrName + "."), line.properties[c]))
    ensures |r| <= |columns|
  {
    if columns == [] then []
    else
      var c := columns[0];
      var rest := LocalizedEntries(line, attrName, columns[1..]);
      var value := Lookup(line.properties, c);
      if Blank(value) then rest
      else [LocalizedEntry(RemoveAll(c, attrName + "."), value.value)] + rest
  }

  /** `extractLocalizedStringAttributeDraft`: always a draft, whose entries come from
      the `<name>.`-prefixed columns with a non-empty value. */
  function LocalizedStringDraft(line: Line, name: string): AttributeDraft {
    AttributeDraft(name, LocalizedValue(LocalizedEntries(line, name, LocalizedColumns(line.names, name))))
  }

  /** `extractSetAttributeDraft`: for String elements, the set of the `;`-split
      pieces of the column (empty pieces included, trailing ones dropped by
      `split`); a missing column is a `NullPointerException`; other element types
      are unsupported. */
  function SetDraft(line: Line, elementType: AttributeType, name: string): Result<AttributeDraft, ProcessError> {
    if !elementType.StringType? then Err(UnsupportedSetElementType(name))
    else if name !in line.properties then Err(MissingSetColumn(name))
    else
      var pieces := Split(line.properties[name], ';');
      Ok(AttributeDraft(name, StringSetValue(set p | p in pieces)))
  }

  /** A String Set holds the fields of its column, `;`-separated: every non-empty
      field, and the empty string exactly when an empty field comes before a
      non-empty one (trailing empty fields are dropped by `split`). A column
      without `;` is the set of the column itself. */
  lemma SetDraftElements(line: Line, name: string)
    requires name in line.properties
    ensures var col := line.properties[name];
            var fs, r := Fields(col, ';'), SetDraft(line, StringType, name);
            && r.Ok? && r.value.name == name && r.value.value.StringSetValue?
            && (forall x :: x in r.value.value.elements ==> x in fs)
            && (forall x :: x in fs && x != [] ==> x in r.value.value.elements)
            && (';' !in col ==> r.value.value.elements == {col})
            && (';' in col ==> ([] in r.value.value.elements <==>
                                exists k, j :: 0 <= k < j < |fs| && fs[k] == [] && fs[j] != []))
  {
    var col := line.properties[name];
    var fs, pieces := Fields(col, ';'), Split(col, ';');
    if ';' in col {
      assert pieces == fs[..|pieces|];
      forall x | x in fs && x != [] ensures x in pieces {
        var k :| 0 <= k < |fs| && fs[k] == x;
        assert pieces[k] == x;
      }
      if [] in pieces {
        var k :| 0 <= k < |pieces| && pieces[k] == [];
        assert fs[k] == [] && fs[|pieces| - 1] != [];
      }
      if exists k, j :: 0 <= k < j < |fs| && fs[k] == [] && fs[j] != [] {
        var k, j :| 0 <= k < j < |fs| && fs[k] == [] && fs[j] != [];
        assert pieces[k] == [];
      }
    }
  }

  /** `parseAttribute`: dispatch on the attribute type; `Ok(None)` is a `null` draft. */
  function ParseAttribute(line: Line, attr: AttributeDefinition): (r: Result<Option<AttributeDraft>, ProcessError>)
    ensures r.Ok? && r.value.Some? ==> r.value.value.name == attr.name
  {
    var t := attr.attributeType;
    if IsStringLike(t) then Ok(StringLikeDraft(line, attr.name))
    else if t.LocalizedStringType? then Ok(Some(LocalizedStringDraft(line, attr.name)))
    else if t.SetType? then AsItem(SetDraft(line, t.elementType, attr.name))
    else Err(UnsupportedAttributeType(attr.name))
  }

  /** `parseAttribute` throws exactly for the unsupported attribute types, for Sets
      whose elements are not Strings, and for String Sets whose column is missing. */
  lemma ParseAttributeErrors(line: Line, attr: AttributeDefinition)
    ensures var t, r := attr.attributeType, ParseAttribute(line, attr);
            && (r == Err(UnsupportedAttributeType(attr.name)) <==> !IsSupported(t))
            && (r == Err(UnsupportedSetElementType(attr.name)) <==> t.SetType? && !t.elementType.StringType?)
            && (r == Err(MissingSetColumn(attr.name)) <==> t == SetType(StringType) && attr.name !in line.properties)
            && (r.Err? <==> !IsSupported(t) || (t.SetType? && (!t.elementType.StringType? || attr.name !in line.properties)))
  {
  }

  /** What each supported type yields: a single-column attribute gives no draft
      exactly when its column is missing or empty, and otherwise the column's text;
      a LocalizedString attribute always gives its localized draft; a String Set
      whose column is present always gives the set draft of that column. */
  lemma ParseAttributeYields(line: Line, attr: AttributeDefinition)
    ensures var t, r := attr.attributeType, ParseAttribute(line, attr);
            && (IsStringLike(t) ==>
                  && r.Ok?
                  && (r == Ok(None) <==> attr.name !in line.properties || line.properties[attr.name] == [])
                  && (r.value.Some? ==> r.value.value.value == TextValue(line.properties[attr.name])))
            && (t.LocalizedStringType? ==>
                  && r.Ok? && r.value.Some? && r.value.value.value.LocalizedValue?
                  && r.value.value == LocalizedStringDraft(line, attr.name))
            && (t == SetType(StringType) && attr.name in line.properties ==>
                  && r.Ok? && r.value.Some? && r.value.value.value.StringSetValue?
                  && r.value.value == SetDraft(line, StringType, attr.name).value)
  {
    if attr.attributeType == SetType(StringType) && attr.name in line.properties {
      SetDraftElements(line, attr.name);
    }
  }

  /** The single-column attributes (and String Sets) read only the column of their
      own name: two lines that agree on it give the same result. */
  lemma ParseAttributeOwnColumn(l1: Line, l2: Line, attr: AttributeDefinition)
    requires IsStringLike(attr.attributeType) || attr.attributeType.SetType?
    requires attr.name in l1.properties <==> attr.name in l2.properties
    requires attr.name in l1.properties ==> l1.properties[attr.name] == l2.properties[attr.name]
    ensures ParseAttribute(l1, attr) == ParseAttribute(l2, attr)
  {
  }

  /** The code keeps a LocalizedString attribute even when none of its columns has
      a value: the draft then has no entries, and it is not dropped. */
  lemma LocalizedStringKeptWhenEmpty(line: Line, name: string)
    requires forall c :: c in line.names && StartsWith(c, name + ".") ==> c !in line.properties || line.properties[c] == []
    ensures ParseAttribute(line, AttributeDefinition(name, LocalizedStringType)) == Ok(Some(AttributeDraft(name, LocalizedValue([]))))
  {
    NoValueNoEntries(line, name, LocalizedColumns(line.names, name));
  }

  /** Columns none of which has a value give no entries. */
  lemma {:induction false} NoValueNoEntries(line: Line, attrName: string, columns: seq<string>)
    requires forall c :: c in columns ==> c !in line.properties || line.properties[c] == []
    ensures LocalizedEntries(line, attrName, columns) == []
    decreases |columns|
  {
    if columns != [] {
      assert forall c :: c in columns[1..] ==> c in columns;
      NoValueNoEntries(line, attrName, columns[1..]);
    }
  }

  /** The locale of a column `<name>.<locale>` is `<locale>`, when `<name>.` does not
      occur again in it. */
  lemma LocaleOfColumn(name: string, locale: string)
    requires forall k :: 0 <= k <= |locale| ==> !OccursAt(locale, name + ".", k)
    ensures RemoveAll((name + ".") + locale, name + ".") == locale
  {
    RemoveLeading(name + ".", locale);
  }

  /** A String Set holds the distinct pieces of its column: `red;blue;red` gives
      `{red, blue}`. */
  lemma SetOfRepeatedPieces(line: Line, name: string)
    requires name in line.properties && line.properties[name] == "red;blue;red"
    ensures SetDraft(line, StringType, name) == Ok(AttributeDraft(name, StringSetValue({"red", "blue"})))
  {
    var pieces := Split(line.properties[name], ';');
    SplitRedBlueRed(line.properties[name]);
    assert (set p | p in pieces) == {"red", "blue"};
  }

  /** `red;blue;red` splits into its three pieces. */
  lemma SplitRedBlueRed(s: string)
    requires s == "red;blue;red"
    ensures Split(s, ';') == ["red", "blue", "red"]
  {
    assert Join(["red", "blue", "red"], ';') == s;
    FieldsUnique(["red", "blue", "red"], s, ';');
    assert s[3] == ';';
  }

  /** A Set column `;` splits into nothing, so the set is empty. */
  lemma SetOfDelimiterOnly(line: Line, name: string)
    requires name in line.properties && line.properties[name] == ";"
    ensures SetDraft(line, StringType, name) == Ok(AttributeDraft(name, StringSetValue({})))
  {
    var s := line.properties[name];
    assert Join(["", ""], ';') == s;
    FieldsUnique(["", ""], s, ';');
    assert s[0] == ';';
    var pieces := Split(s, ';');
    assert pieces == [];
    assert (set p | p in pieces) == {};
  }

  /** An empty Set column has no delimiter, so it gives the set of the empty string. */
  lemma SetOfEmptyColumn(line: Line, name: string)
    requires name in line.properties && line.properties[name] == ""
    ensures SetDraft(line, StringType, name) == Ok(AttributeDraft(name, StringSetValue({""})))
  {
    var pieces := Split(line.properties[name], ';');
    assert pieces == [""];
    assert (set p | p in pieces) == {""};
  }

  /** The attribute step of the stream. */
  function AttributeItem(line: Line): AttributeDefinition -> Result<Option<AttributeDraft>, ProcessError> {
    (a: AttributeDefinition) => ParseAttribute(line, a)
  }

  /** `parseAttributes`: the drafts of the product type's attributes, in the type's
      order, without the `null` ones; or the first attribute's error. */
  function ParseAttributes(line: Line, pt: ProductType): (r: Result<seq<AttributeDraft>, ProcessError>)
    ensures r.Ok? ==> |r.value| <= |pt.attributes|
  {
    MapFilter(pt.attributes, AttributeItem(line))
  }

  /** The attribute drafts of a line are exactly the non-`null` drafts of the type's
      attributes, and the line fails exactly when one attribute fails, with the
      error of the first. */
  lemma ParseAttributesPerAttribute(line: Line, pt: ProductType)
    ensures var attrs, r := pt.attributes, ParseAttributes(line, pt);
            && (r.Ok? <==> forall k :: 0 <= k < |attrs| ==> ParseAttribute(line, attrs[k]).Ok?)
            && (r.Ok? ==> forall d :: d in r.value <==> exists k :: 0 <= k < |attrs| && ParseAttribute(line, attrs[k]) == Ok(Some(d)))
            && (r.Err? ==> exists k :: (0 <= k < |attrs| && ParseAttribute(line, attrs[k]) == Err(r.error)
                                        && forall j :: 0 <= j < k ==> ParseAttribute(line, attrs[j]).Ok?))
  {
    var attrs, f := pt.attributes, AttributeItem(line);
    assert forall k :: 0 <= k < |attrs| ==> f(attrs[k]) == ParseAttribute(line, attrs[k]);
    MapFilterOkIff(attrs, f);
    if MapFilter(attrs, f).Ok? {
      MapFilterMembers(attrs, f);
    } else {
      MapFilterFirstError(attrs, f);
    }
  }

  /** When every attribute gives a draft, the drafts follow the type's attribute
      order one for one. */
  lemma ParseAttributesInTypeOrder(line: Line, pt: ProductType)
    requires forall k :: 0 <= k < |pt.attributes| ==>
               ParseAttribute(line, pt.attributes[k]).Ok? && ParseAttribute(line, pt.attributes[k]).value.Some?
    ensures ParseAttributes(line, pt).Ok? && |ParseAttributes(line, pt).value| == |pt.attributes|
    ensures forall k :: 0 <= k < |pt.attributes| ==>
              ParseAttributes(line, pt).value[k] == ParseAttribute(line, pt.attributes[k]).value.value
    ensures forall k :: 0 <= k < |pt.attributes| ==> ParseAttributes(line, pt).value[k].name == pt.attributes[k].name
  {
    var attrs, f := pt.attributes, AttributeItem(line);
    assert forall k :: 0 <= k < |attrs| ==> f(attrs[k]) == ParseAttribute(line, attrs[k]);
    MapFilterKeepsAll(attrs, f);
  }

  // ---------------------------------------------------------------- variants and products

  /** `variantLineToDraft`: the SKU, then the prices, then the attributes, then the
      images; the first exception wins. */
  function VariantLineToDraft(res: Resources, line: Line, entry: CsvEntry, pt: ProductType): Result<ProductVariantDraft, ProcessError> {
    match ParsePrices(res, entry.prices)
    case Err(e) => Err(e)
    case Ok(prices) =>
      match ParseAttributes(line, pt)
      case Err(e) => Err(e)
      case Ok(attributes) => Ok(ProductVariantDraft(entry.sku, prices, attributes, ParseImages(entry.images)))
  }

  /** A variant fails exactly when its prices or its attributes fail, and a price
      error is reported before an attribute error. */
  lemma VariantLineErrors(res: Resources, line: Line, entry: CsvEntry, pt: ProductType)
    ensures var r, ps, attrs := VariantLineToDraft(res, line, entry, pt), ParsePrices(res, entry.prices), ParseAttributes(line, pt);
            && (r.Ok? <==> ps.Ok? && attrs.Ok?)
            && (ps.Err? ==> r == Err(ps.error))
            && (ps.Ok? && attrs.Err? ==> r == Err(attrs.error))
            && (r.Ok? ==> r.value == ProductVariantDraft(entry.sku, ps.value, attrs.value, ParseImages(entry.images)))
  {
  }

  /** The per-line step of `variantLinesToDrafts`: a line that cannot be bound gives
      `null` (the `BindException` is caught); every other error escapes. */
  function VariantItem(res: Resources, bind: Binder, pt: ProductType): Line -> Result<Option<ProductVariantDraft>, ProcessError> {
    (line: Line) =>
      match bind(line)
      case Err(_) => Ok(None)
      case Ok(entry) => AsItem(VariantLineToDraft(res, line, entry, pt))
  }

  /** `variantLinesToDrafts`. */
  function VariantLinesToDrafts(res: Resources, bind: Binder, lines: seq<Line>, pt: ProductType): (r: Result<seq<ProductVariantDraft>, ProcessError>)
    ensures r.Ok? ==> |r.value| <= |lines|
  {
    MapFilter(lines, VariantItem(res, bind, pt))
  }

  /** `process`: nothing for an empty group or an unknown product type; the first
      line's binding error escapes; otherwise the draft of the first line's product
      fields with the variants of all lines. */
  function Process(res: Resources, bind: Binder, lines: seq<Line>): (r: Result<Option<ProductDraft>, ProcessError>)
    ensures r.Ok? && r.value.Some? ==> |r.value.value.variants| <= |lines|
  {
    if lines == [] then Ok(None)
    else
      match bind(lines[0])
      case Err(_) => Err(ProductLineNotBound)
      case Ok(entry) =>
        match Lookup(res.productTypes, entry.productType)
        case None => Ok(None)
        case Some(pt) =>
          match VariantLinesToDrafts(res, bind, lines, pt)
          case Err(e) => Err(e)
          case Ok(variants) => Ok(Some(ProductDraft(pt.id, entry.name, entry.slug, variants)))
  }

  /** `process` returns `null` exactly for an empty group and for a product line
      whose product type is not found. */
  lemma ProcessNull(res: Resources, bind: Binder, lines: seq<Line>)
    ensures Process(res, bind, lines) == Ok(None) <==>
            lines == [] || (bind(lines[0]).Ok? && bind(lines[0]).value.productType !in res.productTypes)
  {
  }

  /** A product line that cannot be bound makes the whole group fail. */
  lemma ProcessUnboundProductLine(res: Resources, bind: Binder, lines: seq<Line>)
    requires lines != [] && bind(lines[0]).Err?
    ensures Process(res, bind, lines) == Err(ProductLineNotBound)
  {
  }

  /** The product line is also the first variant (the master variant), and the
      draft carries the product line's type, name and slug. */
  lemma ProcessFirstLineIsMaster(res: Resources, bind: Binder, lines: seq<Line>)
    requires Process(res, bind, lines).Ok? && Process(res, bind, lines).value.Some?
    ensures var d, entry := Process(res, bind, lines).value.value, bind(lines[0]).value;
            && entry.productType in res.productTypes
            && d.productType == res.productTypes[entry.productType].id
            && d.name == entry.name && d.slug == entry.slug
            && |d.variants| >= 1
            && Ok(d.variants[0]) == VariantLineToDraft(res, lines[0], entry, res.productTypes[entry.productType])
  {
    var entry := bind(lines[0]).value;
    var pt := res.productTypes[entry.productType];
    var f := VariantItem(res, bind, pt);
    assert lines == [lines[0]] + lines[1..];
    MapFilterAppend([lines[0]], lines[1..], f);
    assert f(lines[0]) == AsItem(VariantLineToDraft(res, lines[0], entry, pt));
    assert [lines[0]][0] == lines[0] && [lines[0]][1..] == [];
  }

  /** When every line binds, there is one variant per line, in input order: the
      drafts of the lines. */
  lemma ProcessAllLinesBound(res: Resources, bind: Binder, lines: seq<Line>)
    requires Process(res, bind, lines).Ok? && Process(res, bind, lines).value.Some?
    requires forall k :: 0 <= k < |lines| ==> bind(lines[k]).Ok?
    ensures var d, pt := Process(res, bind, lines).value.value, res.productTypes[bind(lines[0]).value.productType];
            |d.variants| == |lines|
            && forall k :: 0 <= k < |lines| ==> Ok(d.variants[k]) == VariantLineToDraft(res, lines[k], bind(lines[k]).value, pt)
  {
    var pt := res.productTypes[bind(lines[0]).value.productType];
    var f := VariantItem(res, bind, pt);
    MapFilterOkIff(lines, f);
    assert forall k :: 0 <= k < |lines| ==> f(lines[k]) == AsItem(VariantLineToDraft(res, lines[k], bind(lines[k]).value, pt));
    MapFilterKeepsAll(lines, f);
  }

  /** A line after the product line that cannot be bound is dropped, and has no
      other effect: the result is that of the group without it. */
  lemma ProcessDropsUnboundLine(res: Resources, bind: Binder, xs: seq<Line>, x: Line, ys: seq<Line>)
    requires xs != [] && bind(x).Err?
    ensures Process(res, bind, xs + [x] + ys) == Process(res, bind, xs + ys)
  {
    assert (xs + [x] + ys)[0] == xs[0] && (xs + ys)[0] == xs[0];
    var entry := bind(xs[0]);
    if entry.Ok? && entry.value.productType in res.productTypes {
      var pt := res.productTypes[entry.value.productType];
      MapFilterDropped(xs, x, ys, VariantItem(res, bind, pt));
    }
  }

  /** Every error other than a binding error escapes `process`: a group whose
      product type is found fails exactly when some bound line's variant fails, and
      then with the error of the first such line; every line before it is unbound
      or yields a variant. */
  lemma ProcessErrorsEscape(res: Resources, bind: Binder, lines: seq<Line>)
    requires lines != [] && bind(lines[0]).Ok? && bind(lines[0]).value.productType in res.productTypes
    ensures var pt, r := res.productTypes[bind(lines[0]).value.productType], Process(res, bind, lines);
            && (r.Err? <==> exists k :: 0 <= k < |lines| && bind(lines[k]).Ok?
                              && VariantLineToDraft(res, lines[k], bind(lines[k]).value, pt).Err?)
            && (r.Err? ==> exists k :: 0 <= k < |lines| && bind(lines[k]).Ok?
                              && VariantLineToDraft(res, lines[k], bind(lines[k]).value, pt) == Err(r.error)
                              && forall j :: 0 <= j < k ==>
                                   bind(lines[j]).Err? || VariantLineToDraft(res, lines[j], bind(lines[j]).value, pt).Ok?)
  {
    var pt := res.productTypes[bind(lines[0]).value.productType];
    MapFilterOkIff(lines, VariantItem(res, bind, pt));
    if Process(res, bind, lines).Err? {
      VariantLinesFirstError(res, bind, lines, pt);
    }
  }

  /** When the variants of a group fail, the error is that of the first bound line
      whose variant fails; every line before it is unbound or yields a variant. */
  lemma VariantLinesFirstError(res: Resources, bind: Binder, lines: seq<Line>, pt: ProductType)
    requires VariantLinesToDrafts(res, bind, lines, pt).Err?
    ensures exists k :: 0 <= k < |lines| && bind(lines[k]).Ok?
              && VariantLineToDraft(res, lines[k], bind(lines[k]).value, pt) == Err(VariantLinesToDrafts(res, bind, lines, pt).error)
              && forall j :: 0 <= j < k ==>
                   bind(lines[j]).Err? || VariantLineToDraft(res, lines[j], bind(lines[j]).value, pt).Ok?
  {
    var f := VariantItem(res, bind, pt);
    MapFilterFirstError(lines, f);
    var k :| 0 <= k < |lines| && f(lines[k]) == Err(MapFilter(lines, f).error)
              && forall j :: 0 <= j < k ==> f(lines[j]).Ok?;
    forall j | 0 <= j < k
      ensures bind(lines[j]).Err? || VariantLineToDraft(res, lines[j], bind(lines[j]).value, pt).Ok?
    {
      assert f(lines[j]).Ok?;
    }
  }

  /** A line whose prices column is `bogus` does not just lose its variant: the
      price error escapes and the whole group fails. */
  lemma ProcessFailsOnBogusPrice(res: Resources, bind: Binder, lines: seq<Line>, k: nat)
    requires lines != [] && bind(lines[0]).Ok? && bind(lines[0]).value.productType in res.productTypes
    requires k < |lines| && bind(lines[k]).Ok? && bind(lines[k]).value.prices == Some("bogus")
    ensures Process(res, bind, lines).Err?
  {
    var pt := res.productTypes[bind(lines[0]).value.productType];
    assert Tokens("bogus", ';') == ["bogus"];
    ParsePriceNeedsSpace(res, "bogus");
    assert ParsePrices(res, Some("bogus")) == Err(CannotParsePrice("bogus"));
    assert VariantLineToDraft(res, lines[k], bind(lines[k]).value, pt).Err?;
    ProcessErrorsEscape(res, bind, lines);
  }
}
