/**
 * The Trading API client's helpers: the normalisation of the analysis
 * reply, the ItemSpecifics XML, the local category suggester (2 points per
 * whole-word token), the category-ID pickers, the condition-ID choice and
 * the picture URLs of a listing.
 */
module MainTrading {
  import opened Wrappers
  import opened Text
  import opened JsonValue
  import opened Tokens
  import opened Ranking
  import opened XmlEscape
  import AiAnalyzer

  // ---------------------------------------------------------------------
  // analyse_image

  /** The reply after normalisation: `parsed` keeps every other key unchanged. */
  datatype TradingAnalysis = TradingAnalysis(
    title: string,
    price: Num,
    specifics: seq<(string, seq<string>)>,
    parsed: seq<(string, Json)>)

  /** One specific's values: a list keeps its non-blank entries, stripped; a scalar becomes a one-entry list. */
  function SpecificValues(v: Json): (r: seq<string>)
    ensures forall i :: 0 <= i < |r| ==> r[i] != "" && Strip(r[i]) == r[i]
  {
    match v
    case JList(items) => StrippedValues(items)
    case _ =>
      StripIdempotent(Str(v));
      if !IsBlank(Str(v)) then [Strip(Str(v))] else []
  }

  /** `[str(x).strip() for x in items if str(x).strip()]`. */
  function StrippedValues(items: seq<Json>): (r: seq<string>)
    ensures |r| <= |items|
    ensures forall i :: 0 <= i < |r| ==> r[i] != "" && Strip(r[i]) == r[i]
  {
    if items == [] then []
    else
      var init := StrippedValues(items[..|items| - 1]);
      var s := Str(items[|items| - 1]);
      StripIdempotent(s);
      init + (if !IsBlank(s) then [Strip(s)] else [])
  }

  /** `norm`: every specific that is not `None` and keeps at least one value, in order. */
  function NormalizedSpecifics(fields: seq<(string, Json)>): seq<(string, seq<string>)>
  {
    if fields == [] then []
    else
      var (k, v) := fields[|fields| - 1];
      NormalizedSpecifics(fields[..|fields| - 1])
      + (if v != JNull && SpecificValues(v) != [] then [(k, SpecificValues(v))] else [])
  }

  /**
   * Every normalised specific maps to a non-empty list of stripped non-empty
   * strings, under a key the reply had for a value other than `None`.
   */
  lemma {:induction false} NormalizedSpecificsSpec(fields: seq<(string, Json)>)
    ensures forall e :: e in NormalizedSpecifics(fields) ==>
              e.1 != [] && (forall i :: 0 <= i < |e.1| ==> e.1[i] != "" && Strip(e.1[i]) == e.1[i])
              && exists j :: 0 <= j < |fields| && fields[j].0 == e.0 && fields[j].1 != JNull
                             && e.1 == SpecificValues(fields[j].1)
  {
    if fields != [] {
      var init := fields[..|fields| - 1];
      NormalizedSpecificsSpec(init);
      assert forall j :: 0 <= j < |init| ==> init[j] == fields[j];
    }
  }

  /** A string value keeps its stripped text exactly when it is not blank. */
  lemma ScalarSpecific(s: string)
    ensures SpecificValues(JStr(s)) == (if IsBlank(s) then [] else [Strip(s)])
  {
  }

  /** The loop that fills `norm`, skipping `None` and dropping what ends up empty. */
  method NormalizeSpecifics(fields: seq<(string, Json)>) returns (norm: seq<(string, seq<string>)>)
    ensures norm == NormalizedSpecifics(fields)
  {
    norm := [];
    var i := 0;
    while i < |fields|
      invariant 0 <= i <= |fields|
      invariant norm == NormalizedSpecifics(fields[..i])
    {
      var (k, v) := fields[i];
      assert fields[..i + 1][..i] == fields[..i];
      if v != JNull {
        var values := SpecificValues(v);
        if values != [] {
          norm := norm + [(k, values)];
        }
      }
      i := i + 1;
    }
    assert fields[..i] == fields;
  }

  /**
   * `round(float(price), 2)` with `float(price)` given as `f`: 9.99 when it
   * raised anything (`except Exception`, so an `OverflowError` too); `round`
   * keeps infinities and NaN.
   */
  function TradingPrice(f: Result<Num>): (p: Num)
    ensures f.Err? ==> p == Finite(9.99)
    ensures f.Ok? && !f.value.Finite? ==> p == f.value
    ensures f.Ok? && f.value.Finite? ==>
              && p.Finite?
              && (p.value * 100.0).Floor as real == p.value * 100.0
              && f.value.value - 0.005 <= p.value <= f.value.value + 0.005
  {
    match f
    case Err(_) => Finite(9.99)
    case Ok(n) =>
      match n
      case Finite(x) =>
        RoundedHundredths(x);
        Finite(RoundToHundredths(x) as real / 100.0)
      case _ => n
  }

  /** `round(x, 2)` is a whole number of hundredths within half a hundredth of `x`. */
  lemma RoundedHundredths(x: real)
    ensures var p := RoundToHundredths(x) as real / 100.0;
      (p * 100.0).Floor as real == p * 100.0 && x - 0.005 <= p <= x + 0.005
  {
    var c := RoundToHundredths(x);
    var p := c as real / 100.0;
    assert p * 100.0 == c as real;
    assert x * 100.0 - 0.5 <= c as real <= x * 100.0 + 0.5;
  }

  /** The default 9.99, used when the key is missing, is already rounded and stays 9.99. */
  lemma DefaultTradingPrice(text: string)
    ensures TradingPrice(ToFloat(JNum(Finite(9.99), text))) == Finite(9.99)
  {
    assert 9.99 * 100.0 == 999 as real;
    RoundWhole(999);
  }

  /**
   * A number beyond the double range: written as a whole number it is an
   * `int` whose `float()` raises, so the price falls back to 9.99; written
   * with a fraction or exponent it is a float infinity, which `round` keeps.
   */
  lemma HugePrice(x: real, text: string)
    requires x >= DoubleOverflowBound as real
    ensures IntText(text) ==> TradingPrice(ToFloat(JNum(Finite(x), text))) == Finite(9.99)
    ensures !IntText(text) ==> TradingPrice(ToFloat(JNum(Finite(x), text))) == PosInf
  {
  }

  /** `str(parsed.get("title", ""))[:80]`: truncated but neither stripped nor defaulted. */
  function TradingTitle(fields: seq<(string, Json)>): (t: string)
    ensures |t| <= 80
    ensures Get(fields, "title").None? ==> t == ""
  {
    Take(Str(GetOr(fields, "title", JStr(""))), 80)
  }

  /**
   * The normalisation of a parsed object: the title cut to 80 characters,
   * the rounded price, and `specifics` made into lists. A truthy
   * `specifics` that is not an object has no `items`.
   */
  function NormalizedReply(fields: seq<(string, Json)>): Result<TradingAnalysis>
  {
    var specs := GetOr(fields, "specifics", JNull);
    if Truthy(specs) && !specs.JObj? then Err(NoAttribute(specs, "items"))
    else
      Ok(TradingAnalysis(
        TradingTitle(fields),
        TradingPrice(ToFloat(GetOr(fields, "price", JNum(Finite(9.99), "9.99")))),
        if specs.JObj? then NormalizedSpecifics(specs.fields) else [],
        fields))
  }

  /**
   * The three promises of the normalisation: a title of at most 80
   * characters, 9.99 for a price that is missing or cannot be parsed, and
   * specifics that each map to a non-empty list of stripped non-empty strings.
   */
  lemma NormalizedReplySpec(fields: seq<(string, Json)>)
    ensures var specs := GetOr(fields, "specifics", JNull);
      NormalizedReply(fields).Err? <==> Truthy(specs) && !specs.JObj?
    ensures NormalizedReply(fields).Ok? ==>
              var a := NormalizedReply(fields).value;
              && |a.title| <= 80
              && (Get(fields, "price").None? ==> a.price == Finite(9.99))
              && (Get(fields, "price").Some? && ToFloat(Get(fields, "price").value).Err? ==> a.price == Finite(9.99))
              && (Get(fields, "price").Some? && IntTooLarge(Get(fields, "price").value) ==> a.price == Finite(9.99))
              && (forall e :: e in a.specifics ==>
                    e.1 != [] && forall i :: 0 <= i < |e.1| ==> e.1[i] != "" && Strip(e.1[i]) == e.1[i])
  {
    var specs := GetOr(fields, "specifics", JNull);
    if specs.JObj? {
      NormalizedSpecificsSpec(specs.fields);
    }
    if Get(fields, "price").None? {
      DefaultTradingPrice("9.99");
    }
  }

  /** The normalisation loop over a parsed object. */
  method NormalizeReply(fields: seq<(string, Json)>) returns (r: Result<TradingAnalysis>)
    ensures r == NormalizedReply(fields)
  {
    var title := TradingTitle(fields);
    var price := TradingPrice(ToFloat(GetOr(fields, "price", JNum(Finite(9.99), "9.99"))));
    var specs := GetOr(fields, "specifics", JNull);
    var norm := [];
    if Truthy(specs) {
      if !specs.JObj? {
        return Err(NoAttribute(specs, "items"));
      }
      norm := NormalizeSpecifics(specs.fields);
    } else if specs.JObj? {
      assert specs.fields == [];
    }
    r := Ok(TradingAnalysis(title, price, norm, fields));
  }

  /**
   * `analyse_image` after the model call: the first-`{`-to-last-`}` span
   * (a `RuntimeError` when there is none), `json.loads` as the given
   * function (its `JSONDecodeError` passes through unchanged), then the
   * normalisation; a reply that is not an object has no `get`.
   */
  method AnalyseImage(content: string, loads: string -> Result<Json>) returns (r: Result<TradingAnalysis>)
    ensures AiAnalyzer.ExtractJsonSpan(content).Err? ==>
              r == Err(RuntimeError("Model did not return JSON. Raw: " + Take(content, 200)))
    ensures AiAnalyzer.ExtractJsonSpan(content).Ok? ==>
              var parsed := loads(AiAnalyzer.ExtractJsonSpan(content).value);
              && (parsed.Err? ==> r == Err(parsed.error))
              && (parsed.Ok? && !parsed.value.JObj? ==> r == Err(NoAttribute(parsed.value, "get")))
              && (parsed.Ok? && parsed.value.JObj? ==> r == NormalizedReply(parsed.value.fields))
  {
    var span := AiAnalyzer.ExtractJsonSpan(content);
    if span.Err? {
      return Err(RuntimeError("Model did not return JSON. Raw: " + Take(content, 200)));
    }
    var decoded := loads(span.value);
    if decoded.Err? {
      return Err(decoded.error);
    }
    var parsed := decoded.value;
    if !parsed.JObj? {
      return Err(NoAttribute(parsed, "get"));
    }
    r := NormalizeReply(parsed.fields);
  }

  // ---------------------------------------------------------------------
  // specifics_to_item_specifics_xml

  /** Some value is not blank: the name gets a `NameValueList`. */
  predicate HasValue(values: seq<string>)
  {
    exists i :: 0 <= i < |values| && !IsBlank(values[i])
  }

  /** `<Value>…</Value>` for every value that is not blank, the value itself escaped (not stripped). */
  function ValuesXml(values: seq<string>): (r: string)
    ensures r == "" <==> !HasValue(values)
  {
    if values == [] then ""
    else
      var init := ValuesXml(values[..|values| - 1]);
      var v := values[|values| - 1];
      assert HasValue(values) <==> HasValue(values[..|values| - 1]) || !IsBlank(v) by {
        assert forall i :: 0 <= i < |values| - 1 ==> values[..|values| - 1][i] == values[i];
      }
      init + (if !IsBlank(v) then "<Value>" + EscapeXml(v) + "</Value>" else "")
  }

  function NameValueList(name: string, vals: string): string
  {
    "<NameValueList><Name>" + EscapeXml(name) + "</Name>" + vals + "</NameValueList>"
  }

  /** The `NameValueList` of one specific. */
  function Block(name: string, values: seq<string>): string
  {
    NameValueList(name, ValuesXml(values))
  }

  /** One `NameValueList` per name with at least one non-blank value, in input order. */
  function Blocks(specs: seq<(string, seq<string>)>): seq<string>
  {
    if specs == [] then []
    else
      var last := specs[|specs| - 1];
      Blocks(specs[..|specs| - 1])
      + (if HasValue(last.1) then [Block(last.0, last.1)] else [])
  }

  /** Some value of some specific is not blank. */
  predicate AnyValue(specs: seq<(string, seq<string>)>)
  {
    exists k :: 0 <= k < |specs| && HasValue(specs[k].1)
  }

  /** The names that get a block, in order. */
  function NamesWithValues(specs: seq<(string, seq<string>)>): seq<string>
  {
    if specs == [] then []
    else
      NamesWithValues(specs[..|specs| - 1])
      + (if HasValue(specs[|specs| - 1].1) then [specs[|specs| - 1].0] else [])
  }

  /** There is a block for each name with a non-blank value, and only for those. */
  lemma {:induction false} BlocksSpec(specs: seq<(string, seq<string>)>)
    ensures |Blocks(specs)| == |NamesWithValues(specs)|
    ensures forall k :: 0 <= k < |Blocks(specs)| ==>
              exists values :: Blocks(specs)[k] == Block(NamesWithValues(specs)[k], values)
                               && (NamesWithValues(specs)[k], values) in specs && HasValue(values)
  {
    if specs != [] {
      var init := specs[..|specs| - 1];
      var last := specs[|specs| - 1];
      BlocksSpec(init);
      var b, n := Blocks(specs), NamesWithValues(specs);
      assert b == Blocks(init) + (if HasValue(last.1) then [Block(last.0, last.1)] else []);
      assert n == NamesWithValues(init) + (if HasValue(last.1) then [last.0] else []);
      forall k | 0 <= k < |b|
        ensures exists values :: b[k] == Block(n[k], values) && (n[k], values) in specs && HasValue(values)
      {
        if k < |Blocks(init)| {
          var values :| Blocks(init)[k] == Block(NamesWithValues(init)[k], values)
                        && (NamesWithValues(init)[k], values) in init && HasValue(values);
          assert b[k] == Blocks(init)[k] && n[k] == NamesWithValues(init)[k];
          assert (n[k], values) in specs;
        } else {
          assert b[k] == Block(last.0, last.1) && n[k] == last.0;
          assert (n[k], last.1) == last && last in specs;
        }
      }
      assert |b| == |n|;
    }
  }

  /** No block is produced exactly when no specific has a non-blank value. */
  lemma {:induction false} BlocksEmpty(specs: seq<(string, seq<string>)>)
    ensures Blocks(specs) == [] <==> !AnyValue(specs)
  {
    if specs != [] {
      var init := specs[..|specs| - 1];
      BlocksEmpty(init);
      assert AnyValue(specs) <==> AnyValue(init) || HasValue(specs[|specs| - 1].1) by {
        assert forall k :: 0 <= k < |init| ==> init[k] == specs[k];
      }
    }
  }

  /** `<ItemSpecifics>…</ItemSpecifics>`, or "" when no block was produced. */
  function ItemSpecificsXml(specs: seq<(string, seq<string>)>): string
  {
    if specs == [] || Blocks(specs) == [] then ""
    else "<ItemSpecifics>" + Concat(Blocks(specs)) + "</ItemSpecifics>"
  }

  /** The XML is empty exactly when no specific has a non-blank value. */
  lemma ItemSpecificsEmpty(specs: seq<(string, seq<string>)>)
    ensures ItemSpecificsXml(specs) == "" <==> !AnyValue(specs)
  {
    BlocksEmpty(specs);
  }

  /** The builder's loop. */
  method SpecificsToItemSpecificsXml(specs: seq<(string, seq<string>)>) returns (xml: string)
    ensures xml == ItemSpecificsXml(specs)
  {
    if specs == [] {
      return "";
    }
    var blocks := [];
    var i := 0;
    while i < |specs|
      invariant 0 <= i <= |specs|
      invariant blocks == Blocks(specs[..i])
    {
      var (name, values) := specs[i];
      assert specs[..i + 1][..i] == specs[..i];
      var vals := ValuesXml(values);
      if vals != "" {
        assert HasValue(values);
        blocks := blocks + [Block(name, values)];
      }
      i := i + 1;
    }
    assert specs[..i] == specs;
    xml := if blocks != [] then "<ItemSpecifics>" + Concat(blocks) + "</ItemSpecifics>" else "";
  }

  // ---------------------------------------------------------------------
  // suggest_categories_local, pick_category_id_from_ai, pick_category_id

  function CategoriesOf(s: seq<Scored>): (r: seq<Category>)
    ensures |r| == |s| && forall i :: 0 <= i < |s| ==> r[i] == s[i].category
  {
    seq(|s|, i requires 0 <= i < |s| => s[i].category)
  }

  /** What `suggest_categories_local` returns: the ranked categories, 2 points per whole-word token. */
  function LocalSuggestions(cats: seq<Category>, query: string, k: int): seq<Category>
  {
    CategoriesOf(Suggestions(cats, Tokenize(query), 2, k))
  }

  /** At most `k` categories, each a leaf when leaves exist, each scoring at least 1 against the query. */
  lemma LocalSuggestionsSpec(cats: seq<Category>, query: string, k: int)
    ensures var r := LocalSuggestions(cats, query, k);
      && (Tokenize(query) == [] ==> r == [])
      && (0 <= k ==> |r| <= k)
      && (forall c :: c in r ==> c in cats && ScoreOf(c, Tokenize(query), 2) >= 1)
      && ((exists c :: c in cats && c.leaf) ==> forall c :: c in r ==> c.leaf)
  {
    var s := Suggestions(cats, Tokenize(query), 2, k);
    SuggestionsSpec(cats, Tokenize(query), 2, k);
    forall c | c in LocalSuggestions(cats, query, k)
      ensures c in cats && ScoreOf(c, Tokenize(query), 2) >= 1
      ensures (exists c :: c in cats && c.leaf) ==> c.leaf
    {
      var i :| 0 <= i < |s| && CategoriesOf(s)[i] == c;
      assert s[i] in s;
    }
  }

  /** Every suggestion is one of the given categories. */
  lemma LocalSuggestionsFrom(cats: seq<Category>, query: string, k: int)
    ensures forall c :: c in LocalSuggestions(cats, query, k) ==> c in cats
  {
    LocalSuggestionsSpec(cats, query, k);
  }

  /**
   * `suggest_categories_local(query, k)` with the loaded categories passed
   * in: no terms gives `[]`, else leaves (or all categories) are scored,
   * sorted and cut to `k`.
   */
  method SuggestCategoriesLocal(cats: seq<Category>, query: string, k: int) returns (top: seq<Category>)
    ensures top == LocalSuggestions(cats, query, k)
  {
    var terms := Tokenize(query);
    if terms == [] {
      return [];
    }
    var leafs := Pool(cats);
    var scored := ScorePool(leafs, terms, 2);
    if cats == [] {
      assert scored == [];
    }
    var ranked := Slice(RankSort(scored), k);
    top := CategoriesOf(ranked);
  }

  /** The specifics consulted for the query, in this order. */
  const AiSpecificKeys: seq<string> := ["Garment Type", "Type", "Department", "Style", "Brand", "Material"]

  /** `b` is what the specific `v` contributes: a list's first entry, or the string itself when it is not blank. */
  predicate BitOf(b: Json, v: Option<Json>)
  {
    v.Some? && ((v.value.JList? && v.value.items != [] && b == v.value.items[0])
                || (v.value.JStr? && !IsBlank(v.value.s) && b == v.value))
  }

  /** The bit one specific adds: the first entry of a non-empty list, or a string that is not blank. */
  function SpecificBit(v: Option<Json>): (r: seq<Json>)
    ensures |r| <= 1 && forall b :: b in r ==> BitOf(b, v)
  {
    match v
    case Some(JList(items)) => if items != [] then [items[0]] else []
    case Some(JStr(s)) => if !IsBlank(s) then [JStr(s)] else []
    case _ => []
  }

  function SpecificBits(specifics: seq<(string, Json)>, names: seq<string>): seq<Json>
  {
    if names == [] then []
    else SpecificBits(specifics, names[..|names| - 1]) + SpecificBit(Get(specifics, names[|names| - 1]))
  }

  /** `bits`: the title, then one bit for each of the six specifics that has one. */
  function QueryBits(title: string, specifics: seq<(string, Json)>): seq<Json>
  {
    [JStr(title)] + SpecificBits(specifics, AiSpecificKeys)
  }

  /** Each bit after the title is a list's first entry or a non-blank string stored under one of the names. */
  lemma {:induction false} SpecificBitsSpec(specifics: seq<(string, Json)>, names: seq<string>)
    ensures |SpecificBits(specifics, names)| <= |names|
    ensures forall b :: b in SpecificBits(specifics, names) ==>
              exists k :: 0 <= k < |names| && BitOf(b, Get(specifics, names[k]))
  {
    if names != [] {
      var init := names[..|names| - 1];
      var last := Get(specifics, names[|names| - 1]);
      SpecificBitsSpec(specifics, init);
      assert SpecificBits(specifics, names) == SpecificBits(specifics, init) + SpecificBit(last);
      forall b | b in SpecificBits(specifics, names)
        ensures exists k :: 0 <= k < |names| && BitOf(b, Get(specifics, names[k]))
      {
        if b in SpecificBits(specifics, init) {
          var k :| 0 <= k < |init| && BitOf(b, Get(specifics, init[k]));
          assert init[k] == names[k];
        } else {
          assert BitOf(b, Get(specifics, names[|names| - 1]));
        }
      }
    }
  }

  /** `" ".join(bits)` needs every bit to be a string; a list's first entry may not be one. */
  function BitStrings(bits: seq<Json>): (r: Option<seq<string>>)
    ensures r.Some? <==> forall i :: 0 <= i < |bits| ==> bits[i].JStr?
    ensures r.Some? ==> |r.value| == |bits| && forall i :: 0 <= i < |bits| ==> r.value[i] == bits[i].s
  {
    if bits == [] then Some([])
    else
      match BitStrings(bits[..|bits| - 1])
      case None => None
      case Some(init) =>
        if bits[|bits| - 1].JStr? then Some(init + [bits[|bits| - 1].s]) else None
  }

  /** The position `" ".join` reports: the first bit that is not a string, or `|bits|` when all are. */
  function FirstNonString(bits: seq<Json>): (i: nat)
    ensures i <= |bits| && forall j :: 0 <= j < i ==> bits[j].JStr?
    ensures i < |bits| ==> !bits[i].JStr?
    ensures i == |bits| <==> BitStrings(bits).Some?
  {
    if bits == [] then 0
    else if !bits[0].JStr? then 0
    else
      var i := FirstNonString(bits[1..]);
      assert forall j :: 1 <= j < |bits| ==> bits[j] == bits[1..][j - 1];
      1 + i
  }

  /** The `TypeError` that `" ".join` raises for a bit that is not a string. */
  function JoinError(bits: seq<Json>, i: nat): Error
    requires i < |bits|
  {
    TypeError("sequence item " + NatToDigits(i) + ": expected str instance, " + TypeName(bits[i]) + " found")
  }

  /** The loop that collects `bits` from the given specifics. */
  method AppendBits(bits: seq<Json>, specifics: seq<(string, Json)>, names: seq<string>) returns (extended: seq<Json>)
    ensures extended == bits + SpecificBits(specifics, names)
  {
    extended := bits;
    var i := 0;
    while i < |names|
      invariant 0 <= i <= |names|
      invariant extended == bits + SpecificBits(specifics, names[..i])
    {
      extended := extended + SpecificBit(Get(specifics, names[i]));
      assert names[..i + 1][..i] == names[..i];
      i := i + 1;
    }
    assert names[..i] == names;
  }

  /**
   * `pick_category_id_from_ai`: the top local match for the title and the
   * six specifics, else the environment's fallback (taken when non-empty),
   * else `RuntimeError`; a non-string first list entry makes the join raise
   * `TypeError`.
   */
  method PickCategoryIdFromAi(cats: seq<Category>, title: string, specifics: seq<(string, Json)>, envFallback: string)
    returns (r: Result<string>)
    ensures BitStrings(QueryBits(title, specifics)).None? ==>
              var bits := QueryBits(title, specifics);
              r == Err(JoinError(bits, FirstNonString(bits)))
    ensures BitStrings(QueryBits(title, specifics)).Some? ==>
              var s := LocalSuggestions(cats, Join(" ", BitStrings(QueryBits(title, specifics)).value), 1);
              && (s != [] ==> r == Ok(s[0].id))
              && (s == [] && envFallback != "" ==> r == Ok(envFallback))
              && (s == [] && envFallback == "" ==> r.Err? && r.error.RuntimeError?)
    ensures r.Ok? && (forall c :: c in cats ==> c.id != "") ==> r.value != ""
  {
    var bits := AppendBits([JStr(title)], specifics, AiSpecificKeys);
    var strings := BitStrings(bits);
    if strings.None? {
      var i := FirstNonString(bits);
      return Err(JoinError(bits, i));
    }
    var query := Join(" ", strings.value);
    var sugg := SuggestCategoriesLocal(cats, query, 1);
    if sugg != [] {
      LocalSuggestionsFrom(cats, query, 1);
      assert sugg[0] in sugg;
      return Ok(sugg[0].id);
    }
    if envFallback == "" {
      return Err(RuntimeError("No category match and EBAY_CATEGORY_ID not set. Provide category_id or set env."));
    }
    return Ok(envFallback);
  }

  /** `pick_category_id`: the stripped explicit ID when it is not blank, else the default, else `RuntimeError`. */
  function PickCategoryId(explicit: Option<string>, defaultId: string): (r: Result<string>)
    ensures r.Err? <==> (explicit.None? || IsBlank(explicit.value)) && defaultId == ""
    ensures r.Err? ==> r.error.RuntimeError?
    ensures r.Ok? ==> r.value != ""
    ensures explicit.Some? && !IsBlank(explicit.value) ==>
              r.Ok? && r.value == Strip(explicit.value) && !IsSpace(r.value[0]) && !IsSpace(r.value[|r.value| - 1])
  {
    match explicit
    case Some(e) =>
      if !IsBlank(e) then Ok(Strip(e))
      else if defaultId != "" then Ok(defaultId) else Err(RuntimeError("No category ID provided. Set EBAY_CATEGORY_ID or pass category_id."))
    case None =>
      if defaultId != "" then Ok(defaultId) else Err(RuntimeError("No category ID provided. Set EBAY_CATEGORY_ID or pass category_id."))
  }

  /** Passing a picked explicit ID back in picks it again. */
  lemma PickCategoryIdStable(explicit: string, defaultId: string)
    requires !IsBlank(explicit)
    ensures PickCategoryId(Some(Strip(explicit)), defaultId) == PickCategoryId(Some(explicit), defaultId)
  {
    StripIdempotent(explicit);
  }

  // ---------------------------------------------------------------------
  // get_condition_id_for_category (the choice) and add_fixed_price_item (pictures)

  /**
   * `preferred` when it is truthy (not `None`, not 0) and offered, else the
   * first offered ID, else `preferred or 3000`.
   */
  function ChooseConditionId(ids: seq<int>, preferred: Option<int>): (r: int)
    ensures ids != [] ==> r in ids && (r == ids[0] || (preferred == Some(r) && r != 0))
    ensures ids == [] ==> r != 0 && (r == 3000 || preferred == Some(r))
    ensures preferred.Some? && preferred.value != 0 && preferred.value in ids ==> r == preferred.value
  {
    if preferred.Some? && preferred.value != 0 && preferred.value in ids then preferred.value
    else if ids != [] then ids[0]
    else if preferred.Some? && preferred.value != 0 then preferred.value
    else 3000
  }

  /** The chosen ID is `preferred` exactly when `preferred` is truthy and offered or nothing is offered. */
  lemma ChooseConditionIdPreferred(ids: seq<int>, p: int)
    requires p != 0
    ensures ChooseConditionId(ids, Some(p)) == p <==> p in ids || ids == []
  {
  }

  /** What one entry contributes: itself, unstripped, when it is a string that is not blank. */
  function NonBlankUrl(u: Json): (r: seq<string>)
    ensures |r| <= 1
  {
    if u.JStr? && !IsBlank(u.s) then [u.s] else []
  }

  /** `[u for u in picture_urls if isinstance(u, str) and u.strip()]`, entries not stripped. */
  function NonBlankUrls(urls: seq<Json>): (r: seq<string>)
    ensures |r| <= |urls|
    ensures forall i :: 0 <= i < |r| ==> !IsBlank(r[i]) && JStr(r[i]) in urls
    ensures r == [] <==> forall i :: 0 <= i < |urls| ==> !(urls[i].JStr? && !IsBlank(urls[i].s))
  {
    if urls == [] then []
    else
      var init := NonBlankUrls(urls[..|urls| - 1]);
      assert forall i :: 0 <= i < |urls| - 1 ==> urls[..|urls| - 1][i] == urls[i];
      init + NonBlankUrl(urls[|urls| - 1])
  }

  /** A one-entry list keeps that entry exactly when it is a non-blank string. */
  lemma NonBlankUrlsSingle(u: Json)
    ensures NonBlankUrls([u]) == NonBlankUrl(u)
  {
    assert [u][..0] == [];
  }

  /** The filter keeps entries in order: it distributes over concatenation. */
  lemma {:induction false} NonBlankUrlsAppend(a: seq<Json>, b: seq<Json>)
    ensures NonBlankUrls(a + b) == NonBlankUrls(a) + NonBlankUrls(b)
    decreases |b|
  {
    if b == [] {
      assert a + b == a;
    } else {
      var n := |b| - 1;
      assert (a + b)[..|a + b| - 1] == a + b[..n];
      assert (a + b)[|a + b| - 1] == b[n];
      calc {
        NonBlankUrls(a + b);
        NonBlankUrls(a + b[..n]) + NonBlankUrl(b[n]);
      == { NonBlankUrlsAppend(a, b[..n]); }
        (NonBlankUrls(a) + NonBlankUrls(b[..n])) + NonBlankUrl(b[n]);
        NonBlankUrls(a) + NonBlankUrls(b);
      }
    }
  }

  /** The picture URLs: the usable entries, else the stripped default when it is not blank. */
  function PictureUrls(urls: seq<Json>, defaultUrl: string): (r: seq<string>)
    ensures forall i :: 0 <= i < |r| ==> !IsBlank(r[i])
    ensures r == [] <==> NonBlankUrls(urls) == [] && IsBlank(defaultUrl)
    ensures NonBlankUrls(urls) != [] ==> r == NonBlankUrls(urls)
    ensures NonBlankUrls(urls) == [] && !IsBlank(defaultUrl) ==> r == [Strip(defaultUrl)]
  {
    var kept := NonBlankUrls(urls);
    if kept == [] && !IsBlank(defaultUrl) then
      StripStillNonBlank(defaultUrl);
      [Strip(defaultUrl)]
    else kept
  }

  lemma StripStillNonBlank(s: string)
    requires !IsBlank(s)
    ensures !IsBlank(Strip(s))
  {
    var t := Strip(s);
    assert !IsSpace(t[0]);
  }

  function PictureUrlTags(urls: seq<string>): string
  {
    if urls == [] then "" else "<PictureURL>" + EscapeXml(urls[0]) + "</PictureURL>" + PictureUrlTags(urls[1..])
  }

  /** `pics_xml`: the `PictureDetails` element, or "" when there is no URL. */
  function PicturesXml(urls: seq<string>): string
  {
    if urls == [] then "" else "<PictureDetails>" + PictureUrlTags(urls) + "</PictureDetails>"
  }

  /** `PictureDetails` is left out exactly when no URL remains, that is when no entry and no default is usable. */
  lemma PicturesOmitted(urls: seq<Json>, defaultUrl: string)
    ensures PicturesXml(PictureUrls(urls, defaultUrl)) == "" <==>
              (forall i :: 0 <= i < |urls| ==> !(urls[i].JStr? && !IsBlank(urls[i].s))) && IsBlank(defaultUrl)
  {
  }
}
