/**
 * The post-processing half of `analyze_image` in `ai_analyzer.py`: cutting the
 * JSON object out of the model's reply and `_normalize_ai_response`, which
 * turns whatever the model produced into a well-formed listing draft.
 */
module AiAnalyzer {
  import opened Wrappers
  import opened Text
  import opened JsonValue

  const TitleLimit: nat := 80
  const FallbackTitle: string := "Item for Sale"
  const FallbackDescription: string := "<p>" + "Item in good condition. Please see photos for details." + "</p>"

  /** Prices are kept in hundredths: 0.99, 999999.99 and the fallback 9.99. */
  const MinPricePence: int := 99
  const MaxPricePence: int := 99999999
  const DefaultPricePence: int := 999

  /** The `valid_conditions` set. */
  const ValidConditions: set<string> := {
    "NEW", "NEW_WITH_TAGS", "NEW_WITHOUT_TAGS", "NEW_WITH_DEFECTS",
    "USED_EXCELLENT", "USED_GOOD", "USED_ACCEPTABLE",
    "FOR_PARTS_OR_NOT_WORKING", "REFURBISHED"}

  /** The dictionary `_normalize_ai_response` returns. */
  datatype AiListing = AiListing(
    title: string,
    description: string,
    pricePence: int,
    condition: string,
    aspects: map<string, seq<string>>,
    categoryKeywords: string)

  /** Every `{` comes after every `}`: the reply holds no `{...}` span at all. */
  predicate NoBraceSpan(content: string)
  {
    forall i, j :: 0 <= i <= j < |content| && content[i] == '{' ==> content[j] != '}'
  }

  lemma NoBraceSpanAfter(content: string, s: int)
    requires 0 <= s < |content| && '{' !in content[..s] && content[s] == '{'
    ensures NoBraceSpan(content) <==> '}' !in content[s..]
  {
    if '}' !in content[s..] {
      assert forall i :: 0 <= i < s ==> content[i] == content[..s][i];
      forall i, j | 0 <= i <= j < |content| && content[i] == '{' ensures content[j] != '}' {
        assert content[j] == content[s..][j - s];
      }
    } else {
      var k :| 0 <= k < |content[s..]| && content[s..][k] == '}';
      assert content[s + k] == '}';
    }
  }

  /**
   * `content[content.find("{"):content.rfind("}") + 1]`, or the
   * "AI did not return valid JSON" error when there is no such span.
   */
  function ExtractJsonSpan(content: string): (r: Result<string>)
    ensures r.Err? <==> NoBraceSpan(content)
    ensures r.Err? ==> r.error == AnalysisError("AI did not return valid JSON")
    ensures r.Ok? ==> |r.value| >= 2 && r.value[0] == '{' && r.value[|r.value| - 1] == '}'
    ensures r.Ok? ==> exists i :: OccursAt(content, r.value, i)
                                   && '{' !in content[..i] && '}' !in content[i + |r.value|..]
  {
    var s := FindChar(content, '{');
    var e := RFindChar(content, '}') + 1;
    if s == -1 then Err(AnalysisError("AI did not return valid JSON"))
    else if e <= s then
      NoBraceSpanAfter(content, s);
      Err(AnalysisError("AI did not return valid JSON"))
    else
      NoBraceSpanAfter(content, s);
      var span := content[s..e];
      assert OccursAt(content, span, s);
      Ok(span)
  }

  /** `str(data.get("title", "Untitled Item"))[:80].strip()`, with the fallback for an empty result. */
  function NormalizeTitle(v: Json): (r: string)
    ensures 0 < |r| <= TitleLimit
    ensures !IsSpace(r[0]) && !IsSpace(r[|r| - 1])
    ensures r == FallbackTitle || r == Strip(Take(Str(v), TitleLimit))
    ensures r == FallbackTitle <== IsBlank(Take(Str(v), TitleLimit))
    ensures !IsBlank(Take(Str(v), TitleLimit)) ==> r == Strip(Take(Str(v), TitleLimit))
  {
    var t := Strip(Take(Str(v), TitleLimit));
    if t == [] then FallbackBare(); FallbackTitle else t
  }

  /** A title that is already normalised comes back unchanged. */
  lemma TitleFixedPoint(t: string)
    requires 0 < |t| <= TitleLimit && !IsSpace(t[0]) && !IsSpace(t[|t| - 1])
    ensures NormalizeTitle(JStr(t)) == t
  {
    StripStripped(t);
  }

  /** `str(data.get("description", "")).strip()`, with the fallback for an empty result. */
  function NormalizeDescription(v: Json): (r: string)
    ensures r != [] && !IsSpace(r[0]) && !IsSpace(r[|r| - 1])
    ensures IsBlank(Str(v)) ==> r == FallbackDescription
    ensures !IsBlank(Str(v)) ==> r == Strip(Str(v))
  {
    var d := Strip(Str(v));
    if d == [] then FallbackBare(); FallbackDescription else d
  }

  lemma FallbackEnds(s: string)
    requires s == FallbackDescription
    ensures s[0] == '<' && s[|s| - 1] == '>'
  {
  }

  lemma FallbackBare()
    ensures !IsSpace(FallbackTitle[0]) && !IsSpace(FallbackTitle[|FallbackTitle| - 1])
    ensures !IsSpace(FallbackDescription[0]) && !IsSpace(FallbackDescription[|FallbackDescription| - 1])
  {
    FallbackEnds(FallbackDescription);
  }

  lemma DescriptionFixedPoint(d: string)
    requires d != [] && !IsSpace(d[0]) && !IsSpace(d[|d| - 1])
    ensures NormalizeDescription(JStr(d)) == d
  {
    StripStripped(d);
  }

  /** `max(lo, min(hi, x))`. */
  function Clamp(x: int, lo: int, hi: int): (r: int)
    requires lo <= hi
    ensures lo <= r <= hi
    ensures lo <= x <= hi ==> r == x
    ensures x < lo ==> r == lo
    ensures x > hi ==> r == hi
  {
    if x < lo then lo else if x > hi then hi else x
  }

  /**
   * `max(0.99, min(999999.99, round(x, 2)))` for a float `x`, in hundredths:
   * NaN and +inf give the ceiling (Python's `min` keeps its first argument
   * when the comparison is false) and -inf the floor.
   */
  function ClampPrice(n: Num): (p: int)
    ensures MinPricePence <= p <= MaxPricePence
    ensures n == NaN || n == PosInf ==> p == MaxPricePence
    ensures n == NegInf ==> p == MinPricePence
    ensures n.Finite? ==>
      var c := RoundToHundredths(n.value);
      && n.value * 100.0 - 0.5 <= c as real <= n.value * 100.0 + 0.5
      && (c < MinPricePence ==> p == MinPricePence)
      && (c > MaxPricePence ==> p == MaxPricePence)
      && (MinPricePence <= c <= MaxPricePence ==> p == c)
  {
    match n
    case Finite(x) => Clamp(RoundToHundredths(x), MinPricePence, MaxPricePence)
    case PosInf => MaxPricePence
    case NaN => MaxPricePence
    case NegInf => MinPricePence
  }

  /**
   * The price step as written: `float(v)` and the clamp, with 9.99 when
   * `float` raises `ValueError` or `TypeError`. The `OverflowError` of an
   * `int` beyond the double range is not caught and escapes.
   */
  function NormalizePrice(v: Json): (r: Result<int>)
    ensures r.Err? <==> IntTooLarge(v)
    ensures r.Err? ==> r.error == OverflowError(IntTooLargeMessage)
    ensures r.Ok? ==> MinPricePence <= r.value <= MaxPricePence
    ensures ToFloat(v).Err? && !IntTooLarge(v) ==> r == Ok(DefaultPricePence)
    ensures ToFloat(v).Ok? ==> r == Ok(ClampPrice(ToFloat(v).value))
  {
    match ToFloat(v)
    case Err(e) => if e.OverflowError? then Err(e) else Ok(DefaultPricePence)
    case Ok(n) => Ok(ClampPrice(n))
  }

  /**
   * The price step as evidently intended, total as the rest of the
   * normalisation is: an `int` too large for a double is clamped like the
   * infinity of its sign.
   */
  function IntendedPrice(v: Json): (p: int)
    ensures MinPricePence <= p <= MaxPricePence
    ensures NormalizePrice(v).Ok? ==> p == NormalizePrice(v).value
    ensures IntTooLarge(v) ==> p == (if v.n.value > 0.0 then MaxPricePence else MinPricePence)
  {
    if IntTooLarge(v) then ClampPrice(ToDouble(v.n.value))
    else NormalizePrice(v).value
  }

  /**
   * A reply whose price is a whole number too large for a double (about
   * 1.8e308 or more) makes the price step raise, while the
   * intended step gives the ceiling.
   */
  lemma PriceOverflowEscapes(text: string)
    requires IntText(text)
    ensures var v := JNum(Finite(DoubleOverflowBound as real), text);
      NormalizePrice(v) == Err(OverflowError(IntTooLargeMessage)) && IntendedPrice(v) == MaxPricePence
  {
    var v := JNum(Finite(DoubleOverflowBound as real), text);
    assert IntTooLarge(v);
  }

  /** A price already in range, written as its exact hundredths, is kept. */
  lemma PriceFixedPoint(p: int, text: string)
    requires MinPricePence <= p <= MaxPricePence
    ensures NormalizePrice(JNum(Finite(p as real / 100.0), text)) == Ok(p)
  {
    assert (p as real / 100.0) * 100.0 == p as real;
    RoundWhole(p);
  }

  /** The default 9.99 used when the key is missing normalises to itself. */
  lemma DefaultPriceKept()
    ensures NormalizePrice(JNum(Finite(9.99), "9.99")) == Ok(DefaultPricePence)
  {
    PriceFixedPoint(DefaultPricePence, "9.99");
  }

  /** The fallback chain for a condition that is not one of the valid names. */
  function MapConditionVariant(u: string): (r: string)
    ensures r in {"NEW", "USED_EXCELLENT", "USED_GOOD"}
    ensures Contains(u, "NEW") <==> r == "NEW"
    ensures r == "USED_EXCELLENT" <==> !Contains(u, "NEW") && Contains(u, "EXCELLENT")
  {
    if Contains(u, "NEW") then "NEW"
    else if Contains(u, "EXCELLENT") then "USED_EXCELLENT"
    else if Contains(u, "LIKE NEW") then
      LikeNewHasNew(u);
      "USED_EXCELLENT"
    else if Contains(u, "GOOD") then "USED_GOOD"
    else "USED_GOOD"
  }

  /** The `"LIKE NEW"` test can never decide anything: such a string already contains `"NEW"`. */
  lemma LikeNewHasNew(u: string)
    requires Contains(u, "LIKE NEW")
    ensures Contains(u, "NEW")
  {
    var i :| OccursAt(u, "LIKE NEW", i);
    assert u[i + 5..i + 8] == u[i..i + 8][5..8];
    assert OccursAt(u, "NEW", i + 5);
  }

  /** `str(data.get("condition", "USED_GOOD")).upper()`, mapped onto the valid names. */
  function NormalizeCondition(raw: string): (r: string)
    ensures r in ValidConditions
    ensures Upper(raw) in ValidConditions ==> r == Upper(raw)
    ensures Upper(raw) !in ValidConditions ==> r == MapConditionVariant(Upper(raw))
  {
    var u := Upper(raw);
    if u in ValidConditions then u else MapConditionVariant(u)
  }

  lemma UpperFallback(s: string)
    requires s in {"NEW", "USED_EXCELLENT", "USED_GOOD"}
    ensures Upper(s) == s
  {
    UpperNoSmalls(s);
  }

  /** Normalising a normalised condition changes nothing. */
  lemma ConditionIdempotent(raw: string)
    ensures NormalizeCondition(NormalizeCondition(raw)) == NormalizeCondition(raw)
  {
    var u := Upper(raw);
    var r := NormalizeCondition(raw);
    if u in ValidConditions {
      UpperIdempotent(raw);
    } else {
      UpperFallback(r);
    }
  }

  /** Every value is non-empty and already stripped. */
  predicate NormalValues(vals: seq<string>)
  {
    forall j :: 0 <= j < |vals| ==> vals[j] != [] && Strip(vals[j]) == vals[j]
  }

  /**
   * What one value contributes: its stripped text, when the value is truthy
   * and that text is not blank.
   */
  function ListValue(x: Json): (r: seq<string>)
    ensures |r| <= 1
    ensures NormalValues(r)
  {
    StripIdempotent(Str(x));
    if Truthy(x) && !IsBlank(Str(x)) then [Strip(Str(x))] else []
  }

  /** `[str(v).strip() for v in value if v and str(v).strip()]`. */
  function ListValues(items: seq<Json>): (r: seq<string>)
    ensures |r| <= |items|
    ensures NormalValues(r)
  {
    if items == [] then [] else ListValue(items[0]) + ListValues(items[1..])
  }

  lemma DropConcat<T>(a: seq<T>, b: seq<T>)
    requires a != []
    ensures (a + b)[0] == a[0] && (a + b)[1..] == a[1..] + b
  {
  }

  lemma ConcatAssociative(a: seq<string>, b: seq<string>, c: seq<string>)
    ensures a + (b + c) == (a + b) + c
  {
  }

  /** A one-entry list gives that entry's contribution. */
  lemma ListValuesSingle(x: Json)
    ensures ListValues([x]) == ListValue(x)
  {
    assert [x][1..] == [];
  }

  /** The comprehension works entry by entry, in order: it distributes over concatenation. */
  lemma {:induction false} ListValuesAppend(a: seq<Json>, b: seq<Json>)
    ensures ListValues(a + b) == ListValues(a) + ListValues(b)
  {
    if a == [] {
      assert a + b == b;
    } else {
      ListValuesAppend(a[1..], b);
      ListValuesAppendStep(a, b);
    }
  }

  lemma ListValuesAppendStep(a: seq<Json>, b: seq<Json>)
    requires a != [] && ListValues(a[1..] + b) == ListValues(a[1..]) + ListValues(b)
    ensures ListValues(a + b) == ListValues(a) + ListValues(b)
  {
    var h, x, y := ListValue(a[0]), ListValues(a[1..]), ListValues(b);
    DropConcat(a, b);
    assert ListValues(a) == h + x;
    assert ListValues(a + b) == h + ListValues(a[1..] + b);
    ConcatAssociative(h, x, y);
  }

  /** Every non-blank string entry of a list survives, stripped. */
  lemma {:induction false} ListValuesKeepStrings(items: seq<Json>, k: int)
    requires 0 <= k < |items| && items[k].JStr? && !IsBlank(items[k].s)
    ensures Strip(items[k].s) in ListValues(items)
  {
    if k == 0 {
      assert Str(items[0]) == items[0].s;
      assert items[0].s != [];
    } else {
      assert items[1..][k - 1] == items[k];
      ListValuesKeepStrings(items[1..], k - 1);
    }
  }

  /** One aspect value made into a list of stripped, non-empty strings. */
  function AspectValues(value: Json): (r: seq<string>)
    ensures forall k :: 0 <= k < |r| ==> r[k] != [] && Strip(r[k]) == r[k]
  {
    if value.JList? then ListValues(value.items) else ListValue(value)
  }

  /** What the loop computes for one entry: the stripped key and its values. */
  function Entry(f: (string, Json)): (string, seq<string>)
  {
    (Strip(f.0), AspectValues(f.1))
  }

  function Entries(fields: seq<(string, Json)>): (r: seq<(string, seq<string>)>)
    ensures |r| == |fields|
    ensures forall i :: 0 <= i < |fields| ==> r[i] == Entry(fields[i])
  {
    seq(|fields|, i requires 0 <= i < |fields| => Entry(fields[i]))
  }

  /** Storing entries in order: one with values overwrites its key, one without is dropped. */
  function StoreAll(entries: seq<(string, seq<string>)>): map<string, seq<string>>
    decreases |entries|
  {
    if entries == [] then map[]
    else
      var m := StoreAll(entries[..|entries| - 1]);
      var (k, values) := entries[|entries| - 1];
      if values != [] then m[k := values] else m
  }

  /**
   * The aspects loop as a fold over the entries. (The loop's `continue` on
   * None needs no case here, as None has no values.)
   */
  function AspectsOf(fields: seq<(string, Json)>): map<string, seq<string>>
  {
    StoreAll(Entries(fields))
  }

  /** None is skipped: it has no values. */
  lemma NullHasNoValues(value: Json)
    requires value.JNull?
    ensures AspectValues(value) == []
  {
  }

  lemma {:induction false} StoreAllKeys(entries: seq<(string, seq<string>)>, k: string)
    ensures k in StoreAll(entries) <==> exists i :: 0 <= i < |entries| && entries[i].0 == k && entries[i].1 != []
    decreases |entries|
  {
    if entries != [] {
      var n := |entries| - 1;
      var init := entries[..n];
      StoreAllKeys(init, k);
      assert forall i :: 0 <= i < n ==> init[i] == entries[i];
      if k in StoreAll(init) {
        var i :| 0 <= i < n && init[i].0 == k && init[i].1 != [];
        assert entries[i].0 == k && entries[i].1 != [];
      }
    }
  }

  lemma {:induction false} StoreAllLastWins(entries: seq<(string, seq<string>)>, i: int)
    requires 0 <= i < |entries| && entries[i].1 != []
    requires forall j :: i < j < |entries| ==> entries[j].0 != entries[i].0 || entries[j].1 == []
    ensures entries[i].0 in StoreAll(entries) && StoreAll(entries)[entries[i].0] == entries[i].1
    decreases |entries|
  {
    var n := |entries| - 1;
    if i < n {
      var init := entries[..n];
      assert init[i] == entries[i];
      assert forall j :: i < j < |init| ==> init[j] == entries[j];
      StoreAllLastWins(init, i);
    }
  }

  lemma {:induction false} StoreAllValues(entries: seq<(string, seq<string>)>, k: string)
    requires k in StoreAll(entries)
    ensures exists i :: 0 <= i < |entries| && entries[i] == (k, StoreAll(entries)[k])
    decreases |entries|
  {
    var n := |entries| - 1;
    var init := entries[..n];
    if entries[n].0 != k || entries[n].1 == [] {
      StoreAllValues(init, k);
      var i :| 0 <= i < |init| && init[i] == (k, StoreAll(init)[k]);
      assert entries[i] == init[i];
    }
  }

  /** A key is present exactly when some entry with that stripped key has values. */
  lemma AspectsKeys(fields: seq<(string, Json)>, k: string)
    ensures k in AspectsOf(fields) <==>
      exists i :: 0 <= i < |fields| && Strip(fields[i].0) == k && AspectValues(fields[i].1) != []
  {
    var e := Entries(fields);
    StoreAllKeys(e, k);
    if k in AspectsOf(fields) {
      var i :| 0 <= i < |e| && e[i].0 == k && e[i].1 != [];
      assert Strip(fields[i].0) == k && AspectValues(fields[i].1) != [];
    }
  }

  /** A later entry overwrites an earlier one with the same stripped key: the last one with values wins. */
  lemma AspectsLastWins(fields: seq<(string, Json)>, i: int)
    requires 0 <= i < |fields| && AspectValues(fields[i].1) != []
    requires forall j :: i < j < |fields| ==> Strip(fields[j].0) != Strip(fields[i].0) || AspectValues(fields[j].1) == []
    ensures Strip(fields[i].0) in AspectsOf(fields)
    ensures AspectsOf(fields)[Strip(fields[i].0)] == AspectValues(fields[i].1)
  {
    var e := Entries(fields);
    assert forall j :: i < j < |e| ==> e[j] == Entry(fields[j]);
    StoreAllLastWins(e, i);
  }

  /** Every key is stripped and every value a non-empty list of non-blank stripped strings. */
  lemma AspectsWellFormed(fields: seq<(string, Json)>)
    ensures forall k :: k in AspectsOf(fields) ==>
      Strip(k) == k && AspectsOf(fields)[k] != []
      && forall j :: 0 <= j < |AspectsOf(fields)[k]| ==>
           AspectsOf(fields)[k][j] != [] && Strip(AspectsOf(fields)[k][j]) == AspectsOf(fields)[k][j]
  {
    var e := Entries(fields);
    forall k | k in AspectsOf(fields)
      ensures Strip(k) == k && AspectsOf(fields)[k] != []
      ensures forall j :: 0 <= j < |AspectsOf(fields)[k]| ==>
           AspectsOf(fields)[k][j] != [] && Strip(AspectsOf(fields)[k][j]) == AspectsOf(fields)[k][j]
    {
      StoreAllValues(e, k);
      var i :| 0 <= i < |e| && e[i] == (k, StoreAll(e)[k]);
      StripIdempotent(fields[i].0);
      StoreAllKeys(e, k);
      if AspectsOf(fields)[k] == [] {
        var i' :| 0 <= i' < |e| && e[i'].0 == k && e[i'].1 != [];
        StoreAllNonEmpty(e, k);
      }
    }
  }

  lemma {:induction false} StoreAllNonEmpty(entries: seq<(string, seq<string>)>, k: string)
    requires k in StoreAll(entries)
    ensures StoreAll(entries)[k] != []
    decreases |entries|
  {
    var n := |entries| - 1;
    if entries[n].0 != k || entries[n].1 == [] {
      StoreAllNonEmpty(entries[..n], k);
    }
  }

  /** `data.get("price", 9.99)`. */
  function PriceField(fields: seq<(string, Json)>): Json
  {
    GetOr(fields, "price", JNum(Finite(9.99), "9.99"))
  }

  /**
   * `_normalize_ai_response` as a function of the decoded reply: a value
   * that is not an object has no `get`, and a price too large for a double
   * raises the uncaught `OverflowError`.
   */
  function NormalizedResponse(data: Json): (r: Result<AiListing>)
    ensures r.Err? <==> !data.JObj? || IntTooLarge(PriceField(data.fields))
    ensures data.JObj? && r.Err? ==> r.error == OverflowError(IntTooLargeMessage)
  {
    if !data.JObj? then Err(NoAttribute(data, "get"))
    else
      match NormalizePrice(PriceField(data.fields))
      case Err(e) => Err(e)
      case Ok(p) => Ok(ListingOf(data.fields, p))
  }

  /** The listing read from the fields of a reply object, each with its default when missing, at the given price. */
  function ListingOf(fields: seq<(string, Json)>, pricePence: int): AiListing
  {
    AiListing(
      NormalizeTitle(GetOr(fields, "title", JStr("Untitled Item"))),
      NormalizeDescription(GetOr(fields, "description", JStr(""))),
      pricePence,
      NormalizeCondition(Str(GetOr(fields, "condition", JStr("USED_GOOD")))),
      AspectsField(fields),
      Strip(Str(GetOr(fields, "category_keywords", JStr("")))))
  }

  /** The `aspects` entry: normalised when it is an object, otherwise no aspects. */
  function AspectsField(fields: seq<(string, Json)>): map<string, seq<string>>
  {
    var aspects := GetOr(fields, "aspects", JObj([]));
    if aspects.JObj? then AspectsOf(aspects.fields) else map[]
  }

  /** What every successful normalisation guarantees of the listing draft. */
  predicate WellFormedListing(l: AiListing)
  {
    0 < |l.title| <= TitleLimit && l.description != []
    && MinPricePence <= l.pricePence <= MaxPricePence
    && l.condition in ValidConditions
    && (forall k :: k in l.aspects ==> l.aspects[k] != [])
    && Strip(l.categoryKeywords) == l.categoryKeywords
  }

  lemma NormalizedIsWellFormed(data: Json)
    requires data.JObj?
    ensures NormalizedResponse(data).Ok? <==> !IntTooLarge(PriceField(data.fields))
    ensures NormalizedResponse(data).Ok? ==> WellFormedListing(NormalizedResponse(data).value)
  {
    var aspects := GetOr(data.fields, "aspects", JObj([]));
    if aspects.JObj? { AspectsWellFormed(aspects.fields); }
    StripIdempotent(Str(GetOr(data.fields, "category_keywords", JStr(""))));
  }

  // ---------------------------------------------------------------------
  // Normalising a normalised listing again changes nothing

  /** An aspects map as the normalisation leaves it: stripped names, each with stripped non-empty values. */
  predicate NormalAspects(m: map<string, seq<string>>)
  {
    forall k :: k in m ==> Strip(k) == k && m[k] != [] && NormalValues(m[k])
  }

  function JStrs(vals: seq<string>): seq<Json>
  {
    seq(|vals|, i requires 0 <= i < |vals| => JStr(vals[i]))
  }

  /** `af` is a JSON object for the map `m`: each entry a name of `m` with its values as a list of strings. */
  predicate ListsAspects(af: seq<(string, Json)>, m: map<string, seq<string>>)
  {
    && (forall i :: 0 <= i < |af| ==> af[i].0 in m && af[i].1 == JList(JStrs(m[af[i].0])))
    && (forall k :: k in m ==> exists i :: 0 <= i < |af| && af[i].0 == k)
  }

  lemma ListValueOfString(v: string)
    requires v != [] && Strip(v) == v
    ensures ListValue(JStr(v)) == [v]
  {
    assert Str(JStr(v)) == v;
  }

  lemma {:induction false} ListValuesOfStrings(vals: seq<string>)
    requires NormalValues(vals)
    ensures ListValues(JStrs(vals)) == vals
  {
    if vals != [] {
      var items := JStrs(vals);
      assert items[1..] == JStrs(vals[1..]);
      ListValueOfString(vals[0]);
      ListValuesOfStrings(vals[1..]);
      assert ListValues(items) == ListValue(items[0]) + ListValues(items[1..]);
      assert vals == [vals[0]] + vals[1..];
    }
  }

  /** The entries `e`, stored in order, list exactly the keys of `m` with their values. */
  predicate EntriesOf(e: seq<(string, seq<string>)>, m: map<string, seq<string>>)
  {
    && (forall i :: 0 <= i < |e| ==> e[i].0 in m && e[i].1 == m[e[i].0])
    && (forall k :: k in m ==> exists i :: 0 <= i < |e| && e[i].0 == k)
  }

  lemma StoreAllOfEntries(e: seq<(string, seq<string>)>, m: map<string, seq<string>>)
    requires EntriesOf(e, m) && forall k :: k in m ==> m[k] != []
    ensures StoreAll(e) == m
  {
    forall k
      ensures k in StoreAll(e) <==> k in m
    {
      StoreAllKeys(e, k);
      if k in m {
        var i :| 0 <= i < |e| && e[i].0 == k;
        assert e[i].1 != [];
      }
    }
    forall k | k in StoreAll(e)
      ensures StoreAll(e)[k] == m[k]
    {
      StoreAllValues(e, k);
    }
    assert StoreAll(e).Keys == m.Keys;
  }

  lemma EntryListed(f: (string, Json), m: map<string, seq<string>>)
    requires NormalAspects(m) && f.0 in m && f.1 == JList(JStrs(m[f.0]))
    ensures Entry(f) == (f.0, m[f.0])
  {
    ListValuesOfStrings(m[f.0]);
  }

  /** Feeding normalised aspects back in, as a JSON object, gives the same map. */
  lemma AspectsFixedPoint(af: seq<(string, Json)>, m: map<string, seq<string>>)
    requires NormalAspects(m) && ListsAspects(af, m)
    ensures AspectsOf(af) == m
  {
    var e := Entries(af);
    forall i | 0 <= i < |af|
      ensures e[i] == (af[i].0, m[af[i].0])
    {
      EntryListed(af[i], m);
    }
    forall k | k in m
      ensures exists i :: 0 <= i < |e| && e[i].0 == k
    {
      var i :| 0 <= i < |af| && af[i].0 == k;
      assert e[i].0 == k;
    }
    StoreAllOfEntries(e, m);
  }

  /** `out` is the JSON form of the listing `l`, as `json.dumps` followed by `json.loads` would give it. */
  predicate Encodes(out: Json, l: AiListing)
  {
    && out.JObj?
    && Get(out.fields, "title") == Some(JStr(l.title))
    && Get(out.fields, "description") == Some(JStr(l.description))
    && Get(out.fields, "price").Some? && Get(out.fields, "price").value.JNum?
    && Get(out.fields, "price").value.n == Finite(l.pricePence as real / 100.0)
    && Get(out.fields, "condition") == Some(JStr(l.condition))
    && Get(out.fields, "aspects").Some? && Get(out.fields, "aspects").value.JObj?
    && ListsAspects(Get(out.fields, "aspects").value.fields, l.aspects)
    && Get(out.fields, "category_keywords") == Some(JStr(l.categoryKeywords))
  }

  /** `_normalize_ai_response` is idempotent: normalising its own output, as JSON, gives that output back. */
  lemma NormalizeIdempotent(data: Json, out: Json)
    requires NormalizedResponse(data).Ok? && Encodes(out, NormalizedResponse(data).value)
    ensures NormalizedResponse(out) == NormalizedResponse(data)
  {
    var fields, of := data.fields, out.fields;
    var l := NormalizedResponse(data).value;
    assert l == ListingOf(fields, l.pricePence);
    assert NormalizePrice(PriceField(of)) == Ok(l.pricePence) by {
      Found(of, "price", JNum(Finite(9.99), "9.99"));
      PriceAgain(l.pricePence, Get(of, "price").value);
    }
    var l2 := ListingOf(of, l.pricePence);
    assert NormalizedResponse(out) == Ok(l2);
    assert l2.title == l.title by {
      Found(of, "title", JStr("Untitled Item"));
      TitleAgain(GetOr(fields, "title", JStr("Untitled Item")));
    }
    assert l2.description == l.description by {
      Found(of, "description", JStr(""));
      DescriptionAgain(GetOr(fields, "description", JStr("")));
    }
    assert l2.condition == l.condition by {
      Found(of, "condition", JStr("USED_GOOD"));
      ConditionIdempotent(Str(GetOr(fields, "condition", JStr("USED_GOOD"))));
    }
    assert l2.categoryKeywords == l.categoryKeywords by {
      Found(of, "category_keywords", JStr(""));
      StripIdempotent(Str(GetOr(fields, "category_keywords", JStr(""))));
    }
    assert l2.aspects == l.aspects by {
      NormalAspectsOf(fields);
      AspectsAgain(of, l.aspects);
    }
  }

  lemma Found(fields: seq<(string, Json)>, key: string, default: Json)
    requires Get(fields, key).Some?
    ensures GetOr(fields, key, default) == Get(fields, key).value
  {
  }

  /** A normalised title reads back unchanged. */
  lemma TitleAgain(t: Json)
    ensures NormalizeTitle(JStr(NormalizeTitle(t))) == NormalizeTitle(t)
  {
    TitleFixedPoint(NormalizeTitle(t));
  }

  /** A normalised description reads back unchanged. */
  lemma DescriptionAgain(d: Json)
    ensures NormalizeDescription(JStr(NormalizeDescription(d))) == NormalizeDescription(d)
  {
    DescriptionFixedPoint(NormalizeDescription(d));
  }

  /** A normalised price, written back in pounds, reads back as the same number of pence. */
  lemma PriceAgain(p: int, w: Json)
    requires MinPricePence <= p <= MaxPricePence
    requires w.JNum? && w.n == Finite(p as real / 100.0)
    ensures NormalizePrice(w) == Ok(p)
  {
    PriceFixedPoint(p, w.text);
  }

  /** Normalised aspects, written back as an object of string lists, read back unchanged. */
  lemma AspectsAgain(of: seq<(string, Json)>, m: map<string, seq<string>>)
    requires NormalAspects(m)
    requires Get(of, "aspects").Some? && Get(of, "aspects").value.JObj?
    requires ListsAspects(Get(of, "aspects").value.fields, m)
    ensures AspectsField(of) == m
  {
    AspectsFixedPoint(Get(of, "aspects").value.fields, m);
  }

  lemma NormalAspectsOf(fields: seq<(string, Json)>)
    ensures NormalAspects(AspectsField(fields))
  {
    var aspects := GetOr(fields, "aspects", JObj([]));
    if aspects.JObj? {
      AspectsWellFormed(aspects.fields);
    }
  }

  /** The aspects loop of `_normalize_ai_response`. */
  method NormalizeAspects(fields: seq<(string, Json)>) returns (normalized: map<string, seq<string>>)
    ensures normalized == AspectsOf(fields)
  {
    normalized := map[];
    var i := 0;
    while i < |fields|
      invariant 0 <= i <= |fields|
      invariant normalized == StoreAll(Entries(fields)[..i])
    {
      var (key, value) := fields[i];
      assert Entries(fields)[..i + 1][..i] == Entries(fields)[..i];
      if value.JNull? {
        NullHasNoValues(value);
      } else {
        var values: seq<string>;
        if value.JList? {
          values := ListValues(value.items);
        } else {
          var s := Strip(Str(value));
          values := if Truthy(value) && s != [] then [s] else [];
        }
        if values != [] {
          normalized := normalized[Strip(key) := values];
        }
      }
      i := i + 1;
    }
    assert Entries(fields)[..i] == Entries(fields);
  }

  /** `_normalize_ai_response(data)`. */
  method NormalizeAiResponse(data: Json) returns (r: Result<AiListing>)
    ensures r == NormalizedResponse(data)
  {
    if !data.JObj? {
      return Err(NoAttribute(data, "get"));
    }
    var fields := data.fields;
    var price := NormalizePrice(GetOr(fields, "price", JNum(Finite(9.99), "9.99")));
    if price.Err? {
      return Err(price.error);
    }
    var aspectsValue := GetOr(fields, "aspects", JObj([]));
    var aspects: map<string, seq<string>> := map[];
    if aspectsValue.JObj? {
      aspects := NormalizeAspects(aspectsValue.fields);
    }
    r := Ok(AiListing(
      NormalizeTitle(GetOr(fields, "title", JStr("Untitled Item"))),
      NormalizeDescription(GetOr(fields, "description", JStr(""))),
      price.value,
      NormalizeCondition(Str(GetOr(fields, "condition", JStr("USED_GOOD")))),
      aspects,
      Strip(Str(GetOr(fields, "category_keywords", JStr(""))))));
  }

  /**
   * The reply-handling part of `analyze_image`: the JSON span, `json.loads`
   * (given as `loads`, with its `JSONDecodeError` as the error) and the
   * normalisation. A decoding error becomes "Invalid JSON from AI: ...";
   * any other failure is caught by the last handler and becomes
   * "Image analysis failed: ...".
   */
  method AnalyseReply(content: string, loads: string -> Result<Json>) returns (r: Result<AiListing>)
    ensures r.Ok? <==> ExtractJsonSpan(content).Ok? && loads(ExtractJsonSpan(content).value).Ok?
                       && loads(ExtractJsonSpan(content).value).value.JObj?
                       && !IntTooLarge(PriceField(loads(ExtractJsonSpan(content).value).value.fields))
    ensures ExtractJsonSpan(content).Err? ==>
              r == Err(AnalysisError("Image analysis failed: AI did not return valid JSON"))
    ensures ExtractJsonSpan(content).Ok? ==>
              var parsed := loads(ExtractJsonSpan(content).value);
              && (parsed.Err? ==> r == Err(AnalysisError("Invalid JSON from AI: " + parsed.error.message)))
              && (parsed.Ok? && !parsed.value.JObj? ==>
                    r == Err(AnalysisError("Image analysis failed: " + NoAttribute(parsed.value, "get").message)))
              && (parsed.Ok? && parsed.value.JObj? && IntTooLarge(PriceField(parsed.value.fields)) ==>
                    r == Err(AnalysisError("Image analysis failed: " + IntTooLargeMessage)))
              && (parsed.Ok? && parsed.value.JObj? && !IntTooLarge(PriceField(parsed.value.fields)) ==>
                    WellFormedListing(r.value) && r == NormalizedResponse(parsed.value))
  {
    var span := ExtractJsonSpan(content);
    if span.Err? {
      return Err(AnalysisError("Image analysis failed: AI did not return valid JSON"));
    }
    var parsed := loads(span.value);
    if parsed.Err? {
      return Err(AnalysisError("Invalid JSON from AI: " + parsed.error.message));
    }
    var normalized := NormalizeAiResponse(parsed.value);
    if normalized.Err? {
      return Err(AnalysisError("Image analysis failed: " + normalized.error.message));
    }
    NormalizedIsWellFormed(parsed.value);
    r := normalized;
  }
}
