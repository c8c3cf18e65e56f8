/**
 * The local category matcher: normalising the records of a parsed category
 * dump, building the search query from an item's title, keywords and
 * priority aspects, ranking the categories, and the fallback chain that
 * picks one category ID.
 */
module CategoryMatcher {
  import opened Wrappers
  import opened Text
  import opened JsonValue
  import opened Tokens
  import opened Ranking

  /** `cat.get(key)`: the stored value, or `None`. */
  function Lookup(fields: seq<(string, Json)>, key: string): Json
  {
    GetOr(fields, key, JNull)
  }

  /** The index of the first key, from `k` on, whose value is truthy, or `|keys|` when there is none. */
  function FirstTruthyFrom(fields: seq<(string, Json)>, keys: seq<string>, k: nat): (i: nat)
    requires k <= |keys|
    ensures k <= i <= |keys|
    ensures forall j :: k <= j < i ==> !Truthy(Lookup(fields, keys[j]))
    ensures i < |keys| ==> Truthy(Lookup(fields, keys[i]))
    decreases |keys| - k
  {
    if k == |keys| then k
    else if Truthy(Lookup(fields, keys[k])) then k
    else FirstTruthyFrom(fields, keys, k + 1)
  }

  /**
   * `cat.get(k0) or cat.get(k1) or ... or ""`: the first truthy value
   * stored under one of `keys`, or the empty string when none is.
   */
  function FirstTruthy(fields: seq<(string, Json)>, keys: seq<string>): (r: Json)
    ensures r == JStr("") <==> forall i :: 0 <= i < |keys| ==> !Truthy(Lookup(fields, keys[i]))
    ensures r != JStr("") ==>
              exists i :: 0 <= i < |keys| && r == Lookup(fields, keys[i]) && Truthy(r)
                          && forall j :: 0 <= j < i ==> !Truthy(Lookup(fields, keys[j]))
  {
    var i := FirstTruthyFrom(fields, keys, 0);
    if i < |keys| then Lookup(fields, keys[i]) else JStr("")
  }

  /** Every number among the values prints as some text, as every number `json.loads` returns does. */
  predicate NumbersPrinted(fields: seq<(string, Json)>)
  {
    forall i :: 0 <= i < |fields| ==> (fields[i].1.JNum? ==> fields[i].1.text != "")
  }

  /** `str(v)` of a truthy value is never empty. */
  lemma TruthyStrNonEmpty(v: Json)
    requires v.JNum? ==> v.text != ""
    ensures Truthy(v) ==> Str(v) != ""
  {
    if Truthy(v) && !v.JStr? {
      match v
      case JNull =>
      case JBool(b) =>
      case JNum(_, _) =>
      case JList(_) =>
      case JObj(_) =>
    }
  }

  /** A value found by `FirstTruthy` is stored in the record, so it prints like the record's numbers do. */
  lemma LookupPrinted(fields: seq<(string, Json)>, v: Json)
    requires NumbersPrinted(fields)
    requires v == JStr("") || exists k :: v == Lookup(fields, k)
    ensures v.JNum? ==> v.text != ""
  {
    if v != JStr("") {
      var k :| v == Lookup(fields, k);
      if Get(fields, k).Some? {
        var i :| 0 <= i < |fields| && fields[i] == (k, Get(fields, k).value);
      }
    }
  }

  /** The first truthy value of a record whose numbers print has a non-empty `str()`. */
  lemma FirstTruthyPrints(fields: seq<(string, Json)>, keys: seq<string>)
    ensures NumbersPrinted(fields) && FirstTruthy(fields, keys) != JStr("") ==> Str(FirstTruthy(fields, keys)) != ""
  {
    var v := FirstTruthy(fields, keys);
    if NumbersPrinted(fields) && v != JStr("") {
      LookupPrinted(fields, v);
      TruthyStrNonEmpty(v);
    }
  }

  const IdKeys: seq<string> := ["CategoryID", "id", "categoryId"]
  const NameKeys: seq<string> := ["CategoryName", "name", "categoryName"]

  /** `bool(cat.get("LeafCategory", cat.get("leaf", False)))`. */
  predicate LeafOf(fields: seq<(string, Json)>)
  {
    match Get(fields, "LeafCategory")
    case Some(v) => Truthy(v)
    case None => match Get(fields, "leaf") case Some(v) => Truthy(v) case None => false
  }

  /** One entry of the dump: kept, as `{id, name, leaf}`, when both its ID and its name are non-empty. */
  function NormalizeRecord(fields: seq<(string, Json)>): (r: Option<Category>)
    ensures NumbersPrinted(fields) ==>
              (r.Some? <==> (exists i :: 0 <= i < |IdKeys| && Truthy(Lookup(fields, IdKeys[i])))
                            && (exists i :: 0 <= i < |NameKeys| && Truthy(Lookup(fields, NameKeys[i]))))
    ensures r.Some? ==> r.value.id != "" && r.value.name != ""
                        && r.value.id == Str(FirstTruthy(fields, IdKeys))
                        && r.value.name == Str(FirstTruthy(fields, NameKeys))
                        && r.value.leaf == LeafOf(fields)
  {
    var idValue := FirstTruthy(fields, IdKeys);
    var nameValue := FirstTruthy(fields, NameKeys);
    FirstTruthyPrints(fields, IdKeys);
    FirstTruthyPrints(fields, NameKeys);
    var id := Str(idValue);
    var name := Str(nameValue);
    if id != "" && name != "" then Some(Category(id, name, LeafOf(fields))) else None
  }

  /** `data.get("categories", data)` for an object, else `data` itself. */
  function CategoryList(data: Json): Json
  {
    if data.JObj? then GetOr(data.fields, "categories", data) else data
  }

  /** Every entry is an object: otherwise `cat.get` raises and the loader returns `[]`. */
  predicate AllObjects(items: seq<Json>)
  {
    forall i :: 0 <= i < |items| ==> items[i].JObj?
  }

  /** The normalised records of a list of objects, in order, skipping the incomplete ones. */
  function NormalizeAll(items: seq<Json>): (r: seq<Category>)
    requires AllObjects(items)
    ensures |r| <= |items|
    ensures forall c :: c in r ==> c.id != "" && c.name != ""
  {
    if items == [] then []
    else
      var rec := NormalizeRecord(items[|items| - 1].fields);
      NormalizeAll(items[..|items| - 1]) + (if rec.Some? then [rec.value] else [])
  }

  /**
   * `load_categories()` over the already-decoded file: `None` when the file
   * is missing or is not JSON. Anything but a list of objects (a `None`
   * list, a string, a number, a dict iterated by its keys, a list with a
   * non-object entry) makes the loop raise, which the loader turns into `[]`.
   */
  function LoadedCategories(data: Option<Json>): seq<Category>
  {
    if data.None? then []
    else
      var cats := CategoryList(data.value);
      if cats.JList? && AllObjects(cats.items) then NormalizeAll(cats.items) else []
  }

  /**
   * Every loaded record comes from one entry of the list. The converse is
   * `LoadedCategoriesComplete`; order and multiplicity follow from
   * `NormalizeAllSingle` and `NormalizeAllAppend`.
   */
  lemma {:induction false} LoadedCategoriesSpec(items: seq<Json>)
    requires AllObjects(items)
    ensures forall c :: c in NormalizeAll(items) ==>
              exists i :: 0 <= i < |items| && NormalizeRecord(items[i].fields) == Some(c)
  {
    if items != [] {
      var init := items[..|items| - 1];
      assert AllObjects(init);
      LoadedCategoriesSpec(init);
      assert forall i :: 0 <= i < |init| ==> init[i] == items[i];
    }
  }

  /** A one-entry list gives that entry's record when it is complete, else nothing. */
  lemma NormalizeAllSingle(x: Json)
    requires x.JObj?
    ensures NormalizeAll([x]) == (if NormalizeRecord(x.fields).Some? then [NormalizeRecord(x.fields).value] else [])
  {
    assert [x][..0] == [];
  }

  /** The loader works entry by entry, in order: it distributes over concatenation. */
  lemma {:induction false} NormalizeAllAppend(a: seq<Json>, b: seq<Json>)
    requires AllObjects(a) && AllObjects(b)
    ensures AllObjects(a + b)
    ensures NormalizeAll(a + b) == NormalizeAll(a) + NormalizeAll(b)
    decreases |b|
  {
    if b == [] {
      assert a + b == a;
    } else {
      var n := |b| - 1;
      assert (a + b)[..|a + b| - 1] == a + b[..n];
      assert (a + b)[|a + b| - 1] == b[n];
      assert AllObjects(b[..n]);
      NormalizeAllAppend(a, b[..n]);
    }
  }

  /** Every complete entry of the list is loaded. */
  lemma LoadedCategoriesComplete(items: seq<Json>, i: int)
    requires AllObjects(items) && 0 <= i < |items| && NormalizeRecord(items[i].fields).Some?
    ensures NormalizeRecord(items[i].fields).value in NormalizeAll(items)
  {
    var c := NormalizeRecord(items[i].fields).value;
    var pre, post := items[..i + 1], items[i + 1..];
    assert AllObjects(items[..i]);
    NormalizeAllSnoc(items, i);
    assert c in NormalizeAll(pre);
    SplitAt(items, i + 1);
    assert AllObjects(post);
    NormalizeAllAppend(pre, post);
  }

  lemma SplitAt<T>(s: seq<T>, k: int)
    requires 0 <= k <= |s|
    ensures s[..k] + s[k..] == s
  {
  }

  lemma NormalizeAllSnoc(items: seq<Json>, i: nat)
    requires i < |items| && AllObjects(items[..i]) && items[i].JObj?
    ensures AllObjects(items[..i + 1])
    ensures NormalizeAll(items[..i + 1]) == NormalizeAll(items[..i])
              + (if NormalizeRecord(items[i].fields).Some? then [NormalizeRecord(items[i].fields).value] else [])
  {
    assert items[..i + 1][..i] == items[..i];
  }

  /** The loader's loop: append every complete record; stop with `[]` at the first non-object entry. */
  method LoadCategories(data: Option<Json>) returns (normalized: seq<Category>)
    ensures normalized == LoadedCategories(data)
  {
    if data.None? {
      return [];
    }
    var cats := CategoryList(data.value);
    if !cats.JList? {
      return [];
    }
    var items := cats.items;
    normalized := [];
    var i := 0;
    while i < |items|
      invariant 0 <= i <= |items|
      invariant AllObjects(items[..i])
      invariant normalized == NormalizeAll(items[..i])
    {
      if !items[i].JObj? {
        assert !AllObjects(items);
        return [];
      }
      var rec := NormalizeRecord(items[i].fields);
      NormalizeAllSnoc(items, i);
      if rec.Some? {
        normalized := normalized + [rec.value];
      }
      i := i + 1;
    }
    assert items[..i] == items;
  }

  /** The aspects consulted for the query, in this order. */
  const PriorityAspects: seq<string> :=
    ["Type", "Garment Type", "Product Type", "Department", "Gender", "Style", "Category", "Brand"]

  /** `values[:2]` for each of `names` that the aspects hold, in order. */
  function AspectParts(aspects: map<string, seq<string>>, names: seq<string>): seq<string>
  {
    if names == [] then []
    else
      var n := names[|names| - 1];
      AspectParts(aspects, names[..|names| - 1]) + (if n in aspects then Slice(aspects[n], 2) else [])
  }

  /**
   * The query parts: the title, the keywords when non-empty, and when the
   * aspects are non-empty the first two values of each priority aspect.
   * A `None` title, keywords or aspects is passed as empty.
   */
  function QueryParts(title: string, keywords: string, aspects: map<string, seq<string>>): seq<string>
  {
    [title] + (if keywords != "" then [keywords] else [])
    + (if |aspects| > 0 then AspectParts(aspects, PriorityAspects) else [])
  }

  /** Every aspect part is one of the first two values of a priority aspect, and there are at most two per aspect. */
  lemma {:induction false} AspectPartsSpec(aspects: map<string, seq<string>>, names: seq<string>)
    ensures |AspectParts(aspects, names)| <= 2 * |names|
    ensures forall p :: p in AspectParts(aspects, names) ==>
              exists k :: 0 <= k < |names| && names[k] in aspects && p in Slice(aspects[names[k]], 2)
  {
    if names != [] {
      var init := names[..|names| - 1];
      AspectPartsSpec(aspects, init);
      assert forall k :: 0 <= k < |init| ==> init[k] == names[k];
    }
  }

  /** The query's tokens are the title's, then the keywords', then each aspect value's, in order. */
  lemma QueryTokens(title: string, keywords: string, aspects: map<string, seq<string>>)
    ensures Tokenize(Join(" ", QueryParts(title, keywords, aspects)))
            == Tokenize(title) + TokenizeAll(QueryParts(title, keywords, aspects)[1..])
  {
    var parts := QueryParts(title, keywords, aspects);
    TokenizeJoin(parts);
  }

  /** The suggestions `suggest_category` returns: 3 points per whole-word token. */
  function SuggestedCategories(categories: seq<Category>, title: string, aspects: map<string, seq<string>>,
                               keywords: string, topK: int): seq<Scored>
  {
    Suggestions(categories, Tokenize(Join(" ", QueryParts(title, keywords, aspects))), 3, topK)
  }

  /** The loop over the priority aspects: extend the parts with `values[:2]` of each non-empty one. */
  method AppendAspectValues(parts: seq<string>, aspects: map<string, seq<string>>, names: seq<string>)
    returns (extended: seq<string>)
    ensures extended == parts + AspectParts(aspects, names)
  {
    extended := parts;
    var i := 0;
    while i < |names|
      invariant 0 <= i <= |names|
      invariant extended == parts + AspectParts(aspects, names[..i])
    {
      var values := if names[i] in aspects then aspects[names[i]] else [];
      if values != [] {
        extended := extended + Slice(values, 2);
      }
      assert names[..i + 1][..i] == names[..i];
      i := i + 1;
    }
    assert names[..i] == names;
  }

  /** `query_parts`, built step by step. */
  method BuildQueryParts(title: string, keywords: string, aspects: map<string, seq<string>>)
    returns (queryParts: seq<string>)
    ensures queryParts == QueryParts(title, keywords, aspects)
  {
    queryParts := [title];
    if keywords != "" {
      queryParts := queryParts + [keywords];
    }
    if |aspects| > 0 {
      queryParts := AppendAspectValues(queryParts, aspects, PriorityAspects);
    }
  }

  /**
   * `suggest_category`, with the loaded categories passed in: build the
   * query parts, tokenise, score the pool, sort and cut to `top_k`.
   */
  method SuggestCategory(categories: seq<Category>, title: string, aspects: map<string, seq<string>>,
                         keywords: string, topK: int) returns (top: seq<Scored>)
    ensures top == SuggestedCategories(categories, title, aspects, keywords, topK)
  {
    if categories == [] {
      return [];
    }
    var pool := Pool(categories);
    var queryParts := BuildQueryParts(title, keywords, aspects);
    var queryTokens := Tokenize(Join(" ", queryParts));
    if queryTokens == [] {
      return [];
    }
    var scored := ScorePool(pool, queryTokens, 3);
    top := Slice(RankSort(scored), topK);
  }

  /**
   * `get_best_category_id`: the top suggestion's ID, else the fallback,
   * else the environment's `DEFAULT_CATEGORY_ID` (each taken only when
   * non-empty), else `ValueError`.
   */
  method GetBestCategoryId(categories: seq<Category>, title: string, aspects: map<string, seq<string>>,
                           keywords: string, fallback: string, envDefault: string) returns (r: Result<string>)
    ensures var s := SuggestedCategories(categories, title, aspects, keywords, 1);
      && (s != [] ==> r == Ok(s[0].category.id))
      && (s == [] && fallback != "" ==> r == Ok(fallback))
      && (s == [] && fallback == "" && envDefault != "" ==> r == Ok(envDefault))
      && (s == [] && fallback == "" && envDefault == "" ==> r.Err? && r.error.ValueError?)
    ensures r.Ok? && (forall c :: c in categories ==> c.id != "") ==> r.value != ""
  {
    var suggestions := SuggestCategory(categories, title, aspects, keywords, 1);
    if suggestions != [] {
      SuggestionsSpec(categories, Tokenize(Join(" ", QueryParts(title, keywords, aspects))), 3, 1);
      assert suggestions[0] in suggestions;
      return Ok(suggestions[0].category.id);
    }
    if fallback != "" {
      return Ok(fallback);
    }
    if envDefault != "" {
      return Ok(envDefault);
    }
    return Err(ValueError("Could not determine category. No matches found and no fallback provided. "
                          + "Please set DEFAULT_CATEGORY_ID environment variable or provide category_id."));
  }
}
