/**
 * The per-item-type rule table, the condition reconciler and the
 * required-aspects enforcer of `category_rules.py`.
 */
module CategoryRules {
  import opened Wrappers
  import opened Text

  /** The six canonical item types, the keys of `ITEM_TYPE_RULES`. */
  datatype ItemType = Clothing | Kitchenware | Shoes | Books | Electronics | General

  /**
   * One entry of `ITEM_TYPE_RULES`. The condition mapping is kept in its
   * declaration order, because the reconciler scans it in that order.
   */
  datatype ItemTypeRule = ItemTypeRule(
    name: string,
    defaultCategoryId: string,
    conditionMapping: seq<(string, string)>,
    defaultCondition: string,
    requiredAspects: seq<string>,
    defaultAspects: map<string, string>,
    singleValueAspects: seq<string>)

  /** The condition mapping that clothing and shoes share. */
  const WearableConditions: seq<(string, string)> := [
    ("new", "NEW"),
    ("like_new", "PRE_OWNED_EXCELLENT"),
    ("excellent", "PRE_OWNED_EXCELLENT"),
    ("very_good", "PRE_OWNED_EXCELLENT"),
    ("good", "USED_GOOD"),
    ("fair", "PRE_OWNED_FAIR"),
    ("acceptable", "PRE_OWNED_FAIR")]

  /** The condition mapping that electronics and general share. */
  const GradedConditions: seq<(string, string)> := [
    ("new", "NEW"),
    ("like_new", "USED_EXCELLENT"),
    ("excellent", "USED_EXCELLENT"),
    ("very_good", "USED_VERY_GOOD"),
    ("good", "USED_GOOD"),
    ("fair", "USED_ACCEPTABLE"),
    ("acceptable", "USED_ACCEPTABLE")]

  /** `ITEM_TYPE_RULES[t]`. */
  function Rules(t: ItemType): ItemTypeRule
  {
    match t
    case Clothing => ItemTypeRule(
      "Clothing", "15687", WearableConditions, "PRE_OWNED_EXCELLENT",
      ["Brand", "Department"],
      map["Brand" := "Unbranded", "Department" := "Unisex Adults"],
      ["Colour", "Size", "Department"])
    case Kitchenware => ItemTypeRule(
      "Kitchenware/Crockery", "20693",
      [("new", "NEW"), ("new_other", "NEW_OTHER"), ("like_new", "USED"), ("excellent", "USED"),
       ("very_good", "USED"), ("good", "USED"), ("fair", "USED"), ("acceptable", "USED"),
       ("used", "USED")],
      "USED", ["Brand"], map["Brand" := "Unbranded"], ["Colour"])
    case Shoes => ItemTypeRule(
      "Shoes", "93427", WearableConditions, "PRE_OWNED_EXCELLENT",
      ["Brand", "UK Shoe Size"], map["Brand" := "Unbranded"], ["Colour", "UK Shoe Size"])
    case Books => ItemTypeRule(
      "Books & Media", "261186",
      [("new", "NEW"), ("like_new", "LIKE_NEW"), ("excellent", "LIKE_NEW"),
       ("very_good", "USED_VERY_GOOD"), ("good", "USED_GOOD"), ("fair", "USED_ACCEPTABLE"),
       ("acceptable", "USED_ACCEPTABLE")],
      "USED_VERY_GOOD", ["Brand"], map["Brand" := "Unbranded"], [])
    case Electronics => ItemTypeRule(
      "Electronics", "175672", GradedConditions, "USED_VERY_GOOD",
      ["Brand"], map["Brand" := "Unbranded"], ["Colour"])
    case General => ItemTypeRule(
      "General/Other", "11450", GradedConditions, "USED_VERY_GOOD",
      ["Brand"], map["Brand" := "Unbranded"], ["Colour"])
  }

  /** The key under which `ITEM_TYPE_RULES` stores each item type. */
  function TypeKey(t: ItemType): string
  {
    match t
    case Clothing => "clothing"
    case Kitchenware => "kitchenware"
    case Shoes => "shoes"
    case Books => "books"
    case Electronics => "electronics"
    case General => "general"
  }

  /** The keys of the `type_mapping` table, grouped by the type they map to. */
  const ClothingAliases: set<string> := {"clothing", "clothes", "apparel", "t-shirt", "tshirt",
    "shirt", "dress", "jacket", "jeans", "trousers", "pants"}
  const KitchenwareAliases: set<string> := {"kitchenware", "crockery", "mug", "mugs", "cup",
    "plate", "bowl", "dish", "ceramic", "pottery"}
  const ShoesAliases: set<string> := {"shoes", "shoe", "footwear", "trainers", "boots", "heels",
    "sandals", "sneakers"}
  const BooksAliases: set<string> := {"books", "book", "media", "dvd", "cd", "vinyl", "magazine"}
  const ElectronicsAliases: set<string> := {"electronics", "electronic", "phone", "laptop",
    "computer", "camera", "tablet", "gadget"}
  const GeneralAliases: set<string> := {"general", "other"}

  /** The synonyms of one item type. */
  function Aliases(t: ItemType): set<string>
  {
    match t
    case Clothing => ClothingAliases
    case Kitchenware => KitchenwareAliases
    case Shoes => ShoesAliases
    case Books => BooksAliases
    case Electronics => ElectronicsAliases
    case General => GeneralAliases
  }

  /** `type_mapping.get(key)`: the type whose synonyms hold `key`, if any. */
  function Alias(key: string): (r: Option<ItemType>)
    ensures r.Some? ==> key in Aliases(r.value)
    ensures r.None? ==> forall t :: key !in Aliases(t)
  {
    if key in ClothingAliases then Some(Clothing)
    else if key in KitchenwareAliases then Some(Kitchenware)
    else if key in ShoesAliases then Some(Shoes)
    else if key in BooksAliases then Some(Books)
    else if key in ElectronicsAliases then Some(Electronics)
    else if key in GeneralAliases then Some(General)
    else None
  }

  /** `item_type.lower().strip()`. */
  function TypeLookupKey(itemType: string): string
  {
    Strip(Lower(itemType))
  }

  /** `type_mapping.get(item_type_lower, "general")`. */
  function ResolveItemType(itemType: string): ItemType
  {
    match Alias(TypeLookupKey(itemType))
    case Some(t) => t
    case None => General
  }

  /** `get_item_type_rules`: every string selects one of the six rule records. */
  function GetItemTypeRules(itemType: string): (r: ItemTypeRule)
    ensures exists t :: r == Rules(t)
    ensures Alias(TypeLookupKey(itemType)).None? ==> r == Rules(General)
    ensures Alias(TypeLookupKey(itemType)).Some? ==> r == Rules(Alias(TypeLookupKey(itemType)).value)
  {
    Rules(ResolveItemType(itemType))
  }

  /** A string that `lower()` leaves unchanged. */
  predicate IsLowerString(s: string)
  {
    Lower(s) == s
  }

  lemma LowerIdempotent(s: string)
    ensures IsLowerString(Lower(s))
  {
    var l := Lower(s);
    assert forall i :: 0 <= i < |l| ==> LowerChar(l[i]) == l[i];
    assert Lower(l) == l;
  }

  lemma StripKeepsLower(s: string)
    requires IsLowerString(s)
    ensures IsLowerString(Strip(s))
  {
    assert forall i :: 0 <= i < |s| ==> LowerChar(s[i]) == s[i];
    var r := Strip(s);
    StripChars(s);
    forall i | 0 <= i < |r| ensures LowerChar(r[i]) == r[i] {
      assert r[i] in s;
    }
  }

  /** The lookup key is already lower-case and trimmed, so computing it again changes nothing. */
  lemma TypeLookupKeyIdempotent(itemType: string)
    ensures TypeLookupKey(TypeLookupKey(itemType)) == TypeLookupKey(itemType)
  {
    var l := Lower(itemType);
    LowerIdempotent(itemType);
    StripKeepsLower(l);
    StripIdempotent(l);
  }

  /** Resolving an already-normalised key gives the same type. */
  lemma ResolveLookupKey(itemType: string)
    ensures ResolveItemType(TypeLookupKey(itemType)) == ResolveItemType(itemType)
  {
    TypeLookupKeyIdempotent(itemType);
  }

  lemma {:induction false} LowerOfUpper(s: string)
    requires IsLowerString(s)
    ensures Lower(Upper(s)) == s
  {
    assert forall i :: 0 <= i < |s| ==> LowerChar(s[i]) == s[i];
  }

  /** A trimmed string without capitals is its own lookup key. */
  lemma LookupKeyFixed(s: string)
    requires forall i :: 0 <= i < |s| ==> !('A' <= s[i] <= 'Z')
    requires s != [] ==> !IsSpace(s[0]) && !IsSpace(s[|s| - 1])
    ensures IsLowerString(s) && TypeLookupKey(s) == s
  {
    LowerNoCapitals(s);
    StripStripped(s);
  }

  lemma TypeKeyIsLookupKey(t: ItemType)
    ensures IsLowerString(TypeKey(t)) && TypeLookupKey(TypeKey(t)) == TypeKey(t)
  {
    match t
    case Clothing => LookupKeyFixed("clothing");
    case Kitchenware => LookupKeyFixed("kitchenware");
    case Shoes => LookupKeyFixed("shoes");
    case Books => LookupKeyFixed("books");
    case Electronics => LookupKeyFixed("electronics");
    case General => LookupKeyFixed("general");
  }

  lemma AliasOfTypeKey(t: ItemType)
    ensures Alias(TypeKey(t)) == Some(t)
  {
  }

  /** Each type's own key resolves to it. */
  lemma ResolveTypeKey(t: ItemType)
    ensures ResolveItemType(TypeKey(t)) == t
  {
    TypeKeyIsLookupKey(t);
    AliasOfTypeKey(t);
    assert Alias(TypeLookupKey(TypeKey(t))) == Some(t);
  }

  /** The lookup ignores letter case: any spelling that lower-cases alike resolves alike. */
  lemma ResolveIgnoresCase(a: string, b: string)
    requires Lower(a) == Lower(b)
    ensures ResolveItemType(a) == ResolveItemType(b)
  {
  }

  /** Upper-casing a lower-case string does not change its lookup key. */
  lemma LowerOfUpperKey(k: string)
    requires IsLowerString(k)
    ensures Lower(Upper(k)) == Lower(k)
  {
    LowerOfUpper(k);
  }

  /** The values a condition mapping can produce. */
  function MappedValues(mapping: seq<(string, string)>): set<string>
  {
    set i | 0 <= i < |mapping| :: mapping[i].1
  }

  /** `condition.lower().replace("_", " ").replace("-", " ").strip()`. */
  function CleanCondition(condition: string): string
  {
    Strip(ReplaceChar(ReplaceChar(Lower(condition), '_', " "), '-', " "))
  }

  /**
   * The early-return loop over `condition_map.items()`: the value of the first
   * key that is a substring of `cleaned`, else `default`.
   */
  function FirstMatch(mapping: seq<(string, string)>, cleaned: string, default: string): (r: string)
    ensures (exists i :: 0 <= i < |mapping| && Contains(cleaned, mapping[i].0) && r == mapping[i].1
              && forall j :: 0 <= j < i ==> !Contains(cleaned, mapping[j].0))
         || ((forall j :: 0 <= j < |mapping| ==> !Contains(cleaned, mapping[j].0)) && r == default)
  {
    if mapping == [] then default
    else if Contains(cleaned, mapping[0].0) then mapping[0].1
    else
      var r := FirstMatch(mapping[1..], cleaned, default);
      assert forall j :: 1 <= j < |mapping| ==> mapping[j] == mapping[1..][j - 1];
      r
  }

  /** `normalize_condition_for_type`. */
  function NormalizeConditionForType(condition: string, itemType: string): (r: string)
    ensures var rules := GetItemTypeRules(itemType);
      r in MappedValues(rules.conditionMapping) || r == rules.defaultCondition
  {
    var rules := GetItemTypeRules(itemType);
    FirstMatch(rules.conditionMapping, CleanCondition(condition), rules.defaultCondition)
  }

  lemma FirstMatchHead(m: seq<(string, string)>, cleaned: string, default: string)
    requires m != [] && Contains(cleaned, m[0].0)
    ensures FirstMatch(m, cleaned, default) == m[0].1
  {
  }

  lemma FirstMatchSkip(m: seq<(string, string)>, cleaned: string, default: string)
    requires m != [] && !Contains(cleaned, m[0].0)
    ensures FirstMatch(m, cleaned, default) == FirstMatch(m[1..], cleaned, default)
  {
  }

  /** A mapping whose values and default all lie in `vals` can only produce a value in `vals`. */
  lemma FirstMatchValues(m: seq<(string, string)>, cleaned: string, default: string, vals: set<string>)
    requires forall i :: 0 <= i < |m| ==> m[i].1 in vals
    requires default in vals
    ensures FirstMatch(m, cleaned, default) in vals
  {
  }

  lemma FirstKeyIsNew(t: ItemType)
    ensures Rules(t).conditionMapping != [] && Rules(t).conditionMapping[0] == ("new", "NEW")
  {
  }

  /** The reconciler runs the mapping of whichever type the item type resolves to. */
  lemma NormalizeByType(condition: string, itemType: string, t: ItemType)
    requires ResolveItemType(itemType) == t
    ensures NormalizeConditionForType(condition, itemType)
         == FirstMatch(Rules(t).conditionMapping, CleanCondition(condition), Rules(t).defaultCondition)
  {
  }

  /** "new" is the first key of every mapping, so any condition mentioning it reconciles to NEW. */
  lemma NewAlwaysWins(condition: string, itemType: string)
    requires Contains(CleanCondition(condition), "new")
    ensures NormalizeConditionForType(condition, itemType) == "NEW"
  {
    var t := ResolveItemType(itemType);
    NormalizeByType(condition, itemType, t);
    FirstKeyIsNew(t);
    FirstMatchHead(Rules(t).conditionMapping, CleanCondition(condition), Rules(t).defaultCondition);
  }

  /** The cleaned condition never holds an underscore. */
  lemma CleanConditionHasNoUnderscore(condition: string)
    ensures '_' !in CleanCondition(condition)
  {
    var a := ReplaceChar(Lower(condition), '_', " ");
    ReplaceCharRemoves(Lower(condition), '_', " ");
    var b := ReplaceChar(a, '-', " ");
    ReplaceCharKeeps(a, '-', " ", '_');
    StripChars(b);
  }

  /** So a mapping key written with an underscore can never match. */
  lemma UnderscoreKeyNeverMatches(condition: string, key: string)
    requires '_' in key
    ensures !Contains(CleanCondition(condition), key)
  {
    CleanConditionHasNoUnderscore(condition);
    NotContainsChar(CleanCondition(condition), key, '_');
  }

  /** Crockery only ever receives NEW, NEW_OTHER or USED. */
  lemma KitchenwareVocabulary(condition: string, itemType: string)
    requires ResolveItemType(itemType) == Kitchenware
    ensures NormalizeConditionForType(condition, itemType) in {"NEW", "NEW_OTHER", "USED"}
  {
    NormalizeByType(condition, itemType, Kitchenware);
    KitchenwareValues(CleanCondition(condition));
  }

  lemma KitchenwareValues(cleaned: string)
    ensures FirstMatch(Rules(Kitchenware).conditionMapping, cleaned, "USED") in {"NEW", "NEW_OTHER", "USED"}
  {
    FirstMatchValues(Rules(Kitchenware).conditionMapping, cleaned, "USED", {"NEW", "NEW_OTHER", "USED"});
  }

  lemma KitchenwareTail(m: seq<(string, string)>)
    requires m == Rules(Kitchenware).conditionMapping
    ensures |m| >= 2 && m[0].0 == "new" && '_' in m[1].0
    ensures forall i :: 2 <= i < |m| ==> m[i].1 == "USED"
  {
    assert m[1].0[3] == '_';
  }

  lemma KitchenwareCleaned(cleaned: string, m: seq<(string, string)>)
    requires '_' !in cleaned
    requires m == Rules(Kitchenware).conditionMapping
    ensures FirstMatch(m, cleaned, "USED") in {"NEW", "USED"}
  {
    KitchenwareTail(m);
    if Contains(cleaned, m[0].0) {
      FirstMatchHead(m, cleaned, "USED");
    } else {
      FirstMatchSkip(m, cleaned, "USED");
      NotContainsChar(cleaned, m[1].0, '_');
      FirstMatchSkip(m[1..], cleaned, "USED");
      assert m[1..][1..] == m[2..];
      FirstMatchValues(m[2..], cleaned, "USED", {"NEW", "USED"});
    }
  }

  /** NEW_OTHER is in fact unreachable: its key has an underscore. */
  lemma KitchenwareNeverNewOther(condition: string, itemType: string)
    requires ResolveItemType(itemType) == Kitchenware
    ensures NormalizeConditionForType(condition, itemType) in {"NEW", "USED"}
  {
    NormalizeByType(condition, itemType, Kitchenware);
    CleanConditionHasNoUnderscore(condition);
    KitchenwareCleaned(CleanCondition(condition), Rules(Kitchenware).conditionMapping);
  }

  /** A condition already in cleaned form is left as it is. */
  lemma CleanConditionFixed(s: string)
    requires IsLowerString(s) && '_' !in s && '-' !in s
    requires s != [] ==> !IsSpace(s[0]) && !IsSpace(s[|s| - 1])
    ensures CleanCondition(s) == s
  {
    StripStripped(s);
  }

  lemma CleanVeryGood(s: string)
    requires s == "very good"
    ensures CleanCondition(s) == s
  {
    LowerNoCapitals(s);
    assert '_' !in s && '-' !in s;
    CleanConditionFixed(s);
  }

  /** A key holding a character that `cleaned` lacks is passed over. */
  lemma FirstMatchSkipChar(m: seq<(string, string)>, cleaned: string, default: string, c: char)
    requires m != [] && c in m[0].0 && c !in cleaned
    ensures FirstMatch(m, cleaned, default) == FirstMatch(m[1..], cleaned, default)
  {
    NotContainsChar(cleaned, m[0].0, c);
  }

  lemma WearableKeys(m: seq<(string, string)>)
    requires m == WearableConditions
    ensures |m| == 7 && m[0].0 == "new" && '_' in m[1].0 && m[2].0 == "excellent" && '_' in m[3].0
    ensures m[4] == ("good", "USED_GOOD")
    ensures m[1..][1..] == m[2..] && m[2..][1..] == m[3..] && m[3..][1..] == m[4..]
  {
    assert m[1].0[4] == '_' && m[3].0[4] == '_';
  }

  /**
   * For clothing and shoes, a cleaned condition that mentions "good" but
   * neither "new" nor "excellent" lands on USED_GOOD.
   */
  lemma WearableGood(m: seq<(string, string)>, cleaned: string, default: string)
    requires m == WearableConditions
    requires '_' !in cleaned
    requires Contains(cleaned, "good") && !Contains(cleaned, "new") && !Contains(cleaned, "excellent")
    ensures FirstMatch(m, cleaned, default) == "USED_GOOD"
  {
    WearableKeys(m);
    FirstMatchSkip(m, cleaned, default);
    FirstMatchSkipChar(m[1..], cleaned, default, '_');
    FirstMatchSkip(m[2..], cleaned, default);
    FirstMatchSkipChar(m[3..], cleaned, default, '_');
    FirstMatchHead(m[4..], cleaned, default);
  }

  lemma VeryGoodWords(s: string)
    requires s == "very good"
    ensures Contains(s, "good") && !Contains(s, "new") && !Contains(s, "excellent")
  {
    assert OccursAt(s, "good", 5);
    assert 'n' !in s && 'x' !in s;
    NotContainsChar(s, "new", 'n');
    NotContainsChar(s, "excellent", 'x');
  }

  /**
   * Clothing's "very good" falls through the underscore keys to the "good" key:
   * the reconciler gives USED_GOOD, not the PRE_OWNED_EXCELLENT of `very_good`.
   */
  lemma VeryGoodClothingIsUsedGood(condition: string, itemType: string)
    requires ResolveItemType(itemType) == Clothing
    requires CleanCondition(condition) == "very good"
    ensures NormalizeConditionForType(condition, itemType) == "USED_GOOD"
  {
    NormalizeByType(condition, itemType, Clothing);
    CleanConditionHasNoUnderscore(condition);
    VeryGoodWords(CleanCondition(condition));
    WearableGood(WearableConditions, CleanCondition(condition), "PRE_OWNED_EXCELLENT");
  }

  /** `get_default_category_id`: the eBay category ID of the resolved type. */
  function GetDefaultCategoryId(itemType: string): (r: string)
    ensures r in {"15687", "20693", "93427", "261186", "175672", "11450"}
    ensures Alias(TypeLookupKey(itemType)).None? ==> r == "11450"
  {
    var t := ResolveItemType(itemType);
    DefaultCategoryIds(t);
    Rules(t).defaultCategoryId
  }

  lemma DefaultCategoryIds(t: ItemType)
    ensures Rules(t).defaultCategoryId in {"15687", "20693", "93427", "261186", "175672", "11450"}
  {
  }

  /** No two item types share a default category, so the ID identifies the type. */
  lemma DefaultCategoryIdsDistinct(t1: ItemType, t2: ItemType)
    requires Rules(t1).defaultCategoryId == Rules(t2).defaultCategoryId
    ensures t1 == t2
  {
  }

  /** `rules["default_aspects"].get(name, "Not Specified")`. */
  function DefaultAspect(defaults: map<string, string>, name: string): string
  {
    if name in defaults then defaults[name] else "Not Specified"
  }

  /** One pass of the first loop: fill `name` when it is missing or empty. */
  function FillOne(a: map<string, seq<string>>, name: string, defaults: map<string, string>): map<string, seq<string>>
  {
    if name !in a || a[name] == [] then a[name := [DefaultAspect(defaults, name)]] else a
  }

  /** The first loop of `apply_required_aspects` over `names`, in order. */
  function FillRequired(a: map<string, seq<string>>, names: seq<string>, defaults: map<string, string>): map<string, seq<string>>
    decreases |names|
  {
    if names == [] then a
    else FillOne(FillRequired(a, names[..|names| - 1], defaults), names[|names| - 1], defaults)
  }

  /** One pass of the second loop: cut a multi-valued `name` down to one value. */
  function CollapseOne(a: map<string, seq<string>>, name: string): map<string, seq<string>>
  {
    if name in a && |a[name]| > 1 then
      a[name := if name == "Colour" then ["Multicoloured"] else [a[name][0]]]
    else a
  }

  /** The second loop of `apply_required_aspects` over `names`, in order. */
  function CollapseSingle(a: map<string, seq<string>>, names: seq<string>): map<string, seq<string>>
    decreases |names|
  {
    if names == [] then a
    else CollapseOne(CollapseSingle(a, names[..|names| - 1]), names[|names| - 1])
  }

  /** The final US-to-UK spelling step: `Color` moves to `Colour` unless `Colour` is already there. */
  function RenameColor(a: map<string, seq<string>>): map<string, seq<string>>
  {
    if "Color" in a && "Colour" !in a then a["Colour" := a["Color"]] - {"Color"} else a
  }

  /** What `apply_required_aspects` leaves in the aspects dictionary. */
  function RequiredAspectsApplied(a: map<string, seq<string>>, rules: ItemTypeRule): map<string, seq<string>>
  {
    RenameColor(CollapseSingle(FillRequired(a, rules.requiredAspects, rules.defaultAspects),
                               rules.singleValueAspects))
  }

  /**
   * After the first loop every required aspect is present with at least one
   * value, and one that was missing or empty holds just its default.
   */
  lemma {:induction false} FillRequiredPresent(a: map<string, seq<string>>, names: seq<string>, defaults: map<string, string>)
    ensures forall n :: n in names ==> n in FillRequired(a, names, defaults) && FillRequired(a, names, defaults)[n] != []
    ensures forall n :: n in names && (n !in a || a[n] == []) ==>
              n in FillRequired(a, names, defaults) && FillRequired(a, names, defaults)[n] == [DefaultAspect(defaults, n)]
    decreases |names|
  {
    if names != [] {
      var init := names[..|names| - 1];
      FillRequiredPresent(a, init, defaults);
      FillRequiredKeeps(a, init, defaults);
      assert forall n :: n in names ==> n in init || n == names[|names| - 1];
    }
  }

  /**
   * The first loop never touches an aspect outside `names`, and never
   * overwrites an aspect that already has a value.
   */
  lemma {:induction false} FillRequiredKeeps(a: map<string, seq<string>>, names: seq<string>, defaults: map<string, string>)
    ensures forall n :: n !in names ==> (n in FillRequired(a, names, defaults) <==> n in a)
    ensures forall n :: n in a ==> n in FillRequired(a, names, defaults)
    ensures forall n :: n in a && (n !in names || a[n] != []) ==> FillRequired(a, names, defaults)[n] == a[n]
    ensures forall n :: n in FillRequired(a, names, defaults) ==> n in a || n in names
    decreases |names|
  {
    if names != [] {
      var init := names[..|names| - 1];
      FillRequiredKeeps(a, init, defaults);
      assert forall n :: n in init ==> n in names;
    }
  }

  /**
   * The second loop changes no key, keeps every value non-empty, cuts every
   * listed aspect to at most one value (`Colour` to `Multicoloured`) and
   * leaves the other aspects alone.
   */
  lemma {:induction false} CollapseSingleSpec(a: map<string, seq<string>>, names: seq<string>)
    ensures CollapseSingle(a, names).Keys == a.Keys
    ensures forall n :: n in a && a[n] != [] ==> CollapseSingle(a, names)[n] != []
    ensures forall n :: n in names && n in a ==> |CollapseSingle(a, names)[n]| <= 1
    ensures forall n :: n in a && n !in names ==> CollapseSingle(a, names)[n] == a[n]
    ensures "Colour" in names && "Colour" in a && |a["Colour"]| > 1 ==> CollapseSingle(a, names)["Colour"] == ["Multicoloured"]
    ensures forall n :: n in names && n in a && n != "Colour" && |a[n]| > 1 ==> CollapseSingle(a, names)[n] == [a[n][0]]
    ensures forall n :: n in a && |a[n]| <= 1 ==> CollapseSingle(a, names)[n] == a[n]
    decreases |names|
  {
    if names != [] {
      var init := names[..|names| - 1];
      CollapseSingleSpec(a, init);
      assert forall n :: n in names ==> n in init || n == names[|names| - 1];
      assert forall n :: n in init ==> n in names;
    }
  }

  /** Neither spelling of colour is a required aspect, and `Color` is never single-valued. */
  lemma ColourNotRequired(t: ItemType)
    ensures "Color" !in Rules(t).requiredAspects && "Colour" !in Rules(t).requiredAspects
    ensures "Color" !in Rules(t).singleValueAspects
  {
  }

  /**
   * Every required aspect of the item type ends up present with at least one
   * value; one that was missing or empty holds just its default, or
   * `Not Specified` when the type gives none.
   */
  lemma RequiredAspectsPresent(a: map<string, seq<string>>, itemType: string)
    ensures var rules := GetItemTypeRules(itemType);
      var r := RequiredAspectsApplied(a, rules);
      forall n :: n in rules.requiredAspects ==> n in r && r[n] != []
    ensures var rules := GetItemTypeRules(itemType);
      var r := RequiredAspectsApplied(a, rules);
      forall n :: n in rules.requiredAspects && (n !in a || a[n] == []) ==>
        n in r && r[n] == [DefaultAspect(rules.defaultAspects, n)]
  {
    var rules := GetItemTypeRules(itemType);
    ColourNotRequired(ResolveItemType(itemType));
    var f := FillRequired(a, rules.requiredAspects, rules.defaultAspects);
    FillRequiredPresent(a, rules.requiredAspects, rules.defaultAspects);
    CollapseSingleSpec(f, rules.singleValueAspects);
  }

  /** The rule records never list either spelling of colour as required, nor `Color` as single-valued. */
  predicate ColourFree(rules: ItemTypeRule)
  {
    "Color" !in rules.requiredAspects && "Colour" !in rules.requiredAspects
    && "Color" !in rules.singleValueAspects
  }

  lemma OtherAspectsKeptFor(a: map<string, seq<string>>, rules: ItemTypeRule)
    ensures var r := RequiredAspectsApplied(a, rules);
      (forall n :: (n in a && n !in rules.requiredAspects && n !in rules.singleValueAspects
                    && n != "Color" && n != "Colour") ==> n in r && r[n] == a[n])
      && (forall n :: n in r ==> n in a || n in rules.requiredAspects || n == "Colour")
  {
    var f := FillRequired(a, rules.requiredAspects, rules.defaultAspects);
    FillRequiredKeeps(a, rules.requiredAspects, rules.defaultAspects);
    CollapseSingleSpec(f, rules.singleValueAspects);
  }

  /**
   * Aspects the rules do not name are carried through untouched, and the only
   * key that can appear from nowhere is a required aspect or `Colour`.
   */
  lemma OtherAspectsKept(a: map<string, seq<string>>, itemType: string)
    ensures var rules := GetItemTypeRules(itemType);
      var r := RequiredAspectsApplied(a, rules);
      (forall n :: (n in a && n !in rules.requiredAspects && n !in rules.singleValueAspects
                    && n != "Color" && n != "Colour") ==> n in r && r[n] == a[n])
      && (forall n :: n in r ==> n in a || n in rules.requiredAspects || n == "Colour")
  {
    OtherAspectsKeptFor(a, GetItemTypeRules(itemType));
  }

  /**
   * The US spelling `Color` is renamed to `Colour` with its values unchanged
   * when `Colour` is absent; when both are given, both are kept.
   */
  lemma ColorRenamed(a: map<string, seq<string>>, itemType: string)
    requires "Color" in a
    ensures var r := RequiredAspectsApplied(a, GetItemTypeRules(itemType));
      ("Colour" !in a ==> "Color" !in r && "Colour" in r && r["Colour"] == a["Color"])
      && ("Colour" in a ==> "Color" in r && r["Color"] == a["Color"] && "Colour" in r)
  {
    var rules := GetItemTypeRules(itemType);
    ColourNotRequired(ResolveItemType(itemType));
    var f := FillRequired(a, rules.requiredAspects, rules.defaultAspects);
    FillRequiredKeeps(a, rules.requiredAspects, rules.defaultAspects);
    CollapseSingleSpec(f, rules.singleValueAspects);
  }

  /**
   * Every single-value aspect ends up with at most one value, except a
   * `Colour` that was moved over from a multi-valued `Color` after the
   * collapsing loop had run.
   */
  lemma SingleValueAspectsCapped(a: map<string, seq<string>>, itemType: string)
    ensures var rules := GetItemTypeRules(itemType);
      var r := RequiredAspectsApplied(a, rules);
      forall n :: n in rules.singleValueAspects && n in r ==>
        |r[n]| <= 1 || (n == "Colour" && "Colour" !in a && "Color" in a && r[n] == a["Color"])
    ensures var rules := GetItemTypeRules(itemType);
      var r := RequiredAspectsApplied(a, rules);
      forall n :: n in rules.singleValueAspects && n in a && n != "Colour" && n != "Color" && |a[n]| > 1 ==>
        n in r && r[n] == [a[n][0]]
    ensures var rules := GetItemTypeRules(itemType);
      var r := RequiredAspectsApplied(a, rules);
      forall n :: n in rules.singleValueAspects && n in a && n != "Colour" && n != "Color" && |a[n]| == 1 ==>
        n in r && r[n] == a[n]
  {
    var rules := GetItemTypeRules(itemType);
    ColourNotRequired(ResolveItemType(itemType));
    var f := FillRequired(a, rules.requiredAspects, rules.defaultAspects);
    FillRequiredKeeps(a, rules.requiredAspects, rules.defaultAspects);
    CollapseSingleSpec(f, rules.singleValueAspects);
  }

  lemma MultiColourFor(a: map<string, seq<string>>, rules: ItemTypeRule)
    requires ColourFree(rules)
    requires "Colour" in a && |a["Colour"]| > 1 && "Colour" in rules.singleValueAspects
    ensures var r := RequiredAspectsApplied(a, rules); "Colour" in r && r["Colour"] == ["Multicoloured"]
  {
    var f := FillRequired(a, rules.requiredAspects, rules.defaultAspects);
    FillRequiredKeeps(a, rules.requiredAspects, rules.defaultAspects);
    CollapseSingleSpec(f, rules.singleValueAspects);
  }

  /**
   * A multi-valued `Colour` given directly is replaced by `Multicoloured`
   * for every type that limits `Colour` to one value.
   */
  lemma MultiColourBecomesMulticoloured(a: map<string, seq<string>>, itemType: string)
    requires "Colour" in a && |a["Colour"]| > 1
    requires "Colour" in GetItemTypeRules(itemType).singleValueAspects
    ensures var r := RequiredAspectsApplied(a, GetItemTypeRules(itemType));
      "Colour" in r && r["Colour"] == ["Multicoloured"]
  {
    ColourNotRequired(ResolveItemType(itemType));
    MultiColourFor(a, GetItemTypeRules(itemType));
  }

  /**
   * Applying the rules twice is not the same as applying them once: a
   * multi-valued `Color` survives the first call as a multi-valued `Colour`,
   * which the second call collapses.
   */
  lemma ApplyTwiceDiffers(a: map<string, seq<string>>, itemType: string)
    requires "Color" in a && "Colour" !in a && |a["Color"]| > 1
    requires "Colour" in GetItemTypeRules(itemType).singleValueAspects
    ensures var rules := GetItemTypeRules(itemType);
      RequiredAspectsApplied(RequiredAspectsApplied(a, rules), rules) != RequiredAspectsApplied(a, rules)
  {
    var rules := GetItemTypeRules(itemType);
    var r := RequiredAspectsApplied(a, rules);
    ColorRenamed(a, itemType);
    MultiColourBecomesMulticoloured(r, itemType);
    assert |r["Colour"]| > 1;
  }

  lemma ShoesFill(rules: ItemTypeRule)
    requires rules == Rules(Shoes)
    ensures FillRequired(map[], rules.requiredAspects, rules.defaultAspects)
         == map["Brand" := ["Unbranded"], "UK Shoe Size" := ["Not Specified"]]
  {
    var req := rules.requiredAspects;
    assert req[..1] == ["Brand"] && req[..1][..0] == [];
    assert FillRequired(map[], req[..1], rules.defaultAspects) == map["Brand" := ["Unbranded"]];
  }
  lemma ShoesCollapse(rules: ItemTypeRule, f: map<string, seq<string>>)
    requires rules == Rules(Shoes)
    requires f == map["Brand" := ["Unbranded"], "UK Shoe Size" := ["Not Specified"]]
    ensures CollapseSingle(f, rules.singleValueAspects) == f
  {
    CollapseSingleSpec(f, rules.singleValueAspects);
  }
  lemma ShoesRename(f: map<string, seq<string>>)
    requires f == map["Brand" := ["Unbranded"], "UK Shoe Size" := ["Not Specified"]]
    ensures RenameColor(f) == f
  {
  }
  /** Empty aspects for shoes come out as the unbranded, size-unspecified pair. */
  lemma ShoesFromEmpty(itemType: string)
    requires ResolveItemType(itemType) == Shoes
    ensures RequiredAspectsApplied(map[], GetItemTypeRules(itemType))
         == map["Brand" := ["Unbranded"], "UK Shoe Size" := ["Not Specified"]]
  {
    var rules := GetItemTypeRules(itemType);
    var f := FillRequired(map[], rules.requiredAspects, rules.defaultAspects);
    ShoesFill(rules);
    ShoesCollapse(rules, f);
    ShoesRename(f);
  }
  /**
   * The in-place `aspects` dictionary that `apply_required_aspects` updates
   * and returns.
   */
  class AspectBag {
    var entries: map<string, seq<string>>

    constructor(initial: map<string, seq<string>>)
      ensures entries == initial
    {
      entries := initial;
    }

    /** `apply_required_aspects(self.entries, item_type)`: updates the dictionary and returns it. */
    method ApplyRequiredAspects(itemType: string) returns (same: AspectBag)
      modifies this
      ensures same == this
      ensures entries == RequiredAspectsApplied(old(entries), GetItemTypeRules(itemType))
    {
      var rules := GetItemTypeRules(itemType);
      FillDefaults(rules.requiredAspects, rules.defaultAspects);
      CollapseToSingle(rules.singleValueAspects);
      RenameColorKey();
      same := this;
    }

    /** The first loop: every required aspect that is missing or empty gets its default value. */
    method FillDefaults(required: seq<string>, defaults: map<string, string>)
      modifies this
      ensures entries == FillRequired(old(entries), required, defaults)
    {
      var i := 0;
      while i < |required|
        invariant 0 <= i <= |required|
        invariant entries == FillRequired(old(entries), required[..i], defaults)
      {
        var name := required[i];
        if name !in entries || entries[name] == [] {
          entries := entries[name := [DefaultAspect(defaults, name)]];
        }
        assert required[..i + 1][..i] == required[..i];
        i := i + 1;
      }
      assert required[..i] == required;
    }

    /** The second loop: a single-value aspect holding several values keeps one ("Multicoloured" for `Colour`). */
    method CollapseToSingle(single: seq<string>)
      modifies this
      ensures entries == CollapseSingle(old(entries), single)
    {
      var j := 0;
      while j < |single|
        invariant 0 <= j <= |single|
        invariant entries == CollapseSingle(old(entries), single[..j])
      {
        var name := single[j];
        if name in entries && |entries[name]| > 1 {
          if name == "Colour" {
            entries := entries[name := ["Multicoloured"]];
          } else {
            entries := entries[name := [entries[name][0]]];
          }
        }
        assert single[..j + 1][..j] == single[..j];
        j := j + 1;
      }
      assert single[..j] == single;
    }

    /** The last step: `Color` is renamed to `Colour` unless `Colour` is already there. */
    method RenameColorKey()
      modifies this
      ensures entries == RenameColor(old(entries))
    {
      if "Color" in entries && "Colour" !in entries {
        entries := entries["Colour" := entries["Color"]] - {"Color"};
      }
    }
  }
}
