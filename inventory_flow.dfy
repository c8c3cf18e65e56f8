/**
 * The Inventory API payloads: the inventory item (product, brand and MPN,
 * validated aspects, availability), the offer with its configuration
 * checks, and the request headers with the marketplace's Content-Language.
 */
module InventoryFlow {
  import opened Wrappers
  import opened Text

  // ---------------------------------------------------------------------
  // _headers

  /** `lang_map`: the Content-Language of each supported marketplace. */
  const LangMap: map<string, string> := map[
    "EBAY_GB" := "en-GB",
    "EBAY_US" := "en-US",
    "EBAY_AU" := "en-AU",
    "EBAY_DE" := "de-DE",
    "EBAY_FR" := "fr-FR",
    "EBAY_IT" := "it-IT",
    "EBAY_ES" := "es-ES"]

  /** `lang_map.get(MARKETPLACE_ID, "en-GB")`. */
  function ContentLanguage(marketplace: string): (r: string)
    ensures marketplace in LangMap ==> r == LangMap[marketplace]
    ensures marketplace !in LangMap ==> r == "en-GB"
    ensures r in LangMap.Values
  {
    assert LangMap["EBAY_GB"] == "en-GB";
    if marketplace in LangMap then LangMap[marketplace] else "en-GB"
  }

  /** Every mapped language is tagged with the marketplace's own country: `EBAY_XX` has `..-XX`. */
  lemma LanguageMatchesCountry(marketplace: string)
    requires marketplace in LangMap
    ensures |marketplace| == 7 && |ContentLanguage(marketplace)| == 5
    ensures marketplace[..5] == "EBAY_" && ContentLanguage(marketplace)[2] == '-'
    ensures ContentLanguage(marketplace)[3..] == marketplace[5..]
  {
  }

  datatype Headers = Headers(authorization: string, contentType: string, contentLanguage: string)

  /** `_headers(token)` for the configured marketplace. */
  function RequestHeaders(token: string, marketplace: string): (h: Headers)
    ensures |h.authorization| >= 7 && h.authorization[..7] == "Bearer " && h.authorization[7..] == token
    ensures h.contentType == "application/json"
    ensures h.contentLanguage in LangMap.Values
  {
    Headers("Bearer " + token, "application/json", ContentLanguage(marketplace))
  }

  // ---------------------------------------------------------------------
  // build_inventory_item_payload

  datatype Product = Product(
    title: string,
    description: string,
    imageUrls: seq<string>,
    brand: Option<string>,
    mpn: Option<string>,
    aspects: Option<map<string, seq<string>>>)

  datatype InventoryItem = InventoryItem(sku: string, condition: string, product: Product, quantity: nat)

  /** A truthy optional string: present and not empty. */
  predicate Given(s: Option<string>)
  {
    s.Some? && s.value != ""
  }

  /** `[str(v) for v in values if v]`. */
  function KeptValues(values: seq<string>): (r: seq<string>)
    ensures |r| <= |values|
    ensures forall i :: 0 <= i < |r| ==> r[i] != "" && r[i] in values
    ensures forall v :: v in values && v != "" ==> v in r
  {
    if values == [] then []
    else
      var init := KeptValues(values[..|values| - 1]);
      var v := values[|values| - 1];
      assert forall w :: w in values ==> w in values[..|values| - 1] || w == v;
      init + (if v != "" then [v] else [])
  }

  /** A one-entry list keeps its entry exactly when it is not empty. */
  lemma KeptValuesSingle(v: string)
    ensures KeptValues([v]) == (if v != "" then [v] else [])
  {
    assert [v][..0] == [];
  }

  /** The comprehension works entry by entry, in order: it distributes over concatenation. */
  lemma {:induction false} KeptValuesAppend(a: seq<string>, b: seq<string>)
    ensures KeptValues(a + b) == KeptValues(a) + KeptValues(b)
    decreases |b|
  {
    if b == [] {
      assert a + b == a;
    } else {
      var n := |b| - 1;
      assert (a + b)[..|a + b| - 1] == a + b[..n];
      assert (a + b)[|a + b| - 1] == b[n];
      KeptValuesAppend(a, b[..n]);
    }
  }

  /** `validated_aspects`: every key with a non-empty list, except `Brand` once the product has a brand. */
  function ValidatedAspects(aspects: map<string, seq<string>>, dropBrand: bool): map<string, seq<string>>
  {
    map k | k in aspects && !(dropBrand && k == "Brand") && aspects[k] != [] :: KeptValues(aspects[k])
  }

  /**
   * The validated aspects never carry `Brand` when the brand is set apart,
   * keep every other key whose list is non-empty, and keep only non-empty
   * entries of the original list, every one of them, in order (the list
   * is `KeptValues` of the original, which `KeptValuesSingle` and
   * `KeptValuesAppend` characterise entry by entry).
   */
  lemma ValidatedAspectsSpec(aspects: map<string, seq<string>>, dropBrand: bool)
    ensures var v := ValidatedAspects(aspects, dropBrand);
      && (dropBrand ==> "Brand" !in v)
      && (forall k :: k in v <==> k in aspects && !(dropBrand && k == "Brand") && aspects[k] != [])
      && (forall k, i :: k in v && 0 <= i < |v[k]| ==> v[k][i] != "" && v[k][i] in aspects[k])
      && (forall k, x :: k in v && x in aspects[k] && x != "" ==> x in v[k])
      && (forall k :: k in v ==> v[k] == KeptValues(aspects[k]))
  {
  }

  /** The brand the product ends up with: the explicit one, else a truthy first `Brand` aspect value. */
  function ProductBrand(brand: Option<string>, aspects: map<string, seq<string>>): (b: Option<string>)
    ensures b.Some? ==> b.value != ""
    ensures Given(brand) ==> b == brand
    ensures !Given(brand) ==>
              (b.Some? <==> "Brand" in aspects && aspects["Brand"] != [] && aspects["Brand"][0] != "")
    ensures b.Some? && !Given(brand) ==> b.value == aspects["Brand"][0]
  {
    if Given(brand) then brand
    else if "Brand" in aspects && aspects["Brand"] != [] && aspects["Brand"][0] != "" then Some(aspects["Brand"][0])
    else None
  }

  /** The loop that fills `validated_aspects`. */
  method ValidateAspects(aspects: map<string, seq<string>>, dropBrand: bool) returns (validated: map<string, seq<string>>)
    ensures validated == ValidatedAspects(aspects, dropBrand)
  {
    validated := map[];
    var todo := aspects.Keys;
    while todo != {}
      invariant todo <= aspects.Keys
      invariant validated == map k | k in aspects && k !in todo && !(dropBrand && k == "Brand") && aspects[k] != [] :: KeptValues(aspects[k])
      decreases todo
    {
      var k :| k in todo;
      if !(dropBrand && k == "Brand") && aspects[k] != [] {
        validated := validated[k := KeptValues(aspects[k])];
      }
      todo := todo - {k};
    }
  }

  /**
   * `build_inventory_item_payload`: `ValueError` without images; otherwise
   * the truncated title and description, the image list as given, a brand
   * always paired with an MPN ("Does Not Apply" when none is given), an MPN
   * given without a brand kept on its own, the validated aspects when any
   * remain, and a quantity clamped at 0.
   */
  method BuildInventoryItemPayload(
    sku: string, title: string, description: string, quantity: int, imageUrls: seq<string>,
    condition: string, brand: Option<string>, mpn: Option<string>, aspects: map<string, seq<string>>)
    returns (r: Result<InventoryItem>)
    ensures imageUrls == [] <==> r.Err?
    ensures r.Err? ==> r.error == ValueError("image_urls is empty; must include at least one public URL")
    ensures r.Ok? ==>
              var p := r.value.product;
              && r.value.sku == sku && r.value.condition == condition
              && p.title == Take(title, 80) && p.description == Take(description, 40000)
              && p.imageUrls == imageUrls
              && p.brand == ProductBrand(brand, aspects)
              && (p.brand.Some? ==> p.mpn == Some(if Given(mpn) then mpn.value else "Does Not Apply"))
              && (p.brand.None? ==> p.mpn == (if Given(mpn) then mpn else None))
              && (p.aspects.Some? <==> ValidatedAspects(aspects, p.brand.Some?) != map[])
              && (p.aspects.Some? ==> p.aspects.value == ValidatedAspects(aspects, p.brand.Some?))
              && r.value.quantity as int == if quantity < 0 then 0 else quantity
  {
    if imageUrls == [] {
      return Err(ValueError("image_urls is empty; must include at least one public URL"));
    }
    var productBrand: Option<string> := None;
    var productMpn: Option<string> := None;
    if Given(brand) {
      productBrand := brand;
      productMpn := if Given(mpn) then mpn else Some("Does Not Apply");
    } else if "Brand" in aspects {
      var brandValues := aspects["Brand"];
      if brandValues != [] && brandValues[0] != "" {
        productBrand := Some(brandValues[0]);
        productMpn := if Given(mpn) then mpn else Some("Does Not Apply");
      }
    }
    if Given(mpn) && productMpn.None? {
      productMpn := mpn;
    }
    var productAspects: Option<map<string, seq<string>>> := None;
    if aspects != map[] {
      var validated := ValidateAspects(aspects, productBrand.Some?);
      if validated != map[] {
        productAspects := Some(validated);
      }
    } else {
      assert ValidatedAspects(aspects, productBrand.Some?) == map[];
    }
    var product := Product(Take(title, 80), Take(description, 40000), imageUrls, productBrand, productMpn, productAspects);
    r := Ok(InventoryItem(sku, condition, product, if quantity < 0 then 0 else quantity));
  }

  /** A product always carries an MPN once it has a brand, and its aspects never repeat the brand as `Brand`. */
  lemma BrandCarriesMpn(item: InventoryItem, brand: Option<string>, mpn: Option<string>, aspects: map<string, seq<string>>)
    requires item.product.brand == ProductBrand(brand, aspects)
    requires item.product.brand.Some? ==> item.product.mpn == Some(if Given(mpn) then mpn.value else "Does Not Apply")
    requires item.product.aspects.Some? ==> item.product.aspects.value == ValidatedAspects(aspects, item.product.brand.Some?)
    ensures item.product.brand.Some? ==> item.product.mpn.Some? && item.product.mpn.value != ""
    ensures item.product.brand.Some? && item.product.aspects.Some? ==> "Brand" !in item.product.aspects.value
  {
    ValidatedAspectsSpec(aspects, item.product.brand.Some?);
  }

  // ---------------------------------------------------------------------
  // build_offer_payload

  /** The environment the offer builder reads, each unset variable as "". */
  datatype OfferConfig = OfferConfig(
    marketplaceId: string,
    paymentPolicyId: string,
    returnPolicyId: string,
    fulfillmentPolicyId: string,
    merchantLocationKey: string,
    defaultCategoryId: string)

  datatype Policies = Policies(paymentPolicyId: string, returnPolicyId: string, fulfillmentPolicyId: string)

  datatype Offer = Offer(
    sku: string,
    marketplaceId: string,
    format: string,
    availableQuantity: nat,
    categoryId: string,
    price: string,
    currency: string,
    policies: Policies,
    merchantLocationKey: string)

  /** `category_id or DEFAULT_CATEGORY_ID`. */
  function OfferCategory(categoryId: Option<string>, config: OfferConfig): (c: string)
    ensures Given(categoryId) ==> c == categoryId.value
    ensures !Given(categoryId) ==> c == config.defaultCategoryId
  {
    if Given(categoryId) then categoryId.value else config.defaultCategoryId
  }

  /**
   * `build_offer_payload` with `str(price_value)` passed as `priceText`:
   * the first missing item, in the order category, payment, return and
   * fulfillment policy, merchant location, raises `ValueError`; otherwise
   * the offer carries exactly the configured values.
   */
  function BuildOfferPayload(sku: string, priceText: string, categoryId: Option<string>, config: OfferConfig): (r: Result<Offer>)
    ensures r.Ok? <==> OfferCategory(categoryId, config) != "" && config.paymentPolicyId != ""
                       && config.returnPolicyId != "" && config.fulfillmentPolicyId != ""
                       && config.merchantLocationKey != ""
    ensures r.Err? ==> r.error.ValueError?
    ensures OfferCategory(categoryId, config) == "" ==>
              r == Err(ValueError("category_id is required (DEFAULT_CATEGORY_ID not set)"))
    ensures OfferCategory(categoryId, config) != "" && config.paymentPolicyId == "" ==>
              r == Err(ValueError("Missing required policy env: paymentPolicyId"))
    ensures OfferCategory(categoryId, config) != "" && config.paymentPolicyId != "" && config.returnPolicyId == "" ==>
              r == Err(ValueError("Missing required policy env: returnPolicyId"))
    ensures OfferCategory(categoryId, config) != "" && config.paymentPolicyId != "" && config.returnPolicyId != ""
            && config.fulfillmentPolicyId == "" ==>
              r == Err(ValueError("Missing required policy env: fulfillmentPolicyId"))
    ensures OfferCategory(categoryId, config) != "" && config.paymentPolicyId != "" && config.returnPolicyId != ""
            && config.fulfillmentPolicyId != "" && config.merchantLocationKey == "" ==>
              r == Err(ValueError("Missing EBAY_MERCHANT_LOCATION_KEY"))
    ensures r.Ok? ==>
              && r.value.sku == sku && r.value.price == priceText
              && r.value.categoryId == OfferCategory(categoryId, config)
              && r.value.marketplaceId == config.marketplaceId
              && r.value.policies == Policies(config.paymentPolicyId, config.returnPolicyId, config.fulfillmentPolicyId)
              && r.value.merchantLocationKey == config.merchantLocationKey
              && r.value.availableQuantity == 1
              && r.value.format == "FIXED_PRICE" && r.value.currency == "GBP"
  {
    var cat := OfferCategory(categoryId, config);
    if cat == "" then Err(ValueError("category_id is required (DEFAULT_CATEGORY_ID not set)"))
    else if config.paymentPolicyId == "" then Err(ValueError("Missing required policy env: paymentPolicyId"))
    else if config.returnPolicyId == "" then Err(ValueError("Missing required policy env: returnPolicyId"))
    else if config.fulfillmentPolicyId == "" then Err(ValueError("Missing required policy env: fulfillmentPolicyId"))
    else if config.merchantLocationKey == "" then Err(ValueError("Missing EBAY_MERCHANT_LOCATION_KEY"))
    else
      Ok(Offer(sku, config.marketplaceId, "FIXED_PRICE", 1, cat, priceText, "GBP",
               Policies(config.paymentPolicyId, config.returnPolicyId, config.fulfillmentPolicyId),
               config.merchantLocationKey))
  }

  /** An offer that is built has every identifier it needs filled in. */
  lemma OfferComplete(sku: string, priceText: string, categoryId: Option<string>, config: OfferConfig)
    requires BuildOfferPayload(sku, priceText, categoryId, config).Ok?
    ensures var o := BuildOfferPayload(sku, priceText, categoryId, config).value;
      o.categoryId != "" && o.policies.paymentPolicyId != "" && o.policies.returnPolicyId != ""
      && o.policies.fulfillmentPolicyId != "" && o.merchantLocationKey != ""
  {
  }
}
