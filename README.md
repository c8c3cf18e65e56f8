# eBay lister core: normalisation and reconciliation, in Dafny

This project models the core of a small eBay listing tool. The tool takes a
photo-derived listing draft (title, description, price, condition, item
specifics) and turns it into the payloads eBay accepts. The modelled parts are:

- **Category rules** (`category_rules.dfy`, module `CategoryRules`): the
  per-item-type rule table (clothing, kitchenware, shoes, books, electronics,
  general), resolving an item type through its synonyms, mapping free-text
  conditions to eBay condition codes and the default category ID. The class
  `AspectBag` holds the aspects dictionary that `apply_required_aspects`
  updates in place: it fills required aspects, collapses single-value aspects
  (several colours become `Multicoloured`) and renames `Color` to `Colour`.
- **AI reply normalisation** (`ai_analyzer.dfy`, module `AiAnalyzer`): finding
  the `{...}` span in the model's reply, and clamping or repairing the title,
  description, price (in pence), condition and aspects.
- **Category matching** (`category_matcher.dfy`, `ranking.dfy`, `tokens.dfy`):
  - `load_categories`' record normalisation;
  - the query `suggest_category` builds from the title, keywords and
    priority aspects;
  - the `[a-z0-9]+` tokeniser and whole-word matching;
  - scoring (3 or 2 points for a whole word, 1 for a substring);
  - the leaf-preferring search pool;
  - the stable sort by (-score, name length), and `get_best_category_id`'s
    fallbacks.
- **Inventory API payloads** (`inventory_flow.dfy`, module `InventoryFlow`):
  - request headers and their marketplace-to-language map;
  - the inventory item: truncation, the brand/MPN rule and aspect
    validation;
  - the offer: category fallback and required policy IDs.
- **Trading API helpers** (`main_trading.dfy`, module `MainTrading`):
  - normalising the image-analysis reply: title, price rounded to pence,
    specifics as lists;
  - `<ItemSpecifics>` XML;
  - local category suggestion and picking a category from the AI reply;
  - the explicit-or-default category ID;
  - choosing a condition ID from the IDs a category allows;
  - `<PictureDetails>` URL selection.
- **XML escaping** (`xml_escape.dfy`, module `XmlEscape`): the five-entity
  `escape_xml` that `main_trading.py` and `ebay_picture_service.py` both
  define. Its properties: it is injective and undone by unescaping. It is
  idempotent exactly on text with no special characters. Every `&` in its
  output starts an entity.

Shared modules:

- `wrappers.dfy`: `Option`, `Result` and the Python exception kinds.
- `text.dfy`: `str.strip`, `lower`, `upper`, `in`, `replace` and slicing.
- `json_value.dfy`: parsed JSON values, Python truthiness, `str()`,
  `float()` and rounding half to even.

Modelling conventions:

- A parsed JSON object, and any dictionary the source iterates in order, is a
  sequence of key/value pairs. Keys are assumed distinct.
- A dictionary the source only looks up or updates is a `map`.
- Environment variables, files, clocks and HTTP calls become parameters.

Where the code's key names or comments suggest otherwise, the model follows
what the code does:

- `kitchenware` maps "Good" to `USED`, and never to `NEW_OTHER`. Its only
  `NEW_OTHER` key contains an underscore, and cleaned conditions never
  contain one (`CategoryRules.KitchenwareNeverNewOther`).
- In every rule table, keys with underscores (`like_new`, `very_good`) can
  never match. So a clothing item in "very good" condition becomes
  `USED_GOOD`, not `PRE_OWNED_EXCELLENT` (`CategoryRules.VeryGoodClothingIsUsedGood`).
- When an aspects dictionary holds both `Color` and `Colour`, both keys are
  kept with their values (`CategoryRules.ColorRenamed`).
- Because `Color` is renamed after single-value aspects are collapsed, a
  multi-value `Color` ends up as a multi-value `Colour`. Applying the rules a
  second time then changes the result (`CategoryRules.ApplyTwiceDiffers`).
- `ai_analyzer.py` accepts nine condition codes. Any other condition is
  mapped by looking for `NEW`, then `EXCELLENT`, and otherwise gives
  `USED_GOOD`.

## Model

| member | source | states |
|---|---|---|
| CategoryRules.Alias | category_rules.py:134-192 | a lowercase key resolves to an item type exactly when it is one of that type's synonyms |
| CategoryRules.GetItemTypeRules | category_rules.py:129-197 | the result is one of the six rule records: the aliased type's rules when the lower-cased, stripped type is a known alias, and the general rules otherwise |
| CategoryRules.TypeLookupKeyIdempotent | category_rules.py:131 | lower-casing and stripping the item type is idempotent |
| CategoryRules.ResolveLookupKey | category_rules.py:129-197 | resolving the normalised key gives the same item type as resolving the raw one |
| CategoryRules.ResolveTypeKey | category_rules.py:134-192 | every item type's own name resolves back to that type |
| CategoryRules.ResolveIgnoresCase | category_rules.py:131 | two item types that agree after lower-casing resolve to the same rules |
| CategoryRules.FirstMatch | category_rules.py:209-214 | the result is the value of the first mapping key contained in the cleaned condition, or the default when no key matches |
| CategoryRules.NormalizeConditionForType | category_rules.py:200-214 | the code is one of the type's mapped values or its default condition |
| CategoryRules.NormalizeByType | category_rules.py:200-214 | for any spelling of an item type, normalising is a first-match search of that type's table |
| CategoryRules.FirstKeyIsNew | category_rules.py:7-126 | every rule table starts with the key "new" mapped to NEW |
| CategoryRules.NewAlwaysWins | category_rules.py:206-211 | a cleaned condition containing "new" gives NEW, whatever the item type |
| CategoryRules.CleanConditionHasNoUnderscore | category_rules.py:206 | a cleaned condition never contains an underscore |
| CategoryRules.UnderscoreKeyNeverMatches | category_rules.py:206-211 | a mapping key with an underscore never matches any condition |
| CategoryRules.KitchenwareVocabulary | category_rules.py:28-49 | kitchenware conditions come out as NEW, NEW_OTHER or USED |
| CategoryRules.KitchenwareNeverNewOther | category_rules.py:28-49 | kitchenware conditions in fact come out only as NEW or USED |
| CategoryRules.VeryGoodClothingIsUsedGood | category_rules.py:8-27 | a clothing item in "very good" condition gets USED_GOOD |
| CategoryRules.GetDefaultCategoryId | category_rules.py:248-251 | the ID is one of the six table IDs; an unknown type gets 11450 |
| CategoryRules.DefaultCategoryIdsDistinct | category_rules.py:7-126 | no two item types share a default category ID |
| CategoryRules.FillRequiredPresent | category_rules.py:225-228 | after filling, every required aspect is present with a non-empty list; one that was absent or empty holds exactly its default value ("Not Specified" when the table has none) |
| CategoryRules.FillRequiredKeeps | category_rules.py:225-228 | filling adds only required names and changes only absent or empty required aspects |
| CategoryRules.CollapseSingleSpec | category_rules.py:231-238 | collapsing keeps the key set; a single-value aspect other than Colour with several values keeps only its first; a multi-value Colour becomes Multicoloured; an aspect with at most one value is unchanged |
| CategoryRules.RequiredAspectsPresent | category_rules.py:217-245 | after applying the rules, every required aspect of the item type is present and non-empty; one that was absent or empty holds exactly its default value |
| CategoryRules.OtherAspectsKept | category_rules.py:217-245 | other aspects are kept unchanged; the only new keys are required names and Colour |
| CategoryRules.ColorRenamed | category_rules.py:241-243 | Color is renamed to Colour with its values, unless Colour is already present, in which case both are kept |
| CategoryRules.SingleValueAspectsCapped | category_rules.py:231-243 | single-value aspects have at most one value, except a Colour just renamed from Color; one other than Colour and Color with several values keeps its first, and one with a single value keeps it |
| CategoryRules.MultiColourBecomesMulticoloured | category_rules.py:233-235 | several colours become the single value Multicoloured |
| CategoryRules.ApplyTwiceDiffers | category_rules.py:231-243 | with a multi-value Color, applying the rules twice differs from applying them once |
| CategoryRules.ShoesFromEmpty | category_rules.py:50-68 | empty shoe aspects become Brand=Unbranded and UK Shoe Size=Not Specified |
| CategoryRules.AspectBag.ApplyRequiredAspects | category_rules.py:217-245 | updates the bag in place to the rule-applied aspects and returns the same bag |
| CategoryRules.AspectBag.FillDefaults | category_rules.py:225-228 | the loop fills absent or empty required aspects from the defaults |
| CategoryRules.AspectBag.CollapseToSingle | category_rules.py:231-238 | the loop collapses each single-value aspect |
| CategoryRules.AspectBag.RenameColorKey | category_rules.py:241-243 | renames Color to Colour when Colour is absent |
| AiAnalyzer.ExtractJsonSpan | ai_analyzer.py:128-136 | fails with the "valid JSON" error exactly when no `{` is followed by a `}`; otherwise the span runs from the first `{` to the last `}` of the reply |
| AiAnalyzer.NormalizeTitle | ai_analyzer.py:159-162 | the title is non-empty, at most 80 characters and stripped; it is the stripped truncated title when that is not blank, and "Item for Sale" when it is |
| AiAnalyzer.TitleFixedPoint | ai_analyzer.py:159-162 | a stripped title of 1-80 characters is kept as it is |
| AiAnalyzer.NormalizeDescription | ai_analyzer.py:164-167 | the description is the stripped text, or the fallback HTML when it is blank |
| AiAnalyzer.DescriptionFixedPoint | ai_analyzer.py:164-167 | a stripped, non-empty description is kept |
| AiAnalyzer.ClampPrice | ai_analyzer.py:172 | a float price in pence lies in [99, 99999999]: NaN and +inf give the maximum, -inf the minimum, and a finite value is rounded half to even to pence (within half a penny) and then clamped: below 99 gives 99, above the maximum gives the maximum, otherwise the rounded value |
| AiAnalyzer.NormalizePrice | ai_analyzer.py:169-174 | as written: raises OverflowError "int too large to convert to float" exactly for an int beyond the double range; a price float() rejects with ValueError or TypeError gives 999; any other price is the clamped float, in [99, 99999999] |
| AiAnalyzer.IntendedPrice | ai_analyzer.py:169-174 | as intended: always in [99, 99999999], equal to the as-written price wherever that succeeds, and an int beyond the double range clamps like the infinity of its sign |
| AiAnalyzer.PriceOverflowEscapes | ai_analyzer.py:171-174 | an int price at the double overflow bound makes the as-written step raise OverflowError, while the intended step gives 999999.99 |
| AiAnalyzer.PriceFixedPoint | ai_analyzer.py:169-174 | a price already in whole pence within the range is kept |
| AiAnalyzer.MapConditionVariant | ai_analyzer.py:185-192 | NEW if the text contains NEW, else USED_EXCELLENT if it contains EXCELLENT, else USED_GOOD |
| AiAnalyzer.NormalizeCondition | ai_analyzer.py:177-192 | the result is always a valid condition; a valid upper-cased condition is kept |
| AiAnalyzer.ConditionIdempotent | ai_analyzer.py:177-192 | normalising a condition twice gives the same result as once |
| AiAnalyzer.ListValue | ai_analyzer.py:206 | one entry contributes at most one value, non-empty and stripped |
| AiAnalyzer.ListValues | ai_analyzer.py:204-206 | list values come out non-empty and stripped, never more of them than the input has |
| AiAnalyzer.ListValuesSingle | ai_analyzer.py:206 | a one-entry list gives the entry's stripped text when the entry is truthy and not blank, else nothing |
| AiAnalyzer.ListValuesAppend | ai_analyzer.py:206 | the comprehension distributes over concatenation, so entries are kept in order |
| AiAnalyzer.ListValuesKeepStrings | ai_analyzer.py:206 | every non-blank string in the list survives, stripped |
| AiAnalyzer.AspectsKeys | ai_analyzer.py:195-211 | a key is present exactly when some input key strips to it and has values |
| AiAnalyzer.AspectsLastWins | ai_analyzer.py:195-211 | when two keys strip to the same name, the last one with values wins |
| AiAnalyzer.AspectsWellFormed | ai_analyzer.py:195-211 | aspect names and values are stripped, and every value list is non-empty |
| AiAnalyzer.NormalizedResponse | ai_analyzer.py:156-223 | fails exactly when the decoded reply is not an object or its price is an int beyond the double range; for an object the error is that OverflowError |
| AiAnalyzer.NormalizedIsWellFormed | ai_analyzer.py:156-223 | an object normalises exactly when its price does not overflow, and then to a listing meeting every bound above |
| AiAnalyzer.ListValuesOfStrings | ai_analyzer.py:204-206 | a list of stripped non-empty strings gives those strings back |
| AiAnalyzer.AspectsFixedPoint | ai_analyzer.py:195-211 | normalised aspects, written back as an object of string lists, normalise to the same map |
| AiAnalyzer.NormalizeIdempotent | ai_analyzer.py:156-223 | normalising the JSON form of a normalised listing gives that listing again, title, description, price, condition, aspects and category keywords alike |
| AiAnalyzer.NormalizeAspects | ai_analyzer.py:195-211 | the loop over the aspects builds the aspect map |
| AiAnalyzer.NormalizeAiResponse | ai_analyzer.py:156-223 | computes the normalised response |
| AiAnalyzer.AnalyseReply | ai_analyzer.py:125-153 | succeeds exactly when the span exists and decodes to an object whose price does not overflow, and the result is then the well-formed normalised listing; no span gives "Image analysis failed: AI did not return valid JSON", a decoding error "Invalid JSON from AI: " and its message, a non-object "Image analysis failed: " and the AttributeError message, and an overflowing int price "Image analysis failed: int too large to convert to float" |
| Tokens.Scan | main_trading.py:58-59 | every token is a non-empty run of `[a-z0-9]` |
| Tokens.ScanJoin | category_matcher.py:55-57 | tokenising words joined by spaces gives those words back |
| Tokens.TokenizeJoin | category_matcher.py:88-108 | tokenising the space-joined query is tokenising each part in turn |
| Tokens.TokenizeRoundTrip | category_matcher.py:55-57 | tokenising the re-joined tokens reproduces them |
| Tokens.HasWholeWord | category_matcher.py:125 | a whole-word match is an occurrence with no word character on either side |
| Tokens.WholeWordContains | category_matcher.py:125-128 | a whole-word match is also a substring match |
| Tokens.TokenPoints | category_matcher.py:123-129 | a whole-word match scores the whole-word points, a substring-only match 1, and a token scores nothing exactly when it does not occur in the name |
| Tokens.ScorePositive | category_matcher.py:131 | a name scores above zero exactly when some token occurs in it |
| Tokens.ScoreBound | category_matcher.py:118-129 | a score is at most the whole-word points times the number of tokens |
| Ranking.RankSortRanked | category_matcher.py:140 | the sort orders by descending score, then ascending name length, and is a permutation |
| Ranking.RankSortStable | category_matcher.py:140 | the sort is stable: entries with equal keys keep their order |
| Ranking.Slice | category_matcher.py:142 | Python's `list[:k]`, including negative `k` |
| Ranking.PoolSpec | category_matcher.py:84-85 | the pool is the leaves when any exist, else every category |
| Ranking.MatchesSpec | category_matcher.py:131-137 | exactly the pool categories with a positive score are kept, each with its score |
| Ranking.ScorePool | category_matcher.py:118-137 | the scoring loop yields the matches |
| Ranking.SuggestionsSpec | category_matcher.py:140-149 | suggestions are ranked, at most k, scored above zero and leaves when leaves exist |
| Ranking.SuggestionsHead | category_matcher.py:140-142 | the first suggestion ranks at least as high as every match |
| Ranking.SuggestionsComplete | category_matcher.py:140-142 | when k covers every match, the suggestions are all the matches |
| CategoryMatcher.FirstTruthy | category_matcher.py:30-31 | the value of the first key whose value is truthy, or "" when none is |
| CategoryMatcher.NormalizeRecord | category_matcher.py:28-39 | a record is kept exactly when it has a truthy ID and name; they are stringified, and leaf follows the LeafCategory flag, else the leaf flag |
| CategoryMatcher.LoadedCategoriesSpec | category_matcher.py:17-52 | every loaded category comes from a normalised input record |
| CategoryMatcher.NormalizeAllSingle | category_matcher.py:30-39 | a one-entry list loads that entry's record when it has a truthy ID and name, else nothing |
| CategoryMatcher.NormalizeAllAppend | category_matcher.py:29-39 | the loop works entry by entry, in input order: loading a concatenation loads each part in turn |
| CategoryMatcher.LoadedCategoriesComplete | category_matcher.py:29-39 | every entry with a truthy ID and name is loaded |
| CategoryMatcher.LoadCategories | category_matcher.py:17-52 | the loading loop yields the normalised records, or none for unusable data |
| CategoryMatcher.AspectPartsSpec | category_matcher.py:93-105 | at most two values per priority aspect join the query |
| CategoryMatcher.QueryTokens | category_matcher.py:88-108 | the query tokens are the title's tokens followed by the remaining parts' tokens |
| CategoryMatcher.AppendAspectValues | category_matcher.py:102-105 | the loop appends the first two values of each priority aspect |
| CategoryMatcher.BuildQueryParts | category_matcher.py:88-107 | builds the query parts |
| CategoryMatcher.SuggestCategory | category_matcher.py:60-149 | returns the top-k ranked suggestions |
| CategoryMatcher.GetBestCategoryId | category_matcher.py:152-192 | top suggestion, else the fallback, else the default from the environment, else ValueError |
| XmlEscape.EscapeXmlIsEscapeEach | main_trading.py:202-207 | the five chained replaces equal escaping each character on its own |
| XmlEscape.EscapeXmlChar | ebay_picture_service.py:129-135 | each special character becomes its entity; every other character is kept |
| XmlEscape.UnchangedIff | main_trading.py:202-207 | escaping leaves text unchanged exactly when it has no special characters |
| XmlEscape.EscapeTwiceIff | ebay_picture_service.py:129-135 | escaping is idempotent exactly on text with no special characters |
| XmlEscape.AmpersandEscapedTwice | main_trading.py:202-207 | a second escape turns `&amp;` into `&amp;amp;` |
| XmlEscape.NoRawSpecials | main_trading.py:202-207 | escaped text contains no `<`, `>`, `"` or `'` |
| XmlEscape.AmpersandsBeginEntities | ebay_picture_service.py:129-135 | every `&` in escaped text begins one of the five entities |
| XmlEscape.UnescapeEscape | main_trading.py:202-207 | unescaping restores the original text |
| XmlEscape.EscapeInjective | ebay_picture_service.py:129-135 | different texts escape differently |
| XmlEscape.EscapeEachLength | main_trading.py:202-207 | escaping never shortens text, and lengthens any text that has a special character |
| MainTrading.SpecificValues | main_trading.py:181-188 | a specific's values come out non-empty and stripped |
| MainTrading.NormalizedSpecificsSpec | main_trading.py:181-188 | each kept specific comes from a non-null input entry, with its stripped non-empty values |
| MainTrading.NormalizeSpecifics | main_trading.py:181-188 | the loop yields the normalised specifics |
| MainTrading.TradingPrice | main_trading.py:177-180 | a price whose float() raises anything, overflow included, gives 9.99; a finite one is rounded to a whole number of pence within half a penny; NaN and infinities pass through |
| MainTrading.DefaultTradingPrice | main_trading.py:177 | the default 9.99 is kept |
| MainTrading.HugePrice | main_trading.py:177-180 | a number beyond the double range gives 9.99 when it is an int (its float() overflows and is caught) and +inf when it is a float literal |
| MainTrading.TradingTitle | main_trading.py:176 | the title has at most 80 characters, and is empty when missing |
| MainTrading.NormalizedReplySpec | main_trading.py:175-189 | fails exactly when specifics is truthy and not an object; otherwise the title is at most 80 characters, a missing price, one float() rejects and an int beyond the double range all give 9.99, and every specific is a non-empty list of stripped non-empty strings |
| MainTrading.NormalizeReply | main_trading.py:175-189 | computes the normalised reply |
| MainTrading.AnalyseImage | main_trading.py:169-189 | no span gives the RuntimeError with the first 200 characters of the reply; a decoding error passes through unchanged; a non-object gives the AttributeError for its missing `get`; an object is normalised |
| MainTrading.ValuesXml | main_trading.py:196 | the values markup is empty exactly when no value has text |
| MainTrading.BlocksSpec | main_trading.py:195-198 | one block per specific with a value, in order, each built from that specific's name and values |
| MainTrading.ItemSpecificsEmpty | main_trading.py:192-200 | the XML is empty exactly when no specific has a value |
| MainTrading.SpecificsToItemSpecificsXml | main_trading.py:192-200 | the loop builds the ItemSpecifics XML |
| MainTrading.LocalSuggestionsSpec | main_trading.py:61-83 | no tokens gives no suggestions; at most k of them, each a scoring category, leaves preferred |
| MainTrading.SuggestCategoriesLocal | main_trading.py:61-83 | returns the ranked local suggestions |
| MainTrading.SpecificBit | main_trading.py:88-92 | a list contributes its first element, a non-blank string itself, and anything else nothing |
| MainTrading.SpecificBitsSpec | main_trading.py:86-92 | at most one query part per specific name, each taken from that specific |
| MainTrading.BitStrings | main_trading.py:93 | joining succeeds exactly when every query part is a string |
| MainTrading.FirstNonString | main_trading.py:93 | the first query part that is not a string, all before it being strings; it is past the end exactly when joining succeeds |
| MainTrading.AppendBits | main_trading.py:88-92 | the loop appends each specific's query part |
| MainTrading.PickCategoryIdFromAi | main_trading.py:85-101 | a non-string part gives the TypeError naming the first such item's index and type; else the top suggestion, the environment fallback, or RuntimeError |
| MainTrading.PickCategoryId | main_trading.py:209-215 | a non-blank explicit ID, stripped, else the default, else RuntimeError |
| MainTrading.PickCategoryIdStable | main_trading.py:209-215 | an explicit ID that is already stripped picks the same category |
| MainTrading.ChooseConditionId | main_trading.py:127-129 | a non-zero preferred ID is chosen when the category allows it, else the first allowed ID, else the preferred ID or 3000 |
| MainTrading.ChooseConditionIdPreferred | main_trading.py:127-129 | a non-zero preferred ID is chosen exactly when it is allowed or no IDs are listed |
| MainTrading.NonBlankUrls | main_trading.py:241 | every kept URL is a non-blank string entry of the input, and nothing is kept exactly when no entry is a non-blank string |
| MainTrading.NonBlankUrl | main_trading.py:241 | one entry contributes at most one URL |
| MainTrading.NonBlankUrlsSingle | main_trading.py:241 | a one-entry list keeps the entry, unstripped, exactly when it is a non-blank string |
| MainTrading.NonBlankUrlsAppend | main_trading.py:241 | the filter distributes over concatenation, so URLs are kept in order |
| MainTrading.PictureUrls | main_trading.py:240-244 | the given URLs when any is usable, else the stripped default URL when it is not blank; empty only when both are missing |
| MainTrading.PicturesOmitted | main_trading.py:240-245 | the picture XML is omitted exactly when there is no usable URL |
| InventoryFlow.ContentLanguage | inventory_flow.py:21-30 | the language from the seven-entry map, defaulting to en-GB |
| InventoryFlow.LanguageMatchesCountry | inventory_flow.py:21-30 | each mapped language's country matches its marketplace suffix |
| InventoryFlow.RequestHeaders | inventory_flow.py:19-36 | the bearer authorization for the token, JSON content type and a mapped language |
| InventoryFlow.KeptValues | inventory_flow.py:86 | every kept value is a non-empty input value, every non-empty input value is kept, and there are never more of them than inputs |
| InventoryFlow.KeptValuesSingle | inventory_flow.py:86 | a one-entry list keeps the entry exactly when it is not empty |
| InventoryFlow.KeptValuesAppend | inventory_flow.py:86 | the filter works entry by entry, in order: filtering a concatenation filters each part in turn |
| InventoryFlow.ValidatedAspectsSpec | inventory_flow.py:76-91 | keeps exactly the aspects with values, except Brand once the brand is promoted; each kept list is the in-order filter of the original's non-empty values |
| InventoryFlow.ProductBrand | inventory_flow.py:59-69 | the explicit brand, else the first Brand aspect value when non-empty |
| InventoryFlow.ValidateAspects | inventory_flow.py:76-91 | the loop yields the validated aspects |
| InventoryFlow.BuildInventoryItemPayload | inventory_flow.py:38-100 | no images gives ValueError; otherwise the fields are truncated, a brand carries an MPN ("Does Not Apply" when none is given), aspects appear only when some are left, and quantity is clamped at 0 |
| InventoryFlow.BrandCarriesMpn | inventory_flow.py:58-91 | a product with a brand always has a non-empty MPN and no Brand aspect |
| InventoryFlow.OfferCategory | inventory_flow.py:103 | the given category, else the default |
| InventoryFlow.BuildOfferPayload | inventory_flow.py:102-131 | succeeds exactly when the category, the three policies and the location are set; otherwise the ValueError for the first missing one, in that order, with its own message; a built offer is FIXED_PRICE, in GBP, quantity 1, with the given and configured values |
| InventoryFlow.OfferComplete | inventory_flow.py:102-131 | a built offer has every ID set |

## Left out

- **HTTP calls.** Token minting, inventory/offer creation and publishing,
  AddFixedPriceItem, picture upload (the rest of `ebay_picture_service.py`)
  and the OpenAI request are network I/O. The model takes the AI reply text
  and the details of the category's allowed conditions as inputs.
- **XML response parsing.** `get_condition_id_for_category`'s request and its
  `ElementTree` parsing are not modelled, nor is `int(x.text)`. Only the
  choice among the listed IDs is (`MainTrading.ChooseConditionId`).
- **Files, caching and the environment.**
  - Reading the category file is not modelled, nor is `lru_cache`. A file
    that is missing or not valid JSON is the `None` input of
    `CategoryMatcher.LoadCategories`.
  - `main_trading.py`'s own `load_categories` (lines 44-56) is not modelled.
    Its suggester takes the category list as a parameter.
  - Environment variables (marketplace, policy IDs, default category,
    default picture URL) are parameters.
- **JSON decoding.** `json.loads` is a function parameter that returns a
  value or its decoding error; the text of that error is whatever the
  parameter gives. JSON objects are assumed to have distinct keys.
- **Floating point.** Numbers are exact decimals with a NaN/infinity tag, not
  IEEE doubles. `round(x, 2)` and `round()` are round-half-even on the exact
  value. So a binary representation error that changes a tie is not
  modelled.
  - `MainTrading.TradingPrice`: states the result only within half a penny
    of the input, not the exact double.
  - `float()` accepts decimal and exponent forms, with surrounding
    whitespace. Underscores in numbers are not modelled.
  - The double's range is modelled: from 2^1024 - 2^970 on, an `int`
    makes `float()` raise `OverflowError` and a float literal is an
    infinity. Below that bound, rounding to the nearest double and
    underflow to zero are not modelled, and `str()` of a float literal
    beyond the range is its text rather than `inf`.
- **Number to text.** `str()` of a number is the text the number was decoded
  from. `str(price_value)` in the offer is a text parameter.
- **`repr()` is simplified.** `str()` of a list or object uses simple
  quoting without Python's escape rules.
- **ASCII text only.**
  - `lower` and `upper` change ASCII letters only, not full Unicode case
    mapping. `strip` removes the whole of Python's `str.isspace` set
    (`Text.IsSpace`).
  - The tokeniser's `\b` uses ASCII word characters.
- **Python dictionary order.** Aspects in `InventoryFlow` and
  `CategoryRules`, and the aspects `AiAnalyzer.AiListing` carries, are maps,
  so the order of the output keys is not modelled (for `normalized_aspects`,
  the order in which the reply listed them).
  The order does matter for JSON objects and specifics, and those are
  sequences.
- **Non-list aspect values.** `build_inventory_item_payload` declares its
  aspects as lists of strings, so its non-list branch (`elif values`) is not
  modelled.
- **Other parts of the repository.** `enhance_description_for_mobile`, the
  web routes, logging, `auth.py`, `create_Location.py`, `dumo.py` and
  `main.py` are not part of this model.

## Findings

| source | as written | input that shows it | evidently intended | confidence | as-written member | corrected member |
|---|---|---|---|---|---|---|
| ai_analyzer.py:170-174 | `float(price)` of an `int` too large for a double raises `OverflowError`, which `except (ValueError, TypeError)` does not catch, so `_normalize_ai_response` raises and the analysis fails with "Image analysis failed: int too large to convert to float" | a reply whose `price` is a whole number of at least 2^1024 - 2^970 (about 1.8e308), e.g. 10**400 | the normaliser is total like every other field: the price clamps to 999999.99 (to 0.99 for a negative one), as a float infinity already does | high (not executed) | AiAnalyzer.PriceOverflowEscapes | AiAnalyzer.IntendedPrice |

The reply handlers (`AiAnalyzer.NormalizedResponse`, `AiAnalyzer.AnalyseReply`)
keep the as-written price step, so their error outcomes are those of the code.
