# Products block REST controller — a Dafny model

This project models the product-listing controller of the WooCommerce
Products block (`src/RestApi/Controllers/Products.php`, the `wc/blocks/products`
endpoints). The controller is a thin adapter over the host shop platform; the
model covers the rules it adds of its own:

- **Query translation** (`TaxQuery`): the parent controller builds a query
  whose `tax_query` is an ordered list of taxonomy clauses. The controller
  overwrites, in place, the operator of every category (`product_cat`), tag
  (`product_tag`) and attribute-taxonomy clause with the mapped request
  operator (`in` → `IN`, `not_in` → `NOT IN`, `and` → `AND`), sets
  `include_children` on category clauses (false for `AND`, true otherwise),
  and for a catalog visibility of `visible`, `catalog`, `search` or `hidden`
  appends one `product_visibility` clause. Each pass is a method with a loop
  over the clause list; `PrepareObjectsQuery` runs them in the source's
  order and is proved equal, clause by clause, to the reference definition
  `Augmented` ("the last pass that matches a clause decides its operator").
  `VisibilityClauseSelects` states what the appended clause means under the
  platform's reading of `IN` / `NOT IN` / `AND`.
- **Price range** (`PriceRange`): min/max over a variable product's variation
  prices (only when they differ) or over a grouped product's visible, priced
  children (only when there is one); none for any other kind. Prices are
  integers in minor units; the platform's tax-inclusive and tax-exclusive
  prices are given values, and the shop's tax display setting picks one.
- **Price block** (`Prices`): the prefix/suffix switch on the currency
  position setting, the three prices under one tax display setting, and
  the price range.
- **Image list** (`Images`): the main image id (when set), then the gallery
  ids, passed through `absint` and de-duplicated keeping first occurrences
  (the behaviour of `wp_parse_id_list`); one record per id whose full-size
  source resolves in the media library, which is a map from id to what the
  library knows of that attachment.
- **Permissions** (`Permissions`): the two endpoint checks and the `read`
  permission filter; the `edit_posts` capability and the authorization
  status code are parameters.
- **Add-to-cart URL** (`CartUrl`): a URL pointing into `/wp-json/wc/` is
  replaced by `?add-to-cart=<id>`.

Host-platform calls are parameters: the attribute taxonomy names, the tax
display setting, the currency settings and symbol, the tax-adjusted prices,
the child visibility filter's verdict, the media library, the user's
capability and the authorization status code. Nothing else is read.

The parameter declarations restrict the three operator parameters to
`in`, `not_in` and `and` (`Products.php:379`, `:387`, `:395`), so an unknown
operator would be refused before the query is built; the query translation
itself (`Products.php:150-155`) treats an operator the mapping does not know
as a missing value that skips its pass, and the model follows the
translation (`FilterRequest` holds such an operator as `None`). A category, tag or attribute pass
runs only when the parent query already has a `tax_query`, whereas the
visibility clause is appended even when it has none, creating the list.

## Model

| member | source | states |
|---|---|---|
| TaxQuery.AppendsVisibility | src/RestApi/Controllers/Products.php:180 | a visibility clause is due exactly when a catalog visibility is given and it is not `any` (every other value is a product visibility option key) |
| TaxQuery.OperatorName | src/RestApi/Controllers/Products.php:144-152 | the operator mapping yields one of `IN`, `NOT IN`, `AND`, and `AND` exactly for `and`, `IN` exactly for `in` |
| TaxQuery.VisibilityClause | src/RestApi/Controllers/Products.php:180-189 | the appended clause is on `product_visibility` by `name` with two terms; its operator is `AND` iff the value is `hidden` (else `NOT IN`); the first term is empty iff `search` (else `exclude-from-catalog`); the second is empty iff `catalog` (else `exclude-from-search`) |
| TaxQuery.VisibilityClauseSelects | src/RestApi/Controllers/Products.php:180-189 | under the platform's reading of the operators the clause keeps: for `visible` products in catalog and search, for `catalog` those in the catalog, for `search` those in search, for `hidden` those excluded from both |
| TaxQuery.Augmented | src/RestApi/Controllers/Products.php:155-178 | reference definition of a parent clause after the passes: taxonomy, field and terms unchanged; a category clause gets `include_children` false iff the category operator is `and`; a category or tag clause gets its mapped operator unless the attribute pass also matches it, and an attribute-taxonomy clause gets the attribute operator (the later pass wins); a clause that no pass with a given operator matches is unchanged |
| TaxQuery.OverrideCategoryOperator | src/RestApi/Controllers/Products.php:155-162 | same length; each `product_cat` clause gets the mapped operator and `include_children` = (operator is not `and`); every other clause is untouched |
| TaxQuery.OverrideOperator | src/RestApi/Controllers/Products.php:164-178 | same length; each clause whose taxonomy is a target (`product_tag`, or an attribute taxonomy name) gets the mapped operator and nothing else; every other clause is untouched |
| TaxQuery.PrepareObjectsQuery | src/RestApi/Controllers/Products.php:142-193 | no `tax_query` results iff there was none and no visibility clause is due; parent clauses keep their places and each equals its `Augmented` form; exactly one visibility clause is appended, last, iff the value is one of the four option keys; `any` or no value leaves the length unchanged |
| PriceRange.Displayed | src/RestApi/Controllers/Products.php:280-282 | under the `incl` setting the tax-inclusive price is shown, otherwise the tax-exclusive one (the same choice as for each grouped child at line 312) |
| PriceRange.Min | src/RestApi/Controllers/Products.php:298-300 | PHP `min` on a non-empty list: an element no greater than any element |
| PriceRange.Max | src/RestApi/Controllers/Products.php:298-301 | PHP `max` on a non-empty list: an element no smaller than any element |
| PriceRange.ChildPricesMembers | src/RestApi/Controllers/Products.php:308-314 | the collected child prices are exactly the displayed prices of the visible children whose price is not empty |
| PriceRange.ChildPricesEmpty | src/RestApi/Controllers/Products.php:316 | the collected child prices are empty iff no child is both visible and priced |
| PriceRange.PriceRangeDetermined | src/RestApi/Controllers/Products.php:294-325 | the range promise leaves no choice: two ranges that both keep it are equal |
| PriceRange.GetPriceRange | src/RestApi/Controllers/Products.php:294-325 | variable: a range iff the variation prices are not all equal, spanning them (min ≤ max, both ends are prices); grouped: a range iff some child is visible and priced, spanning those children's displayed prices; other kinds: none |
| Prices.CurrencyAffixes | src/RestApi/Controllers/Products.php:252-269 | `left_space` gives prefix symbol+" ", `left` prefix symbol, `right_space` suffix " "+symbol, `right` suffix symbol, any other position neither; prefix and suffix are never both non-empty |
| Prices.GetPrices | src/RestApi/Controllers/Products.php:248-286 | currency code, separators and decimals are the settings'; `left_space` gives prefix symbol+" ", `left` prefix symbol, `right_space` suffix " "+symbol, `right` suffix symbol, any other position neither, so at most one of prefix and suffix is set; price, regular and sale price are all tax-inclusive or all tax-exclusive per the one setting; the range keeps the price-range promise |
| Images.Absint | src/RestApi/Controllers/Products.php:341 | an id made non-negative keeps its magnitude: it is the id or its negation |
| Images.Unique | src/RestApi/Controllers/Products.php:341 | de-duplication yields no repeated id and exactly the ids of its input |
| Images.UniqueOrder | src/RestApi/Controllers/Products.php:341 | de-duplication lists ids in the order of their first occurrences |
| Images.GatheredIds | src/RestApi/Controllers/Products.php:337-341 | the gathered list is the main image id (only when non-zero) followed by the gallery ids, each through `absint` |
| Images.ResolvedKeepsOrder | src/RestApi/Controllers/Products.php:343-348 | skipping unresolved ids of a repeat-free list keeps exactly the resolvable ids, adds no repeat and keeps their order |
| Images.ResolvedAttachmentIds | src/RestApi/Controllers/Products.php:337-361 | the resolved attachment ids have no repeat, are exactly the gathered ids that resolve, and follow first-gathered order |
| Images.FirstGatheredIdLeads | src/RestApi/Controllers/Products.php:337-348 | when the first gathered id resolves it is the first resolved id |
| Images.ImageListFollowsGatheredIds | src/RestApi/Controllers/Products.php:343-361 | an image list built over the resolved ids has their membership, no repeats, first-gathered order, and the main image first when it resolves |
| Images.GetImages | src/RestApi/Controllers/Products.php:333-364 | each record carries its attachment's data; record ids are exactly the gathered ids that resolve, without repeats, in first-gathered order (main image, then gallery), with the main image first when set and resolvable |
| Permissions.ItemsPermissionsCheck | src/RestApi/Controllers/Products.php:87-92 | granted iff the user can edit posts; a refusal carries code `woocommerce_rest_cannot_view` and the authorization status |
| Permissions.ItemPermissionsCheck | src/RestApi/Controllers/Products.php:100-105 | granted iff the user can edit posts; a refusal carries code `woocommerce_rest_cannot_view` and the authorization status |
| Permissions.ChangePermissions | src/RestApi/Controllers/Products.php:114-119 | in the `read` context the answer is whether the user can edit posts; in any other context the incoming answer is kept |
| Permissions.ChecksAgree | src/RestApi/Controllers/Products.php:87-119 | the listing check, the single-item check and the read filter let through the same users, and both checks refuse with the same code |
| CartUrl.Contains | src/RestApi/Controllers/Products.php:235 | `strstr` is truthy exactly when the needle is a prefix of some suffix of the haystack that starts early enough, which needs the needle to be no longer than the haystack |
| CartUrl.DecimalString | src/RestApi/Controllers/Products.php:236 | a product id is written as a non-empty string of decimal digits that denotes exactly that id, with no leading zero except in `0` itself |
| CartUrl.NoSlashNoRestPath | src/RestApi/Controllers/Products.php:235 | a string without `/` never contains `/wp-json/wc/` |
| CartUrl.AddToCartUrl | src/RestApi/Controllers/Products.php:231-240 | a URL without `/wp-json/wc/` is kept; one with it becomes `?add-to-cart=` followed by the id's digits; the result never contains `/wp-json/wc/` |

## Left out

- PHP `strstr` with an empty needle is not modelled: the needle here is always the non-empty REST path.
- Route registration (`register_routes`) and the JSON Schema of `get_item_schema`: declarations with no behaviour of their own.
- `get_collection_params`: a parameter declaration; its closed enumerations are why `OperatorParam` and `Visibility` are closed types here.
- `get_items`: the temporary install and removal of the permission filter around the parent controller's listing is ambient hook state of the host; only the filter itself (`ChangePermissions`) is modelled.
- The parent controller's query (`parent::prepare_objects_query`) is an input; the other keys of the query arguments pass through untouched and are not modelled. Nested clause groups and a `relation` key in `tax_query` are not modelled: the clauses are a flat list.
- `get_product_data`: every field is a host accessor (`wc_trim_string`, `wc_get_formatted_variation`, ratings, add-to-cart texts); only its price block and image list are modelled.
- Tax computation (`wc_get_price_including_tax` / `wc_get_price_excluding_tax`), decimal prices and `html_entity_decode`: prices are given integers in minor units for both tax modes, and the currency symbol is a given string.
- Attachment lookups (`wp_get_attachment_image_src`, srcset, sizes, title, alt text) are one map from id to attachment data; an id absent from the map is one whose full-size source does not resolve.
- PHP `min`/`max` on an empty variation price list: a variable product is required to have at least one variation price.
- PHP's loose `switch` comparison on the currency position is modelled as string equality, which agrees for the string values the setting holds.
- Translation of error messages (`__`) is not modelled; the messages are the untranslated strings.
- `src/RestApi/StoreApi/Controllers/Cart.php` is not modelled: apart from one availability check it only delegates to `CartController` and `CartSchema`, which are not part of this model.
