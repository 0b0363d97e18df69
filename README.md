# Blumenau Automação catalogue scripts, modelled in Dafny

The store keeps its catalogue in `products.json`. A set of Python scripts fills the
catalogue and carries it to two marketplaces:

- **Scraper** (`scraper.py`) reads a supplier's product sitemap and fetches each page with
  retries. It parses every page into a product record (name, SKU, price, stock, gallery,
  description, category path, specifications, datasheet, slug) and keeps the products at or
  above the minimum price, saving every `save_interval` products. It derives the category
  list by counting and sorting, and it reports added, removed and re-priced products when
  it saves.
- **Mercado Livre API client** (`mercadolivre_api.py`) does the following:
  - finds a category by search, with word-prefix fallbacks and the generic MLB1905;
  - fills the category's required attributes from the specs, then from defaults, then from
    the first allowed value;
  - prepares the listing: title, description, BRAND, MODEL and GTIN, merged attributes;
  - creates it, retrying once in the generic category;
  - pages through the seller's items;
  - syncs the catalogue against the product map `ml_products_map.json`.
- **Export** (`mercadolivre_export.py`) writes the listable products as rows with a
  category fee and a category id, sorted by supplier and price.
- **Price and stock sync** (`ml_sync.py`):
  - fetches the mapped items in multiget batches of 20;
  - plans price updates beyond the R$ 1.00 tolerance and restock or zero-stock
    quantities;
  - sends them, unless it is a dry run, and writes successful prices back into the map.
- **Price fetcher** (`ml_fetch_prices.py`) copies price, original price and condition from
  the marketplace into the map entries of the active items, batch by batch.
- **Google Merchant feed** (`generate_google_feed.py`):
  - cleans the text fields;
  - formats prices as `123.45 BRL`;
  - selects products with a price, an image and a slug, keeping out-of-stock ones;
  - writes one TSV row per product.

Module layout:

| Module | File | Role |
|---|---|---|
| `Py` | `py.dfy` | JSON values as `Field<T>` (`Absent`, `null`, a value), `dict.get` and `or` with defaults, truthiness, Python slicing |
| `Dicts` | `dicts.dfy` | insertion-ordered dictionaries as association lists |
| `Seqs` | `seqs.dfy` | filters, counts, comprehensions, fixed-size batches, a stable sort |
| `Text` | `text.dfy` | `lower`, `replace`, `split`, `strip`, containment, `' '.join(s.split())` |
| `Catalog` | `catalog.dfy` | the product record and the marketplace map entries |
| `Scraper`, `Parse` | `scraper.py` | the scraper |
| `MlListing`, `MlApi` | `mercadolivre_api.py` | the API client; `MlListing` holds the title and description cleaning the client and the export share |
| `MlExport`, `MlSync`, `MlFetchPrices`, `GoogleFeed` | one file each | the other scripts |

Modelling conventions:

- Prices are integers in cents.
- Python's loops become Dafny methods with loop invariants, each proved against a
  function that states the result. The properties are lemmas about those functions.
- HTTP requests, HTML selectors, the analytics-id regular expression, `html.unescape`,
  `urljoin`, `str.title()` and the floating-point price formulas are parameters of the
  model. Each one is an arbitrary function, so every result is proved for all of their
  behaviours.
- Where a script raises on some input (a `None` where a string is expected, a missing
  key), the model has a precondition excluding that input. The other error paths of the
  scripts are modelled.

## Model

| member | source | states |
|---|---|---|
| Scraper.Fetch | scripts/scraper.py:65-76 | At most `retries` attempts are made, and the first successful body is returned. `None` means every attempt failed. The wait after failed attempt k is delay·(k+1) seconds, a real number, with no wait after the last one. |
| Scraper.ProductUrls | scripts/scraper.py:129-150 | A failed or empty sitemap gives no URLs. Otherwise the result is exactly the sitemap locations on the store host that are neither images nor CDN files, in sitemap order. |
| Scraper.Limited | scripts/scraper.py:83-84 | A falsy limit keeps all URLs. A positive limit keeps the first `limit`. A negative one drops from the end, as Python slicing does. |
| Scraper.Accepted | scripts/scraper.py:90-97 | The kept products are the parsed products with a truthy price of at least the minimum, in URL order. |
| Scraper.AcceptedConcat | scripts/scraper.py:90-97 | Acceptance of a concatenation is the concatenation of the acceptances, so order is kept. |
| Scraper.ScrapeAll | scripts/scraper.py:78-117 | It returns exactly the accepted products of the limited URLs. Save k receives the first (k+1)·interval products, and fewer than one interval are left unsaved at the end. |
| Scraper.SaveStep | scripts/scraper.py:101-103 | One save happens exactly when the list has grown by the interval since the last save. |
| Scraper.CategoryNames | scripts/scraper.py:405-407 | The truthy categories of the products, in product order. |
| Scraper.TallyKeys | scripts/scraper.py:403-408 | The count dictionary has one key per distinct category, in order of first appearance. |
| Scraper.TallyGet | scripts/scraper.py:403-408 | A category's count is its number of occurrences, and an absent category has no entry. |
| Scraper.TallySum | scripts/scraper.py:403-408 | The counts add up to the number of names counted. |
| Scraper.CategoryNamesCount | scripts/scraper.py:405-407 | Each name occurs once per product naming it, and there is one name per product with a truthy category. |
| Scraper.IntLtOrder | scripts/scraper.py:412 | The sort key `-count` gives a strict weak order, as the stable sort needs. |
| Scraper.CategoryOf | scripts/scraper.py:411 | An entry carries the counted id and its count. |
| Scraper.CountCategories | scripts/scraper.py:403-408 | The counting loop ends with the count dictionary of the truthy categories. |
| Scraper.GenerateCategories | scripts/scraper.py:401-415 | The category list is the stable sort, by descending count, of the counted entries. |
| Scraper.CategoriesCorrect | scripts/scraper.py:401-415 | There is one entry per distinct truthy category, with the number of products naming it, sorted by non-increasing count. The counts add up to the number of products that have a category. |
| Scraper.ByIdKeys | scripts/scraper.py:426-431 | The keys of the id dictionary are the product ids. |
| Scraper.ByIdLast | scripts/scraper.py:426-431 | Each id maps to the last product carrying it. |
| Scraper.PriceChanges | scripts/scraper.py:436-446 | The loop produces one change per common id whose price differs, and no other change. |
| Scraper.SaveProducts | scripts/scraper.py:418-481 | The report counts the new ids that are not old, the old ids that are not new, the common ids whose price changed, and the products. There is one change for each changed common id. |
| Parse.Name | scripts/scraper.py:161-172 | The name element's text. When that is empty, the page title before its first `\|`, stripped. |
| Parse.TitleNameFree | scripts/scraper.py:167-169 | A name taken from the title never contains `\|`. |
| Parse.StripFirstLabel | scripts/scraper.py:188 | The first matching label, its colon and the whitespace after it are removed. Without a match the text is unchanged. |
| Parse.StripSkuLabelExample | scripts/scraper.py:188 | "Modelo: CLP-100" gives "CLP-100". |
| Parse.ScriptSku | scripts/scraper.py:190-199 | The SKU comes from the first script that mentions `item_id` and in which the pattern finds a value. |
| Parse.FirstScriptSku | scripts/scraper.py:190-199 | The script search returns the value of the first script that yields one. |
| Parse.Sku | scripts/scraper.py:174-199 | The truthy reference, else the non-empty text of the labelled element with its label removed. Otherwise the SKU comes from the analytics scripts. |
| Parse.Price | scripts/scraper.py:201-221 | The element's price when it is non-zero. Any price found comes from the element or from the meta tag. |
| Parse.FirstDigits | scripts/scraper.py:233-235 | The first maximal run of digits in the text, if there is one. |
| Parse.DigitRun | scripts/scraper.py:233-235 | The digit run found has only digits and cannot be extended. |
| Parse.DigitsValueExample | scripts/scraper.py:233-235 | Reading the digits "042" gives 42. |
| Parse.Stock | scripts/scraper.py:223-235 | Without an availability element the product is in stock with no count. It is out of stock exactly when the lower-cased text says "indisponível" or "esgotado", and then its stock is 0. A stock is never negative. |
| Parse.CollectImages | scripts/scraper.py:248-255 | The image loop computes the gallery function. |
| Parse.CutResizeShape | scripts/scraper.py:251-254 | A cut URL still starts with `http` and holds no `svg` and no `?ims=`. |
| Parse.ImagesShape | scripts/scraper.py:248-255 | Every gallery URL is absolute, not an SVG, and has no resize suffix. |
| Parse.ImagesMayRepeat | scripts/scraper.py:251-255 | The duplicate test runs before the cut, so one picture at two sizes enters the gallery twice. |
| Parse.ImagesRepeatExample | scripts/scraper.py:251-255 | "http?ims=1" and "http?ims=2" give the gallery ["http", "http"]. |
| Parse.MainImage | scripts/scraper.py:257-264 | The image is the first gallery URL whenever there is a gallery. |
| Parse.TabDescriptionBlank | scripts/scraper.py:270-277 | A tab whose paragraphs are all empty gives an empty description, so the next source is tried. |
| Parse.FirstItemDesc | scripts/scraper.py:300-304 | A description taken from a list is non-empty. |
| Parse.LdFirst | scripts/scraper.py:292-306 | The intended JSON-LD search finds a description offered by some script, in document order. |
| Parse.LdFirstIsFirst | scripts/scraper.py:292-306 | The description found is offered by some script and by no earlier one. Nothing is found only when no script offers a description. |
| Parse.LdAgreeWithoutLists | scripts/scraper.py:292-306 | Without list scripts, the loop as written and the intended search agree. |
| Parse.LdLaterOverwrites | scripts/scraper.py:293-306 | A list offering "A" followed by an object offering "B": the loop as written keeps "B". |
| Parse.LdAsWrittenOffered | scripts/scraper.py:292-306 | The loop as written keeps the description so far or one that some script offers. It finds nothing only when nothing was found before and no script offers a description. |
| Parse.LdLoop | scripts/scraper.py:292-306 | The JSON-LD loop as written, where a hit in an object ends the search and a hit in a list only ends the inner loop, computes `LdAsWritten`. |
| Parse.LdSearch | scripts/scraper.py:292-306 | The JSON-LD loop, with a list hit ending the whole search, computes the intended search. |
| Parse.RawDescriptionSources | scripts/scraper.py:266-306 | The first truthy source wins, and a truthy description always comes from one of the sources. |
| Parse.Cap | scripts/scraper.py:308-313 | A capped description has at most 2000 characters. A longer one becomes its first 1997 characters followed by "...". |
| Parse.CapIdempotent | scripts/scraper.py:308-313 | Capping twice is capping once. |
| Parse.Description | scripts/scraper.py:308-313 | The description is the decoded and capped raw description, or "" when that is falsy. |
| Parse.CategoryPath | scripts/scraper.py:318-320 | The breadcrumb texts after the first one. |
| Parse.CategoryOf | scripts/scraper.py:321-322 | A category exists exactly when the path is non-empty. It has no space and is as long as the last path element. |
| Parse.Zip | scripts/scraper.py:333 | Pairs are formed up to the shorter list. |
| Parse.BuildSpecs | scripts/scraper.py:324-348 | The two specification loops compute the specification function: the characteristics pairs, else the table rows. |
| Parse.CaracSpecsGood | scripts/scraper.py:327-337 | The characteristics pairs give unique, non-empty keys with non-empty values. |
| Parse.RowSpecsGood | scripts/scraper.py:339-348 | The table rows give unique, non-empty keys with non-empty values. |
| Parse.SpecsGood | scripts/scraper.py:324-348 | The specifications never hold an empty key or value or a repeated key. |
| Parse.CaracSpecsLastWins | scripts/scraper.py:333-337 | A key given twice keeps its later value. |
| Parse.Datasheet | scripts/scraper.py:350-356 | The datasheet link, made absolute when it is relative. |
| Parse.Slug | scripts/scraper.py:359 | The slug has no leading or trailing slash. |
| Parse.ProductShape | scripts/scraper.py:361-379 | Every record has a truthy name, and its id is the SKU when there is one and the slug otherwise. A gallery has more than one `http` URL without SVG, and its first URL is the main image. The description has at most 2000 characters. The category has no space. The specifications are good. Out of stock means stock 0. |
| Parse.ParseProduct | scripts/scraper.py:152-383 | A failed fetch gives no product. Otherwise the result is the record built from the field rules above. Its JSON-LD description comes from the loop as written, so a later object's description replaces a list's. |
| Text.NormalizeIsJoin | scripts/mercadolivre_api.py:442 | Collapsing whitespace, as `' '.join(s.split())` does, joins the words with single spaces. |
| MlListing.MaskBad | scripts/mercadolivre_api.py:443 | Each of `\|`, `\`, `/`, `<` and `>` becomes a space, and the length is kept. |
| MlListing.CleanTitleShape | scripts/mercadolivre_api.py:440-449 | A title is never longer than the limit (for a limit of at least 3) and never holds a forbidden character. |
| MlListing.CleanTitleTruncates | scripts/mercadolivre_api.py:449 | A truncated title is the first `max-3` characters, cut back to their last space, followed by "...". |
| MlListing.CleanTitleKeepsClean | scripts/mercadolivre_export.py:101-114 | A title that is already clean and short enough is returned unchanged. |
| MlListing.CleanTitleIdempotent | scripts/mercadolivre_export.py:101-114 | On titles that were not truncated, cleaning is idempotent. |
| MlListing.CloseAt | scripts/mercadolivre_export.py:123 | The index of the first `>` in the text. |
| MlListing.StripTagsChars | scripts/mercadolivre_export.py:123 | Every character of the result is a space or comes from the input. |
| MlListing.StripTagsComplete | scripts/mercadolivre_export.py:123 | No complete tag survives the tag removal. |
| MlListing.Extras | scripts/mercadolivre_export.py:128-134 | The brand, warranty and SKU lines, in that order, each present only when its field is truthy. |
| MlListing.ListingDescription | scripts/mercadolivre_export.py:117-142 | The description has at most 50000 characters and is a prefix of body, extras and notice. When all of that fits, it is kept whole and ends with the notice. |
| MlListing.DescriptionBody | scripts/mercadolivre_export.py:119-125 | The cleaned body is whitespace-normalized, and every non-space character comes from the tag-free text. |
| MlApi.WordQueries | scripts/mercadolivre_api.py:388-390 | Query k joins the first i-k words with spaces, so the queries run from 4 words down to 1. |
| MlApi.FirstAccepted | scripts/mercadolivre_api.py:382-385 | The result is the first truthy, valid id in result order, and it is `None` exactly when no id is truthy and valid. |
| MlApi.BestCategoryIn | scripts/mercadolivre_api.py:377-399 | The first accepted id over the queries in turn, falling back to MLB1905. |
| MlApi.BestCategoryFirst | scripts/mercadolivre_api.py:377-399 | The chosen category is MLB1905 or a valid id a query found. A query with an accepted id decides whenever every earlier query has none. |
| MlApi.FindBestCategory | scripts/mercadolivre_api.py:365-399 | The two search loops compute the best-category function. |
| MlApi.RequiredAttributes | scripts/mercadolivre_api.py:452-460 | An attribute is kept if and only if it is tagged `required` or `catalog_required`. |
| MlApi.RequiredOrder | scripts/mercadolivre_api.py:456-459 | The required attributes of a concatenation are those of each part, concatenated, so order is kept. |
| MlApi.FirstSpecValue | scripts/mercadolivre_api.py:497-503 | The value of the first spec, in dictionary order, whose lower-cased key contains the attribute's name or id. No earlier key matches, and the result is `None` only when no key matches. |
| MlApi.AttrValue | scripts/mercadolivre_api.py:492-512 | The matching spec, else the default, else the first allowed value, each tried while the value is falsy. |
| MlApi.FilledAre | scripts/mercadolivre_api.py:492-519 | The filled ids are exactly those of the required attributes that have a value, in required order, each with its chosen non-empty value. |
| MlApi.FillRequiredAttributes | scripts/mercadolivre_api.py:463-521 | The fill loop computes the filled list. |
| MlApi.FillNullSpecs | scripts/mercadolivre_api.py:497-501 | On a product without specs and a category that requires COLOR, the loop as written raises, and the corrected fill gives COLOR its default. |
| MlApi.DefaultsGet | scripts/mercadolivre_api.py:469-490 | Looking up a key in the default table gives the value of its first entry. |
| MlApi.ModelOf | scripts/mercadolivre_api.py:571-585 | MODEL has at most 60 characters. It is a prefix of the truthy SKU, else of the name cut at its first `\|` and stripped, else of the name cut at `-`, else of the whole name. |
| MlApi.MergeShape | scripts/mercadolivre_api.py:596-600 | Merging keeps the base attributes at the front, keeps ids unique, and leaves out no filled id. |
| MlApi.MergeAttributes | scripts/mercadolivre_api.py:596-600 | The duplicate-avoiding loop computes the merge. |
| MlApi.ListingAttributesShape | scripts/mercadolivre_api.py:565-600 | The attributes open with BRAND and MODEL, followed by GTIN exactly when the product has an EAN or GTIN. Ids are unique, and every filled attribute is present. |
| MlApi.BaseMerged | scripts/mercadolivre_api.py:596-600 | The shape above holds for any list of filled attributes. |
| MlApi.MergeIds | scripts/mercadolivre_api.py:596-600 | Every merged id comes from the base or from the filled attributes. |
| MlApi.PrepareListing | scripts/mercadolivre_api.py:524-635 | There is no listing exactly when the cost price is not positive. Otherwise the listing is the one built from the product, its best category and its filled attributes. A product with `null` specs whose category has a required attribute is excluded, because there the script raises. |
| MlApi.Fallback | scripts/mercadolivre_api.py:683-694 | Generic category MLB1905, classified mode, silver type, no tags and no sale terms. Only the generic attributes stay, in their order. Title, price, pictures, currency, available quantity, condition and seller custom field are kept. |
| MlApi.CreateListing | scripts/mercadolivre_api.py:674-709 | The item POSTs are as above. The description is posted exactly when the item has an id and the description is not empty, and the result is the last answer. |
| MlApi.FallbackFinal | scripts/mercadolivre_api.py:683-694 | The fallback is in MLB1905, so a third POST never happens, and the fallback of a fallback is itself. |
| MlApi.RequestsFrom | scripts/mercadolivre_api.py:655-669 | The loop makes at least one request. |
| MlApi.RequestsStop | scripts/mercadolivre_api.py:661-667 | Every request but the last got a full page, and the last failed or got fewer than 50 results. |
| MlApi.ItemsArePages | scripts/mercadolivre_api.py:664 | The collected items are the answered pages, concatenated. |
| MlApi.GetMyItems | scripts/mercadolivre_api.py:642-671 | Without a user id nothing is requested. Otherwise offsets 0, 50, 100, … are requested and the loop stops as stated above. |
| MlApi.OutcomesPrefix | scripts/mercadolivre_api.py:763-822 | The outcomes of a prefix of the products are a prefix of the outcomes. |
| MlApi.SyncLast | scripts/mercadolivre_api.py:763-822 | The state after a non-empty list is one step after the state of its prefix. |
| MlApi.SyncStep | scripts/mercadolivre_api.py:763-822 | One more product extends the counters and the map by one step. |
| MlApi.Advance | scripts/mercadolivre_api.py:769-819 | The bookkeeping after product i keeps the loop invariant: the counters tally the first i+1 outcomes and the map records them. |
| MlApi.Account | scripts/mercadolivre_api.py:769-819 | After one product exactly one counter goes up, and a created item enters the map. |
| MlApi.SyncOne | scripts/mercadolivre_api.py:767-819 | A product whose SKU is already mapped is skipped. Otherwise it is prepared and, outside a dry run, created. The product must not reach the fill with `null` specs and a required attribute. |
| MlApi.SyncLoop | scripts/mercadolivre_api.py:763-822 | The product loop computes the step-by-step state. No unmapped product may have `null` specs in a category with a required attribute. |
| MlApi.SyncProducts | scripts/mercadolivre_api.py:712-851 | The run selects the valid products up to the limit. Its counters and map are those that the per-product outcomes give, starting from the map file or an empty map. It covers runs in which no unmapped selected product has `null` specs in a category with a required attribute. |
| MlApi.SyncAccounting | scripts/mercadolivre_api.py:751-822 | Created, skipped and errors add up to the total. A dry run has no errors and leaves the map unchanged. |
| MlApi.SyncSkips | scripts/mercadolivre_api.py:769-772 | The skipped products are exactly those whose SKU is already in the map. |
| MlApi.SyncMapGrows | scripts/mercadolivre_api.py:808-812 | A created item is recorded as an active entry under its SKU, and no existing entry is lost. |
| MlExport.FirstKeyIn | scripts/mercadolivre_export.py:176-180 | The value of the first mapping key that occurs in the text, or the default. |
| MlExport.FirstAtUnique | scripts/mercadolivre_export.py:176-178 | At most one key is the first one found. |
| MlExport.MappingValues | scripts/mercadolivre_export.py:157-172 | The mapping's only values are MLB1648 and MLB278936, and the tools id sits on exactly the three tool keys. |
| MlExport.CategoryIdFirst | scripts/mercadolivre_export.py:145-180 | The id is the value of the first mapping key found in the text, and the default when no key occurs. |
| MlExport.CategoryIdTools | scripts/mercadolivre_export.py:157-180 | The id is one of the two, and it is the tools id exactly when the first key found is a tools key. |
| MlExport.FirstValueIn | scripts/mercadolivre_export.py:176-180 | A mapping with value v on one block of keys and w elsewhere yields v exactly when the first key found lies in that block. |
| MlExport.CategoryFeeOrder | scripts/mercadolivre_export.py:26-62 | The fee is that of the first term group, in the order electronics (14%), industry (11%), tools (12%), informatics, with a term in the lower-cased category text. Informatics and no match pay the default 13%. |
| MlExport.SameCategoryText | scripts/mercadolivre_export.py:48-51 | The fee rule and the id rule search the same lower-cased category text. |
| MlExport.PairLtOrder | scripts/mercadolivre_export.py:273 | The (supplier, price) tuple order is a strict weak order. |
| MlExport.ExportedReady | scripts/mercadolivre_export.py:197-200 | Every exported product can be made into a row and has a positive price. |
| MlExport.ExportedRows | scripts/mercadolivre_export.py:217-220 | The cost test never skips a listable product, so each one gets its own row, in catalogue order. |
| MlExport.BuildRows | scripts/mercadolivre_export.py:217-270 | The row loop computes the row function. |
| MlExport.ExportToMercadolivre | scripts/mercadolivre_export.py:187-295 | The result is the rows of the listable products, stably sorted by supplier and price, with one row per listable product. A catalog without a listable product is excluded: the report's markup divides by a zero cost total. |
| MlExport.ExportRowsCorrect | scripts/mercadolivre_export.py:197-273 | The rows are a permutation of those of exactly the listable products, sorted by (supplier, price). Rows with the same key keep catalogue order. |
| MlExport.RowShape | scripts/mercadolivre_export.py:238-268 | Every row has a positive cost, a title of at most 60 characters without forbidden characters, and a description within 50000 characters. |
| MlExport.SimplePathSuffix | scripts/mercadolivre_export.py:355 | A path ending in its only ".csv" gets "_simples" before it. A path without ".csv" is kept. |
| MlSync.LoadProductsKeys | scripts/ml_sync.py:97-101 | The keys are distinct, and they are exactly the keys of the keyed products. |
| MlSync.LoadProductsLast | scripts/ml_sync.py:97-101 | Each key holds the last keyed product carrying it. |
| MlSync.CollectFetchIds | scripts/ml_sync.py:207-214 | The collecting loop computes the fetch ids and the SKU-to-id dictionary. |
| MlSync.FetchIdsExactly | scripts/ml_sync.py:207-214 | An id is fetched exactly when some active entry with a truthy id gives it. No fetched id holds a dash, and there are at most as many ids as entries. |
| MlSync.ReadEntries | scripts/ml_sync.py:151-155 | The loop over one answer computes `EntriesInto`. Entries with another code are skipped, and the first code-200 entry without a body or id stops the answer. `EntriesIntoFrom`, `EntriesIntoKeeps` and `EntriesIntoComplete` state what is then stored. |
| MlSync.FetchMlItems | scripts/ml_sync.py:132-162 | The requests are the consecutive batches of at most 20 ids, in order, and the result is what the answers give (`FetchFrom`). `FetchedFromAnswers`, `FetchKeeps` and `FetchedComplete` state what is then stored. |
| MlSync.FetchStep | scripts/ml_sync.py:140-160 | The first batch is read before the rest. |
| MlSync.EntriesIntoFrom | scripts/ml_sync.py:151-155 | Every stored item was there before or comes from a code-200 entry of the answer. |
| MlSync.FetchedFromAnswers | scripts/ml_sync.py:140-160 | Every stored item comes from a code-200 entry of a status-200 answer to one of the requests. |
| MlSync.EntriesIntoKeeps | scripts/ml_sync.py:151-155 | Reading an answer loses no id already stored. |
| MlSync.PutKeeps | scripts/ml_sync.py:155 | `results[id] = body` keeps the old ids and adds `id`. |
| MlSync.EntriesIntoComplete | scripts/ml_sync.py:151-155 | A code-200 entry with a body and an id is stored under that id, unless an earlier code-200 entry of the same answer lacks a body or an id and so raises. |
| MlSync.FetchKeeps | scripts/ml_sync.py:140-160 | Later batches lose no id already stored. |
| MlSync.FetchedComplete | scripts/ml_sync.py:140-160 | For a status-200 answer to any batch, each entry that stores, with no raising entry before it in that answer, has its id among the fetched ids. |
| MlSync.LookupPlain | scripts/ml_sync.py:226-232 | A SKU without either prefix is looked up only as itself. |
| MlSync.LookupPrefersExact | scripts/ml_sync.py:226-232 | A truthy exact entry wins over anything stored under the stripped SKU. |
| MlSync.StockRule | scripts/ml_sync.py:262-270 | A product in stock never stays at quantity 0, and one out of stock never keeps a positive quantity. |
| MlSync.PlanForShape | scripts/ml_sync.py:224-273 | A planned update changes something. It has a price only when that price differs by more than the tolerance, and it uses the entry's dash-free id. |
| MlSync.PlanStep | scripts/ml_sync.py:224-273 | One more product extends the plan by that product's planned update, if it has one. |
| MlSync.AddPlanned | scripts/ml_sync.py:250-273 | The plan grows by the outcome, and the price and stock counters stay the counts over the plan. |
| MlSync.PlanUpdates | scripts/ml_sync.py:224-273 | The comparison loop computes the plan, and its counters count the price and the quantity updates. |
| MlSync.CallsOf | scripts/ml_sync.py:291-303 | There is one request per planned update, in order. Request k sends update k's item id and its changed fields. |
| MlSync.ApplyUpdates | scripts/ml_sync.py:280-303 | A dry run sends nothing and changes nothing. Otherwise each update is sent in order, and the map and error count are those of the update function. |
| MlSync.ApplyErrors | scripts/ml_sync.py:291-303 | The error count is the number of refused updates, and it is zero exactly when every update succeeded. |
| MlSync.SetPriceEffect | scripts/ml_sync.py:298-300 | A price write keeps the keys, sets the price under its key when present, and leaves every other entry unchanged. |
| MlSync.AfterSuccessEffect | scripts/ml_sync.py:296-300 | A successful price update sets the price under the SKU and under the stripped SKU wherever they are present, and touches no other field. |
| MlSync.ApplyKeeps | scripts/ml_sync.py:291-303 | The updates keep the map's keys and change entries only in their price. |
| MlSync.SyncProducts | scripts/ml_sync.py:179-318 | The batches queried and the counters are those of the plan. The skipped count is 0, and success means no error. A dry run sends nothing and keeps the map. Otherwise the map and the errors are those of applying the plan. |
| MlFetchPrices.CollectItems | scripts/ml_fetch_prices.py:37-42 | The collecting loop computes the items to fetch. |
| MlFetchPrices.ItemsToFetchShape | scripts/ml_fetch_prices.py:37-42 | No fetched id is empty or holds a dash, and there is at most one item per entry. |
| MlFetchPrices.ItemsToFetchExactly | scripts/ml_fetch_prices.py:37-42 | The items fetched are exactly those of the active entries with a truthy id, each paired with its own SKU. |
| MlFetchPrices.ItemFetched | scripts/ml_fetch_prices.py:38-42 | A pair is fetched exactly when some wanted entry gives it. |
| MlFetchPrices.FirstMatch | scripts/ml_fetch_prices.py:70-76 | The SKU of the first pair of the batch with the result's id, or none. |
| MlFetchPrices.Stored | scripts/ml_fetch_prices.py:72-73 | A present value is written as it is, and a missing field as `null`. The result is never missing. |
| MlFetchPrices.RequestsIds | scripts/ml_fetch_prices.py:50-52 | Request k asks for the ids of batch k, and each batch is requested once. |
| MlFetchPrices.RunStep | scripts/ml_fetch_prices.py:50-82 | The first batch is processed before the rest. |
| MlFetchPrices.ReadResults | scripts/ml_fetch_prices.py:64-76 | The inner loop computes the result function, stopping at the first result that raises. |
| MlFetchPrices.ReadBatch | scripts/ml_fetch_prices.py:61-76 | The body of one batch computes the batch function, which reads only a status-200 answer. |
| MlFetchPrices.FetchBatches | scripts/ml_fetch_prices.py:50-82 | The batch loop computes the run function over batches of 20. |
| MlFetchPrices.FetchPrices | scripts/ml_fetch_prices.py:37-85 | The saved map, the updated count and the requests are those of the functions above. The updated count is exactly the number of matching results read. |
| MlFetchPrices.OtherCodeIgnored | scripts/ml_fetch_prices.py:64-65 | A result whose code is not 200 is passed over: it changes neither the map nor the count. |
| MlFetchPrices.FailedReplyIgnored | scripts/ml_fetch_prices.py:54-82 | A request that raised, or an answer whose status is not 200, leaves the map and the count as they were. |
| MlFetchPrices.ResultsStop | scripts/ml_fetch_prices.py:64-82 | A result that raises ends its batch: the results after it are lost and the updates before it stay. |
| MlFetchPrices.ResultUpdatesFirst | scripts/ml_fetch_prices.py:70-76 | A matching result writes price, original price and condition (default "new") into the entry of the first SKU with its id, and counts one update. |
| MlFetchPrices.UpdateKeeps | scripts/ml_fetch_prices.py:72-74 | One update keeps the keys and changes only those three fields of one entry. |
| MlFetchPrices.ResultsKeep | scripts/ml_fetch_prices.py:64-76 | One batch keeps the keys, changes only the three fields, and counts at most one update per result. |
| MlFetchPrices.UntilRaise | scripts/ml_fetch_prices.py:64-82 | The results read from an answer are a prefix of it, none of them raises, and the result after them raises. |
| MlFetchPrices.ResultsCount | scripts/ml_fetch_prices.py:64-76 | One answer adds to `updated` exactly its matching results read before the first result that raises. |
| MlFetchPrices.RunCounts | scripts/ml_fetch_prices.py:50-85 | `updated` is exactly the number of matching results read from the status-200 answers, over all batches. |
| MlFetchPrices.RunKeeps | scripts/ml_fetch_prices.py:50-85 | The run keeps the map's keys, changes entries only in price, original price and condition, and counts at most one update per result received. |
| GoogleFeed.NoDoubleSpaceContains | scripts/generate_google_feed.py:45 | The loop test `"  " in text` is the negation of "no double space". |
| GoogleFeed.SqueezeShape | scripts/generate_google_feed.py:45-46 | Squeezing leaves no double space and adds no character. |
| GoogleFeed.SqueezeFixpoint | scripts/generate_google_feed.py:45-46 | A text without double spaces is left as it is. |
| GoogleFeed.SqueezeReplace | scripts/generate_google_feed.py:46 | One replace pass keeps the squeezed text, which is the loop invariant. |
| GoogleFeed.BlankShape | scripts/generate_google_feed.py:43 | After the replacements no tab or line break is left. |
| GoogleFeed.CleanText | scripts/generate_google_feed.py:38-51 | The replace-until-stable loop computes the cleaning function. |
| GoogleFeed.SliceKeeps | scripts/generate_google_feed.py:50 | A slice of a text without double spaces has none either. |
| GoogleFeed.StripKeeps | scripts/generate_google_feed.py:47 | Stripping keeps a contiguous piece of the text. |
| GoogleFeed.TruncateShape | scripts/generate_google_feed.py:49-50 | Truncation keeps the shape of a clean text. |
| GoogleFeed.CleanedShape | scripts/generate_google_feed.py:38-51 | A cleaned text has no tab, line break or double space, and nothing to strip. A falsy input gives "". |
| GoogleFeed.CleanedLength | scripts/generate_google_feed.py:49-50 | With a limit of at least 3 the result fits. A truncated result is exactly the limit long and ends with "...", and otherwise nothing is cut. |
| GoogleFeed.StripFixed | scripts/generate_google_feed.py:47 | Stripping a stripped text changes nothing. |
| GoogleFeed.CleanedIdempotent | scripts/generate_google_feed.py:38-51 | Cleaning a cleaned text changes nothing, for no limit or a limit of at least 3. |
| GoogleFeed.FormatPriceShape | scripts/generate_google_feed.py:54-58 | A falsy or non-positive price gives "". Otherwise the result is reais, a dot, two cent digits and " BRL". The reais are the decimal digits of price/100. |
| GoogleFeed.ReaisDigits | scripts/generate_google_feed.py:54-58 | The reais part is made only of decimal digits, and reading them back gives price/100. |
| GoogleFeed.Availability | scripts/generate_google_feed.py:61-63 | The result is "in_stock" exactly when the flag is truthy, and "out_of_stock" otherwise. |
| GoogleFeed.ProductLink | scripts/generate_google_feed.py:66-68 | The link is "" exactly when the slug is falsy. Otherwise it is the store URL, `/produto.html?slug=` and the slug. |
| GoogleFeed.Cells | scripts/generate_google_feed.py:23-35 | The row has exactly one cell per entry of GOOGLE_FIELDS. |
| GoogleFeed.BrandRule | scripts/generate_google_feed.py:95-97 | The brand is "Importado" exactly when the cleaned brand is empty or a generic name in any case. Otherwise it is the cleaned brand. |
| GoogleFeed.ImportadoClean | scripts/generate_google_feed.py:95-97 | "Importado" already has the cleaned shape. |
| GoogleFeed.ConvertProductShape | scripts/generate_google_feed.py:71-115 | The description falls back to the title, and the fixed columns hold their constants. The cleaned columns have the feed shape and their limits of 150, 5000 and 70. |
| GoogleFeed.BucketOf | scripts/generate_google_feed.py:134-147 | A product is kept exactly when it has a positive price, a truthy image and a truthy slug. |
| GoogleFeed.SelectProducts | scripts/generate_google_feed.py:130-153 | The valid list is the kept products, in order. The counters count the no-price, no-image and no-slug buckets, and the out-of-stock counter stays 0. |
| GoogleFeed.PartitionTotal | scripts/generate_google_feed.py:133-153 | The three skip counters and the valid list add up to the input. |
| GoogleFeed.StockIgnored | scripts/generate_google_feed.py:148-151 | Stock plays no part in the selection. |
| GoogleFeed.WriteRows | scripts/generate_google_feed.py:165-167 | There is one converted row per valid product, in order. |
| GoogleFeed.CountInStock | scripts/generate_google_feed.py:174 | The number of valid products whose stock flag is truthy. |
| GoogleFeed.GenerateFeed | scripts/generate_google_feed.py:118-180 | The rows written, the skip counters, and the in-stock and out-of-stock counts, which add up to the rows. |
| GoogleFeed.FeedRowsShape | scripts/generate_google_feed.py:129-167 | Every row has a BRL price, a product link, an image, and its product's availability. |
| Seqs.SortByCorrect | scripts/mercadolivre_export.py:273 | The stable sort returns a permutation, sorted by key, in which elements with equal keys keep their order. |
| Seqs.BatchesStep | scripts/ml_sync.py:140-142 | The range loop visits the batches in order. |
| Seqs.BatchesFlatten | scripts/ml_sync.py:140-142 | The batches, concatenated, are the input. |
| Seqs.BatchesSizes | scripts/ml_sync.py:140-142 | Every batch has between 1 and n items, and all but the last have exactly n. |

## Left out

- Network and files. HTTP requests, the OAuth flow, config files and the reading and writing of JSON, CSV and TSV files are parameters or left out. That includes CSV quoting and the BOM, and `products.json` is read as a list.
- Time. `time.sleep`, timestamps and `datetime` fields are not modelled. The waits of `fetch` are returned as a list.
- Logging. Logging, `print` progress lines and statistics printing are not modelled.
- Python surface. `argparse`, every `main` and the `LojaValeScraper` stub (it only raises) are left out.
- Library oracles. BeautifulSoup selectors, regular-expression searches other than the simple masks written here, `html.unescape`, `urljoin` and `str.title()` are parameters. The model keeps the order in which their results are used.
- Floating point. `calculate_ml_price`, `calculate_profit`, the 0.9501 markup of `mercadolivre_api.py`, the `total_cost` and `total_ml_price` totals of its `sync_products`, and the export's profit and cost totals are floating-point formulas. They are parameters or not modelled, and prices are whole cents.
- Export row cells. The export's `taxa_ml`, price-formatting cells and supplier statistics are not modelled.
- Simple export rows. `export_simple_csv` is modelled only through its output path, not its rows.
- Parse.FirstDigits: a digit is '0' to '9'. The pattern `\d` and `int()` also accept the other Unicode decimal digits, which the model reads as non-digits.
- Text.LowerChar: lower-cases ASCII and the Latin-1 capitals only, while Python's `str.lower` covers all of Unicode.
- GoogleFeed.FormatPrice: assumes the price is a whole number of cents. The `:.2f` rounding of other floats is not modelled.
- GoogleFeed.CleanedLength: the length bound is stated only for a limit of at least 3. With a smaller limit Python's negative slice makes the result longer.
- MlExport.ExportToMercadolivre: requires every supplier to be a string. A `null` supplier makes Python's sort raise when it is compared with a string.
- MlExport.ExportToMercadolivre: requires a listable product. Without one the report's average markup divides by zero, and the script stops before `export_simple_csv`.
- MlApi.CreateListing: `create_listing` changes the prepared listing in place. The model returns the changed listing instead.
- MlApi.PrepareListing: requires `FillSafe`. With `null` specs and a required category attribute, `fill_required_attributes` raises, and that failure is not modelled.
- MlApi.SyncOne, MlApi.SyncLoop: require `SyncFills` and `FillsSafe`, the same condition for every product not yet in the map.
- MlApi.SyncProducts: requires `FillsSafe` of the selected products. Otherwise the script raises in `prepare_listing`, dry run or not, and the whole run stops. The aborted run and the map saved every 10 creations before it are not modelled. The listing oracle is a function, so it answers the same listing the same way.
- Parse.ProductOf: the record takes the JSON-LD description of the loop as written (`LdAsWritten`). The first-description search `LdFirst` is the corrected definition beside it.
- MlSync.SyncProducts: `sku_to_ml_id` is computed but never read by the script, and its `skipped` counter stays 0. Both are kept as they are.
- MlApi.GetMyItems: the marketplace's pages are a finite list of answers, so a paging loop that would never end is not modelled.
- MlFetchPrices.FetchPrices: when a result raises mid-batch, the updates already made in that batch stay, which is what the script does.

## Findings

| source | as written | input that shows it | evidently intended | confidence | as-written member | corrected member |
|---|---|---|---|---|---|---|
| scripts/scraper.py:292-306 | In the JSON-LD loop, a description found inside a list only leaves the inner loop. A later script can overwrite it. | A list script offering "A" followed by an object script offering "B". The description becomes "B". | The first description in the page is kept, "A". | not executed | Parse.LdLaterOverwrites | Parse.LdFirstIsFirst |
| scripts/mercadolivre_api.py:497-501 | `product.get('specs', {}).items()` raises when `specs` is `null`. The scraper writes `null` for a product without specifications. | A product with `specs: null` in a category that requires COLOR. | The attribute falls back to its default, as for an empty spec dictionary. | not executed | MlApi.FillNullSpecs | MlApi.FillRequiredAttributes |

