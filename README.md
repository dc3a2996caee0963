# Marketplace scraper: a verified model of its deterministic core

The repository is a Facebook Marketplace scraper with three scripts:

- `marketplace_scraper.py` logs in with a browser and searches one product niche. It collects product links, captures each product page (markup and images) and asks a language model to turn the markup into a structured `Product`. It then saves the run as JSON.
- `integration_example.py` reads that file back. It renders one HTML card per product and builds a map from a product id to a detail record for a modal view.
- `test_setup.py` checks the environment: the interpreter version, the dependencies, the credentials, the browser and the model service. It exits with 0 only when every check passes.

This project models the deterministic logic between the browser and the model calls, and proves what that logic promises:

- `Scraper.dfy`: link discovery, the image and markup capture, the backfill merge, the fallback product, the accumulation of products on the scraper object and the saved record.
- `Formatter.dfy`: the product id, the card contents, the detail record, the conversion loop with its last-writer-wins map, and the loader's fallback.
- `SetupCheck.dfy`: the version rule, the credential redaction, the all-set check, the pass count, success and the exit status.
- `Text.dfy`: the Python string operations all of these rely on. These are `s[:n]`, `startswith`, `in`, ASCII `lower()` and `split('/')[-1]`; `EndsWith` is used only to state contracts.
- `Wrappers.dfy`: `Option`, used for `None` and for missing keys.

The outside world is represented by its outcomes:

- The browser is represented by what it returns:
  - the hrefs of the anchors (`None` for an anchor whose href is missing or unreadable);
  - a page visit, either `Unreachable` or the rendered markup with the `(src, alt)` attributes of its img elements;
  - booleans for login and navigation.
- The language model and its output parser together form an oracle from the markup snippet to `Option<Product>`. `None` stands for a failed request or a failed parse.
- The timestamp, the environment variables, the import probes, the browser probe and the model-service probe are parameters.

Two consequences of the code are worth stating:

- A failed login or navigation is re-raised by `login_to_facebook` and `navigate_to_marketplace`. It is then caught by the `except Exception` of `scrape_marketplace` (marketplace_scraper.py:361), so the run returns the unchanged product list and no error reaches the caller.
- With no credentials set, two checks of `test_setup.py` fail: the environment check and the model-service check, which returns false before any request when `GOOGLE_API_KEY` is unset (test_setup.py:87-90).

## Model

| member | source | states |
|---|---|---|
| Text.Take | marketplace_scraper.py:240 | `s[:n]` has length min(len(s), n) and is a prefix of s |
| Text.Lower | integration_example.py:47 | `condition.lower()` on ASCII letters; its properties are stated by Text.LowerRule |
| Text.LowerRule | integration_example.py:47 | lower-casing keeps the length, leaves no upper-case ASCII letter, changes exactly the upper-case letters (each to the code point 32 further on) and is idempotent |
| Text.LastSegmentShape | integration_example.py:34 | the last `/`-segment has no `/`, ends the string, and is all of it or preceded by a `/` |
| Text.LastSegmentOfJoin | integration_example.py:87 | the last segment of `prefix + "/" + seg` is seg when seg has no `/` |
| Scraper.DiscoveredShape | marketplace_scraper.py:177-186 | the links found are free of duplicates, no more than the examined anchors, and exactly the URLs that some examined item anchor yields |
| Scraper.DiscoveredGrows | marketplace_scraper.py:182-183 | the links from the first k anchors are a prefix of the result, so links keep the order of first occurrence |
| Scraper.DiscoveredAreItemUrls | marketplace_scraper.py:180-181 | every link contains `/marketplace/item/` and is its href when that starts with `http`, otherwise the site origin followed by the href |
| Scraper.CapAppliesBeforeDedup | marketplace_scraper.py:177-189 | with cap 2 and anchors a, a, b only one link is returned, although two distinct links exist |
| Scraper.ExtractProductLinks | marketplace_scraper.py:166-189 | the loop returns the links discovered among the first max_products anchors, at most max_products of them |
| Scraper.KeptImagesShape | marketplace_scraper.py:222-232 | the kept images are no more than the elements, and exactly the images some element contributes |
| Scraper.KeptImagesGrow | marketplace_scraper.py:222-230 | images are kept in element order |
| Scraper.ImagesFoundRule | marketplace_scraper.py:219-234 | at most 5 images; each has a non-empty CDN src and the element's alt, or "" when alt is missing; every qualifying element among the first 5 is captured |
| Scraper.CaptureImages | marketplace_scraper.py:219-234 | the image loop yields exactly the images the rule above describes, and none when the elements cannot be listed |
| Scraper.ScrapeProductPage | marketplace_scraper.py:195-247 | a failed visit yields nothing; otherwise the full markup and a basic record with the url, the images and a prefix of the markup of length min(len, 5000) |
| Scraper.Snippet | marketplace_scraper.py:265 | the text sent to the model is a prefix of the markup of length min(len, 8000), so "" for empty markup |
| Scraper.CreateFallbackProduct | marketplace_scraper.py:299-315 | the product built without the model; its contents are stated by Scraper.FallbackFromBasic and Scraper.FallbackIsBackfilledPlaceholder |
| Scraper.Backfilled | marketplace_scraper.py:281-286 | the merge of the model's answer with the basic record; stated by the three Backfill lemmas below |
| Scraper.FallbackFromBasic | marketplace_scraper.py:309-315 | the fallback has the placeholder title and price, takes url, images and markup from the basic record, and has every other field absent |
| Scraper.FallbackIsBackfilledPlaceholder | marketplace_scraper.py:281-315 | the fallback is the backfill of an answer holding only the placeholders, and a fixed point of the backfill |
| Scraper.BackfillKeepsModelValues | marketplace_scraper.py:281-286 | the backfill keeps non-empty images, url and markup from the model, and every other field unchanged |
| Scraper.BackfillFillsOmitted | marketplace_scraper.py:281-286 | empty images, an empty url and empty or missing markup are taken from the basic record |
| Scraper.BackfillIdempotent | marketplace_scraper.py:281-286 | backfilling twice gives the same product as backfilling once |
| Scraper.AnalyzeWithAi | marketplace_scraper.py:260-297 | the result is the fallback when the model or parser fails, and otherwise the backfilled answer for the snippet |
| Scraper.CollectedFollowsLinks | marketplace_scraper.py:343-353 | one product per link with a non-empty capture, in link order; the k-th product is what the k-th such link yields |
| Scraper.SucceededGrows | marketplace_scraper.py:343-348 | the usable links among the first k links come first among all usable links, so links are handled in order |
| Scraper.CollectedGrows | marketplace_scraper.py:343-353 | the products from the first k links are a prefix of the run's products: products are appended in link order |
| Scraper.MarketplaceScraper.constructor | marketplace_scraper.py:47-64 | stores the credentials and the niche and starts with no products |
| Scraper.MarketplaceScraper.ScrapeMarketplace | marketplace_scraper.py:317-367 | appends the collected products to the existing list when login and navigation succeed, and otherwise leaves it unchanged; a run adds at most max_products products and returns the whole list |
| Scraper.MarketplaceScraper.SaveRecord | marketplace_scraper.py:377-382 | the saved record holds the niche, the timestamp and the products, with total_products equal to their number |
| Formatter.LoadMarketplaceProducts | integration_example.py:10-20 | a missing file or invalid JSON gives an object with only an empty product list; otherwise the file's object |
| Formatter.ProductId | integration_example.py:34 | the last `/`-segment of the url or "unknown"; stated by Formatter.ProductIdShape |
| Formatter.ProductIdShape | integration_example.py:34 | the id is never empty and has no `/`; a url that is present, non-empty and not ending in `/` gets its last segment, the tail after its last `/` (or the whole url); a missing url, an empty one or one ending in `/` gets "unknown" |
| Formatter.ProductIdExamples | integration_example.py:87 | `.../item/123` gives "123"; `.../item/123/` and a missing url give "unknown" |
| Formatter.ShortDescription | integration_example.py:58 | a description of at most 150 characters is shown in full; a longer one as its first 150 characters followed by "..." |
| Formatter.ShortDescriptionBounds | integration_example.py:58 | the shown text starts with the first min(len, 150) characters, is at most 153 long, and is the description itself or ends in "..." |
| Formatter.StatusOf | integration_example.py:47 | the pill rule; stated by Formatter.CardRule and Formatter.StatusExamples |
| Formatter.GenerateProductHtml | integration_example.py:23-74 | the values a card embeds; stated by Formatter.CardRule |
| Formatter.CardRule | integration_example.py:33-59 | the card's id, title, price and link defaults; the truncated description; a location line exactly when the location is a non-empty string; the ok pill exactly when the condition is non-empty and its lower-case form contains "new"; the status text is the condition, or "Usado" |
| Formatter.StatusExamples | integration_example.py:47-48 | "New" and "Used - Like New" give ok; "Nuevo", a missing, null or empty condition give warn |
| Formatter.DetailOf | integration_example.py:90-101 | the detail record; its screenshot, PDF and image list are stated by Formatter.GenerateProductDetailJson |
| Formatter.GenerateProductDetailJson | integration_example.py:87-103 | a single-key map from the product id; the record's images are the image urls in order, its screenshot is the first of them or null, and factura_pdf is null |
| Formatter.IdsOfProducts | integration_example.py:127-129 | a string is a derived id exactly when some product has it as id |
| Formatter.CardsFollowProducts | integration_example.py:127-128 | one card per product, in product order |
| Formatter.DetailUpdate | integration_example.py:129 | `update` with a product's detail map stores its record under its id |
| Formatter.DetailsStep | integration_example.py:127-129 | one loop step sets the last product's id to its record |
| Formatter.DetailsKeys | integration_example.py:125-129 | the keys of the detail map are exactly the derived ids |
| Formatter.DetailsLastWriterWins | integration_example.py:127-129 | an id maps to the record of the last product with that id |
| Formatter.ConvertToWebpageFormat | integration_example.py:116-140 | there is no output when the loaded list is empty; otherwise the number of cards and total_products equal the number of products, the detail keys are the derived ids, and niche and timestamp default to "unknown" and "" |
| Formatter.SaveThenConvert | integration_example.py:116-136 | reading back a saved run gives its products in order; when they all have descriptions, the metadata repeats niche, count and timestamp, and the card ids follow the product urls |
| Formatter.FallbackNotFormattable | integration_example.py:38-58 | a saved fallback product has a null description, which the card cannot shorten |
| Formatter.LongDescriptionCut | integration_example.py:58 | a 200-character description is shown as its first 150 characters and "..." |
| Formatter.EndToEndScenario | integration_example.py:106-140 | one product with a long description and one image gives one truncated card and a detail map keyed "123" with that image as screenshot |
| SetupCheck.PythonVersionOk | test_setup.py:10-19 | `major >= 3 and minor >= 8`; its consequences are stated by SetupCheck.VersionRuleAsWritten |
| SetupCheck.VersionRuleAsWritten | test_setup.py:14 | 3.8 and 3.12 pass; 3.7 and 2.9 fail; 4.0 fails too, because the minor version alone must be at least 8 |
| SetupCheck.Redact | test_setup.py:53 | the shown value ends in "..."; it shows the first 10 characters when the value is longer than 10, otherwise at most the first 5; it is at most 13 long and reveals only a prefix |
| SetupCheck.TestEnvironmentVariables | test_setup.py:35-59 | true exactly when all three variables are non-empty; every variable is reported, set or not |
| SetupCheck.LangchainSetupOk | test_setup.py:79-108 | without an API key the check fails whatever the request would do; with one it passes exactly when the request succeeds |
| SetupCheck.CountPassed | test_setup.py:155 | the number of passed checks, never more than the number of checks |
| SetupCheck.CountPassedRule | test_setup.py:155-156 | the pass count is at most the number of checks, and equals it exactly when every check passed |
| SetupCheck.RunAllChecks | test_setup.py:117-177 | the ten results in order; passed counts the true ones; success holds exactly when passed equals the total, that is, when every check passed |
| SetupCheck.ExitStatus | test_setup.py:180-182 | the exit status is 0 exactly on success and 1 otherwise |
| SetupCheck.MissingCredentialsScenario | test_setup.py:79-148 | with no credentials and every probe succeeding, exactly the environment check and the model-service check fail; 8 pass and the exit status is 1 |

## Left out

- Browser control is not modelled: launching, `goto`, the waits, scrolling, the login and search locator chains, and the sleeps. Only their outcomes are inputs: anchors, page visits, and booleans for login and navigation.
- The prompt, the model call and `PydanticOutputParser` are an oracle. The model does not state what the answer contains beyond the `Product` shape.
- `extract_product_links` returns the links gathered so far when an exception stops it. The anchor locator failing as a whole is not modelled; a failing attribute read is modelled as an anchor without href.
- The `dict.get` defaults on the basic record in `analyze_with_ai` and `create_fallback_product` are not modelled. Every capture builds the record with all three keys, so those defaults never apply.
- Scraper.MarketplaceScraper.constructor: the `ValueError` for a missing `GOOGLE_API_KEY` is a precondition (a non-empty key), because a Dafny constructor cannot fail. The model client is not modelled.
- Scraper.MarketplaceScraper.ScrapeMarketplace: no other exception inside the run is modelled. The helpers catch their own errors.
- The `main` functions of `marketplace_scraper.py` and `integration_example.py` are not modelled. They read the environment, print and call the operations above. `generate_integration_instructions` is not modelled either; it only prints text.
- JSON reading and writing are not modelled, and neither is printing. The saved file is a value, so `SavedFile` shows how a run is read back.
- `time.strftime` is a parameter.
- The HTML template text of a card is not modelled. A card is the record of the values it embeds. The first image url the card computes is never used in the markup, so it is not modelled.
- Formatter.CardRule: a product whose description is JSON null makes `None[:150]` raise. The card is only defined for products without such a description, and no behaviour is invented for the crash.
- A title, price or url that is JSON null in the saved file is not modelled; such a url would crash on `split`. The scraper always saves strings there.
- Text.Lower: Python's `lower()` covers all of Unicode; the model lowers ASCII letters only.
- SetupCheck.TestEnvironmentVariables: `load_dotenv` is not modelled. The environment is a map given as input, and the failure of the `dotenv` import inside the function is not modelled.
- The import, browser and model-service probes of `test_setup.py` are booleans. An import raising something other than `ImportError` is not modelled.
- `MAX_PRODUCTS` is a natural number, so Python's negative-slice semantics do not arise.
- Formatter.LoadMarketplaceProducts: only a missing file and invalid JSON fall back to the empty product list, as in the source. The errors that propagate are not modelled: an unreadable file, a directory, a file that is not UTF-8, and valid JSON that is not an object (which fails at `data.get`).
