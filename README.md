# mobikom.biz catalog scraper: a Dafny model

This project models the core of a Scrapy spider that crawls the "new products" catalog of
mobikom.biz. The spider reads each catalog page and keeps only the listings that have a name,
a link, a dollar price and an in-stock badge. It then visits each kept product's page for its
description, gallery and grivna price, and emits one item per product. Along the way it follows
the catalog's pagination links.

The model has five modules:

- `PyText` (pytext.dfy) holds the Python `str` operations the scraper relies on, written as
  functions over `seq<char>` (all total except `DigitsToNat`, which asks for ASCII digits):
  - `isspace`, `strip()` and `split()`;
  - `join`, single-character `replace` and `split(sep)`;
  - `isdigit`, `int`, `str` of a number, `lower()`, and the substring test `in`.
- `Handler` (handler.dfy) is the `ItemFieldsHandler` that the spider imports
  (spiders/item_fields_handler.py): `clear_string`, the strip-only `convert_string_to_float`,
  and `deserialize`.
- `RootHandler` and `RootHandlerExamples` (root_handler.dfy) hold the separator-normalising
  `convert_string_to_float` of item_fields_handler.py and worked price spellings for it.
- `Parser` (parser.dfy) is `MobikomBizParser`:
  - the field-extraction rules;
  - the listing-stage filter, which runs as a loop that fills a fresh `Product` object field by
    field;
  - the two-batch collection of listing `div`s;
  - pagination digits;
  - the in-place detail stage, and the grivna price.
- `Crawler` (crawler.dfy) is `MobikomBizCrawler`, a class whose one field, `pages`, models the
  pagination iterator. Each callback is a method that returns the requests it would yield.
  `FollowFirstProduct` chains the three callbacks for one product.

Library calls enter as parameters:

- `Lib.unquotePlus` stands for `urllib.parse.unquote_plus`.
- `Lib.toFloat` stands for `float()` on a string, with `None` where `float()` raises `ValueError`.
- `loads` stands for `json.loads` on text, and `decode` for the encoding detection and decoding
  that `json.loads` applies to `bytes` first.

BeautifulSoup is not modelled. What its `find` calls return is an input: a found node is its
text and its `href` attribute, and `None` is a node that was not found.

## Model

| member | source | states |
|---|---|---|
| PyText.Strip | spiders/item_fields_handler.py:23 | `strip()` gives a slice of the input that starts after the leading whitespace and neither starts nor ends with whitespace; it is empty only when the input is all whitespace |
| PyText.StripSurround | spiders/item_fields_handler.py:23 | only whitespace lies before and after the stripped slice |
| PyText.StripUnchanged | spiders/item_fields_handler.py:23 | text without whitespace at either end is its own `strip()` |
| PyText.StripKeepsNonSpace | spiders/item_fields_handler.py:23 | a non-whitespace character occurs in `strip(s)` exactly when it occurs in `s` |
| PyText.Split | item_fields_handler.py:19 | `split()` yields non-empty words free of whitespace |
| PyText.SplitAtSpace | item_fields_handler.py:19 | any whitespace character separates words: the words of `a + c + b`, for whitespace `c`, are the words of `a` followed by the words of `b`, so every run of non-whitespace becomes one word, in order |
| PyText.Join | item_fields_handler.py:19 | `sep.join([])` is ""; any other join starts with its first part |
| PyText.JoinLength | item_fields_handler.py:19 | a join is as long as its parts plus one separator fewer than there are parts |
| PyText.SplitJoin | item_fields_handler.py:19 | splitting a space-joined list of words gives back the words |
| PyText.JoinWordsCollapsed | item_fields_handler.py:19 | a space-joined list of words has no whitespace at either end, no whitespace but the plain space, and never two spaces in a row |
| PyText.CollapsedUnique | item_fields_handler.py:19 | a string in that collapsed form is the join of its own words, so the collapsed form of a word list is unique |
| PyText.Collapse | spiders/item_fields_handler.py:17 | `' '.join(s.split())` is in collapsed form and has exactly the words of `s` |
| PyText.CollapseIdempotent | item_fields_handler.py:19 | collapsing twice is collapsing once |
| PyText.CollapseBlank | spiders/item_fields_handler.py:17 | whitespace-only text, and only that, collapses to "" |
| PyText.RemoveChar | spiders/item_fields_handler.py:23 | `replace(c, '')` leaves no `c` and never lengthens the text |
| PyText.RemoveCharKeepsOthers | spiders/item_fields_handler.py:23 | removing `c` keeps every other character and adds none |
| PyText.RemoveCharConcat | item_fields_handler.py:30 | removing a character distributes over concatenation |
| PyText.ReplaceCharConcat | item_fields_handler.py:30 | replacing a character distributes over concatenation |
| PyText.DigitChars | spiders/mobikom_biz_parser.py:173 | the digit filter keeps only digits and never lengthens the text |
| PyText.DigitCharsSingle | spiders/mobikom_biz_parser.py:173 | one character contributes itself when it is a digit and nothing otherwise |
| PyText.DigitCharsAppend | spiders/mobikom_biz_parser.py:173 | the filter of `a + b` is the filter of `a` followed by the filter of `b`; with DigitCharsSingle this keeps every digit, in order |
| PyText.DigitsToNat | spiders/mobikom_biz_parser.py:176 | `int(digits)` is 0 exactly when every digit is '0' |
| PyText.NatToString | spiders/mobikom_biz_cralwer.py:54 | `str(n)` of a natural number is a non-empty run of digits that starts with '0' only for 0 itself |
| PyText.DigitsRoundTrip | spiders/mobikom_biz_cralwer.py:54 | `int(str(n)) == n` |
| PyText.Lower | spiders/mobikom_biz_parser.py:101 | `lower()` keeps the length, leaves no upper-case ASCII or basic Cyrillic letter, keeps every other character where it is, and turns nothing into whitespace |
| PyText.LowerIdempotent | spiders/mobikom_biz_parser.py:101 | lower-cased text is its own `lower()` |
| PyText.Contains | spiders/mobikom_biz_parser.py:101 | `n in h` holds exactly when `n` occurs in `h` at some position |
| PyText.SplitOnJoin | spiders/mobikom_biz_parser.py:189 | splitting at `sep` undoes joining with `sep` when no part contains `sep` |
| Handler.Clear | spiders/item_fields_handler.py:16-17 | the cleared text is in collapsed form, has the words of the decoded text, and is "" exactly when the decoded text is whitespace-only |
| Handler.ClearString | spiders/item_fields_handler.py:13-17 | `TypeError` exactly for a non-`str`; otherwise collapsed text with the decoded text's words |
| Handler.ClearBlank | spiders/item_fields_handler.py:16-17 | text that decodes to whitespace clears to "" |
| Handler.ClearCollapseIdempotent | spiders/item_fields_handler.py:17 | collapsing cleared text again changes nothing |
| Handler.StripDollar | spiders/item_fields_handler.py:23 | the text handed to `float()` holds no `$`, has no whitespace at either end, and is no longer than the input |
| Handler.StripDollarKeepsSeparators | spiders/item_fields_handler.py:23 | apart from `$` and whitespace, a character (`,` and `.` included) occurs in the converted text exactly when it occurs in the input, so no separator is rewritten |
| Handler.ConvertStringToFloat | spiders/item_fields_handler.py:20-28 | `TypeError` exactly for a non-`str`; otherwise `None`, not an exception, exactly when `float()` rejects the stripped text |
| Handler.Deserialize | spiders/item_fields_handler.py:30-35 | a `str` is loaded as is and `bytes` after decoding; `ValueConversionError` for `None`, any other non-text value, or text that `json.loads` rejects; bytes that cannot be decoded raise `UnicodeDecodeError`, which is not caught; otherwise the loaded value |
| RootHandler.Glue | item_fields_handler.py:27-30 | `a + '$' + b` with separators removed and `$` turned into `.` is `a` and `b` without separators, joined by the single decimal point |
| RootHandler.Plain | item_fields_handler.py:30 | without a decimal position every separator is removed |
| RootHandler.Rewrite | item_fields_handler.py:26-30 | the three-from-end rule wins over the two-from-end rule; the result has no `,`, no `$` and at most one `.` |
| RootHandler.NormalizePrice | item_fields_handler.py:25-30 | the text handed to `float()` has no `,`, no `$` and at most one `.`; the decimal position is chosen by testing the original value's third- and second-to-last characters, while the slices come from the stripped value |
| RootHandler.ConvertStringToFloat | item_fields_handler.py:22-35 | `TypeError` exactly for a non-`str`; otherwise the normalised text is in single-decimal-point form, and the result is `None` exactly when `float()` rejects it |
| RootHandler.NormalizePriceIntended | item_fields_handler.py:25-30 | the corrected rule tests the stripped value that it slices; single-decimal-point form |
| RootHandler.IntendedIgnoresDollar | item_fields_handler.py:25 | under the corrected rule a `$` anywhere, a trailing one included, never changes the result |
| RootHandler.ClearStringNotIdempotent | item_fields_handler.py:18-19 | when "%2520" decodes to "%20" and "%20" to a space, clearing twice gives "" where clearing once gave "%20" |
| RootHandlerExamples.NormalizeGroupedThousands | item_fields_handler.py:26-27 | "1" + group + "234" + point + "56" normalises to "1234.56" for either separator in either place, so "1.234,56" and "1,234.56" both do |
| RootHandlerExamples.NormalizePlainDecimal | item_fields_handler.py:26-30 | "1234.56" normalises to itself |
| RootHandlerExamples.NormalizeOneFractionDigit | item_fields_handler.py:28-29 | "12,5" keeps one fraction digit: "12.5" |
| RootHandlerExamples.StripTrailingDollar | item_fields_handler.py:25 | "12,50$" strips to "12,50" |
| RootHandlerExamples.TrailingDollarLosesDecimal | item_fields_handler.py:26-30 | as written, "12,50$" normalises to "1250" |
| RootHandlerExamples.IntendedTrailingDollar | item_fields_handler.py:26-30 | the corrected rule reads "12,50$" as "12.50" |
| Parser.Product.constructor | spiders/mobikom_biz_parser.py:13-23 | a new `Product` has every field `None` and no images |
| Parser.NameRule | spiders/mobikom_biz_parser.py:60-68 | the name exists exactly when span.product-name is found with non-empty text; it is the collapsed form of that text's decoded words |
| Parser.ExtractHref | spiders/mobikom_biz_parser.py:70-75 | `TypeError` exactly when the link exists without `href`; `None` exactly when there is no link; otherwise the collapsed form of the decoded `href`, with exactly its words |
| Parser.NumericTokens | spiders/mobikom_biz_parser.py:88 | only tokens that are all digits once their points are removed are kept, and there are no more of them than words |
| Parser.NumericTokensMembers | spiders/mobikom_biz_parser.py:88 | a word is kept exactly when it is numeric |
| Parser.NumericTokensAppend | spiders/mobikom_biz_parser.py:88 | word order is kept: the tokens of `a + b` are `a`'s, then `b`'s |
| Parser.DollarPriceRule | spiders/mobikom_biz_parser.py:77-91 | a dollar price exists only with exactly one numeric token, and then it is `float()` of that token |
| Parser.ExtractInstock | spiders/mobikom_biz_parser.py:93-103 | never `False`; `True` exactly when the badge has text and its cleared, lower-cased text occurs in "в наличии" |
| Parser.BlankBadgeIsInStock | spiders/mobikom_biz_parser.py:98-103 | badge text that decodes to whitespace clears to "", which is a substring of the phrase, so the product is in stock |
| Parser.UpperCaseBadgeIsInStock | spiders/mobikom_biz_parser.py:101 | "В НАЛИЧИИ" lower-cases to the phrase and counts as in stock |
| Parser.OutOfStockBadge | spiders/mobikom_biz_parser.py:101-102 | the badge "нет" is not a substring of the phrase, so the result is `None` |
| Parser.Decide | spiders/mobikom_biz_parser.py:140-159 | the href's exception is raised exactly when the name is truthy; the div is kept exactly when name, href, dollar price and stock status are all truthy, and then the listing holds those values |
| Parser.ListingOf | spiders/mobikom_biz_parser.py:139-159 | a div raises `TypeError` exactly when it has a name and a link without `href`; a kept div had a non-empty name, a non-empty href, a non-zero dollar price and `instock == True` |
| Parser.FoldStep | spiders/mobikom_biz_parser.py:138-159 | one more div: a raise stops the loop, a discarded div changes nothing, a kept div is appended |
| Parser.FoldKeepsDecided | spiders/mobikom_biz_parser.py:138-159 | every kept listing is the decision taken for some div |
| Parser.Scan | spiders/mobikom_biz_parser.py:138-159 | the only exception that can end the loop is the `TypeError` of a link without `href` |
| Parser.FoldErrorDecided | spiders/mobikom_biz_parser.py:138-159 | an exception that ends the loop is the one some div raised |
| Parser.ScanKeepsOnlyComplete | spiders/mobikom_biz_parser.py:139-159 | every yielded product has a non-empty name, a non-empty href and a non-zero dollar price |
| Parser.FoldStops | spiders/mobikom_biz_parser.py:138-159 | once a div raises, later divs are never looked at |
| Parser.FoldAppend | spiders/mobikom_biz_parser.py:138-159 | listing order is kept: the decisions for `a + b` keep `a`'s listings, then `b`'s |
| Parser.ScanAppend | spiders/mobikom_biz_parser.py:138-159 | scanning `a + b` gives `a`'s listings followed by `b`'s, or `a`'s result alone when `a` raised |
| Parser.JsonBatch | spiders/mobikom_biz_parser.py:105-117 | `ValueConversionError` for a body that is not JSON, `AttributeError` for JSON that is not an object; for an object, the divs of the asked class in its `html` payload, or none when it has no `html` |
| Parser.BatchOf | spiders/mobikom_biz_parser.py:124-125 | the JSON payload is consulted only when the direct HTML search is empty |
| Parser.DivTags | spiders/mobikom_biz_parser.py:119-134 | the body's JSON reading matters only when a direct search is empty, and then a body that is not a JSON object raises its error; otherwise the first-item batch followed by the generic batch |
| Parser.DivTagsDirect | spiders/mobikom_biz_parser.py:119-134 | when both direct searches find divs, the result is the first-item divs then the generic divs |
| Parser.ExtractDivTags | spiders/mobikom_biz_parser.py:119-134 | the list is the first-item batch followed by the generic batch, or the exception one of them raised |
| Parser.ListingProduct | spiders/mobikom_biz_parser.py:139-158 | the loop body returns a fresh product and the decision for the div; a kept product's fields are exactly the listing's name, href, dollar price and `instock == True` |
| Parser.NthListingProduct | spiders/mobikom_biz_parser.py:138-158 | the body for the `i`-th div gives that div's decision |
| Parser.YieldListed | spiders/mobikom_biz_parser.py:138-159 | the products yielded are fresh and distinct, one per kept listing and in listing order, each holding that listing's fields; the exception is the one that ended the scan |
| Parser.ParseNewProducts | spiders/mobikom_biz_parser.py:136-159 | the same over the located divs, or no product and the locating exception |
| Parser.Remaining | spiders/mobikom_biz_parser.py:176 | `range(next, stop)` gives `next`, `next + 1`, ..., `stop - 1` |
| Parser.Next | spiders/mobikom_biz_cralwer.py:66 | `next(it, None)` gives the first remaining number and drops it, or `None` and an unchanged iterator |
| Parser.PageDigits | spiders/mobikom_biz_parser.py:161-175 | digits exist exactly when the pagination div, its right link and a non-empty `href` are there and the cleared `href` holds a digit; they are then all of its digits, in order |
| Parser.ParsePageNumbers | spiders/mobikom_biz_parser.py:161-176 | an iterator exists exactly when the pagination div, its right link and a non-empty `href` are there and the cleared `href` has a digit; with all those digits read as `N` it yields exactly 2, 3, ..., N + 1 |
| Parser.DigitCharsSkip | spiders/mobikom_biz_parser.py:173 | non-digits contribute nothing to the page number |
| Parser.PageNumbersExample | spiders/mobikom_biz_parser.py:161-176 | a right link to "/catalog?all=New&p=5" gives the pages 2 to 6 |
| Parser.ClearAll | spiders/mobikom_biz_parser.py:186 | each paragraph is cleared, in order |
| Parser.ExtractDescription | spiders/mobikom_biz_parser.py:178-189 | a description exists exactly when the div has class-less paragraphs; splitting it at newlines gives back the cleared paragraphs |
| Parser.TruthyHrefs | spiders/mobikom_biz_parser.py:199 | no kept `href` is empty |
| Parser.TruthyHrefsAppend | spiders/mobikom_biz_parser.py:199 | document order is kept |
| Parser.TruthyHrefsMembers | spiders/mobikom_biz_parser.py:199 | exactly the present, non-empty `href`s survive |
| Parser.ExtractImagesHref | spiders/mobikom_biz_parser.py:191-202 | images exist exactly when some link has a truthy `href`, and then they are those `href`s |
| Parser.ParseDetailProduct | spiders/mobikom_biz_parser.py:204-217 | the description is always overwritten, `None` included; images are set only when found; the same product is returned, or `None` when there are no images; nothing else changes |
| Parser.ParseGrivnaPrice | spiders/mobikom_biz_parser.py:219-232 | a price exists only with at least one numeric token, and then it is `float()` of all numeric tokens joined in order |
| Parser.TokensPassStrip | spiders/mobikom_biz_parser.py:91 | joined numeric tokens hold no `$` and no whitespace at either end, so the strip-only conversion hands them to `float()` unchanged |
| Parser.PriceRulesDiffer | spiders/mobikom_biz_parser.py:88-91 | on a price printed as "1 234" the dollar rule gives up while the grivna rule reads "1234" |
| Crawler.NewPageUrl | spiders/mobikom_biz_cralwer.py:52-54 | every catalog URL starts with the domain and the `catalog?all=New&p=` prefix |
| Crawler.NewPageUrlInjective | spiders/mobikom_biz_cralwer.py:52-54 | different pages get different URLs |
| Crawler.FirstPageUrl | spiders/mobikom_biz_cralwer.py:52-54 | page 1's URL is "http://mobikom.biz/catalog?all=New&p=1&morePage=1" |
| Crawler.ProductUrl | spiders/mobikom_biz_cralwer.py:105 | a product URL is the domain followed by the href, with a missing href formatted as "None" |
| Crawler.PageRequest | spiders/mobikom_biz_cralwer.py:70-73 | a catalog-page request goes to a catalog URL, is handled by `parse_new_products`, carries no product and is subject to the duplicate filter |
| Crawler.DetailRequest | spiders/mobikom_biz_cralwer.py:104-109 | a detail request goes to the domain plus the product's href, is handled by `parse_detail_product`, carries the product and bypasses the duplicate filter |
| Crawler.MobikomBizCrawler.constructor | spiders/mobikom_biz_cralwer.py:19-21 | a new crawler holds no iterator |
| Crawler.MobikomBizCrawler.CreateNextPageRequest | spiders/mobikom_biz_cralwer.py:63-73 | no request without an iterator or from an exhausted one; otherwise exactly one page number is consumed and requested |
| Crawler.MobikomBizCrawler.ParseProfilePageData | spiders/mobikom_biz_cralwer.py:90-95 | the first catalog request is for page 1 |
| Crawler.MobikomBizCrawler.ParseNewProducts | spiders/mobikom_biz_cralwer.py:97-113 | the iterator is read only while none is held and is never replaced; one detail request per yielded product, in listing order, to the domain plus its href, carrying it, with `dont_filter` set and cookies merged; then at most one next-page request; after an exception exactly one detail request per product yielded before it, and nothing else |
| Crawler.MobikomBizCrawler.ParseDetailProduct | spiders/mobikom_biz_cralwer.py:115-125 | a price request, with `dont_merge_cookies` and `dont_filter`, is issued exactly when the detail stage kept the product |
| Crawler.MobikomBizCrawler.ParseGrivnaPrice | spiders/mobikom_biz_cralwer.py:127-130 | sets the grivna price, `None` included, and the parse time, and emits exactly the product's fields |
| Crawler.FollowFirstProduct | spiders/mobikom_biz_cralwer.py:97-130 | a fresh crawler emits an item for the first kept listing exactly when the detail page has images; the item combines the listing's fields, the detail page's description and images, and the price page's grivna price |

## Left out

- BeautifulSoup parsing and its class matching are not modelled. The model starts from the nodes
  that `find`/`find_all` return, given as datatypes.
- `unquote_plus`, `json.loads` and `float()` are not modelled. They are function parameters, so
  floating-point conversion, NaN and infinity are not modelled either.
- `Parser.Envelope`: a JSON object whose `html` value is truthy but not a string (BeautifulSoup
  would raise on it) is not represented.
- `PyText.IsDigit`: only the ASCII digits count. Python's `isdigit` also accepts other Unicode
  digits, such as superscripts, on which `int()` would raise.
- `PyText.LowerChar`: only ASCII and basic Cyrillic letters are lower-cased. Those are the ones
  the in-stock test meets.
- `Parser.ExtractName` and `Parser.ExtractDollarPrice`: their properties are stated in the lemmas
  `Parser.NameRule` and `Parser.DollarPriceRule` rather than on the functions.
- Login, `start_requests`, `parse_data`, the form request, the login and profile URLs,
  `new_products_url`, `login_formdata` and dotenv credentials are not modelled. They are network
  and framework plumbing.
- The parser's `parse_profile_page_data` and `User` are not modelled, because the crawler's
  call to them is commented out.
- Scrapy's scheduler, concurrency, `custom_settings` and the duplicate filter are not modelled.
  Each callback returns its requests as a sequence.
- `datetime.now()` is a `Timestamp` parameter.
- Logging is not modelled, and neither are pipelines.py (CSV export), items.py (field
  declarations only) and run.py (process launch).

## Findings

| source | as written | input that shows it | evidently intended | confidence | as-written member | corrected member |
|---|---|---|---|---|---|---|
| item_fields_handler.py:26-29 | the separator test reads `value[-3]` and `value[-2]` of the original value, but the slicing uses the `$`-stripped, trimmed value | "12,50$": `value[-3]` is '5', so no decimal position is found and the result is "1250" | test the cleared value that is sliced, so that a `$` anywhere never changes the result and "12,50$" gives "12.50" | not executed | RootHandlerExamples.TrailingDollarLosesDecimal | RootHandler.NormalizePriceIntended |
