# Sales management: importer, validator, admin helpers and test runner

A model of the core of a Django sales-management application. Each month a
company uploads a spreadsheet of its sales: one row per product with its
category, the units sold, the unit cost and the total, the money written the
Brazilian way ("R$ 1.234,56"). The application does four things with it:

- **Upload.** The upload form finds or creates the company and refuses a
  second file for the same company and month. The file validator insists on a
  spreadsheet extension.
- **Parsing.** The sheet parser turns the rows into dicts, converting each
  cell by its column name. It gives up on the whole sheet when any row has
  the wrong width or any cell fails to convert.
- **Import.** A background task merges the parsed rows into the catalogue of
  categories, products and monthly product sales. A repeated product adds to
  that month's sold units and total.
- **Admin.** The admin pages filter products and sales by company, which is
  read either from the query string or from the encoded filters of a change
  view. The admin also builds the links between those pages and shows counts,
  sums and the current cost of a product.

The project also models the test runner, which translates Django's test
options into pytest's command line.

Modules:

| module | file | models |
|---|---|---|
| `Text`, `Models` | text.dfy, models.dfy | string helpers (digits, split, join, strip, find); money as exact centavos; dates and pt-BR month labels |
| `Conversions`, `ConversionLemmas` | conversions.dfy, conversion_lemmas.dfy | the cells of a sheet and the `parse_*` conversions of importer/parser.py; a Brazilian money formatter used as the inverse of `parse_currency` |
| `Parser`, `ParserLemmas` | parser.dfy, parser_lemmas.dfy | class `ParserSalesXlsx`; its loops are proved against the functions `Parse` and `RowDict` |
| `Tasks`, `TaskLemmas` | tasks.dfy, task_lemmas.dfy | class `Store` (categories, products with their companies, monthly sales) and `import_sales_task`; its loop is proved against the function `ApplyAll` |
| `Forms` | forms.dfy | `clean_company`, `clean` and `save` of the upload form, over a class `Registry` of companies and import files |
| `Validators` | validators.dfy | `validate_extension` with POSIX `os.path.splitext` |
| `Url`, `Admin`, `AdminLemmas` | url.dfy, admin.dfy, admin_lemmas.dfy | the query helpers of manager/admin.py, and the form encoding that `urlencode` applies |
| `Runner` | runner.dfy | class `PytestTestRunner` and the argument list of `run_tests` |

Representation choices:

- A float cell and a `Money` amount are exact integers of centavos.
- A cell is `Empty` (None), a string, an int or a float.
- A failing conversion, which raises in the source, is `None`.
- A request's GET parameters are a map from name to decoded value.
- The rows of a table are a sequence in primary-key order, so `.last()` is
  the last element.

Where the code and the application's written description disagree, the model
follows the code:

- `as_data` checks the width of the sheet's own header row too. On a sheet of
  the wrong width it returns `[]`, where a test expects a `ValueError`.
- When a sale for the same company, product and month already exists,
  `import_sales_task` adds to sold and total and keeps the existing cost. It
  does not overwrite the cost.

## Model

| member | source | states |
|---|---|---|
| Parser.HeaderOrDefault | salesmanagement/importer/parser.py:10 | a non-empty header is kept; a missing or empty one becomes product, category, sold, cost, total; the header is never empty |
| Parser.ParserSalesXlsx.constructor | salesmanagement/importer/parser.py:8-11 | keeps the path and the (defaulted) header; `max_columns` is the header's length |
| Parser.ParserSalesXlsx.GetRowDict | salesmanagement/importer/parser.py:36-42 | the loop builds the dict `RowDict` specifies, in which each header name maps to its column's converted cell; a missing cell or failed conversion fails the row |
| Parser.ParserSalesXlsx.AsData | salesmanagement/importer/parser.py:13-34 | the loop returns what `Parse` specifies: the header row skipped, one dict per other row, `[]` on any bad width or failing row |
| Parser.RowDictFailureSticks | salesmanagement/importer/parser.py:38-40 | once a column fails, the dict of every longer prefix of the header fails too |
| Parser.ParseFailureSticks | salesmanagement/importer/parser.py:19-30 | once a row makes `as_data` give up, no later row can bring a result back |
| ParserLemmas.ParseWidthMismatch | salesmanagement/importer/parser.py:19-21 | a row of any position, the first included, whose width differs from the header's makes the result `[]` |
| ParserLemmas.ParseRowFailure | salesmanagement/importer/parser.py:27-30 | a data row whose conversion fails makes the whole result `[]`, never a partial list |
| ParserLemmas.ParseSucceeds | salesmanagement/importer/parser.py:19-42 | on a sheet of uniform width whose data rows all convert, there are rows − 1 dicts, the k-th being the dict of row k + 1 |
| ParserLemmas.ParseFailsUnlessWellFormed | salesmanagement/importer/parser.py:19-30 | any other sheet gives `[]`; with ParseSucceeds the two cases are exhaustive |
| ParserLemmas.HeaderRowIgnored | salesmanagement/importer/parser.py:23-25 | the first row's contents never matter, only its width |
| ParserLemmas.RowDictSpec | salesmanagement/importer/parser.py:36-42 | a row converts iff every column converts; the keys are exactly the header names, and each name maps to the conversion of the cell in its last column |
| ParserLemmas.RowDictPassesUnknownNames | salesmanagement/importer/parser.py:39-45 | a header name without a `parse_` method falls back to `default_parse`, so its key holds the row's cell unchanged |
| ParserLemmas.RowDictDefaultHeader | salesmanagement/importer/parser.py:10-42 | with the default header a five-cell row converts iff sold, cost and total convert, and then gives a sale record |
| ParserLemmas.DefaultParseGivesSales | salesmanagement/importer/parser.py:10-42 | every dict the default parser returns has the five sale fields, of the right kinds |
| ParserLemmas.RowDictOfSale | salesmanagement/importer/parser.py:36-60 | the dict of a converting five-cell row, field by field |
| ParserLemmas.ParseThreeRows | salesmanagement/importer/parser.py:19-34 | a header row and two data rows give those two rows' dicts, in order |
| ParserLemmas.ParseSampleSheet | salesmanagement/importer/tests/test_parser_import_sales.py:14-54 | the test's sheet parses to its two expected records |
| ParserLemmas.ParseShortSheet | salesmanagement/importer/tests/test_parser_import_sales.py:61-66 | a three-cell sheet gives `[]` (the code's answer; the test expects an exception) |
| ParserLemmas.ParseSoldSamples | salesmanagement/importer/tests/test_parser_import_sales.py:17-18 | the sample sold cells "9" and "5" read as 9 and 5 |
| Conversions.ParseSold | salesmanagement/importer/parser.py:53-54 | an int stays; None fails; a float truncates toward zero (bounds stated for both signs) |
| Conversions.ParseCurrency | salesmanagement/importer/parser.py:64-65 | a float cell is wrapped as that amount unchanged |
| Conversions.ConversionFor | salesmanagement/importer/parser.py:39-60 | product and category read as strings, sold as an int, cost, total and currency (`parse_currency` is itself a `parse_` method) as money, and every other name passes its cell through (each an iff) |
| ConversionLemmas.ParseSoldReadsRendering | salesmanagement/importer/parser.py:53-54 | `int(str(n)) == n` for every integer |
| ConversionLemmas.ParseSoldRejectsLetter | salesmanagement/importer/tests/test_parser_import_sales.py:68-70 | `parse_sold('a')` fails |
| ConversionLemmas.ParseSoldRejectsBareSign | salesmanagement/importer/parser.py:53-54 | a sign without digits fails |
| ConversionLemmas.UngroupThousands | salesmanagement/importer/parser.py:67-69 | deleting the '.' separators from a digit string grouped in thousands gives back the digits |
| ConversionLemmas.ParseUnsignedDecimalOfAmount | salesmanagement/importer/parser.py:69 | "q,rr" reads as 100·q + rr centavos |
| ConversionLemmas.ParseDecimalSigned | salesmanagement/importer/parser.py:69 | a leading '-' negates the amount, and no sign leaves it |
| ConversionLemmas.NormalizeFormatBrl | salesmanagement/importer/parser.py:67 | normalising "R$ 1.234,56" leaves "1234,56" |
| ConversionLemmas.ParseDecimalOfPlainBrl | salesmanagement/importer/parser.py:69 | the plain pt-BR rendering of any amount reads back as that amount |
| ConversionLemmas.ParseCurrencyReadsFormatBrl | salesmanagement/importer/parser.py:62-69 | round trip: every amount written the Brazilian way, with thousands separators and sign, parses back to exactly that amount |
| ConversionLemmas.ParseCurrencyOfInt | salesmanagement/importer/parser.py:67-69 | an int cell i reads as i reais |
| ConversionLemmas.ParseCurrencyExample | salesmanagement/importer/tests/test_parser_import_sales.py:44-47 | "R$ 45,30" reads as 45,30 |
| ConversionLemmas.ParseCurrencySampleAmounts | salesmanagement/importer/tests/test_parser_import_sales.py:17-18 | the sample sheet's four amounts read as written |
| ConversionLemmas.ParseCurrencyDotIsThousands | salesmanagement/importer/tests/test_parser_import_sales.py:72-75 | "R$ 45.30" reads as 4530 reais, not 45,30, because '.' is a thousands separator |
| ConversionLemmas.ParseDecimalRejectsLetter | salesmanagement/importer/parser.py:69 | text that starts with neither a digit nor a sign is no number |
| ConversionLemmas.ParseCurrencyRejectsEmpty | salesmanagement/importer/parser.py:67-69 | a None cell ("None" as text) fails |
| Tasks.SaleRows | salesmanagement/importer/tasks.py:25 | one sale row per parsed dict, read from its fields, in order |
| Tasks.Store.GetOrCreateCategory | salesmanagement/importer/tasks.py:19 | the category is created iff its name is new; nothing else changes |
| Tasks.Store.GetOrCreateProduct | salesmanagement/importer/tasks.py:20 | the (name, category) product is created, with no companies, iff it is new; nothing else changes |
| Tasks.Store.AddCompany | salesmanagement/importer/tasks.py:23 | the company joins the product's companies, and adding a present one changes nothing |
| Tasks.Store.GetOrCreateSale | salesmanagement/importer/tasks.py:26-31 | a new key is stored with the defaults, and an existing key's sale is returned untouched |
| Tasks.Store.SaveSale | salesmanagement/importer/tasks.py:33-36 | only that key's sale is replaced |
| Tasks.ImportSale | salesmanagement/importer/tasks.py:19-36 | one row's effect on the store is `ApplyRow` |
| Tasks.ImportSales | salesmanagement/importer/tasks.py:18-36 | the loop's effect is `ApplyAll`: the rows applied in parse order |
| Tasks.ImportSalesTask | salesmanagement/importer/tasks.py:9-38 | fails, leaving the store unchanged, iff the parse is empty; otherwise reports imported once, after applying every row |
| TaskLemmas.ApplyAllCategories | salesmanagement/importer/tasks.py:19 | afterwards the categories are the old ones plus exactly the category names seen, each once |
| TaskLemmas.ApplyAllProducts | salesmanagement/importer/tasks.py:20-23 | every product seen exists and has the file's company added; every other product and its companies are unchanged |
| TaskLemmas.ApplyRowTwiceCompanies | salesmanagement/importer/tasks.py:22-23 | applying the same row again adds no product and no company |
| TaskLemmas.ApplyAllTouchedSale | salesmanagement/importer/tasks.py:26-36 | for a key the rows touch, sold and total are the prior values plus the sums over its rows; the cost is the existing one, or the first row's |
| TaskLemmas.ApplyAllUntouchedSale | salesmanagement/importer/tasks.py:18-36 | a key the rows do not touch keeps its sale, or stays absent |
| TaskLemmas.ApplyAllConsistent | salesmanagement/importer/tasks.py:18-36 | every sale's product and every product's category stay in the store (an invariant the import preserves) |
| TaskLemmas.ImportTwoSales | salesmanagement/importer/tests/test_tasks_import_sales.py:14-41 | the test's two rows give two categories, two products carrying the company, and two sales |
| Forms.CleanCompany | salesmanagement/importer/forms.py:20-26 | the company of that exact name if there is one, else a new unsaved company of that name |
| Forms.Clean | salesmanagement/importer/forms.py:28-41 | no check for an absent or unsaved company; for a saved one, the `KeyError` when the month failed its field validation, else rejected iff a file exists for the same company, month and year, with the "já foi importado" message |
| Forms.Registry.Save | salesmanagement/importer/forms.py:43-49 | a new company is saved under a fresh key and an existing one is left alone; the file record gets that company |
| Forms.Registry.Submit | salesmanagement/importer/forms.py:20-49 | clean, then save unless rejected: an accepted submission appends the file for the company's key, adding the company under the next key only when its name is new; a rejected one changes nothing; at most one file per company and month is kept throughout |
| Forms.MissingMonthOnlyForSaved | salesmanagement/importer/forms.py:31-35 | without a valid month, `clean` raises for a saved company and makes no check for an unsaved one |
| Forms.AppendKeepsUnique | salesmanagement/importer/forms.py:35-37 | storing a file that passed the check keeps one file per company and month |
| Forms.FreshKeyNeverImported | salesmanagement/importer/forms.py:43-46 | a company key newer than every file's has no file yet |
| Forms.NewCompanyNeverDuplicate | salesmanagement/importer/forms.py:31-33 | a submission naming a new company is never rejected |
| Forms.CleanIgnoresDay | salesmanagement/importer/forms.py:35-36 | two dates of the same month and year get the same verdict |
| Forms.JulyLabel | salesmanagement/importer/forms.py:38 | any day of July 2018 is labelled "Julho de 2018" |
| Forms.DuplicateJuly2018 | salesmanagement/importer/tests/test_view_salesimport.py:189-193 | a second July 2018 file is refused with the test's exact message |
| Validators.Splitext | salesmanagement/sales/validators.py:9 | name and extension concatenate back to the path; an extension starts with its only '.' and has no '/' |
| Validators.SplitextFindsExtension | salesmanagement/sales/validators.py:9 | an extension exists iff the final component has a '.' after some character other than '.' |
| Validators.SplitextOfStem | salesmanagement/sales/validators.py:9 | "stem.ext" splits at that dot |
| Validators.SplitextOfLeadingDots | salesmanagement/sales/validators.py:9 | leading dots of a name do not start an extension |
| Validators.SplitextExamples | salesmanagement/sales/validators.py:9 | ".xlsx" has no extension, and "report.xlsx" has ".xlsx" |
| Validators.ValidateExtension | salesmanagement/sales/validators.py:8-11 | a rejection carries "Arquivo não suportado. Extensões válidas: " and the list joined by ", " |
| Validators.ValidateExtensionSpec | salesmanagement/sales/validators.py:10-11 | accepted iff the lower-cased extension equals some entry of the list verbatim; otherwise rejected with that message |
| Validators.NoExtension | salesmanagement/sales/validators.py:9-11 | a name without an extension passes iff "" is listed |
| Validators.ValidateStemExtension | salesmanagement/sales/validators.py:9-10 | "stem.ext" passes iff ".ext", lower-cased, is listed |
| Validators.UpperCaseNameAccepted | salesmanagement/sales/validators.py:10 | "name.XLSX" passes when ".xlsx" is listed |
| Validators.UpperCaseListRejects | salesmanagement/sales/validators.py:10 | "name.xlsx" fails when only ".XLSX" is listed, because the list is not lower-cased |
| Validators.JoinSalesExtensions | salesmanagement/sales/tests/test_view_salesimport.py:117-121 | the sales form's list renders as ".xls, .xlsx, .xlsm, .csv" |
| Url.UnquoteQuotePlus | salesmanagement/manager/admin.py:129 | decoding undoes the form encoding of any ASCII text |
| Url.QuotePlusAppend | salesmanagement/manager/admin.py:129 | the encoding works character by character |
| Url.QuoteSeparators | salesmanagement/manager/admin.py:129 | '=' and '&' are encoded as "%3D" and "%26" |
| Admin.GetFiltersParams | salesmanagement/manager/admin.py:17-27 | with `skipp_ignore` everything is kept; otherwise exactly `_disable_filters` is removed; every key kept keeps its value |
| Admin.Filters | salesmanagement/manager/admin.py:124-126 | the filter string is ASCII, so it can be form-encoded |
| Admin.RelatedLinks | salesmanagement/manager/admin.py:103-120 | nothing for a company without a key; else the products link then the sales link, both on the company and hiding the company filter |
| AdminLemmas.ListFilterSpec | salesmanagement/manager/admin.py:52-55 | a filter is kept iff it is listed and not contained in the `_disable_filters` value |
| AdminLemmas.ListFilterAppend | salesmanagement/manager/admin.py:54 | filtering works item by item, so the original order is kept |
| AdminLemmas.ListFilterNothingDisabled | salesmanagement/manager/admin.py:53-54 | without `_disable_filters` every filter is kept |
| AdminLemmas.DisableCompanyFilter | salesmanagement/manager/tests/test_admin_product.py:89-94 | "company" disabled leaves name and category |
| AdminLemmas.HidingCategoryHidesProduct | salesmanagement/manager/admin.py:52-55 | as written, disabling `product__category` on the sales page also hides `product` |
| AdminLemmas.ListFilterExactSpec | salesmanagement/manager/admin.py:52-55 | corrected filter: a filter is kept iff it is listed and is not the disabled name itself |
| AdminLemmas.ListFilterExactAgrees | salesmanagement/manager/admin.py:52-55 | on the value the application writes ("company") both filters agree |
| AdminLemmas.HidingCategoryKeepsProduct | salesmanagement/manager/admin.py:52-55 | the corrected filter keeps `product` when `product__category` is disabled |
| AdminLemmas.LookupPairsDefined | salesmanagement/manager/admin.py:65 | the map is built iff every piece has exactly one '=' |
| AdminLemmas.LookupPairsLastWins | salesmanagement/manager/admin.py:65 | a key's value is the one from its last piece |
| AdminLemmas.LookupPairsAbsent | salesmanagement/manager/admin.py:65 | a key of no piece is not in the map |
| AdminLemmas.LookupPairsMalformed | salesmanagement/manager/admin.py:65 | a piece without exactly one '=' makes the construction fail |
| AdminLemmas.LookupsOfTwo | salesmanagement/manager/admin.py:65 | "k1=v1&k2=v2" gives both keys |
| AdminLemmas.GetCompanyIdSpec | salesmanagement/manager/admin.py:57-67 | a non-empty direct parameter wins; without one and without changelist filters there is no id; with filters, failure iff some piece is malformed |
| AdminLemmas.FiltersLookups | salesmanagement/manager/admin.py:124-126 | the link's filter string reads back as the company key, plus `_disable_filters=company` when asked |
| AdminLemmas.RelatedLinkOpensCompanyList | salesmanagement/manager/admin.py:116-126 | following a related link shows exactly that company's rows |
| AdminLemmas.RelatedLinkHidesProductsCompanyFilter | salesmanagement/manager/admin.py:117 | on the products page the link hides the company filter and keeps category and name |
| AdminLemmas.RelatedLinkHidesSalesCompanyFilter | salesmanagement/manager/admin.py:120 | on the sales page the link hides the company filter and keeps the other two |
| AdminLemmas.QuoteTwoLookups | salesmanagement/manager/admin.py:129 | an encoded filter string has '=' as "%3D" and '&' as "%26" |
| AdminLemmas.ChangeViewQuery | salesmanagement/manager/admin.py:128-129 | the change view's query is `_changelist_filters=` and the encoded filters |
| AdminLemmas.ChangeViewRoundTrip | salesmanagement/manager/admin.py:128-129 | once decoded, the change-view link's filters give `get_company_id` the company's key |
| AdminLemmas.WithCompanySpec | salesmanagement/manager/admin.py:50 | the company filter keeps exactly the rows of that company |
| AdminLemmas.GetQuerysetOfCompany | salesmanagement/manager/admin.py:44-50 | with a company's id, the queryset is exactly that company's rows |
| AdminLemmas.GetQuerysetWithoutCompany | salesmanagement/manager/admin.py:46-48 | without an id, every row |
| AdminLemmas.EmptyChangelistId | salesmanagement/manager/admin.py:44-50 | an empty id in the changelist filters breaks `get_queryset` (not an int), but `get_productssale_for_company` ignores it |
| AdminLemmas.QuerysetFilteredByCompany | salesmanagement/manager/tests/test_admin_product.py:78-87 | only the product of company 2 is listed |
| AdminLemmas.ProductsCountAppend | salesmanagement/manager/admin.py:82-85 | the count adds up over parts of the table |
| AdminLemmas.ProductsCountBounds | salesmanagement/manager/admin.py:82-85 | 0 for an unsaved company; at most every product; 0 when the company sells none; all when it sells every one |
| AdminLemmas.SoldProductsSnoc | salesmanagement/manager/admin.py:89-91 | a new sale adds its units exactly when it is the company's |
| AdminLemmas.SoldProductsNoSales | salesmanagement/manager/admin.py:89-91 | a company without sales has sold 0 (the empty sum) |
| AdminLemmas.SoldProductsExample | salesmanagement/manager/tests/test_admin_company.py:37-40 | the test's six sales sum to 29 |
| AdminLemmas.SalesOfCompanySpec | salesmanagement/manager/admin.py:177 | the company filter keeps exactly that company's sales |
| AdminLemmas.GetProductssaleSpec | salesmanagement/manager/admin.py:173-179 | the product's sales, and only the requested company's when an id is given |
| AdminLemmas.CurrentCostSnoc | salesmanagement/manager/admin.py:159-162 | a new matching sale becomes the current cost; a non-matching one changes nothing |
| AdminLemmas.CurrentCostWithoutSale | salesmanagement/manager/admin.py:159-162 | with no matching sale the cost cell is empty |
| AdminLemmas.CurrentCostOfAllCompanies | salesmanagement/manager/tests/test_admin_product.py:34-38 | without a company, the last sale's cost |
| AdminLemmas.CurrentCostOnListPage | salesmanagement/manager/tests/test_admin_product.py:40-44 | with `company__id__exact=1`, the last cost of company 1 |
| AdminLemmas.ChangePageCompanyId | salesmanagement/manager/admin.py:62-67 | the id inside `_changelist_filters` is found |
| AdminLemmas.CurrentCostOnChangePage | salesmanagement/manager/tests/test_admin_product.py:46-51 | the same cost through the change view's filters |
| Runner.PytestTestRunner.constructor | salesmanagement/runner.py:4-8 | the four options are kept |
| Runner.PytestTestRunner.RunTests | salesmanagement/runner.py:17-31 | the argument list is the flags of the set options, then the labels |
| Runner.VerbosityFlagsSpec | salesmanagement/runner.py:18-23 | 0, 2 and 3 give exactly `--quiet`, `--verbose` and `-vv`; any other level none |
| Runner.FlagsPresence | salesmanagement/runner.py:18-29 | each flag is present iff its option is set |
| Runner.FlagsOrdered | salesmanagement/runner.py:17-29 | flags come in the fixed order: verbosity, exitfirst, reuse-db, nomigration |
| Runner.ArgvShape | salesmanagement/runner.py:17-31 | the length is the number of set flags plus the number of labels, which come last unchanged |
| Runner.DefaultOptions | salesmanagement/runner.py:4-31 | the default runner passes the labels alone |

## Left out

- Reading the workbook (`load_workbook`): the sheet's rows of cells are an input.
- `locale.setlocale`: pt-BR number reading is modelled stateless, with '.' for thousands and ',' for decimals.
- Floats: a float cell and `Money` are exact centavos. Float rounding is not modelled, fraction digits past the second are truncated, and `str()` of a float is fixed-point only.
- Conversions.ParseSold: `int()` of a string accepts an optional sign and digits only. Surrounding whitespace and underscores, which Python also accepts, are not modelled.
- Conversions.ParseCurrency: `float()` forms with an exponent, "inf" or "nan" are not modelled.
- Conversions.ParseCurrency: `float()` accepts underscores between digits, so "R$ 1_000,50" reads as 1000,50 in the source; the model rejects it.
- Conversions.ParseCurrency: `strip` and `float()` are modelled over the ASCII whitespace characters only (blank, tab to carriage return, 0x1C to 0x1F); Unicode spaces such as U+00A0 are not.
- Validators.ValidateExtension: `lower()` is modelled for ASCII letters only.
- Celery's task decoration and retry, and the signal that enqueues the task: outside the model.
- The internals of `imported()` and `imported_fail()`: they are the `Outcome` value.
- The `SalesImportFile` lookup by key: the import's company and month are parameters.
- `best_seller`: its result depends on the ORM's ordering of ties.
- `current_price` and the `price` property: the property is not part of this model.
- `month_year` and `category` of the sales admin: display helpers.
- HTML rendering and `mark_safe`: the link is built as a string.
- `reverse()`: the URL it returns is an argument.
- `os.path.splitext`: POSIX only. Windows separators are not modelled.
- `urlencode`: modelled for ASCII text only. `unquote_plus` of "%XX" at or above 0x80 is not modelled.
- A QueryDict with several values for one key: only the last value is modelled.
- `change_view` and `changelist_view` storing the request: the GET parameters are passed directly.
- Django's own `get_filters_params`: its result is an input.
- ORM querysets: they are sequences in key order. `MultipleObjectsReturned` is not modelled.
- A company id from the query string is compared as an integer key. Any text that is not an integer literal fails.
- `products_count` counts the products whose company set holds the company (`obj.product_set`).
- `sold_products` of an unsaved company: not modelled.
- `pytest.main` and its exit code: `RunTests` returns the argument list, and other keyword arguments are ignored.
- The `commit` argument of `save`: ignored, as the source ignores it.
- Forms.Registry.Submit: takes a month that passed field validation. A form with field errors is never saved, and that validation is not part of the model; `Forms.Clean` alone covers the missing month.
- The test that expects a `ValueError` from a short sheet: the code returns `[]`, and the model follows the code.

## Findings

| source | as written | input that shows it | evidently intended | confidence | as-written member | corrected member |
|---|---|---|---|---|---|---|
| salesmanagement/manager/admin.py:53-54 | `_disable_filters` is read as a string, so `f not in d_filters` is a substring test | `_disable_filters=product__category` on the sales page, whose filters are company, product__category, product (admin.py:186), also hides `product` | `d_filters` defaults to a list, so a filter should be hidden only when its exact name is disabled | medium, not executed | AdminLemmas.HidingCategoryHidesProduct | AdminLemmas.HidingCategoryKeepsProduct |

`AdminLemmas.ListFilterExactSpec` proves the corrected filter keeps exactly the listed filters other than the disabled name. `AdminLemmas.ListFilterExactAgrees` shows that on the value the application itself writes ("company") the corrected and the original filters agree. So the related links behave the same under both.
