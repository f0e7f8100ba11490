# Ambs Tattva store: currency and catalog model

A Dafny model of the decision logic behind the Ambs Tattva storefront. The
model covers four parts of the front-end:

- **Currency resolution and conversion** (`utils/currency.ts`). Every amount is
  held in Indian rupees. The shopper's currency comes from a four-step fallback
  chain: the host time zone, then the whole language tag, then the tag's second
  `-` segment upper-cased, then rupees. The code and its rate are read from a
  nine-entry rate table. A price is shown converted by that rate, with at most 0
  fraction digits for rupees and 2 for every other currency.
- **The store page** (`pages/StorePage.tsx`). It covers catalog search by
  category tab and text, the cart (add or increment, remove by id, badge count,
  total), the WhatsApp number cleaning and the Google Pay transaction details.
- **The admin catalog** (`pages/AdminPage.tsx`). It covers delete by id and save
  (replace the edited product or put a new one first). It also covers the
  default image, the low-stock panel and the inventory value and unit totals.
- **Subscription prices** (`pages/SaaSPage.tsx`). `parsePrice` reads the digits
  of a display string as a rupee amount.

Module layout:

- `options.dfy` holds `Option`.
- `lists.dfy` holds `Filter` and `Sum`, the Array `filter` and summing `reduce`
  the pages are built from.
- `text.dfy` holds the string primitives.
- `types.dfy` holds the records and the seed catalog.
- `currency.dfy`, `store_page.dfy`, `admin_page.dfy` and `saas_page.dfy` hold
  one module per source file.

The pure computations are functions. The page state that the source replaces
through React setters is a class:

- `StorePage.Store` holds the cart and the search state.
- `AdminPage.Catalog` holds the product list.

Each method's `ensures` ties the new state to the function that computes it.

Host signals are parameters:

- the time zone;
- `navigator.language`;
- the currency symbol the host formatter produces for a locale and a code;
- the shopkeeper's answer to the delete confirmation;
- the random id of a new product.

JavaScript numbers are modelled as follows. Prices, stock and sums are reals.
Cart quantities are integers, since they are only ever 1 or raised by 1.

Two facts about the source shape the model:

- The one table `REGION_TO_CURRENCY` serves both the time-zone lookup and the whole-tag lookup (`utils/currency.ts:50,54`).
- Nothing in the code constrains prices, stock or amounts to be non-negative. The lemmas that need it take it as a hypothesis.

## Model

| member | source | states |
|---|---|---|
| `Currency.TablesConsistent` | utils/currency.ts:8-43 | every code either mapping table can yield has a rate entry; each entry's code equals its key; every rate is positive; the rupee rate is 1 |
| `Currency.NineCurrencies` | utils/currency.ts:8-18 | the rate table has exactly nine currencies |
| `Currency.MappedCodesAreTruthy` | utils/currency.ts:53-58 | every mapped code is non-empty, so the `!currencyCode` tests are presence tests |
| `Currency.EffectiveLocale` | utils/currency.ts:47 | an empty `navigator.language` becomes `en-IN`; any other value is kept |
| `Currency.RegionSuffix` | utils/currency.ts:59 | the region key is the second `-` segment, with no `-` in it, upper-cased |
| `Currency.RegionSuffixOf` | utils/currency.ts:59 | for `lang-seg` or `lang-seg-…`, the region key is `seg` upper-cased, whatever follows |
| `Currency.ResolveCode` | utils/currency.ts:50-73 | steps 1-3 yield a code exactly when the time zone, the whole tag or the region suffix is mapped; any code they yield has a rate entry |
| `Currency.ResolveByRegion` | utils/currency.ts:58-72 | once steps 1 and 2 miss, the region table alone decides |
| `Currency.LookupRate` | utils/currency.ts:76 | the entry for a supported code; the rupee entry for no code or an unsupported code; always a table entry with a positive rate |
| `Currency.ChooseSymbol` | utils/currency.ts:84 | the host's non-empty currency symbol, otherwise the rupee sign |
| `Currency.GetCurrencyConfig` | utils/currency.ts:45-91 | the code is a supported code and the rate is that code's table rate; the rate is positive; the rate is 1 exactly for rupees; the symbol is the host's currency part for the effective locale and the resolved code, or the rupee sign when that part is missing or empty (the corrected fallback, see Findings), so never empty |
| `Currency.FormatPrice` | utils/currency.ts:93-100 | the converted amount is the rupee amount times the rate; at most 0 fraction digits exactly for rupees, 2 otherwise; the locale falls back to `en-IN` |
| `Currency.TimeZoneDecides` | utils/currency.ts:50 | a mapped time zone decides the code whatever the language |
| `Currency.LocaleDecides` | utils/currency.ts:53-55 | with an unmapped time zone, a tag that is a key of the same table decides |
| `Currency.RegionDecides` | utils/currency.ts:58-73 | with both unmapped, the upper-cased second segment decides through the region table |
| `Currency.DefaultsToBase` | utils/currency.ts:75-76 | when no step yields a code, the result is rupees at rate 1 |
| `Currency.RateFallbackUnused` | utils/currency.ts:76 | the second fallback to the rupee entry never fires: every code the chain yields is in the rate table |
| `Currency.EmptyLanguageMeansRupees` | utils/currency.ts:47 | an empty language with an unmapped time zone gives rupees, through `en-IN` |
| `Currency.ScriptSubtagIsNotRegion` | utils/currency.ts:59 | `zh-Hans-CN` reads the script `HANS` as its region and falls to rupees, while `zh-CN` gives yuan |
| `Currency.RegionStepIgnoresCase` | utils/currency.ts:59-72 | `en-AU` and `en-au` both give Australian dollars at 0.018 |
| `Currency.KolkataScenario` | utils/currency.ts:23 | `Asia/Kolkata` gives rupees at rate 1 even with the tag `fr-FR` |
| `Currency.FrenchLocaleScenario` | utils/currency.ts:41 | an unmapped zone with `fr-FR` gives euros at 0.011 |
| `Currency.UnknownScenario` | utils/currency.ts:75-76 | `Pacific/Unknown` with `xx-ZZ` gives rupees at rate 1 |
| `Currency.RupeesShownAsIs` | utils/currency.ts:93-100 | a rupee price is shown unconverted with no fraction digits |
| `Currency.ConversionMonotone` | utils/currency.ts:94 | with a positive rate a larger rupee amount never converts to a smaller one |
| `Currency.NewYorkPrice` | utils/currency.ts:93-100 | 3500 rupees in New York converts to 42 dollars with two fraction digits |
| `Currency.ChooseSymbolAsWritten` | utils/currency.ts:84 | the symbol choice with the fallback literal as the file stores it |
| `Currency.FallbackSymbolMisencoded` | utils/currency.ts:84 | the stored fallback is three characters, not the rupee sign U+20B9 that the corrected choice shows |
| `Lists.Filter` | pages/StorePage.tsx:157 | no longer than the input; every survivor passes the callback |
| `Lists.FilterMembers` | pages/StorePage.tsx:157 | every survivor comes from the input, and every element that passes the callback survives |
| `Lists.SumLeftFold` | pages/StorePage.tsx:180 | the total is the total of all but the last element plus the last, the order `reduce` folds in |
| `Text.KeepDigits` | pages/StorePage.tsx:185 | only `0`-`9` survive; every digit of the input survives |
| `Text.KeepDigitsAppend` | pages/SaaSPage.tsx:10 | stripping commutes with concatenation, so the digits keep their order |
| `Text.KeepDigitsDropsSeparator` | pages/SaaSPage.tsx:10 | a non-digit anywhere is dropped without a trace |
| `Text.JoinSplit` | utils/currency.ts:59 | `split('-')` loses nothing: joining the pieces with `-` gives back the tag |
| `Text.SplitAtFirst` | utils/currency.ts:59 | the first piece of `split` is the text before the first separator, the rest is the split of the remainder |
| `Text.ContainsIff` | pages/StorePage.tsx:159-160 | `includes` holds exactly when the query occurs at some position |
| `Text.ToLower` | pages/StorePage.tsx:159-160 | each ASCII upper-case letter becomes the letter 32 code points up, its lower-case partner; every other character is unchanged; the length is kept |
| `Text.ToUpper` | utils/currency.ts:59 | each ASCII lower-case letter becomes the letter 32 code points down, its upper-case partner; every other character is unchanged; the length is kept |
| `Text.Contains` | pages/StorePage.tsx:159-160 | the empty needle occurs in every string; a needle that occurs is no longer than the haystack |
| `Text.Split` | utils/currency.ts:59 | at least one piece; no piece holds the separator; exactly one piece when the separator does not occur |
| `Text.NumberOfDigits` | pages/SaaSPage.tsx:10 | the empty string reads as 0; an n-digit string reads as less than 10^n |
| `StorePage.CartAfterAdd` | pages/StorePage.tsx:165-172 | an id already in the cart raises its lines' quantity by one and changes nothing else; a new id is appended with quantity 1 |
| `StorePage.CartAfterRemove` | pages/StorePage.tsx:176-178 | no line with the id is left; every other line stays; an absent id leaves the cart as it was |
| `StorePage.ItemCount` | pages/StorePage.tsx:255 | when every line has quantity at least 1, the badge is at least the number of lines |
| `StorePage.CartTotal` | pages/StorePage.tsx:180 | with non-negative prices and quantities the total is non-negative |
| `StorePage.AddKeepsValid` | pages/StorePage.tsx:165-172 | adding keeps one line per id and every quantity at least 1 |
| `StorePage.RemoveKeepsValid` | pages/StorePage.tsx:176-178 | removing keeps one line per id and every quantity at least 1 |
| `StorePage.ReachableCartsValid` | pages/StorePage.tsx:165-178 | every cart reached from the empty cart by adds, removes and payment resets has distinct ids and quantities at least 1 |
| `StorePage.AddRaisesItemCountByOne` | pages/StorePage.tsx:165-172 | the badge count rises by exactly one per add |
| `StorePage.AddRaisesTotalByOnePrice` | pages/StorePage.tsx:165-180 | the total rises by the product's price for a new product, and by the line's stored price for one already in the cart |
| `StorePage.RemoveSubtractsLines` | pages/StorePage.tsx:176-180 | removing takes exactly the id's lines off the cart, the badge count and the total |
| `StorePage.RemoveKeepsOrder` | pages/StorePage.tsx:177 | removal distributes over splitting the cart, so survivors keep their order |
| `StorePage.TotalsOfValidCart` | pages/StorePage.tsx:180 | both totals are 0 for the empty cart and non-negative for non-negative prices; the badge count is at least the number of lines |
| `StorePage.MatchesFilter` | pages/StorePage.tsx:158 | the `All` tab matches everything; a category tab matches exactly its own category; any other tab matches nothing |
| `StorePage.MatchesSearch` | pages/StorePage.tsx:159-160 | the empty query matches everything; a query matches exactly when its lower-cased form occurs in the lower-cased name or description |
| `StorePage.FilteredItems` | pages/StorePage.tsx:156-163 | exactly the catalog products that pass the tab and the case-folded search |
| `StorePage.EmptySearchShowsAll` | pages/StorePage.tsx:156-163 | the `All` tab with an empty query shows the whole catalog in order |
| `StorePage.SearchIgnoresCase` | pages/StorePage.tsx:159-160 | lower-casing the query changes nothing |
| `StorePage.CategoryTabShowsOnlyCategory` | pages/StorePage.tsx:158 | a category tab shows only that category |
| `StorePage.SearchKeepsOrder` | pages/StorePage.tsx:157 | search distributes over splitting the catalog, so results keep catalog order |
| `StorePage.CleanNumber` | pages/StorePage.tsx:185 | the cleaned number is the input's digits in order, so every digit survives and nothing else does; a number that is all digits is unchanged; cleaning again changes nothing |
| `StorePage.GPayCountryCode` | pages/StorePage.tsx:121 | `IN` exactly for rupees, `US` otherwise |
| `StorePage.GPayTransaction` | pages/StorePage.tsx:117-122 | the total is converted exactly as the displayed price is; the code is the resolved code; the country follows the rupee rule |
| `StorePage.Store.constructor` | pages/StorePage.tsx:8-13 | the page starts with the seed catalog, the `All` tab, no query and an empty closed cart, and the grid shows the whole seed catalog |
| `StorePage.Store.Visible` | pages/StorePage.tsx:156-163 | the grid shows catalog products only, each passing the current tab and query |
| `StorePage.Store.AddToCart` | pages/StorePage.tsx:165-174 | the cart becomes the add update of the old cart; the badge count rises by one; the drawer opens; the catalog, search and grid are unchanged; the cart stays valid |
| `StorePage.Store.RemoveFromCart` | pages/StorePage.tsx:176-178 | the cart becomes the remove update of the old cart and holds no line with the id; it stays valid; the grid is unchanged |
| `StorePage.Store.PaymentSucceeded` | pages/StorePage.tsx:96-97 | the cart is emptied and its drawer closed |
| `AdminPage.SavedId` | pages/AdminPage.tsx:91 | an edited product keeps its id unless that id is empty; otherwise the fresh id is used |
| `AdminPage.ImageOrDefault` | pages/AdminPage.tsx:95 | an empty image field becomes the default picture; any other value is kept |
| `AdminPage.BuildProduct` | pages/AdminPage.tsx:90-99 | the saved product carries the chosen id, a non-empty image and the form's other fields |
| `AdminPage.CatalogWithout` | pages/AdminPage.tsx:73 | no product with the id is left; every other product stays; an absent id leaves the catalog unchanged |
| `AdminPage.CatalogWithReplaced` | pages/AdminPage.tsx:102 | the length is kept; each product with the edited id becomes the updated product; every other product is unchanged |
| `AdminPage.CatalogAfterSave` | pages/AdminPage.tsx:101-105 | editing replaces in place; a new product comes first with the old catalog after it |
| `AdminPage.EditKeepsIds` | pages/AdminPage.tsx:91-102 | editing a product with a non-empty id keeps the list of ids, so distinct ids stay distinct |
| `AdminPage.AddKeepsDistinct` | pages/AdminPage.tsx:91-104 | a new product with an unused id keeps the ids distinct and is first |
| `AdminPage.EditOfEmptyIdTakesFreshId` | pages/AdminPage.tsx:91-102 | editing a product whose id is empty gives every empty-id product the fresh id |
| `AdminPage.DeleteKeepsDistinctAndOrder` | pages/AdminPage.tsx:73 | deleting keeps ids distinct and distributes over splitting the catalog |
| `AdminPage.LowStock` | pages/AdminPage.tsx:250 | no longer than the catalog; every listed product has fewer than 5 in stock and comes from the catalog; every such product is listed |
| `AdminPage.LowStockKeepsOrder` | pages/AdminPage.tsx:250 | the panel distributes over splitting the catalog, so it lists products in catalog order |
| `AdminPage.InventoryValue` | pages/AdminPage.tsx:411 | with non-negative prices and stock the value is non-negative |
| `AdminPage.UnitCount` | pages/AdminPage.tsx:416 | with non-negative stock the unit count is non-negative |
| `AdminPage.TotalsOfCatalog` | pages/AdminPage.tsx:411-416 | value and units are 0 for an empty catalog and non-negative for non-negative prices and stock |
| `AdminPage.AddRaisesTotals` | pages/AdminPage.tsx:411-416 | a new product adds price times stock to the value and its stock to the units |
| `AdminPage.EditAdjustsTotals` | pages/AdminPage.tsx:411-416 | editing the one product with an id swaps its value and units for the updated product's |
| `AdminPage.DeleteLowersTotals` | pages/AdminPage.tsx:411-416 | deleting takes exactly the deleted products' value and units off the totals |
| `AdminPage.SeedCatalogPanels` | constants.tsx:3-46 | on the seed catalog only the tea set is low on stock; the catalog holds 39 units worth 65,300 rupees |
| `AdminPage.Catalog.constructor` | pages/AdminPage.tsx:21 | the page starts with the seed catalog |
| `AdminPage.Catalog.DeleteProduct` | pages/AdminPage.tsx:71-75 | when confirmed the catalog loses the id; otherwise it is unchanged |
| `AdminPage.Catalog.SaveProduct` | pages/AdminPage.tsx:87-107 | the catalog becomes the save update with the product built from the form |
| `SaaSPage.ParsePrice` | pages/SaaSPage.tsx:10 | a string with no digits reads as 0; the value has no more digits than the string |
| `SaaSPage.ParsePriceOfDigits` | pages/SaaSPage.tsx:10 | a string of digits reads as its decimal value |
| `SaaSPage.ParsePriceIgnoresSeparator` | pages/SaaSPage.tsx:10 | a non-digit such as `,` or `.` is dropped, not interpreted |
| `SaaSPage.ParsePricePositional` | pages/SaaSPage.tsx:10 | the digits read positionally: a prefix's digits are the leading digits of the number |
| `SaaSPage.CatalogPrices` | constants.tsx:58-59 | `₹1,500/mo` reads as 1500 and `₹800/mo` as 800 |
| `SaaSPage.DecimalPointDropped` | pages/SaaSPage.tsx:10 | `1.5` reads as 15: no fractional part survives |
| `SaaSPage.DisplayPrice` | pages/SaaSPage.tsx:40 | the parsed price is taken as rupees and converted like every other price |

## Left out

- The rendering of prices by `Intl.NumberFormat` and the symbol lookup by `formatToParts` are left out. Both are a host facility backed by locale data. The model keeps the converted amount, the code, the locale and the fraction-digit bound. The host's symbol is a parameter.
- An `Intl.NumberFormat` constructor that throws on a malformed language tag is not modelled. The model treats symbol lookup as total.
- The host time zone and `navigator.language` are parameters. A missing language is modelled as the empty string.
- A JavaScript record lookup also finds inherited keys such as `constructor` or `__proto__`. That quirk is not modelled. Real time zones and language tags never take those names.
- `Text.ToLower` and `Text.ToUpper` fold ASCII letters only. JavaScript also folds other letters, and `ı`, for one, upper-cases to `I`.
- `GetCurrencyConfig` uses the corrected fallback symbol, the rupee sign. As written, the source returns the mis-encoded three-character literal; `ChooseSymbolAsWritten` models that (see Findings).
- Floating-point effects are not modelled. Rates and prices are exact reals.
- `GPayTransaction`: the total is the exact product. The source sends `(amount * rate).toFixed(2)`, a string rounded to two digits.
- `ParsePrice`: the result is the exact decimal value. `Number` loses precision beyond 2^53, and gives `Infinity` for a digit string of more than about 309 digits.
- `Number(...)` on the admin form's price and stock strings (`pages/AdminPage.tsx:93,97`) is not modelled. The model's form carries the already converted reals, and a `NaN` from a malformed field is not modelled.
- The `reduce` totals are defined as a right-nested sum. On exact reals this equals the source's left fold.
- Reading and writing `localStorage` and `JSON.parse` of saved products and the WhatsApp number are left out as I/O. The pages start from the seed catalog.
- The Google Pay client, its readiness polling and button rendering are left out. They are an asynchronous third-party SDK. What is kept is the transaction details and the cart reset after an authorised payment.
- The AI content-suggestion call is left out. It is a network call.
- Building the WhatsApp message and opening the link are left out as browser I/O. The per-line `formatPrice` strings and `encodeURIComponent` belong to that message. Only the number cleaning is kept.
- `window.confirm` is a boolean parameter. `Math.random()` id generation is an arbitrary `freshId` parameter. The model does not promise the fresh id is unused; lemmas that need that take it as a hypothesis.
- The edit/add modal, tab and drawer toggles, the orders table, the settings form and every other page are view plumbing and are left out. The product being edited is a parameter of `SaveProduct`.

## Findings

| source | as written | input that shows it | evidently intended | confidence | as-written member | corrected member |
|---|---|---|---|---|---|---|
| utils/currency.ts:84 | the fallback symbol literal is the three characters U+00E2 U+201A U+00B9 (`â‚¹`) | a host formatter whose output has no currency part, or an empty one | the rupee sign U+20B9; its UTF-8 bytes, read as Windows-1252, are exactly those three characters | medium, not executed | `Currency.ChooseSymbolAsWritten` (exhibited by `Currency.FallbackSymbolMisencoded`) | `Currency.ChooseSymbol` |
