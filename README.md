# DEISI Shop storefront — cart session, product view and counter

A Dafny model of the logic in a small Next.js storefront:

- **The products page** (`ProductsPage`). The cart is kept in local storage under `"cart"`. It is restored on mount and written through on every change. Add and remove operate on the cart, and a running total is computed over it. A checkout posts the cart to the shop's `/buy` endpoint and turns a successful reply into a purchase summary. That summary stays visible until the cart fills again. The session state is the class `ProductsPage.CartSession`. Its fields `cart`, `storage`, `buyError`, `buyLoading`, `summary` and `filtered` are the page's React state cells and the browser's `localStorage`.
- **The product list on show** (`ViewProjector`, `StableSort`). The catalogue is filtered on the lower-cased title, then sorted by one of four keys with `Array.prototype.sort`.
- **The purchase summary** (`PurchaseSummaries`). The bought items are grouped by id with a quantity each, in the order `Object.values` lists the keys of the grouping object. Each line carries its amount, and a flag says whether a discount was applied.
- **The product card and detail view** (`ProductCard`, `ProductDetail`). Each has its own copy of the image URL normalisation and the rule for showing a price.
- **The click counter** (`Counter`). A count rises by one per click up to 10 and logs each value it takes. It is shown in a colour band, and both the count and the log are kept in local storage.

JavaScript's semantics are modelled explicitly where the code depends on them:

- `JsNumbers`: NaN, the infinities, `||`, `Math.min`, `===`, and the comparator sign `sort` reads.
- `NumberText`: `Number(text)` and `String(n)`.
- `JsStrings`: `trim`, `toLowerCase`, `includes`, `startsWith` and `localeCompare`.
- `Json`: a JSON printer and parser for the values the page stores.

Finite numbers are kept exactly, in hundredths.

Every `useEffect` runs as part of the operation that triggers it. `PersistCart` is the `[cart]` effect and `HideSummaryIfCartFilled` is the `[cart.length, purchaseSummary]` effect. Each user action is one method call, which leaves the session in a state where `Valid()` holds:

- the stored cart is the cart;
- no checkout is in flight;
- a summary shows only while the cart is empty.

Some behaviours of the code are worth stating outright:

- **Sorting by price.** The comparator is `Number(a.price) - Number(b.price)`, which is NaN for a non-numeric price, and `sort` reads a NaN difference as a tie with every other product. `ViewProjector.NaNPriceTies` states this, and `ViewProjector.ProjectOrdered` therefore proves ordering only when no price on show reads as NaN.
- **Summary order.** The summary lists the grouping object with `Object.values`. That puts array-index ids (0 to 2^32 - 2) first, in ascending order, and the other ids after them in the order they were first bought (`PurchaseSummaries.GroupOrder`).
- **A 2xx reply with an `error` field** still counts as a success. Only `response.ok` is read.
- **Double checkout.** Nothing in `buy` prevents it. Only the disabled button does, which `CartSession.Buy` models with the precondition `Valid()` (it includes `!buyLoading`).

## Model

| member | source | states |
|---|---|---|
| WebStorage.GetItem | app/produtos/page.tsx:56 | `getItem` returns the stored text exactly when the key is present, and null otherwise |
| ProductsPage.HydratePersisted | app/produtos/page.tsx:55-67 | the text the page writes for a cart is read back on mount as exactly that cart, whatever the cart held before |
| ProductsPage.HydrateNothing | app/produtos/page.tsx:56-57 | an absent or empty stored value leaves the cart as it was |
| ProductsPage.ReloadRestoresCart | app/produtos/page.tsx:55-67 | after any sequence of operations (any valid session), remounting from the session's storage restores the same cart |
| ProductsPage.FindIndex | app/produtos/page.tsx:115 | the result is the first position holding the id, or -1 exactly when no position does |
| ProductsPage.RemoveFirstSpec | app/produtos/page.tsx:113-120 | with no matching item the cart is unchanged; otherwise the cart is the old cart without its first item of that id, others in order, one item shorter, contents a sub-multiset |
| ProductsPage.CardRemoveClick | components/Loja/ProdutoCard.tsx:99 | the card's remove button passes only the id, so it removes the first item with that id (at or before the clicked one); when that is the same product the contents equal removing the clicked position |
| ProductsPage.Coerced | app/produtos/page.tsx:126 | the coerced price (`Number(price)`, or 0 when that is falsy) is never NaN, and a price that reads as NaN contributes 0 |
| ProductsPage.TotalIsSum | app/produtos/page.tsx:125-128 | when every price coerces to a finite number the total is the plain sum of the coerced prices (a reference sum taken from the other end) |
| ProductsPage.CartIds | app/produtos/page.tsx:150 | the request lists the cart's ids, one per item, in cart order |
| ProductsPage.ErrorText | app/produtos/page.tsx:160 | a failed reply's error text is the server's non-empty `error`, otherwise "Erro ao comprar"; it is never empty |
| ProductsPage.CaughtText | app/produtos/page.tsx:173-174 | the caught error's message is kept whenever present (even when empty); only a missing message falls back |
| ProductsPage.CartSession.constructor | app/produtos/page.tsx:54-67 | mounting hydrates the cart from storage, writes it back, and starts with no error, no summary and no list; the session is valid |
| ProductsPage.CartSession.PersistCart | app/produtos/page.tsx:64-67 | storage holds the serialised cart under "cart"; nothing else changes |
| ProductsPage.CartSession.HideSummaryIfCartFilled | app/produtos/page.tsx:69-74 | a non-empty cart clears the summary; otherwise nothing changes |
| ProductsPage.CartSession.AddToCart | app/produtos/page.tsx:108-111 | the product goes to the end of the cart, the error and the summary are cleared, storage holds the new cart, and validity is kept |
| ProductsPage.CartSession.RemoveFromCart | app/produtos/page.tsx:113-122 | the cart loses its first item with the id, the error is cleared, the summary is untouched, storage holds the new cart, and validity is kept |
| ProductsPage.CartSession.Refresh | app/produtos/page.tsx:77-105 | the list on show becomes the filtered, sorted catalogue once it has loaded; before that it is unchanged |
| ProductsPage.CartSession.Buy | app/produtos/page.tsx:136-178 | empty cart: fixed error, no request, nothing else changes; otherwise the request carries the ids, student flag, trimmed coupon and empty name; ok gives a summary of the exact cart and an empty stored cart; not ok or thrown sets the error text and keeps cart and summary; loading always ends false |
| ViewProjector.KeepMatching | app/produtos/page.tsx:84-86 | each product is kept as many times as listed when its lower-cased title includes the lower-cased term, and not at all otherwise |
| ViewProjector.KeepMatchingAppend | app/produtos/page.tsx:84-86 | `filter` keeps catalogue order: filtering two joined lists joins their filtered lists |
| ViewProjector.TiesOfKeepMatching | app/produtos/page.tsx:84-86 | the filtered products that tie with a given product are the catalogue's tying products that match, in catalogue order |
| ViewProjector.FilterContents | app/produtos/page.tsx:82-87 | the filter step keeps every listing for an empty term and only the matching ones otherwise |
| ViewProjector.EmptySearchMatchesAll | app/produtos/page.tsx:82 | every title matches the empty term |
| ViewProjector.Compare | app/produtos/page.tsx:89-102 | the sign `sort` reads for a key is -1, 0 or 1 |
| ViewProjector.NaNPriceTies | app/produtos/page.tsx:97-100 | under a price key a product whose price reads as NaN ties with every product, in either order |
| ViewProjector.CompareIsPreorder | app/produtos/page.tsx:89-101 | under a listed key, on products with no NaN price (or any products for the name keys), the comparator is antisymmetric and "not after" is transitive |
| ViewProjector.ComparatorIsPreorder | app/produtos/page.tsx:89-101 | the same over all products of a list |
| ViewProjector.SortStepPermutes | app/produtos/page.tsx:89-102 | sorting under any key is a permutation |
| ViewProjector.ProjectContents | app/produtos/page.tsx:77-105 | the list on show holds each catalogue product as many times as listed when the term is empty or its title matches, else not at all |
| ViewProjector.ProjectOrdered | app/produtos/page.tsx:77-105 | under a listed key, when no price on show (or of the given product) reads as NaN or the key is a name key, the list is ordered, and the products shown that tie with any given product are exactly the catalogue's tying products that match the search, in catalogue order |
| ViewProjector.UnknownKeyKeepsOrder | app/produtos/page.tsx:89-104 | a key the switch does not list leaves the filtered list in catalogue order |
| StableSort.SortPermutes | app/produtos/page.tsx:91-100 | the sort returns a permutation of its input |
| StableSort.SortSorts | app/produtos/page.tsx:91-100 | with a comparator that is a preorder on the elements the result is ordered |
| StableSort.SortKeepsTies | app/produtos/page.tsx:91-100 | elements that tie with any given one keep their relative order (stability) |
| PurchaseSummaries.GroupLines | app/produtos/page.tsx:316-321 | every line's id was bought, its quantity is the number of items with that id, and it carries the first such item's fields |
| PurchaseSummaries.GroupOnePerId | app/produtos/page.tsx:316-321 | no id has two lines and every bought id has one |
| PurchaseSummaries.GroupOrder | app/produtos/page.tsx:316-321 | lines with array-index ids come first in ascending id; the others follow in order of first purchase |
| PurchaseSummaries.GroupTotalQty | app/produtos/page.tsx:316-321 | the quantities add up to the number of items bought |
| PurchaseSummaries.LineAmountIsRepeatedPrice | app/produtos/page.tsx:338 | a line's amount equals its coerced price added once per unit |
| PurchaseSummaries.TimesIsRepeatAdd | app/produtos/page.tsx:338 | multiplying a non-NaN number by a positive quantity equals repeated addition |
| PurchaseSummaries.DiscountFromForm | app/produtos/page.tsx:348-350 | a discount shows exactly when the student box was ticked or the coupon field held a non-white-space character |
| Catalog.PriceNumber | app/produtos/page.tsx:126 | `Number(price)`: a number is itself, null is 0, and only a text can give NaN or an infinity |
| Catalog.ProductRoundTrip | app/produtos/page.tsx:59-66 | a product written as JSON reads back as the same product |
| Catalog.ParseCart | app/produtos/page.tsx:59-60 | a cart is read only from text that parses as a JSON array |
| Catalog.CartRoundTrip | app/produtos/page.tsx:59-66 | `JSON.parse(JSON.stringify(cart))` gives the same cart |
| Catalog.CartJsonElements | app/produtos/page.tsx:66 | `JSON.stringify(cart)` writes each product of the cart as the array element in its own position |
| Json.ParseStringify | app/produtos/page.tsx:59-66 | every JSON value printed and parsed back is itself |
| NumberText.NumberTextRoundTrip | components/Contador/contador.tsx:31-46 | `Number(String(n))` is n for every number, NaN and infinities included |
| JsNumbers.Min | components/Contador/contador.tsx:63 | `Math.min` is NaN exactly when an argument is; otherwise it is one of its arguments, and neither argument is less than it |
| JsNumbers.OrZero | app/produtos/page.tsx:126 | `n`, or 0 when n is falsy, is never NaN, is either n or 0, and keeps every finite n |
| JsNumbers.CompareSign | app/produtos/page.tsx:97-100 | the sign `sort` reads is -1, 0 or 1, and a NaN difference reads as 0 |
| JsNumbers.SubOrdersNumbers | app/produtos/page.tsx:97-100 | for non-NaN prices, `a - b` lets a stay first exactly when a is not greater than b, and is antisymmetric |
| JsNumbers.LessIsStrictOrder | app/produtos/page.tsx:97-100 | `<` is irreflexive, transitive and total on non-NaN numbers |
| JsStrings.Trim | app/produtos/page.tsx:152 | the trimmed text neither starts nor ends with white space |
| JsStrings.TrimIsSlice | app/produtos/page.tsx:152 | the trimmed text is a slice of the text, and everything cut off on either side is white space |
| JsStrings.TrimIdempotent | app/produtos/page.tsx:152 | trimming twice is trimming once |
| JsStrings.TrimEmptyIffBlank | app/produtos/page.tsx:152 | the trimmed text is empty exactly when every character is white space |
| JsStrings.ToLower | app/produtos/page.tsx:83-85 | lower-casing keeps the length and maps each character |
| JsStrings.IncludesIffOccurs | app/produtos/page.tsx:85 | `includes` holds exactly when the term occurs at some position |
| JsStrings.IncludesEmpty | app/produtos/page.tsx:85 | every text includes the empty term |
| JsStrings.LocaleCompare | app/produtos/page.tsx:91-94 | the title comparison is -1, 0 or 1, and 0 exactly for equal titles |
| JsStrings.LocaleCompareAntisymmetric | app/produtos/page.tsx:91-94 | swapping the titles flips the sign |
| JsStrings.LocaleCompareTransitive | app/produtos/page.tsx:91-94 | "not after" on titles is transitive |
| ProductCard.ToAbsoluteImageUrl | components/Loja/ProdutoCard.tsx:10-16 | the URL always starts with "http://" or "https://" |
| ProductCard.ImageUrlCases | components/Loja/ProdutoCard.tsx:11-15 | an absolute path is returned unchanged; a path starting with "/" becomes the domain plus the path; any other path becomes the domain, "/" and the path |
| ProductCard.ImageUrlJoin | components/Loja/ProdutoCard.tsx:14-15 | a relative path is joined to the domain with exactly one "/" |
| ProductCard.ImageUrlRecoversPath | components/Loja/ProdutoCard.tsx:14-15 | dropping the domain and its "/" from the URL gives back the path without its leading "/" |
| ProductCard.ImageUrlIdempotent | components/Loja/ProdutoCard.tsx:8-16 | normalising a URL twice is normalising once |
| ProductCard.PriceLabelDash | components/Loja/ProdutoCard.tsx:39-45 | with a formatter that never writes "—", the label is "—" exactly when `Number(price)` is not finite, and the formatted amount otherwise |
| ProductCard.DashOnlyForText | components/Loja/ProdutoCard.tsx:39-45 | only a text price can show "—" |
| ProductDetail.CopiesAgree | components/Loja/ProdutoDetalhe.tsx:7-11 | the detail view's copy gives the card's URL for every path |
| ProductDetail.RelativePathJoined | components/Loja/ProdutoDetalhe.tsx:9-10 | a relative path gets exactly one "/" between the domain and the path, added only when missing |
| ProductDetail.DetailUrlIdempotent | components/Loja/ProdutoDetalhe.tsx:5-11 | the URL is absolute and normalising it again changes nothing |
| ProductDetail.PriceLabelsAgree | components/Loja/ProdutoDetalhe.tsx:16-19 | the detail view shows the card's price text for every price |
| Counter.ColorBands | components/Contador/contador.tsx:54-59 | red exactly for 0..3, yellow for 4..7, green for 8..10, black for every other value, NaN and the infinities included |
| Counter.WholeCountsHaveColour | components/Contador/contador.tsx:54-59 | a whole count from 0 to 10 is never black |
| Counter.BetweenBandsIsBlack | components/Contador/contador.tsx:54-58 | an example of `ColorBands`: 3.5, which storage can hold, lies between the bands and is black |
| Counter.ClickAtLimit | components/Contador/contador.tsx:63-65 | a click at 10 changes neither count nor history |
| Counter.ClickBelowLimit | components/Contador/contador.tsx:63-68 | below 10 a click makes the count min(count + 1, 10) and appends it after the earlier entries |
| Counter.ClickOnNaN | components/Contador/contador.tsx:63-68 | a NaN count stays NaN and every click appends another NaN, since NaN !== NaN |
| Counter.ClickKeepsSteady | components/Contador/contador.tsx:61-69 | a click keeps the count in 0..10, every entry at most the count, and the history strictly increasing |
| Counter.ClicksKeepSteady | components/Contador/contador.tsx:61-69 | the same holds after any number of clicks |
| Counter.ClicksFromZero | components/Contador/contador.tsx:61-69 | from a fresh counter, n clicks give the count min(n, 10) and the history 1, 2, ..., min(n, 10) |
| Counter.CountRoundTrip | components/Contador/contador.tsx:29-32 | the stored `String(count)` reads back as the same count |
| Counter.GarbageCountIsNaN | components/Contador/contador.tsx:31 | stored text that starts with a lower-case letter reads back as NaN whatever follows it (`?? 0` never applies) |
| Counter.HistoryRoundTrip | components/Contador/contador.tsx:34-42 | a stored history of finite numbers reads back as itself, and an absent one reads as empty |
| Counter.NaNHistoryNotRestored | components/Contador/contador.tsx:50-52 | a history with a NaN or infinite entry anywhere is stored with null there and does not read back as a list of numbers |
| Counter.Contador.constructor | components/Contador/contador.tsx:29-52 | mounting reads both keys and writes both back; storage then holds the count and history |
| Counter.Contador.HandleClick | components/Contador/contador.tsx:61-69 | count and history become the click's result; when the history changes, both keys are rewritten, and otherwise nothing changes |

## Left out

- Network I/O: fetching the catalogue and posting the checkout. The catalogue is the `data` argument of `Refresh`, and the checkout reply is the `reply` argument of `Buy`. The fetcher's loading and error states are not modelled.
- React scheduling. An effect's writes become visible when its operation ends, so the transient write of `"[]"` on mount, before the stored cart is restored, is not modelled. StrictMode double effects, batching and the `await` inside `buy` are not modelled either: `Buy` is atomic.
- Rendering, JSX and styling. This includes `Intl.NumberFormat`, which is a `format` parameter of the price labels.
- ProductsPage.Hydrate: a stored JSON array whose elements are not all product objects leaves the cart unchanged. The page would take such an array as the cart, but the model's cart holds only products.
- ProductsPage.CartSession.Buy: the reply body is a `BuyResponse` with optional string fields. A body that is not an object, or whose `error` is not a string, is not modelled.
- Counter.Contador.constructor: it requires the stored history to be absent, empty, or a JSON array of numbers. In every other case the component throws, from `JSON.parse`, or keeps a value that is not a list of numbers.
- JsNumbers: numbers are exact hundredths. IEEE-754 rounding, negative zero, and prices with more than two decimals are not modelled.
- NumberText.StringToNumber: exponents, more than two decimals, and hexadecimal (`0x`), octal (`0o`) and binary (`0b`) literals read as NaN in the model, where JavaScript reads them as numbers (`Number("0o17")` is 15). Numeric separators read as NaN in both.
- Catalog.ParseCart: a number with an exponent or more than two decimals anywhere in the stored text, in a price or in a `rating` such as `4.125`, makes the text unreadable. The page would parse it.
- ProductsPage.Hydrate: for the same reason, a stored cart holding such a number is not restored, and the cart stays as it was. The page would restore it.
- Counter.Contador.constructor: a stored history holding such a number is outside the model, like any other unreadable history.
- JsStrings.ToLower and JsStrings.LocaleCompare: lower-casing covers ASCII and Latin-1 letters. `localeCompare` is code-point order, not the locale's collation.
- Json: escapes that form surrogate pairs are not modelled. Products are written with their keys in one fixed order.
- StableSort: `Array.prototype.sort` is modelled as a stable insertion sort on a sequence, not in place. With an inconsistent comparator, such as a NaN price under a price key, the engine's order is implementation-defined; the model fixes one order and proves nothing about it.
- The catalogue product's `rating` is kept as an uninterpreted JSON value.
- Static pages (technologies, features, project descriptions) have no logic.
