# DarenStore storefront: a Dafny model of its shop logic

DarenStore is a React storefront for sneakers. Its logic lives inline in
the view components. This project models that logic as pure Dafny
functions over immutable datatypes and proves properties about it:

- the cart engine and its browser-storage slot (`CartContext`);
- the catalog page's facet filters, five orderings, facet toggles, reset,
  active-filter counter and facet value lists (`CatalogPage`);
- the checkout page's totals, per-step field validation and three-step
  wizard (`Checkout`);
- the cart drawer's coupon box, discount, free-shipping progress and
  quantity guard (`CartDrawer`);
- the product grid's "load more" window (`ProductList`);
- the product page's lookup, related products, stock bands, quantity
  picker and add-to-cart guard (`ProductPage`);
- the product card's defaults, image carousel, stars and badges
  (`ProductCard`);
- the sign-up form's password strength and validation chain (`Register`);
- the sign-in form's checks, redirect target and "remember me" flag
  (`Login`);
- the header's unit count, price and active link (`Header`);
- the shipped twelve-product catalog as a constant (`Products`).

`Common` holds the sequence toolkit the modules share: `filter`, a stable
insertion sort, de-duplication and an option type. `Text` holds the string
operations: the regular-expression character classes, ASCII `toLowerCase`,
`includes`, the email, phone and expiry patterns, and `parseInt`.

Prices, discounts and rates are exact `real`s. A JavaScript default
`x || d` is an `Option` with a falsy-aware default, so a stock of 0 counts
as missing wherever the code writes `|| 10`. Creation dates are day
numbers. The locale-aware name order is a caller-supplied relation.

Where the storefront's written description and its code differ, the model
follows the code:

- `addToCart` accepts any quantity. Nothing rejects a non-positive one.
- "Load more" grows the requested count without a cap; only the shown
  prefix is capped by the list length. A new product list does not reset
  the count.
- A stored cart that does not parse is not recovered as an empty cart:
  `JSON.parse` is unguarded, so loading fails (`CartContext.Load`).
- The checkout subtotal is the cart's raw price × quantity. No per-item
  discount is applied. The checkout's coupon state is never set, so its
  discount is always 0.

## Model

| member | source | states |
|---|---|---|
| CartContext.Add | src/contexts/CartContext.jsx:17-26 | for an id already present, every line with it gets `quantity` more units and keeps its product copy and size, with no other line changed; for a new id exactly one line is appended, carrying the call's quantity and not the record's |
| CartContext.AddKeepsUnique | src/contexts/CartContext.jsx:19-25 | adding keeps at most one line per product id |
| CartContext.SizeIsNotAKey | src/contexts/CartContext.jsx:19-23 | re-adding a product in another size merges into the existing line, which keeps its original size |
| CartContext.AddUnits | src/contexts/CartContext.jsx:17-26 | with one line per id, the product's unit count rises by exactly the quantity added |
| CartContext.AddAllSums | src/contexts/CartContext.jsx:17-26 | repeated adds of one new product leave a single line holding the sum of the quantities |
| CartContext.AddNewTotal | src/contexts/CartContext.jsx:25-35 | appending a new line raises the total by price × quantity |
| CartContext.AddExistingTotal | src/contexts/CartContext.jsx:20-35 | adding to an existing line raises the total by quantity × the price stored in that line |
| CartContext.TotalAppend | src/contexts/CartContext.jsx:33-35 | the total of two carts joined is the sum of their totals |
| CartContext.Total | src/contexts/CartContext.jsx:33-35 | the empty cart totals 0 |
| CartContext.TotalOne | src/contexts/CartContext.jsx:34 | a single line totals its price × quantity; with `TotalAppend` this fixes the total of every cart as the sum over its lines |
| CartContext.Remove | src/contexts/CartContext.jsx:29-31 | no line of the id survives, every other line is kept, and the result is no longer than the cart |
| CartContext.RemoveAppend | src/contexts/CartContext.jsx:30 | removing from two joined carts is removing from each part and joining the results, so the kept lines stay in order and keep their copies |
| CartContext.RemoveOne | src/contexts/CartContext.jsx:30 | a single line is dropped exactly when it carries the id |
| CartContext.RemoveMultiset | src/contexts/CartContext.jsx:29-31 | every copy of a line with the id is dropped, and every other line keeps its number of copies |
| CartContext.RemoveIdempotent | src/contexts/CartContext.jsx:29-31 | removing twice is removing once, and removing an absent id changes nothing |
| CartContext.RemoveTotal | src/contexts/CartContext.jsx:29-35 | the total splits into the lines kept and the lines removed |
| CartContext.AddThenRemove | src/contexts/CartContext.jsx:17-31 | adding a product and then removing it equals just removing it |
| CartContext.Clear | src/contexts/CartContext.jsx:37-39 | the cleared cart is empty |
| CartContext.TotalEmpty | src/contexts/CartContext.jsx:33-39 | the cleared cart's total is 0 |
| CartContext.Load | src/contexts/CartContext.jsx:6-10 | a missing or empty slot loads the empty cart and a stored cart loads as itself; any other text is an unrecovered parse error |
| CartContext.Save | src/contexts/CartContext.jsx:13-15 | writing the cart leaves every other storage key untouched |
| CartContext.LoadSave | src/contexts/CartContext.jsx:8-14 | what is saved loads back unchanged |
| CartContext.Commit | src/contexts/CartContext.jsx:13-15 | after each change the slot holds the current cart and no other key changes |
| CartContext.Mount | src/contexts/CartContext.jsx:6-15 | mounting succeeds exactly when loading does, and then the slot and the cart agree |
| CartContext.AddToCart | src/contexts/CartContext.jsx:17-27 | the provider's add changes the cart as `Add` does and leaves the slot in sync |
| CartContext.RemoveFromCart | src/contexts/CartContext.jsx:29-31 | the provider's remove changes the cart as `Remove` does and leaves the slot in sync |
| CartContext.ClearCart | src/contexts/CartContext.jsx:37-39 | the provider's clear empties the cart, whose total is then 0, and leaves the slot in sync |
| CartContext.ScenarioRepeatAdd | src/contexts/CartContext.jsx:17-26 | product 1 added once and then twice more gives one line of three units |
| CatalogPage.SearchFacts | src/pages/Catalog/Catalog.jsx:42-46 | the query's letter case does not matter, and a product is found by its own name and its own brand |
| CatalogPage.StagesAreOneFilter | src/pages/Catalog/Catalog.jsx:39-76 | the six staged filters keep exactly the catalog products that pass every active facet, in catalog order |
| CatalogPage.Narrow | src/pages/Catalog/Catalog.jsx:39-76 | the filtered list is the catalog filtered once by the conjunction of every active facet, in catalog order |
| CatalogPage.Matches | src/pages/Catalog/Catalog.jsx:39-76 | a product outside the price range never matches; with no search, no list facet and no sale flag, the price range alone decides |
| CatalogPage.MatchesSearch | src/pages/Catalog/Catalog.jsx:42-46 | the empty query matches every product, and a match needs a name or a brand at least as long as the query |
| CatalogPage.Order | src/pages/Catalog/Catalog.jsx:79-95 | every sort key yields a permutation of its input |
| CatalogPage.Filtered | src/pages/Catalog/Catalog.jsx:38-98 | the page's list is a permutation of the matching products and holds exactly the catalog products that pass every facet |
| CatalogPage.FeaturedKeepsCatalogOrder | src/pages/Catalog/Catalog.jsx:92-94 | `featured` and every unknown key give the matching products in catalog order |
| CatalogPage.PriceAscOrder | src/pages/Catalog/Catalog.jsx:80-82 | prices never decrease along the list, and products of equal price keep their catalog order |
| CatalogPage.PriceDescOrder | src/pages/Catalog/Catalog.jsx:83-85 | prices never increase along the list, and products of equal price keep their catalog order |
| CatalogPage.NewestOrder | src/pages/Catalog/Catalog.jsx:89-91 | creation days never increase along the list, a missing date counting as day 0 |
| CatalogPage.NewestStable | src/pages/Catalog/Catalog.jsx:89-91 | products created the same day keep their catalog order |
| CatalogPage.NameOrder | src/pages/Catalog/Catalog.jsx:86-88 | for a total collation, neighbouring names are in collation order |
| CatalogPage.Toggle | src/pages/Catalog/Catalog.jsx:107-114 | a present value is removed with all its copies while every other value keeps its number of copies; an absent value is appended |
| Common.FilterOutMultiset | src/pages/Catalog/Catalog.jsx:110-112 | filtering out one value drops all its copies and keeps every other element as many times as it occurred |
| CatalogPage.ToggleTwice | src/pages/Catalog/Catalog.jsx:107-114 | toggling an absent value twice gives the list back |
| CatalogPage.ToggleFacet | src/pages/Catalog/Catalog.jsx:107-114 | only the chosen facet list changes |
| CatalogPage.MinPrice | src/pages/Catalog/Catalog.jsx:32-35 | a lower bound of all catalog prices that some product attains |
| CatalogPage.MaxPrice | src/pages/Catalog/Catalog.jsx:32-35 | an upper bound of all catalog prices that some product attains |
| CatalogPage.Cleared | src/pages/Catalog/Catalog.jsx:116-125 | the reset state has no search, facets or sale flag, and a price range containing every catalog product |
| CatalogPage.ClearedShowsAll | src/pages/Catalog/Catalog.jsx:116-125 | after a reset every catalog product is listed, under any sort key |
| CatalogPage.ClearedListsCatalog | src/pages/Catalog/Catalog.jsx:116-125 | after a reset the matching products are the whole catalog, in catalog order |
| CatalogPage.ActiveCount | src/pages/Catalog/Catalog.jsx:127-135 | the count is at most 5, and it is 0 exactly when no list, no sale flag and the catalog's own price range are set |
| CatalogPage.ActiveCountFacts | src/pages/Catalog/Catalog.jsx:127-135 | the search text is never counted, and the reset state counts 0 |
| CatalogPage.LexLeTotal | src/pages/Catalog/Catalog.jsx:21 | the default sort's code-unit order is total and antisymmetric |
| CatalogPage.AllBrands | src/pages/Catalog/Catalog.jsx:21 | holds exactly the brands of the catalog products |
| CatalogPage.AllSizes | src/pages/Catalog/Catalog.jsx:25 | holds exactly the sizes of the catalog products |
| CatalogPage.AllColors | src/pages/Catalog/Catalog.jsx:29 | holds exactly the colors of the catalog products |
| CatalogPage.UniqueBrands | src/pages/Catalog/Catalog.jsx:20-22 | each catalog brand exactly once, in strictly increasing code-unit order |
| CatalogPage.UniqueSizes | src/pages/Catalog/Catalog.jsx:24-26 | each catalog size exactly once, in strictly ascending order |
| CatalogPage.UniqueColors | src/pages/Catalog/Catalog.jsx:28-30 | each catalog color exactly once |
| Common.Dedup | src/pages/Catalog/Catalog.jsx:29 | `[...new Set(s)]` holds every element of `s` once and nothing else |
| Common.DedupPrefix | src/pages/Catalog/Catalog.jsx:29 | de-duplicating a prefix gives a prefix of the whole result, so the first occurrences keep their order |
| Common.DedupSnoc | src/pages/Catalog/Catalog.jsx:29 | a new element goes after the ones already seen, and a repeated one adds nothing |
| CatalogPage.InitialShowsCatalog | src/pages/Catalog/Catalog.jsx:7-14 | on the shipped catalog the initial filters hide nothing |
| CatalogPage.CatalogMinPrice | src/data/products.js:105 | the shipped catalog's lowest price is 70 (product 6) |
| CatalogPage.CatalogMaxPrice | src/data/products.js:47 | the shipped catalog's highest price is 230 (product 3) |
| CatalogPage.InitialCount | src/pages/Catalog/Catalog.jsx:127-135 | with the initial range [0, 500000] the counter already shows 1 |
| CatalogPage.IntendedInitialCount | src/pages/Catalog/Catalog.jsx:116-125 | starting from the catalog's own range, the counter shows 0 and the whole catalog is listed |
| Checkout.ShippingCost | src/pages/Checkout/Checkout.jsx:46-47 | express costs 15000, standard 5000, any other option 0 |
| Checkout.Summary | src/pages/Checkout/Checkout.jsx:44-49 | the discount is 15% of the subtotal only with a coupon, the tax is 19% of subtotal − discount + shipping, and the total is 1.19 × that taxable amount |
| Checkout.PageTotals | src/pages/Checkout/Checkout.jsx:44-49 | the page's subtotal is the raw cart total, its discount is always 0, and its total is 1.19 × (cart total + shipping) |
| Checkout.SummaryExample | src/pages/Checkout/Checkout.jsx:44-49 | 200000 with the coupon and standard shipping costs 208250; without the coupon it costs 243950 |
| Checkout.ChooseShipping | src/pages/Checkout/Checkout.jsx:444-447 | the free option cannot be picked below a subtotal of 150000; any other option is taken as given |
| Checkout.FreeShippingEnabled | src/pages/Checkout/Checkout.jsx:447 | the free option is enabled exactly from a subtotal of 150000 |
| Checkout.NoFreeShippingBelowThreshold | src/pages/Checkout/Checkout.jsx:444-447 | below 150000 a paid option can never become the free one |
| Checkout.ContactErrors | src/pages/Checkout/Checkout.jsx:73-87 | a step-1 field carries an error exactly when it fails its check: email pattern, ten-digit phone once white space is stripped, the five required fields |
| Checkout.CardErrors | src/pages/Checkout/Checkout.jsx:89-100 | a card field carries an error exactly when the number is shorter than 16, the name is empty, the expiry is not MM/AA, or the CVV is shorter than 3 |
| Checkout.StepErrors | src/pages/Checkout/Checkout.jsx:70-104 | step 2, and step 3 without card payment, produce no error |
| Checkout.ContactErrorsEmptyIff | src/pages/Checkout/Checkout.jsx:73-103 | step 1 has no error exactly when every contact field is acceptable |
| Checkout.CardErrorsEmptyIff | src/pages/Checkout/Checkout.jsx:89-103 | step 3 with a card has no error exactly when every card field is acceptable |
| Checkout.StepErrorsEmptyIff | src/pages/Checkout/Checkout.jsx:70-104 | a step validates exactly when the fields it checks are acceptable, and the optional state field never carries an error |
| Checkout.ClearError | src/pages/Checkout/Checkout.jsx:64-67 | typing in a field blanks its message and keeps every other error |
| Checkout.Start | src/pages/Checkout/Checkout.jsx:10-42 | the wizard opens on step 1 with standard shipping, card payment and no error |
| Checkout.Next | src/pages/Checkout/Checkout.jsx:106-111 | the step advances to min(step + 1, 3) exactly when the current step validates; the errors shown are that step's |
| Checkout.Previous | src/pages/Checkout/Checkout.jsx:113-116 | back one step, never below 1, nothing else changed |
| Checkout.Jump | src/pages/Checkout/Checkout.jsx:179 | an indicator click only moves to a strictly earlier step |
| Checkout.Submit | src/pages/Checkout/Checkout.jsx:118-162 | the cart is cleared and the order placed exactly when the current step validates |
| Checkout.StepStaysInRange | src/pages/Checkout/Checkout.jsx:106-179 | every transition keeps the step in 1..3 |
| Checkout.HappyPath | src/pages/Checkout/Checkout.jsx:106-162 | valid contact and card details reach step 3 in two clicks and submit with an empty cart afterwards |
| Checkout.NextFromOneNeedsContact | src/pages/Checkout/Checkout.jsx:73-111 | leaving step 1 requires valid contact details |
| CartDrawer.ApplyCoupon | src/components/shared/Cart/Cart.jsx:26-31 | the code is applied at 15% with the input cleared when it lower-cases to `bienvenido15`; otherwise nothing changes |
| CartDrawer.CouponAcceptedIff | src/components/shared/Cart/Cart.jsx:27 | a code is accepted exactly when it spells `bienvenido15` in any mix of letter cases |
| CartDrawer.CouponExamples | src/components/shared/Cart/Cart.jsx:26-31 | upper case is accepted and the typed spelling kept; an inner space or a wrong digit is refused |
| CartDrawer.PressApply | src/components/shared/Cart/Cart.jsx:239-245 | the apply button does nothing once a coupon is applied or while the input is empty |
| CartDrawer.RemoveCoupon | src/components/shared/Cart/Cart.jsx:257 | removing returns to no coupon and keeps the input |
| CartDrawer.Discount | src/components/shared/Cart/Cart.jsx:21 | 15% of the subtotal with a coupon, 0 without |
| CartDrawer.ShownTotal | src/components/shared/Cart/Cart.jsx:287 | the total shown is the cart total, or 85% of it with a coupon |
| CartDrawer.ApplyRemoveTotal | src/components/shared/Cart/Cart.jsx:257 | applying and then removing a coupon gives the no-coupon total back |
| CartDrawer.Remaining | src/components/shared/Cart/Cart.jsx:24 | never negative, 0 exactly from a subtotal of 150000, and otherwise what is missing up to it |
| CartDrawer.Progress | src/components/shared/Cart/Cart.jsx:23 | at most 100, non-negative for a non-negative subtotal, and 100 exactly from 150000 |
| CartDrawer.ProgressRemaining | src/components/shared/Cart/Cart.jsx:22-24 | the bar is full exactly when nothing is missing, and below the threshold bar and missing amount add up to the threshold |
| CartDrawer.BannersExclusive | src/components/shared/Cart/Cart.jsx:83-102 | a non-empty drawer shows exactly one banner, the "free shipping" one from 150000; an empty drawer shows neither |
| CartDrawer.FindLine | src/components/shared/Cart/Cart.jsx:34 | finds a line of the id exactly when the cart has one, and it is the first such line, as `find` returns it |
| CartDrawer.QuantityChange | src/components/shared/Cart/Cart.jsx:33-39 | a missing line throws; otherwise a new quantity is requested only when it is at least 1, and it is the quantity of the first line with the id, as `find` returns it, plus the change |
| CartDrawer.DecrementGuard | src/components/shared/Cart/Cart.jsx:33-39 | "+" always requests, and "−" on a single unit requests nothing |
| CartDrawer.Badge | src/components/shared/Cart/Cart.jsx:67-68 | the badge is 0 exactly for the empty cart |
| CartDrawer.BadgeCountsLines | src/components/shared/Cart/Cart.jsx:67-68 | adding units of a product already in the cart leaves the badge unchanged |
| ProductList.Start | src/components/products/ProductList/ProductList.jsx:8 | the grid asks for 8 and starts loading with nothing shown |
| ProductList.Settle | src/components/products/ProductList/ProductList.jsx:13-16 | after the delay the grid shows a prefix of the list of length min(itemsToShow, list length) |
| ProductList.LoadMore | src/components/products/ProductList/ProductList.jsx:21-25 | the request grows by exactly 8 and the shown prefix grows with it, capped by the list length |
| ProductList.ChangeProducts | src/components/products/ProductList/ProductList.jsx:10-19 | a new list keeps the requested count |
| ProductList.PagerInvariant | src/components/products/ProductList/ProductList.jsx:15-27 | the shown products are always the prefix of the requested length; "more" remains exactly while the request is shorter than the list |
| ProductList.AfterLoads | src/components/products/ProductList/ProductList.jsx:8-25 | after k clicks the request is 8(k + 1) and the prefix of that length is shown |
| ProductList.LoadsUntilDone | src/components/products/ProductList/ProductList.jsx:27 | "load more" is offered for the first ⌈n/8⌉ − 1 clicks and disappears after that |
| ProductList.TwentyProducts | src/components/products/ProductList/ProductList.jsx:8-27 | twenty products show 8, then 16, then all 20 with no button left |
| ProductList.NoResetOnNewList | src/components/products/ProductList/ProductList.jsx:10-19 | after three clicks a new list of 30 shows all 30 at once: the count is not reset |
| ProductPage.FindById | src/pages/Product/Product.jsx:17 | finds the first catalog product with the id, as `find` does, and finds none exactly when no product has it |
| ProductPage.FindByIdUnique | src/pages/Product/Product.jsx:17 | with distinct ids the product found is the one carrying the id |
| ProductPage.Lookup | src/pages/Product/Product.jsx:17 | the page's product carries the parsed id; text that parses to nothing finds nothing |
| ProductPage.LinkRoundTrip | src/pages/Product/Product.jsx:17 | a link built from a product's id leads back to that product |
| ProductPage.CatalogLinks | src/pages/Product/Product.jsx:17 | every shipped product is reachable from its link |
| ProductPage.Related | src/pages/Product/Product.jsx:20-22 | the first min(4, candidates) catalog products of the same category, never the product itself, in catalog order |
| ProductPage.RelatedAll | src/pages/Product/Product.jsx:20-22 | with at most four candidates all of them are shown |
| ProductPage.Status | src/pages/Product/Product.jsx:71 | in stock above 10, low stock from 1 to 10, out of stock otherwise or when the stock is missing |
| ProductPage.QuantityCap | src/pages/Product/Product.jsx:114 | the stock caps the quantity, a missing or zero stock capping at 10 |
| ProductPage.ChangeQuantity | src/pages/Product/Product.jsx:112-117 | a step is taken exactly when the result stays within [1, cap] |
| ProductPage.QuantityStaysInRange | src/pages/Product/Product.jsx:112-117 | whatever the clicks, the quantity never leaves [1, cap] |
| ProductPage.ShownPrice | src/pages/Product/Product.jsx:278 | the list price without a discount; within [0, list price] for a discount of 0..100; below the list price exactly when discounted |
| ProductPage.ShownPriceExamples | src/pages/Product/Product.jsx:278 | products 3, 7 and 1 of the catalog show 207, 112 and 180 |
| ProductPage.DiscountOf | src/pages/Product/Product.jsx:75 | the product's discount when it has one, otherwise 0 |
| ProductPage.Reset | src/pages/Product/Product.jsx:34-42 | showing a product selects its first image, no size and one unit |
| ProductPage.SizeMissing | src/pages/Product/Product.jsx:121-124 | a choice is refused for a missing size exactly when the product has sizes and none (or the falsy 0) is picked |
| ProductPage.AddFromPage | src/pages/Product/Product.jsx:139-153 | refused while out of stock or when a size is needed; otherwise `addToCart` gets the choice inside the record and its default quantity |
| ProductPage.AddFromPageLosesQuantity | src/pages/Product/Product.jsx:148-153 | as written, whatever quantity was picked, the product's units in the cart rise by exactly one |
| ProductPage.AddThreeGivesOne | src/pages/Product/Product.jsx:148-153 | three units of product 1 in size 9 on an empty cart give one line of quantity 1 |
| ProductPage.AddFromPageIntended | src/pages/Product/Product.jsx:139-153 | the same guards, with the picked quantity passed as the call's quantity |
| ProductPage.AddFromPageIntendedKeepsQuantity | src/pages/Product/Product.jsx:148-153 | with the intended call, the product's units rise by the quantity picked |
| ProductPage.WhatsApp | src/pages/Product/Product.jsx:120-136 | the same guards; the message names the product, the size, the quantity and the unit price |
| ProductPage.SameGuards | src/pages/Product/Product.jsx:120-143 | add-to-cart and WhatsApp are refused for exactly the same choices |
| ProductCard.CardRating | src/components/products/ProductCard/ProductCard.jsx:18 | a missing or zero rating shows as 4.5 |
| ProductCard.CardStock | src/components/products/ProductCard/ProductCard.jsx:20 | as written, a missing stock and a stock of 0 both show as 10, so the shown stock is never 0 |
| ProductCard.CardDiscount | src/components/products/ProductCard/ProductCard.jsx:15 | the product's discount when it has one, otherwise 0 |
| ProductCard.CardOnSale | src/components/products/ProductCard/ProductCard.jsx:17 | on sale exactly when the product has a positive discount |
| ProductCard.AddDisabled | src/components/products/ProductCard/ProductCard.jsx:154 | as written the add button is never disabled, whatever the product |
| ProductCard.SoldOutStillEnabled | src/components/products/ProductCard/ProductCard.jsx:154 | as written, a sold-out product's add button is enabled |
| ProductCard.SoldOutOnCatalog | src/components/products/ProductCard/ProductCard.jsx:154 | product 11 of the catalog is sold out, yet its card offers the add button and no low-stock warning |
| ProductCard.CardStockIntended | src/components/products/ProductCard/ProductCard.jsx:20 | only a missing stock defaults to 10 |
| ProductCard.IntendedDisablesSoldOut | src/components/products/ProductCard/ProductCard.jsx:154 | with the intended default the button is disabled exactly for sold-out products, product 11 among them |
| ProductCard.LowStockBadgeIff | src/components/products/ProductCard/ProductCard.jsx:89 | the "few left" badge shows exactly for a stock of 1 to 5 |
| ProductCard.LowStockBadge | src/components/products/ProductCard/ProductCard.jsx:89 | the badge shows exactly for a recorded stock of 1 to 5 |
| ProductCard.NextImage | src/components/products/ProductCard/ProductCard.jsx:48-54 | with several images the index stays within them; with one image or none it does not change |
| ProductCard.ClicksCycle | src/components/products/ProductCard/ProductCard.jsx:48-54 | after k clicks the index is (start + k) mod count, so count clicks come back to the start |
| ProductCard.Stars | src/components/products/ProductCard/ProductCard.jsx:56-63 | five stars, star i filled exactly when i < floor(rating) |
| ProductCard.FilledStars | src/components/products/ProductCard/ProductCard.jsx:56-63 | the number of filled stars is floor(rating) clamped to 0..5 |
| ProductCard.StarsExamples | src/components/products/ProductCard/ProductCard.jsx:18 | a rating of 4.7, and a missing rating, fill four stars |
| ProductCard.CardAdd | src/components/products/ProductCard/ProductCard.jsx:23-33 | the card adds the product with no size, as one new unit when it is not in the cart yet |
| ProductCard.CardAddOneUnit | src/components/products/ProductCard/ProductCard.jsx:30 | each click adds exactly one unit and keeps one line per id |
| Register.Strength | src/pages/Auth/Register.jsx:23-31 | the strength is in 0..4; it is 0 exactly when no condition holds and 4 exactly when at least four hold |
| Register.Score | src/pages/Auth/Register.jsx:23-31 | at most five conditions hold, a password of ten or more characters meets at least two, and none holds exactly for a short password with no letter pair, digit or symbol |
| Register.StrengthMonotone | src/pages/Auth/Register.jsx:25-29 | typing one more character never lowers the strength |
| Register.StrengthExtend | src/pages/Auth/Register.jsx:25-29 | extending the password by any text never lowers the strength |
| Register.StrengthExamples | src/pages/Auth/Register.jsx:23-31 | sample passwords score 1, 3 and 4, and one meeting all five conditions is capped at 4 |
| Register.StrengthLabel | src/pages/Auth/Register.jsx:100-103 | the label lookup is always in bounds: "Muy fuerte" exactly at the cap, "Muy débil" exactly at 0 |
| Register.StrengthColor | src/pages/Auth/Register.jsx:105-108 | the colour lookup is always in bounds: red exactly at 0, green exactly from 3 |
| Register.BarWidth | src/pages/Auth/Register.jsx:249 | the bar width is within 0..100% and full exactly at the cap |
| Register.EditText | src/pages/Auth/Register.jsx:33-44 | the edited field takes the typed value, every other field and the terms flag keep theirs, the error clears, and only a password edit recomputes the strength |
| Register.SetTerms | src/pages/Auth/Register.jsx:33-44 | the checkbox sets only the terms flag and clears the error |
| Register.StrengthTracksPreserved | src/pages/Auth/Register.jsx:19-44 | the strength shown is always the strength of the password typed |
| Register.Validate | src/pages/Auth/Register.jsx:52-90 | each failure is reported exactly when every earlier check passes (required fields, email pattern, length 6, confirmation, terms); a passing form yields the four account fields |
| Register.FirstFailure | src/pages/Auth/Register.jsx:52-83 | reports no error exactly when every check passes, and otherwise the error of a failing check all of whose predecessors pass |
| Register.ValidateIsFirstFailure | src/pages/Auth/Register.jsx:52-83 | the handler reports exactly the first failing check of the list, and succeeds exactly when none fails |
| Register.RegisteredFacts | src/pages/Auth/Register.jsx:60-71 | a registered password is never "very weak", and a registered address passes the checkout's email check |
| Register.Submit | src/pages/Auth/Register.jsx:46-98 | `register` is called exactly for a valid form, without the confirmation and terms flag; home is reached only when it succeeds, otherwise its error is shown |
| Register.MismatchBeforeTerms | src/pages/Auth/Register.jsx:73-83 | a mismatch is reported before the unticked terms |
| Login.RedirectTarget | src/pages/Auth/Login.jsx:16 | never empty: the recorded non-empty path, else `/` |
| Login.Edit | src/pages/Auth/Login.jsx:18-21 | the edited field takes the typed value, the other field keeps its own, and the error clears |
| Login.Validate | src/pages/Auth/Login.jsx:29-41 | an empty field is reported first, then a malformed address; only a form passing both goes on |
| Login.IncompleteFirst | src/pages/Auth/Login.jsx:29-41 | an empty password is reported as missing whatever the address looks like; a valid address with a password gets through |
| Login.Submit | src/pages/Auth/Login.jsx:23-55 | `login` is called exactly when both checks pass; the page navigates to the redirect target exactly on success; otherwise the service's error is shown |
| Login.RememberMeOnlyOnSuccess | src/pages/Auth/Login.jsx:45-49 | the `rememberMe` key changes only to "true", and only after a successful sign-in with the box ticked; no other key changes |
| Login.RedirectExamples | src/pages/Auth/Login.jsx:16-50 | a visitor sent from the checkout returns there; one with no origin lands on `/`; a failed sign-in navigates nowhere |
| Header.TotalPriceIsCartTotal | src/components/shared/Header/Header.jsx:13 | the header's price equals the cart context's total |
| Header.TotalItemsAdd | src/components/shared/Header/Header.jsx:12 | with one line per id, every add of q units raises the header count by exactly q |
| Header.BadgeIffNonEmpty | src/components/shared/Header/Header.jsx:100-106 | when every line holds a unit, the count is at least the number of lines and the badge shows exactly for a non-empty cart |
| Header.ClearedHeader | src/components/shared/Header/Header.jsx:12-13 | a cleared cart shows neither badge nor price |
| Header.ActiveLinks | src/components/shared/Header/Header.jsx:31 | at most one of home and catalog is active, and a sub-path activates neither |
| Header.TotalItems | src/components/shared/Header/Header.jsx:12 | with non-negative quantities the count is non-negative, and with a unit per line it is at least the number of lines |
| Header.TotalPrice | src/components/shared/Header/Header.jsx:13 | the empty cart shows 0 and a single line its price × quantity |
| Header.ShowsBadge | src/components/shared/Header/Header.jsx:100 | no badge for the empty cart, and with a unit per line a badge exactly for a non-empty cart |
| Header.IsActive | src/components/shared/Header/Header.jsx:31 | a link is active exactly when the pathname equals its path code unit for code unit |
| Products.CatalogShape | src/data/products.js:1-234 | twelve products with ids 1..12, discounts in {0, 5, 10, 15, 20}, non-empty images, sizes and colors, non-negative stock with product 11 sold out, dates everywhere and no sale flag |
| Text.Lower | src/components/shared/Cart/Cart.jsx:27 | same length, every ASCII capital lowered, every other character kept, and no capital left |
| Text.LooseEmailCorrect | src/pages/Checkout/Checkout.jsx:75 | the checkout email test agrees with the unanchored pattern `\S+@\S+\.\S+` |
| Text.StrictEmailFacts | src/pages/Auth/Register.jsx:60 | an address the sign-in pattern accepts has exactly one `@` and passes the checkout's looser test too |
| Text.StripSpaces | src/pages/Checkout/Checkout.jsx:78 | the result has no white space, and every other character of the input still occurs in it |
| Text.StripSpacesAppend | src/pages/Checkout/Checkout.jsx:78 | stripping two joined texts is stripping each and joining, so kept characters keep their order and count |
| Text.StripSpacesOne | src/pages/Checkout/Checkout.jsx:78 | one character is dropped exactly when it is white space |
| Text.NoSpaceStripped | src/pages/Checkout/Checkout.jsx:78 | a text without white space is left unchanged |
| Text.TenDigits | src/pages/Checkout/Checkout.jsx:78 | a phone number that passes holds no white space |
| Text.ExpiryFormat | src/pages/Checkout/Checkout.jsx:94 | an expiry that passes holds no white space |
| Text.LooseEmail | src/pages/Checkout/Checkout.jsx:75 | an address that passes has at least five characters and an `@` |
| Text.StrictEmail | src/pages/Auth/Register.jsx:60 | an address that passes has at least five characters and an `@` |
| Text.ParseInt | src/pages/Product/Product.jsx:17 | blank text is NaN, and a number is read only from text that holds a decimal digit |
| Text.ContainsFacts | src/pages/Catalog/Catalog.jsx:43-46 | the empty query occurs in every text, and a text occurs in any text built around it |
| Text.ParseIntDigits | src/pages/Product/Product.jsx:17 | a text that starts with a decimal digit and has no `0x` prefix parses as the value of its leading digit run |
| Text.ParseDecimal | src/pages/Product/Product.jsx:17 | `parseInt` reads any non-negative integer back from its decimal text |

## Left out

- Rendering (JSX, CSS, SVG), routing and composition are not modelled. `App.jsx`, `main.jsx`, `ProtectedRoute.jsx`, the home page and the footer are presentational.
- The product and auth services are not modelled: they are `fetch` and storage wrappers. The replies of `login` and `register` are parameters (`answer`) of `Login.Submit` and `Register.Submit`.
- Timers, spinners and the `isAdding`, `isProcessing` and `isLoading` flags are left out. Each simulated delay is one step of the model.
- `navigate`, `window.scrollTo`, `alert` and `window.open` are left out. The WhatsApp URL and `encodeURIComponent` are left out too; the message is the `Inquiry` record.
- The checkout page's redirect to the catalog when the cart is empty is a navigation effect and is left out.
- The checkout's order placement is one step: the commented-out order call and the confirmation page are left out.
- `updateQuantity` is left out: the cart context never provides it, so the drawer's request would fail. `CartDrawer.QuantityChange` stops at the request it would make.
- Number formatting (`toLocaleString`) is left out.
- `localeCompare` is the caller's `collate` relation. `Date` parsing is replaced by day numbers.
- Floating point is not modelled. Amounts are exact reals, and rounding differences (for example 0.15 × a price) are not reproduced.
- JSON (de)serialisation of the cart is abstract. The slot holds a cart value or raw text. A stored empty array is assumed to be held as the empty cart value; raw text, `"[]"` included, is treated as unparsable, whereas `JSON.parse` would accept `"[]"`.
- Strings are sequences of Unicode scalar values. JavaScript lengths count UTF-16 code units, so a character outside the Basic Multilingual Plane counts once here and twice in the browser. This affects the password and card-number lengths. It also affects the brand order: `CatalogPage.LexLe` compares scalar values, while `.sort()` compares UTF-16 code units, and the two orders differ only for characters above U+FFFF.
- `toLowerCase` lowers ASCII letters only. The coupon comparison is unaffected: no other character lowers into a letter of `bienvenido15`.
- `parseInt` works on unbounded integers. Digits beyond double precision are not rounded.
- The catalog's `handleFilterChange` (search text, price range and sale flag) and the checkout's form update in `handleInputChange` are not modelled as operations of their own. Their effect is a record update of the `Filters` or `Form` datatype. `handleFilterChange` clears no error, and the checkout's error clearing is `Checkout.ClearError`. The sign-in page's `handleChange` is `Login.Edit`.
- Page state with no logic is left out: tabs, wishlist flags, quick view, the image picked on the product page after the reset, the header's scroll and cart-animation state, and the password visibility toggles.
- Checkout.ContactErrors: states which fields carry an error, not the text of each message.
- Checkout.CardErrors: states which fields carry an error, not the text of each message.
- CartContext.Total: its own contract states only that the empty cart totals 0. The sum over the lines is stated by `CartContext.TotalOne` with `CartContext.TotalAppend`.
- Text.ParseInt: its own contract states only when the result is NaN. The value read is stated through `Text.ParseDecimal`, `Text.ParseIntDigits` and `ProductPage.Lookup`.
- CatalogPage.NameOrder: holds only for a total collation; `localeCompare` is one, but it is not modelled.

## Findings

| source | as written | input that shows it | evidently intended | confidence | as-written member | corrected member |
|---|---|---|---|---|---|---|
| src/pages/Product/Product.jsx:148-153 | the chosen quantity is spread into the record, but `addToCart` takes its quantity from its second argument, which defaults to 1 | product 1, size 9, quantity 3, empty cart: one line of quantity 1 | pass the quantity as the second argument | high (not executed) | ProductPage.AddFromPageLosesQuantity | ProductPage.AddFromPageIntendedKeepsQuantity |
| src/components/products/ProductCard/ProductCard.jsx:20 | `product.stock \|\| 10` turns a stock of 0 into 10, so the `stock === 0` checks at lines 154 and 293 never fire | product 11 of the catalog (stock 0): add button enabled, no "sold out" label | `product.stock ?? 10` | high (not executed) | ProductCard.SoldOutStillEnabled | ProductCard.IntendedDisablesSoldOut |
| src/pages/Catalog/Catalog.jsx:10 | the initial price range [0, 500000] differs from the catalog's [min, max], so the active-filter counter shows 1 before any filter is touched | the shipped catalog: range [70, 230], counter 1 on first load | start from the catalog's own range, as the reset does | medium (not executed) | CatalogPage.InitialCount | CatalogPage.IntendedInitialCount |
