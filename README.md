# Mi Barrunto: order lifecycle model

A Dafny model of the state handling of the Mi Barrunto water shop. The shop
is a single-page app: customers fill a cart and check out, the kitchen works
through the comandas (kitchen tickets) and marks them ready or canceled, and
the cash register (caja) lists the sales. The admin also edits the product
list and deletes promotions.

There are two versions of the app, and each is modelled on its own terms:

- `app.js` records a sale lazily. Checkout files a pending comanda, with the
  cart's lines and total frozen into it, and prints a receipt. The sale enters
  the cash register only when the comanda is marked ready. It is copied from
  the comanda under a newly minted `TX-` id. This version also has cancel, a
  status filter on the comandas tab and the product form.
- `public/app.js` records a sale eagerly. Checkout puts the sale at the front
  of the cash register and appends a comanda that lists names and quantities
  only. Marking ready changes only the status.

Modules:

- `Js` (`js.dfy`): the JavaScript array behaviour the handlers rely on. This
  is `find` (as `Option`) and `splice(index, 1)`, including negative and
  out-of-range indices.
- `Cart` (`cart.dfy`): cart lines, the badge count, the total and the three
  cart operations (add, change quantity, remove). Both versions share this
  code: in `public/app.js` it sits at 214-217, 225-228, 245-247, 282-302 and
  305-309, and is the same as `app.js`'s.
- `Orders` (`orders.dfy`): customer, comanda status, id prefixes and the
  receipt built at checkout.
- `Catalog` (`catalog.dfy`): deleting promotions and products, and saving the
  product form.
- `Shop` (`shop.dfy`): the `app.js` session, a class whose fields are the
  app's `state`, together with the comanda and sale functions it is proved
  against.
- `PublicShop` (`public_shop.dfy`): the `public/app.js` session.
- `Carousel` (`carousel.dfy`): the gallery and the two sliders.

Money is a whole number of céntimos. Ids are the fixed prefix followed by a
stamp passed in by the caller. Dates are strings passed in. The answer to a
`confirm()` prompt is a boolean parameter.

The intended lifecycle says that marking ready and canceling act only on
pending comandas. The code of both versions checks no status: the handlers
set the status of whatever comanda has the id. In `app.js` this means that
marking a comanda ready twice records two sales, and canceling a ready
comanda makes it canceled while its sale stays in the cash register. The
model follows the code (`Shop.SetStatusLastWins`,
`Shop.RepeatReadyRecordsAgain`, `Shop.CancelOverridesReady`). Only the
buttons of the comandas tab keep to the intended lifecycle
(`Shop.ActionWithdrawsButtons`). The intended lifecycle also expects a
non-empty cart at checkout. `finalizeOrder` does not check this; only
`openCheckout` does. The model's `FinalizeOrder` therefore has no such
precondition.

## Model

| member | source | states |
|---|---|---|
| Js.Find | app.js:837 | `find(x => key(x) === k)` gives the first element with that key, and nothing exactly when no element has it; used for cart lines by code and comandas by id |
| Js.UpdateFoundEffect | app.js:837-839 | updating the element found replaces exactly that element by `f` of itself, every other element keeps its value and place, an absent key changes nothing, and an update that keeps the key finds the same element afterwards |
| Js.SpliceOne | app.js:397 | `splice(index, 1)` removes at most one element and adds none; the length drops by one exactly when the array is non-empty and the index is before its end |
| Js.SpliceOneAt | app.js:389 | at an index inside the array exactly that element goes: earlier ones keep their place, later ones move down by one, and the multiset loses only that element |
| Js.SpliceOneOverwritten | app.js:387-389 | setting the quantity of a line and then splicing it out gives the same cart as splicing the original line |
| Js.SpliceOneFromEnd | app.js:693 | a negative index `-m` removes the m-th element from the end |
| Js.SpliceOnePastEnd | app.js:693 | an index at or past the end removes nothing |
| Cart.Count | app.js:325 | the badge count, a left fold of the quantities, is never negative when no quantity is |
| Cart.Total | app.js:344-346 | the cart total, a left fold of `price * qty` (also computed at 411), is never negative when no price or quantity is |
| Cart.AddLine | app.js:313-316 | after an add the item's code is in the cart; the cart grows by one line exactly when the code was not there |
| Cart.ChangeQty | app.js:381-390 | changing a quantity never adds a line and never brings in a product code the cart did not have |
| Cart.IndexOfCode | app.js:314 | `find` by code gives the first line with that code, and nothing exactly when no line has that code |
| Cart.SumsAppend | app.js:325 | the badge count and the total of two carts put together are the sums of their parts |
| Cart.SumsUpdate | app.js:344-347 | replacing one line changes the count and the total by that line's difference |
| Cart.SumsSplice | app.js:344-347 | splicing out one line takes its units off the count and its amount off the total |
| Cart.CountAtLeastLines | app.js:324-327 | in a well-formed cart the badge shows at least as many units as there are lines |
| Cart.AddLineEffect | app.js:313-316 | add increments only the line with the item's code, or else appends a one-unit line; the cart stays well formed (every quantity at least 1, codes unique) |
| Cart.AddLineSums | app.js:313-316 | every add raises the count by one; the total rises by the stored price of the line that absorbed the unit, or by the item's price for a new line |
| Cart.AddTimesNew | app.js:313-316 | `n` adds of a product not in the cart append one line with quantity `n` |
| Cart.AddTimesFromEmpty | app.js:313-316 | from an empty cart, `n` adds of one product give a single line with quantity `n`, a count of `n` and a total of `n * price` |
| Cart.ChangeQtyKeepsWellFormed | app.js:381-393 | changing a quantity keeps every remaining quantity at least 1 and codes unique |
| Cart.ChangeQtyEffect | app.js:381-393 | an index with no line changes nothing; the line is spliced out exactly when its new quantity is at most zero, the other lines keeping their order; otherwise it keeps code, name and price with the new quantity, and every other line stays |
| Cart.ChangeQtySums | app.js:381-393 | changing a quantity moves the count by `delta` (or by minus the old quantity when the line goes) and the total by `price * delta` (or by minus the line's amount) |
| Cart.DecrementLastUnit | app.js:385-390 | minus on a one-unit line removes that product from the cart |
| Cart.SpliceKeepsWellFormed | app.js:395-401 | removing a line at any index keeps the cart well formed |
| Cart.RemoveLineEffect | app.js:395-401 | removing the line at an index takes off exactly its units and amount, and the other lines stay |
| Orders.CheckoutReceipt | app.js:415-421 | the receipt carries the cart's lines in cart order and a total equal to the sum over those lines, under a `TX-` id, for the given customer |
| Catalog.WithoutId | app.js:866-871 | the promotions kept are exactly those whose id differs, and no more than before |
| Catalog.WithoutIdConcat | app.js:868 | the filter works piecewise, so the kept promotions stay in their order |
| Catalog.WithoutIdAbsent | app.js:868 | deleting an id that no promotion has leaves the list as it is |
| Catalog.WithoutIdIdempotent | app.js:866-871 | deleting the same promotion twice is the same as deleting it once |
| Catalog.ImgOr | app.js:587 | a non-empty upload wins; otherwise the current picture is kept, so a product never loses a picture it had |
| Catalog.Upsert | app.js:581-626 | saving the form fails (the handler throws) exactly when the edit index addresses no product; a new product is appended with a `P-` code and the uploaded or default picture; an edit replaces only that product, keeping its code and, unless a picture is uploaded, its picture; the saved product carries the form's name, description, price and tiers |
| Catalog.DeleteTracked | app.js:691-696 | the corrected delete splices the menu exactly as the original does |
| Catalog.DeleteTrackedKeepsTarget | app.js:691-696 | with the corrected delete, the edit index still addresses the product being edited, and is cleared exactly when that product was deleted |
| Catalog.StaleEditOverwritesNeighbour | app.js:613-615 | with the delete as written, editing the second of three products, deleting the first and saving overwrites the third product under the third product's code |
| Shop.Snapshot | app.js:426 | the comanda's lines copy name, quantity and price from the cart's lines, one for one and in cart order |
| Shop.SnapshotTotal | app.js:426-427 | the total frozen into a comanda equals the sum over the comanda's own lines |
| Shop.SetStatus | app.js:837-839 | the list keeps its length, and the comanda found by id ends with the new status (also `cancelOrder`, 858-860) |
| Shop.SetStatusEffect | app.js:858-860 | the first comanda with that id gets the new status and keeps every other field; no other comanda changes; an unknown id changes nothing; the same comanda is found afterwards |
| Shop.SetStatusLastWins | app.js:836-864 | whatever the current status, the last status set wins |
| Shop.CancelOverridesReady | app.js:856-864 | canceling a comanda that is already ready makes it canceled |
| Shop.ActionWithdrawsButtons | app.js:812-813 | once a comanda is marked ready or canceled, the tab offers neither button on it again |
| Shop.ReadySale | app.js:840-849 | markReady yields one sale for a known id and none otherwise; the sale copies the comanda's items, total and customer under a `TX-` id |
| Shop.RepeatReadyRecordsAgain | app.js:836-854 | marking an already-ready comanda ready again yields the same sale again |
| Shop.ReadySaleTotal | app.js:842-847 | the sale reports the money of its own lines when the comanda does |
| Shop.WithStatus | app.js:785-787 | the filtered list holds exactly the comandas with that status |
| Shop.Filtered | app.js:782-787 | 'all' shows every comanda; a status shows exactly those with it |
| Shop.WithStatusConcat | app.js:786 | the filter keeps the comandas in the order they were filed |
| Shop.StatusViewsPartition | app.js:782-787 | every comanda appears under exactly one of the three status views |
| Shop.Session.constructor | app.js:2-13 | an empty cart, cash register and comanda queue, with no product being edited |
| Shop.Session.AddToCart | app.js:313-316 | the cart becomes `AddLine` of the old cart and stays well formed |
| Shop.Session.CartTotalShown | app.js:334-347 | an empty cart shows no total; otherwise the loop's sum is the cart's total |
| Shop.Session.UpdateItemQty | app.js:381-393 | the cart becomes `ChangeQty` of the old cart and stays well formed |
| Shop.Session.RemoveItem | app.js:395-401 | after a confirmed prompt the line at the index is spliced out, otherwise nothing changes; the cart stays well formed |
| Shop.Session.OpenCheckout | app.js:404-408 | the checkout form opens exactly when the cart is not empty |
| Shop.Session.FinalizeOrder | app.js:410-449 | a pending comanda with the cart's snapshot and total is appended; the receipt carries the cart and its total; the cash register is untouched; the cart empties |
| Shop.Session.MarkReady | app.js:836-854 | the comanda becomes 'listo' and its sale is put in front of the cash register; totals stay consistent with items |
| Shop.Session.CancelOrder | app.js:856-864 | after a confirmed prompt the comanda becomes 'cancelado'; the cash register is never touched |
| Shop.Session.DeletePromo | app.js:866-871 | after a confirmed prompt the promotions with that id go |
| Shop.Session.DeleteProduct | app.js:691-696 | after a confirmed prompt the product at the index is spliced out; the edit index is left as it was |
| Shop.Session.EditProduct | app.js:698-700 | the edit index is set to the given index whatever it addresses; line 700 stores it before the product's fields are read at 703, where an index with no product throws |
| Shop.Session.CancelEdit | app.js:747-748 | the edit index is cleared |
| Shop.Session.SaveProduct | app.js:581-626 | the menu becomes `Upsert` of the old menu and edit mode ends; when the edit index addresses no product, nothing changes |
| Shop.CheckoutScenario | app.js:410-449 | two adds of a 12.50 product give quantity 2 and total 25.00; checkout gives one pending comanda of 25.00, an empty cart and no sale |
| Shop.OrderLifecycle | app.js:836-864 | markReady on that comanda gives one sale of 25.00, a second markReady gives a second sale, and cancel then turns the comanda canceled with both sales kept |
| PublicShop.OrderItems | public/app.js:327 | the comanda lists each cart line's name and quantity, in cart order |
| PublicShop.OrderItemsUnits | public/app.js:327 | the comanda asks the kitchen for exactly the units the cart held |
| PublicShop.LinkedCheckout | public/app.js:333-334 | prepending the sale and appending its comanda keeps the k-th comanda paired with the k-th sale from the back |
| PublicShop.LinkedHasSale | public/app.js:316-334 | every comanda has its sale in the cash register, under the same id and customer |
| PublicShop.MarkedReady | public/app.js:588-590 | the list keeps its length, and the comanda found by id ends 'listo' |
| PublicShop.MarkedReadyEffect | public/app.js:587-593 | the first comanda with that id becomes 'listo' and keeps every other field; no other comanda changes; an unknown id changes nothing; doing it twice equals doing it once |
| PublicShop.ReadyWithdrawsButton | public/app.js:565 | once a comanda is marked ready the tab no longer offers its mark-ready button |
| PublicShop.LinkedMarkedReady | public/app.js:587-593 | marking ready keeps sales and comandas paired |
| PublicShop.Session.constructor | public/app.js:2-11 | empty cart, cash register and comanda queue |
| PublicShop.Session.FinalizeOrder | public/app.js:311-349 | the sale goes to the front of the cash register, a pending comanda listing the cart is appended, the cart empties; sales and comandas stay paired one to one |
| PublicShop.Session.MarkReady | public/app.js:587-593 | only the status changes, to 'listo'; the cash register is not touched |
| PublicShop.Session.DeletePromo | public/app.js:595-600 | after a confirmed prompt the promotions with that id go |
| PublicShop.Session.DeleteProduct | public/app.js:519-524 | after a confirmed prompt the product at the index is spliced out |
| PublicShop.CheckoutScenario | public/app.js:311-349 | two checkouts record their sales at once, newest first, and the first comanda lists the first cart by name and quantity |
| PublicShop.OrderLifecycle | public/app.js:587-593 | marking a comanda ready makes it 'listo' and records nothing more in the cash register |
| Carousel.Next | app.js:102 | the next slide is the following one, or the first after the last |
| Carousel.Prev | app.js:109 | the previous slide is the one before, or the last before the first |
| Carousel.NextPrevInverse | app.js:101-111 | next and previous undo each other |
| Carousel.NextN | app.js:101-104 | any number of next clicks stays on a slide that exists |
| Carousel.NextNSplit | app.js:101-104 | `a + b` clicks are `a` clicks followed by `b` |
| Carousel.NextNBelow | app.js:101-104 | short of the end, `m` clicks move `m` slides on |
| Carousel.NextNFullTurn | app.js:101-104 | as many next clicks as there are slides come back to the start |
| Carousel.Wrap | app.js:150-156 | `goToSlide` always lands on a slide that exists, and keeps an index that already is one |
| Carousel.WrapSteps | app.js:158-164 | the slider's clamping agrees with the gallery's modular next and previous |
| Carousel.ActiveFlags | app.js:141-148 | when the current index is a slide exactly one flag is on, at that index (one `true` in the multiset of flags); when it is not, no flag is on |
| Carousel.Gallery.constructor | app.js:86-88 | a gallery is set up only with at least one slide, and starts on the first |
| Carousel.Gallery.Counter | app.js:97 | the counter shows a position counted from one, never past the number of slides |
| Carousel.Gallery.Shift | app.js:93-94 | the track moves by whole slides, never right and never past the last slide |
| Carousel.Gallery.NextClick | app.js:101-104 | the index moves to the next slide and stays in range |
| Carousel.Gallery.PrevClick | app.js:108-111 | the index moves to the previous slide and stays in range |
| Carousel.Slider.constructor | app.js:126-128 | the slider is set up only with at least one slide, and starts on the first |
| Carousel.Slider.Active | app.js:141-148 | the current slide is active and no other is |
| Carousel.Slider.GoToSlide | app.js:150-156 | the current slide becomes the clamped index |
| Carousel.Slider.NextSlide | app.js:158-160 | the current slide becomes the next one |
| Carousel.Slider.PrevSlide | app.js:162-164 | the current slide becomes the previous one |
| Carousel.AutoSlider.constructor | public/app.js:78-79 | the slider is set up only with at least one slide, and starts on the first |
| Carousel.AutoSlider.Tick | public/app.js:81-84 | each tick moves to the next slide |

## Left out

- Rendering: the HTML built for the cart, the receipt, the comandas and the cash register, and every `alert`, is not modelled. The status colours are left out too. Only the values computed for display (count, total, filter, counter, active slide) are modelled.
- `localStorage` and `fetch`: saving and loading the menu and promotions happens outside the core. The duplicated `loadMenu` definitions are out for the same reason.
- `processImageFile` and the `await` before the product form reads its fields: the picture arrives as an optional string parameter. Any interleaving with other handlers while the upload is read is not modelled.
- The timers (`setInterval`, `resetTimer`) are not modelled; a tick is a method call.
- The clock: the `Date.now()` suffixes are stamp parameters and the `toISOString()` dates are a date parameter. `finalizeOrder` reads `Date.now()` twice (`app.js`:412 and 424, `public/app.js`:313 and 325); these are the separate parameters `txStamp` and `cmdStamp`. It also reads `new Date()` twice (`app.js`:418 and 429, `public/app.js`:320 and 329); one `now` stands for both, so a sale's date and its comanda's time are always equal here. `PublicShop.Matches` requires `c.time == t.date`, which holds only because of that merge.
- Floating point: prices are whole céntimos, so `parseFloat` rounding and `toFixed(2)` formatting are not modelled.
- Aliasing: in `app.js` a comanda's sale shares the comanda's items array, and the receipt shares the cart's line objects. In `public/app.js` the sale recorded at checkout (318) shares the cart's line objects. Values are copied in the model. No code path mutates those objects afterwards, because the cart is replaced by a new empty array at checkout.
- The parsing of the tier fields of the product form is not modelled. The form arrives already parsed.
- Admin login, reservations, reviews, the promotion creation form and the public product form (`public/app.js`:459-468) are not part of this model.
- PublicShop.Session: the cart handlers of `public/app.js` are not repeated on this class, because they are the same code as `app.js`'s and are modelled once by `Shop.Session` and `Cart`.
- PublicShop.OrderLifecycle: sets the cart field directly instead of going through the cart handlers, which this class does not repeat.

## Findings

| source | as written | input that shows it | evidently intended | confidence | as-written member | corrected member |
|---|---|---|---|---|---|---|
| app.js:691-696 | `deleteProduct` splices the menu but leaves `editingProductIndex` as it was, so a later save of the product form (613-615) writes to whatever product now sits at that index | menu `[A, B, C]`; edit product 1 (B); delete product 0 (A); save the form with a new name | the edit index follows the product being edited: cleared when that product is deleted, moved down by one when an earlier product is deleted | not executed | Catalog.StaleEditOverwritesNeighbour | Catalog.DeleteTrackedKeepsTarget |
