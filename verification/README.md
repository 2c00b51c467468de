# Storefront cart and catalog, modelled in Dafny

This project models the logic of a small Next.js storefront. There are three pieces:

- **The rich cart panel** (`app/components/CartModal.tsx`). It changes a line's quantity, with a guard that ignores requests below 1. It removes a line by product id, clears the cart, sums `price * quantity` into a subtotal, and checks out, which reports the subtotal and then clears. Every mutation writes the new list through to the browser storage slot `"cart"`. Each time the panel opens or closes, it reloads the list from that slot, but only when the slot holds something.
- **The older cart panel** (`app/components/Cart.tsx`). It only removes and clears. Its operations change the in-memory list alone. A separate effect mirrors the list into the slot after each change, and mounting the panel loads the slot first.
- **The catalog endpoint** (`app/api/products/route.ts`). It holds a static table of three products. `GET` returns one product when the `id` query parameter matches, a 404 `{error: "Product not found"}` when it does not, and the whole table when `id` is absent or empty. `OPTIONS` answers 204 with `Allow: GET`.

Modules:

- `Wrappers` (`wrappers.dfy`): `Option`.
- `CartItems` (`cart_items.dfy`): the line-item type, the cart invariants, the array operations the panels use, and the lemmas about them. `SetQuantity` (the `map`) and `Subtotal`/`ReduceSubtotal` (the `reduce`) serve the rich panel only; `RemoveId` (the `filter`) serves both.
- `CartModal` (`cart_modal.dfy`): the rich panel as a state `Panel(items, slot)`.
- `Cart` (`cart.dfy`): the older panel as a state `CartState(items, slot)`.
- `ProductsRoute` (`products_route.dfy`): the catalog table and both handlers.

The two panels are kept as independent operation sets over the same line-item type. They are not merged.

The storage slot is an ordinary field of each state. It has type `Option<seq<CartItem>>`, where `None` means the key is absent. It holds the cart in decoded form, so the JSON encoding is abstracted away. The property that matters throughout is `Synced`: the slot holds exactly the in-memory cart.

Where the code differs from what a storefront cart is usually expected to do, the model follows the code:

- No add-to-cart or quantity-merge operation exists in these files, so none is modelled.
- `updateQuantity` writes the slot even when no line carries the id.
- Loading a malformed stored cart throws (`JSON.parse` is not guarded), rather than degrading to an empty cart. Only stored values that decode to a list of line items are modelled.

## Model

| member | source | states |
|---|---|---|
| CartItems.SetQuantity | app/components/CartModal.tsx:26-28 | the result has the same length, and every line keeps its id, name and price; lines with the id get the new quantity; all other lines are unchanged |
| CartItems.RemoveId | app/components/CartModal.tsx:34 | a line is in the result exactly when it was in the cart and carries another id; the result is never longer |
| CartItems.RemoveIdLeavesNoLine | app/components/CartModal.tsx:34 | no line with the removed id remains |
| CartItems.RemoveIdMultiset | app/components/CartModal.tsx:34 | every line with another id is kept as many times as it occurred; lines with the removed id are dropped |
| CartItems.RemoveIdIsSubsequence | app/components/CartModal.tsx:34 | the retained lines keep their relative order (the result is a subsequence of the cart) |
| CartItems.RemoveIdAbsent | app/components/Cart.tsx:28 | filtering out an id the cart does not hold yields an equal cart |
| CartItems.Subtotal | app/components/CartModal.tsx:44 | the subtotal of the empty cart is 0, and it is non-negative when prices are non-negative and quantities are at least 1 |
| CartItems.ReduceSubtotal | app/components/CartModal.tsx:44 | the left-to-right fold starting at 0 computes the recursive sum of price times quantity |
| CartItems.SubtotalAppend | app/components/CartModal.tsx:44 | the subtotal of a concatenation is the sum of the subtotals |
| CartItems.SubtotalAfterSetQuantity | app/components/CartModal.tsx:26-28 | with one line per id, the quantity update changes the subtotal by exactly the change in that line's total |
| CartItems.SubtotalAfterRemoveId | app/components/CartModal.tsx:34 | with one line per id, removing an id lowers the subtotal by exactly that line's total |
| CartItems.SetQuantityKeepsWellFormed | app/components/CartModal.tsx:25-28 | a quantity update of at least 1 keeps one line per id, all quantities at least 1, and prices non-negative |
| CartItems.SetQuantityAbsent | app/components/CartModal.tsx:26-28 | updating an id the cart does not hold yields an equal cart |
| CartItems.RemoveIdKeepsUniqueIds | app/components/Cart.tsx:28 | filtering by id keeps at most one line per id |
| CartItems.RemoveIdKeepsWellFormed | app/components/Cart.tsx:28 | filtering by id keeps every invariant of the lines that remain |
| CartModal.Init | app/components/CartModal.tsx:15 | the panel starts with an empty list and the slot untouched |
| CartModal.Load | app/components/CartModal.tsx:17-22 | a present slot replaces the list, leaving the panel synced; an absent slot changes nothing |
| CartModal.UpdateQuantity | app/components/CartModal.tsx:24-31 | below 1, the panel, list and slot alike, is unchanged; otherwise the panel is synced, and the id's lines get the new quantity while ids, names, prices, length and order are kept |
| CartModal.RemoveFromCart | app/components/CartModal.tsx:33-37 | the panel is synced and the id is gone; every line with another id survives as many times as it occurred, in its relative order; an absent id leaves the list equal |
| CartModal.ClearCart | app/components/CartModal.tsx:39-42 | the list is empty and the slot holds the empty list |
| CartModal.Checkout | app/components/CartModal.tsx:46-51 | the reported total is the subtotal of the cart before checkout; afterwards the cart and slot are empty; the total is non-negative on a well-formed cart |
| CartModal.StepKeepsInvariant | app/components/CartModal.tsx:17-51 | every panel action keeps a synced, well-formed panel synced and well-formed |
| CartModal.RunKeepsInvariant | app/components/CartModal.tsx:17-51 | any sequence of panel actions keeps the slot equal to the cart, and keeps the cart well-formed |
| CartModal.OpenEstablishesInvariant | app/components/CartModal.tsx:17-22 | opening over a well-formed stored cart yields exactly that cart, synced |
| CartModal.StepKeepsReachable | app/components/CartModal.tsx:17-51 | every action keeps the panel either synced, or empty with the slot still absent, and keeps the cart well-formed |
| CartModal.RunFromMount | app/components/CartModal.tsx:15-51 | from mount over an absent slot or a well-formed stored cart, any sequence of actions keeps the cart well-formed and the slot either equal to the cart or, before any successful mutation, absent with the cart empty |
| CartModal.FirstVisitWritesNothing | app/components/CartModal.tsx:15-22 | on a first visit with nothing stored, mounting (and any later open or close) leaves the list empty and the slot absent, so the panel is not yet synced |
| CartModal.ExternalWrite | app/components/Cart.tsx:24 | another writer of the `"cart"` key replaces the slot, or removes it, and leaves the panel's list as it was |
| CartModal.ToggleIdleWithoutExternalWrite | app/components/CartModal.tsx:17-22 | while only the panel itself writes the slot, opening or closing a reachable panel changes nothing |
| CartModal.ToggleAfterExternalWrite | app/components/CartModal.tsx:17-22 | opening or closing after another writer stored a cart installs exactly that cart, synced; after the key was removed, the list is kept and the slot stays absent |
| CartModal.ExternalWriteThenRun | app/components/CartModal.tsx:17-51 | after another writer stores a well-formed cart, opening or closing and then any sequence of panel actions keeps the slot equal to the cart and the cart well-formed, from any prior state |
| CartModal.UpdateAbsentId | app/components/CartModal.tsx:26-30 | a valid update of an absent id leaves the list equal but still writes it to the slot |
| CartModal.UpdateQuantitySubtotal | app/components/CartModal.tsx:24-31 | a successful update moves the subtotal by the change in the updated line's total only |
| CartModal.RemoveFromCartSubtotal | app/components/CartModal.tsx:33-37 | removing a line lowers the subtotal by that line's total |
| CartModal.RemoveTwice | app/components/CartModal.tsx:34 | removing the same id twice equals removing it once |
| CartModal.SubtotalExample | app/components/CartModal.tsx:44 | lines 10 x 2 and 5 x 3 give a subtotal of 35 |
| Cart.Save | app/components/Cart.tsx:22-25 | the save effect leaves the list as it is and makes the slot hold it |
| Cart.Mount | app/components/Cart.tsx:12-25 | after mount the panel is synced and holds the stored cart, or the empty cart when nothing was stored |
| Cart.RemoveFromCart | app/components/Cart.tsx:27-29 | the state is synced and the id is gone; every line with another id survives as many times as it occurred, in its relative order; an absent id leaves the list equal |
| Cart.ClearCart | app/components/Cart.tsx:31-33 | the list is empty and synced, whatever it held before |
| Cart.RunFromMount | app/components/Cart.tsx:12-33 | from mount, after any sequence of removals and clears (none included), the slot holds the current cart, and the cart stays well-formed when the stored one was |
| Cart.RunSyncsAndShrinks | app/components/Cart.tsx:22-33 | after any non-empty sequence of actions the slot holds the current cart, and every line was already in the starting cart |
| Cart.RunKeepsWellFormed | app/components/Cart.tsx:27-33 | removals and clears keep one line per id, all quantities at least 1, and prices non-negative |
| Cart.ExternalWrite | app/components/CartModal.tsx:30 | another writer of the `"cart"` key replaces the slot and leaves this panel's list as it was |
| Cart.ExternalWriteOverwritten | app/components/Cart.tsx:15-33 | the load runs only on mount, so after another writer's change the next removal or clear yields the same state as without it, and the slot again holds this panel's cart |
| Cart.RemoveTwice | app/components/Cart.tsx:28 | removing the same id twice equals removing it once |
| ProductsRoute.Find | app/api/products/route.ts:15 | nothing is found exactly when no product has the id; otherwise the result is the first product in table order with that id |
| ProductsRoute.Get | app/api/products/route.ts:10-25 | a missing or empty id returns 200 with the full table in order; a matching id returns 200 with a catalog product carrying that id; an unmatched id returns 404 with "Product not found" |
| ProductsRoute.Options | app/api/products/route.ts:28-35 | status 204, no body, and `Allow: GET` |
| ProductsRoute.CatalogIdsDistinct | app/api/products/route.ts:3-7 | the catalog's ids are pairwise distinct |
| ProductsRoute.FindDistinct | app/api/products/route.ts:15 | in a table with distinct ids, looking up a present id returns exactly the product carrying it |
| ProductsRoute.GetEveryProduct | app/api/products/route.ts:3-17 | asking for any catalog product by its id returns 200 with that very product |
| ProductsRoute.GetExamples | app/api/products/route.ts:3-24 | id "2" returns the Phone at 800; id "99" returns the 404 payload; an empty id behaves like no id |

## Left out

- Rendering (JSX), and React's scheduling of `useState` updates and effects. State is a plain value, and each effect is applied as a step at the point where it takes effect.
- Browser `localStorage` and `JSON.stringify`/`JSON.parse`. The slot holds the decoded cart. A stored value that fails to parse makes the source throw, and that path is not modelled.
- Floating-point prices and quantities. The source's `number` is modelled as an unbounded `int`. Non-integer quantities and rounding are not represented.
- `subtotal.toFixed(2)`, `alert` and `onClose` in checkout. They are formatting and UI side effects. `Checkout` reports the integer total instead.
- `NextResponse`, URL and query-string parsing, and the `Content-Type` header that `NextResponse.json` adds. `Get` takes the `id` parameter as an `Option<string>`. A response records only its status, its body and the `Allow` header the handler sets.
- `app/page.tsx` and `app/products/[id]/page.tsx`. They fetch over the network and render.
- `app/components/ProductCard.tsx`. It is presentation only.
- An add-to-cart or quantity-merge operation. None exists in the modelled files.
- Other writers of the `"cart"` key interleaved with a panel's own actions. The older panel's save effect (`app/components/Cart.tsx:24`) and add-to-cart code outside these files also write the key. `Run` in each module applies only that panel's own actions, so there each slot changes only through its panel, and opening or closing a reachable `CartModal.Panel` changes nothing (`CartModal.ToggleIdleWithoutExternalWrite`). A write by another party is modelled separately, as `ExternalWrite` in each module, together with its effect on the next load or save.
- CartItems.SubtotalAfterSetQuantity: states the change as new line total minus old line total rather than as `price * (q - old quantity)`, for the same reason as the next line.
- CartModal.UpdateQuantitySubtotal: states the change as new line total minus old line total rather than as `price * (q - old quantity)`. This avoids nonlinear arithmetic in the proof, and the two are equal by distributivity.
