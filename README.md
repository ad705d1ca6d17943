# Restaurant dashboard: order cart, order workflow and inventory entry rules

This project models, in Dafny, the client-side logic of two screens of a
restaurant operations dashboard (menu, orders, inventory over a remote
relational backend):

- **Order management** (`src/components/OrderManagement.jsx`). This covers the
  cart of the "Create New Order" form:
  - a list of lines keyed by menu id, with insert-or-increment, a quantity
    update clamped at 1, removal by id, and the running total;
  - submission, which refuses an empty cart and otherwise writes one order row
    in status `pending` and one order item per cart line;
  - the status workflow the order cards offer: pending → preparing →
    completed, and pending → cancelled. Only "completed" stamps
    `completed_at`.
- **Inventory management** (`src/components/InventoryManagement.jsx`). This covers:
  - the three-way stock badge;
  - the category rules that decide whether a container type is asked for
    and whether mass wording is used;
  - the validation and mass-unit normalisation `addStock` performs before it
    inserts a batch;
  - the merge of stock levels with ingredient rows;
  - the grouping of stock cards by category, with an "Uncategorized" default;
  - the fixed display order of category sections.

Stock deduction, the `current_stock_levels` aggregation and the
`stock_transactions` ledger are not in the client code: the inventory screen
only reads the `current_stock_levels` view and the `stock_transactions`
table, and `submitOrder` inserts the order and its lines without deducting
any stock. The model follows the code and leaves those parts out.

Files:

- `common.dfy` (module `Common`): `Option` (for `undefined`/`null`) and `Result`.
- `cart.dfy` (module `Cart`): cart lines, the pure list operations and
  their lemmas. The cart invariant is `ValidCart`: ids are distinct and
  quantities are at least 1.
- `orders.dfy` (module `Orders`): order rows, `PlaceOrder`, the status
  buttons and `UpdateStatus`. It also holds two classes:
  - `NewOrderForm`: the `newOrder` state that the cart handlers replace;
  - `OrderBoard`: the orders table that `updateOrderStatus` updates.
- `inventory.dfy` (module `Inventory`): the stock badge, the category rules,
  the `AddStock` method, the merge, the `GroupStockByCategory` method and the
  category order.

Numbers. Prices, stock quantities and weights are `real`, so the arithmetic
is exact. Cart quantities are `int`. The values that `parseInt`/`parseFloat`
read from the add-stock form are inputs (`ParsedForm`). The emptiness checks
look at the raw form strings, as the code does. The clock (`Date.now()`,
`new Date().toISOString()`) and the ids the backend assigns on insert are
parameters.

## Model

| member | source | states |
|---|---|---|
| `Cart.AddItem` | src/components/OrderManagement.jsx:59-81 | If the menu id is already in the cart: the length stays the same, every line with that id gains exactly one unit, and every other line is unchanged. Otherwise the cart stays as it was, with one line appended: that id and name, quantity 1, unit price = the item's selling price. |
| `Cart.AddItemKeepsValid` | src/components/OrderManagement.jsx:59-81 | After adding, the item is in the cart. Distinct menu ids stay distinct, and quantities stay at least 1. |
| `Cart.ClampedQuantity` | src/components/OrderManagement.jsx:89 | `Math.max(1, q + change)`: at least 1, and equal to `q + change` unless that is below 1. |
| `Cart.UpdateQuantity` | src/components/OrderManagement.jsx:84-93 | The length stays the same. Lines with the given id get quantity max(1, q + change), which is never below 1. All other lines are unchanged. |
| `Cart.UpdateQuantityKeepsValid` | src/components/OrderManagement.jsx:84-93 | updateQuantity keeps ids distinct and quantities positive. |
| `Cart.RemoveItem` | src/components/OrderManagement.jsx:95-100 | A line is in the result exactly when it was in the cart and has a different id. Removal never lengthens the cart. |
| `Cart.RemoveAbsentIsIdentity` | src/components/OrderManagement.jsx:95-100 | Removing an id that is not in the cart returns the cart unchanged. |
| `Cart.RemoveDistributes` | src/components/OrderManagement.jsx:98 | Removal splits over concatenation, so the kept lines stay in their original relative order. |
| `Cart.RemoveKeepsValid` | src/components/OrderManagement.jsx:95-100 | No line with the removed id remains, and the cart invariant still holds. |
| `Cart.RemovePresentDropsOne` | src/components/OrderManagement.jsx:95-104 | In a cart with distinct ids, removing a present id drops exactly one line. The total falls by that line's quantity × unit price. |
| `Cart.Total` | src/components/OrderManagement.jsx:102-104 | The left-fold sum of quantity × unit price is 0 for an empty cart. |
| `Cart.TotalAppend` | src/components/OrderManagement.jsx:102-104 | The total of two concatenated carts is the sum of their totals, so the total is the sum over the lines. |
| `Cart.TotalChangeOneLine` | src/components/OrderManagement.jsx:102-104 | Changing one line changes the total by exactly that line's change in amount. |
| `Cart.AddExistingRaisesTotal` | src/components/OrderManagement.jsx:59-104 | Adding an item already in the cart raises the total by exactly that line's unit price. |
| `Cart.AddNewRaisesTotal` | src/components/OrderManagement.jsx:59-104 | Adding an item not in the cart raises the total by its selling price. |
| `Cart.QuantityButtonsTotal` | src/components/OrderManagement.jsx:84-104 | The "+" button raises the total by the line's unit price. The "−" button lowers it by the unit price, except at quantity 1, where the clamp leaves the total unchanged. |
| `Orders.DecimalString` | src/components/OrderManagement.jsx:114 | A natural number prints as a canonical digit string (no leading zero unless it is "0") whose decimal value is the number, with two or more digits exactly from 10 up. |
| `Orders.DecimalStringUnique` | src/components/OrderManagement.jsx:114 | Conversely, every canonical digit string with value n is exactly `DecimalString(n)`, so the printed form is the only one. |
| `Orders.OrderNumber` | src/components/OrderManagement.jsx:114 | The generated order number is `ORD-` followed by a canonical digit string whose value is the clock reading. |
| `Orders.OrderNumberInjective` | src/components/OrderManagement.jsx:114 | Different clock readings give different order numbers. |
| `Orders.OrderItemsFor` | src/components/OrderManagement.jsx:131-136 | Gives one order item per cart line, in order. Each copies the line's menu id, quantity and unit price, and carries the new order's id. |
| `Orders.PlaceOrder` | src/components/OrderManagement.jsx:106-136 | An empty cart is rejected (`EmptyOrder`) and only an empty cart is. Otherwise the order has: the generated number; the customer name, or "Walk-in Customer" when the name is empty; the payment method; status pending; no completion time; and the items copied one-to-one and in order. |
| `Orders.SubmittedTotalMatchesCart` | src/components/OrderManagement.jsx:102-136 | The submitted order items are worth exactly the cart total that calculateTotal shows. |
| `Orders.Actions` | src/components/OrderManagement.jsx:273-288 | The only buttons offered are pending→preparing, pending→cancelled and preparing→completed. Completed and cancelled orders offer none. Every offered transition moves strictly forward. |
| `Orders.UpdateStatus` | src/components/OrderManagement.jsx:154-164 | The status becomes the new one. `completed_at` is set to now exactly when the new status is completed, and is left as it was otherwise. No other field changes. |
| `Orders.Stage` | src/components/OrderManagement.jsx:274-288 | Workflow stage: 2 exactly for the terminal statuses, completed and cancelled. |
| `Orders.ButtonsKeepOrderConsistent` | src/components/OrderManagement.jsx:154-288 | Consider any sequence of button presses, each on the card as refreshed after the previous one, where pressing a button the card does not show has no effect. It keeps "has `completed_at`" ⇔ "status is completed". It never moves an order back a stage and changes only status and `completed_at`. It leaves a completed or cancelled order as it is. |
| `Orders.ClickButtons` | src/components/OrderManagement.jsx:273-288 | Presses on a refreshed card either change nothing or move the order strictly forward a stage. |
| `Orders.PressOnStaleCard` | src/components/OrderManagement.jsx:154-167 | Each press is checked against the buttons of the status the card was drawn with, and an offered press applies `UpdateStatus` to the order as it is by then. The result is the order unchanged or in a status the card offered, only status and `completed_at` change, and a press on a button the card does not show changes nothing. |
| `Orders.StaleCardKeepsConsistent` | src/components/OrderManagement.jsx:154-167 | Presses on a card drawn with one status and not yet refreshed: "has `completed_at`" ⇔ "completed" still holds, only status and `completed_at` change, the status is one the card offered, and the last offered press decides it. |
| `Orders.StaleCardMovesBack` | src/components/OrderManagement.jsx:154-167 | On a pending card, Cancel then Start Preparing before the refresh leaves the order preparing after it was cancelled; with the refresh in between it stays cancelled. |
| `Orders.PlacedOrderIsConsistent` | src/components/OrderManagement.jsx:119-124 | A freshly submitted order is pending with no completion time. |
| `Orders.OrderBoard.UpdateOrderStatus` | src/components/OrderManagement.jsx:154-167 | The order with the given id is updated by `UpdateStatus`. Every other order and the number of orders stay the same. |
| `Orders.OrderBoard.constructor` | src/components/OrderManagement.jsx:6 | The orders list starts empty. |
| `Orders.NewOrderForm.constructor` | src/components/OrderManagement.jsx:10-14 | The form starts with no customer name, no items and cash payment. |
| `Orders.NewOrderForm.AddItemToOrder` | src/components/OrderManagement.jsx:59-82 | The items become `AddItem` of the old items. Name and payment are unchanged, and the cart invariant is kept. The total rises by the selling price for a new item, and by the line's unit price for an item already in the cart. |
| `Orders.NewOrderForm.UpdateQuantity` | src/components/OrderManagement.jsx:84-93 | The items become `UpdateQuantity` of the old items. Name and payment are unchanged, and the invariant is kept. With the buttons' change of +1 or −1, the total rises or falls by the line's unit price, and stays when −1 meets quantity 1. |
| `Orders.NewOrderForm.RemoveItem` | src/components/OrderManagement.jsx:95-100 | The items become `RemoveItem` of the old items. Name and payment are unchanged, and the invariant is kept. Removing an absent id changes nothing; removing a present one drops exactly one line and its amount from the total. |
| `Orders.NewOrderForm.CalculateTotal` | src/components/OrderManagement.jsx:102-104 | The reduce loop returns `Total` of the current items. |
| `Orders.NewOrderForm.SubmitOrder` | src/components/OrderManagement.jsx:106-152 | The result is `PlaceOrder` of the form. If it is rejected, nothing changes: neither the form nor the orders table. If it is accepted, the order is appended to the orders table and the form resets to its initial state. |
| `Inventory.GetStockStatus` | src/components/InventoryManagement.jsx:264-268 | Out of stock ⇔ the total is 0. Low stock ⇔ the total is nonzero and below 5, negatives included. In stock ⇔ the total is at least 5. |
| `Inventory.NeedsContainerType` | src/components/InventoryManagement.jsx:167-171 | False exactly for Meats, Vegetables and Seafood. |
| `Inventory.UsesMassTerminology` | src/components/InventoryManagement.jsx:355-357 | True exactly for Meats, Vegetables, Staples and Seafood. |
| `Inventory.StaplesIsTheOnlyMixedCategory` | src/components/InventoryManagement.jsx:355-357 | Every category that needs no container uses mass wording. A category both needs a container and uses mass wording exactly when it is Staples. |
| `Inventory.FindIngredient` | src/components/InventoryManagement.jsx:123 | Returns none exactly when no row has the id. Otherwise it returns the first row with that id. |
| `Inventory.CategoryNameOr` | src/components/InventoryManagement.jsx:164 | `ingredient?.categories?.category_name \|\| fallback`: the category name when it is present and non-empty, otherwise the fallback. |
| `Inventory.SelectedCategory` | src/components/InventoryManagement.jsx:162-165 | The category name of the first ingredient with the chosen id; "" when there is no such ingredient or it has no category. |
| `Inventory.UnknownIngredientNeedsContainer` | src/components/InventoryManagement.jsx:158-171 | An ingredient id missing from the list gives category "", which needs a container type. |
| `Inventory.MergeStock` | src/components/InventoryManagement.jsx:122-128 | The result has the same length and order as the stock rows. Each row keeps its stock fields and gains the first ingredient row with the same id, or none; a joined ingredient always carries the stock row's id and comes from the ingredient list. |
| `Inventory.AddStock` | src/components/InventoryManagement.jsx:173-234 | Rejected with the first alert exactly when the ingredient, quantity or price is empty. Rejected with the second exactly when those are present, a container is needed, and the container type or size is empty. A rejection produces no row. A container entry copies the type, size and price and takes the integer count. A gram entry becomes 1 container of q/1000 kg priced per-kg price × q/1000, so containers × size = q/1000. A kg entry becomes q containers of size 1 at the per-kg price, so containers × size = q and containers × price = q × price per kg. |
| `Inventory.CategoryKey` | src/components/InventoryManagement.jsx:346 | A stock row's group is its ingredient's non-empty category name, and "Uncategorized" otherwise; never "". |
| `Inventory.RowsOfCategory` | src/components/InventoryManagement.jsx:343-353 | A row is in a category's group exactly when it is an input row with that category key. The group is empty exactly when no row has that key. |
| `Inventory.GroupStockByCategory` | src/components/InventoryManagement.jsx:343-353 | The keys are exactly the categories that occur, with "Uncategorized" for a missing or empty name. Each group is that category's rows in input order and is non-empty. Each input row is in its own category's group and in no other. |
| `Inventory.RowsOfCategoryDistributes` | src/components/InventoryManagement.jsx:345-350 | Grouping splits over concatenation, so each group keeps the input order. |
| `Inventory.GroupSizesSumToRows` | src/components/InventoryManagement.jsx:343-353 | The group sizes, added over all keys, equal the number of input rows. |
| `Inventory.PresentCategories` | src/components/InventoryManagement.jsx:378 | The filter keeps exactly the names of the list that have a group. |
| `Inventory.PresentCategoriesInOrder` | src/components/InventoryManagement.jsx:378 | On a list without repeats, the kept names appear at increasing positions of the list. |
| `Inventory.OrderedCategories` | src/components/InventoryManagement.jsx:377-378 | Gives exactly the names of the fixed order that have a group, in that order. No other group is ever shown, "Uncategorized" included. |

## Left out

- FIFO deduction, the `current_stock_levels` aggregation (total stock,
  average price, entry count) and the `stock_transactions` ledger. The client
  code only reads them from the backend and does not compute them.
- All backend calls: fetches, inserts, updates, deletes, ordering and
  limits of queries. The failure paths of the inserts are left out too:
  `SubmitOrder` and `AddStock` model a successful insert, and a failed
  insert in the source only raises an alert. A failed item insert after a
  successful order insert leaves an order without items in the source; the
  model does not capture this.
- React state and effects, the visibility listener, `alert`/`confirm`, and
  rendering. This includes the form-field change handlers for name, payment
  method and the stock form, and the reset of the add-stock form after an
  insert.
- `formatStockDisplay`, because it formats floats with `toFixed(3)` and uses
  a regular expression.
- `parseInt`/`parseFloat`, including `NaN` for non-numeric input. JavaScript
  floating-point rounding. Prices and quantities are exact reals here.
- `null` `total_stock` values, and status strings other than the four the
  screen writes.
- The stock-entry modal (`fetchStockEntries`, `updateStockEntry`,
  `deleteStockEntry`) and the transaction history view. They only call the
  backend.
- The second copy of `usesMassTerminology` inside `EditEntryForm` is the same
  rule, and `Inventory.UsesMassTerminology` stands for both.
- Cart.AddExistingRaisesTotal: assumes distinct menu ids. `NewOrderForm` keeps ids distinct through `Valid`, and `NewOrderForm.AddItemToOrder` states the total change without that assumption; with repeated ids every matching line would gain a unit.
- Cart.QuantityButtonsTotal: assumes distinct menu ids and covers only the changes +1 and −1 that the buttons pass, and quantity at least 1, which `ValidCart` keeps. `NewOrderForm.UpdateQuantity` states the same change from `Valid` alone.
- Cart.RemovePresentDropsOne: assumes distinct menu ids, which `NewOrderForm` keeps; `NewOrderForm.RemoveItem` states the same change from `Valid` alone.
- Orders.ButtonsKeepOrderConsistent: assumes each press sees the card refreshed after the previous press. updateOrderStatus does not check the stored status, so presses before the refresh can move an order back (`Orders.StaleCardMovesBack`); `Orders.StaleCardKeepsConsistent` states what still holds then. Update requests reaching the backend out of order are not modelled.
- Inventory.GroupStockByCategory: assumes no category is named after a property of JavaScript's `Object.prototype` (`constructor`, `toString`, `__proto__`, …). In the source the plain `{}` already answers such a name, no array is created and the `push` throws, while the model gives the category an ordinary group.
- Orders.NewOrderForm.SubmitOrder: models one submission as a single atomic step. In the source `submitOrder` awaits both inserts before it resets the form, and nothing disables the button meanwhile, so a second press before the inserts return submits the cart as it was at that press again (two orders from one cart), and edits made to the form during the wait are wiped by the reset.
- Concurrency between browser sessions, and transactional isolation in the
  backend.
