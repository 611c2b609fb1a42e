# E-commerce store core in Dafny

This project models `SistemaEcommerce`, the domain core of a small in-memory
e-commerce backend. The store holds three lists: products (`Producto`), carts
(`Carrito`, whose lines are `ItemCarrito`) and orders (`Pedido`). Three operations
change it:

- `agregar_producto` adds a product. It rejects an id that is already present.
- `gestionar_carrito` adds an item to a cart. It checks that the cart exists,
  then that the product exists, then that stock covers the added quantity. It
  merges the item into the cart's lines and recomputes the cart total.
- `realizar_checkout` turns a cart into an order. It deducts stock, appends an
  order numbered one past the order count, and empties the cart.

The model is functional. A store is a `State` value. Each operation is a pure
function from a state to a `Step`, which pairs the state after the call with
either the returned value or the error raised. Prices are integer cents
(`Entities.Cents`), so the source's `round(total, 2)` is the identity.

Modules:

- `Entities` (entities.dfy) holds the four entities.
- `Catalog` (catalog.dfy) holds product lookup. Every lookup takes the first
  product whose id matches, as Python's `next` over a generator does.
- `Lines` (lines.dfy) holds cart lines: merging, per-product quantity, the cart
  total, and `Valuation`, an independent price-times-quantity reading of a
  cart's value used to check the total.
- `Stock` (stock.dfy) holds checkout's stock deduction and its conservation law.
- `Store` (store.dfy) holds the state, the operations and the invariant `Valid`.
- `Properties` (properties.dfy) holds lemmas that relate operations. It shows
  that every reachable store is `Valid`, and that an order's total equals the
  value of the stock its checkout removed.
- `Scenarios` (scenarios.dfy) holds worked examples proved from the start-up store.

The model follows the code as written, including:

- Order lines are the cart's lines as they were. No unit price is frozen into
  them (main.py:30-35, 176).
- Checkout does not re-check stock, so stock can go negative (main.py:162-167).
  `Scenarios.OverdrawScenario` shows this happening.
- Stock is checked against the quantity being added, not against the quantity
  the cart will then hold (main.py:113).
- Quantities are plain integers with no positivity check.
- The order status is `"Completado"`.
- There are no get-product, get-cart, clear-cart or list-orders operations in the
  code, so the model has none.

## Model

| member | source | states |
|---|---|---|
| `Catalog.FindProduct` | main.py:109-111 | The lookup finds nothing exactly when no product has the id. Otherwise it returns an index holding the id with no earlier product holding it. |
| `Store.FindCart` | main.py:104-106 | The same first-match law for carts. This lookup is also used again at main.py:152. |
| `Lines.Bump` | main.py:119-125 | The loop keeps the number and order of lines. Every line for the added product gains the added quantity, not just the first. Other lines are unchanged. |
| `Lines.Merge` | main.py:118-130 | If the cart already has a line for the product, that line keeps its position and grows by the added quantity. Otherwise the item is appended at the end. All other lines are unchanged and stay in order. |
| `Lines.MergeConservesQuantity` | main.py:118-128 | When the cart has one line per product, merging raises the added product's quantity by exactly the added amount. Every other product's quantity is unchanged. |
| `Lines.MergeKeepsLinesDistinct` | main.py:118-128 | Merging keeps at most one line per product. Afterwards the added product has a line. |
| `Lines.MergeTwice` | main.py:118-128 | Adding the same product twice to a cart without it gives one line whose quantity is the sum, never two lines. |
| `Lines.CartTotal` | main.py:132-138 | The total is defined exactly when every line names a catalogue product. Otherwise the bare `next` raises. |
| `Lines.TotalIsValuation` | main.py:133-138 | With distinct product ids, the line-by-line total equals the sum over products of price times the quantity the cart requests of each. |
| `Lines.MergeAddsItemValue` | main.py:116-138 | Adding an item raises the recomputed total by the product's current price times the added quantity. |
| `Stock.DeductLine` | main.py:163-168 | One cart line leaves ids, names and prices unchanged, as well as the list's length and order. |
| `Stock.Deduct` | main.py:160-171 | Deducting all lines leaves ids, names, prices, length and order unchanged. |
| `Stock.StockConservation` | main.py:160-171 | Each product's new stock is its old stock minus the total quantity the cart requests of its id. This applies to the product that lookups of that id resolve to. Every other field is kept. |
| `Stock.DistinctStockConservation` | main.py:160-171 | With distinct ids, every product loses exactly the quantity the cart lines request of it. |
| `Stock.DeductKeepsStockNonNegative` | main.py:162-167 | Stock stays non-negative when no product is asked for more than it holds. Nothing in the code ensures this condition. |
| `Store.Init` | main.py:68-77 | The start-up store has three products and a cart with id 1. It has no orders and satisfies the store invariant. |
| `Store.ListProducts` | main.py:81-83 | Listing returns the current product list in insertion order. In a valid store each id appears once in it. |
| `Store.AddProduct` | main.py:85-96 | The call fails iff some product already has the id, and then nothing changes. On success the product is appended, carts and orders are unchanged, and ids that were distinct stay distinct. |
| `Store.ManageCart` | main.py:98-144 | Failures come in this order: missing cart, missing product, stock below the added quantity. Each of them leaves the store unchanged. Otherwise only the target cart changes, and its lines become the merge. If the cart and product exist and stock covers the quantity, the call succeeds exactly when every merged line names a catalogue product, and otherwise raises the unpriced-line error. On success the cached total is the recomputed total of the new lines. If a line names no product, the new lines are kept with the old total. |
| `Store.Checkout` | main.py:146-187 | A missing cart or an empty cart fails with nothing changed. An existing non-empty cart always checks out. On success one order is appended. Its id is the old order count plus 1, it holds the cart's lines and total, and its status is "Completado". The cart is emptied with total 0. Stock drops by what the lines consume, and the listing is otherwise unchanged. |
| `Properties.ManageCartNeverUnpriced` | main.py:133-135 | In a valid store, pricing the merged cart never meets a line without a product. |
| `Properties.ManageCartSucceeds` | main.py:104-139 | In a valid store, once the cart exists, the product exists and its stock covers the quantity, the add returns the updated cart. |
| `Properties.ManageCartTotal` | main.py:132-138 | In a valid store, the new cart total is the old total plus price times quantity. It is also the catalogue valuation of the new lines. |
| `Properties.AddProductPreservesValid` | main.py:91-95 | Adding a product keeps ids unique, keeps every cart's total coherent, and keeps order ids sequential. |
| `Properties.ManageCartPreservesValid` | main.py:118-138 | Adding to a cart keeps one line per product and keeps cached totals equal to recomputed ones. |
| `Properties.CheckoutPreservesValid` | main.py:160-185 | Checkout keeps product ids unique and keeps every cart total coherent with the new stock. Order ids stay 1, 2, 3, and so on. |
| `Properties.RunPreservesValid` | main.py:67-187 | Any sequence of operations, failed ones included, preserves the store invariant. |
| `Properties.ReachableStoresAreValid` | main.py:71-77 | Every store reachable from start-up is valid. In particular its product ids are pairwise distinct. |
| `Properties.SecondCheckoutFails` | main.py:152-156 | Checking out the same cart right after a successful checkout fails with EmptyCart and changes nothing. |
| `Properties.CheckoutStockConservation` | main.py:160-171 | In a valid store, checkout lowers each product's stock by the quantity the order's lines request of it. |
| `Properties.CheckoutValueBalance` | main.py:160-177 | In a valid store, the order total equals the fall in the catalogue's stock value (price times stock). |
| `Properties.ListingAcrossOperations` | main.py:81-83 | The product listing grows by the new product after an add. Adding to a cart leaves it unchanged. After a checkout its ids, names and prices are unchanged. |
| `Scenarios.KeyboardScenario` | test_main.py:21-29 | Adding one keyboard to cart 1 gives the total 150.00. Checkout then gives order 1 for 150.00, leaves 24 keyboards, and empties the cart. |
| `Scenarios.InsufficientStockScenario` | main.py:113-114 | Asking for 11 laptops against a stock of 10 fails with the laptop's name and changes nothing. |
| `Scenarios.EmptyCheckoutScenario` | main.py:155-156 | Checking out the empty start-up cart fails and creates no order. |
| `Scenarios.OverdrawScenario` | main.py:108-171 | Two adds of 10 laptops each pass the stock check. The cart then holds one line of 20, and checkout leaves a stock of -10. |
| `Scenarios.DuplicateProductScenario` | main.py:91-93 | Adding a product with the existing id 3 fails and changes nothing. |

## Left out

- HTTP routes, status-code mapping, `uvicorn.run` and request validation (main.py:193-227) are web plumbing with no domain behaviour.
- The `IEcommerce` abstract interface (main.py:43-59) is left out. It has exactly one implementation, so the operations are plain functions.
- The timestamp from `datetime.datetime.now().isoformat()` (main.py:178) is a clock read. It is the `date` parameter of `Store.Checkout`.
- The `print` logging and re-raise in `gestionar_carrito` (main.py:141-144) is output only and does not change the store.
- Prices are integer cents, not floats. IEEE rounding and `round(..., 2)` are not modelled.
- Error messages are not modelled as strings. Each error is a kind that carries what the message names: the duplicate id, or the product's name for insufficient stock.
- Aliasing is not modelled: `obtener_productos` returns the live internal list, while `Store.ListProducts` returns the product sequence as a value.
- Locking and concurrent requests are not modelled. The source has no such code.
