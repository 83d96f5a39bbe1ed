# Cart and products stores of a storefront front-end

This project models the two client-side state stores of a small storefront
built with Vue and Pinia, in Dafny, with the reactivity wrapper removed.

- **Cart store** (`CartStore`, `cart.dfy`). The state is a sequence of cart
  lines, each holding a product and a quantity.
  - `addToCart` looks a line up by product id. It adds to that line's
    quantity, or it appends a new line. The quantity defaults to 1.
  - `removeFromCart` filters out every line with the given id.
  - `cartCount` is the number of lines.
  - `cartTotal` is the sum of `price * quantity` over the lines, computed by
    `reduce` from 0.
- **Products store** (`ProductsStore`, `products.dfy`). The state is the
  product list, a `loading` flag and an optional error message.
  - `fetchProducts` is modelled as a transition from the state before the
    call to the state after the awaited request settles. The request's
    outcome is a parameter: a resolved list, or a rejection carrying either
    an `Error` (with its message) or some other thrown value.
  - `clearError` resets the message.
  - `updateProduct` replaces the first product with a matching id.
- `ProductTypes.Product` (`product.dfy`) is the catalogue record.
  `Wrappers.Option` (`wrappers.dfy`) stands for `null` and for an argument
  left out.

Every action is a pure function from the old state to the new one. The
invariant the cart is meant to keep is `UniqueIds`: at most one line per
product id. `Sum` is the reference meaning of the cart total.

## Model

| member | source | states |
|---|---|---|
| CartStore.AddToCart | src/stores/cart.ts:17-28 | no ensures of its own; its behaviour is stated by AddToCartNewLine, AddToCartExistingLine, AddToCartDefaultIsOne, AddToCartPreservesUniqueIds, AddToCartCount and AddToCartTotal |
| CartStore.CartCount | src/stores/cart.ts:9-11 | no ensures of its own; stated by AddToCartCount, RemoveFromCartTotal and CartCountIsDistinctProducts |
| CartStore.Reduce | src/stores/cart.ts:14 | no ensures of its own; ReduceIsSum relates it to the sum of line totals |
| CartStore.EmptyCartInvariant | src/stores/cart.ts:7 | the starting empty cart satisfies the one-line-per-id invariant, has count 0 and totals 0 |
| CartStore.CartTotal | src/stores/cart.ts:13-15 | the `reduce` from 0 over the lines equals the sum of `price * quantity`; the empty cart totals 0 |
| CartStore.ReduceIsSum | src/stores/cart.ts:14 | the left fold that starts from accumulator `acc` ends at `acc` plus the sum of the line totals |
| CartStore.FindLine | src/stores/cart.ts:18 | finds nothing exactly when no line has the id; otherwise it returns the first line with that id |
| CartStore.AddToCartNewLine | src/stores/cart.ts:17-27 | a new id appends exactly one line `(product, quantity)` at the end and leaves all earlier lines unchanged |
| CartStore.AddToCartExistingLine | src/stores/cart.ts:18-21 | a present id adds the quantity to the first matching line; that line keeps its old product record, the line count is unchanged, and every other line is unchanged |
| CartStore.AddToCartDefaultIsOne | src/stores/cart.ts:17 | leaving the quantity out behaves as passing 1 |
| CartStore.AddToCartPreservesUniqueIds | src/stores/cart.ts:17-28 | `addToCart` keeps at most one line per product id |
| CartStore.AddToCartCount | src/stores/cart.ts:9-27 | `cartCount` rises by 1 exactly when the id was absent, and is unchanged otherwise |
| CartStore.AddToCartTotal | src/stores/cart.ts:13-27 | the total rises by the quantity times the price stored on the receiving line: the new product's price, or the matched line's own product price |
| CartStore.AddNewLineTotal | src/stores/cart.ts:22-27 | appending a new line raises the total by quantity times the new product's price |
| CartStore.AddExistingLineTotal | src/stores/cart.ts:20-21 | bumping the first matching line raises the total by quantity times that line's stored price |
| CartStore.RemoveFromCart | src/stores/cart.ts:30-32 | afterwards no line has the id, and the cart is never longer |
| CartStore.RemoveAbsentIsIdentity | src/stores/cart.ts:30-32 | removing an id no line has leaves the cart unchanged |
| CartStore.RemoveFromCartIdempotent | src/stores/cart.ts:30-32 | removing twice equals removing once |
| CartStore.RemoveFromCartAppend | src/stores/cart.ts:31 | the filter distributes over concatenation of carts |
| CartStore.RemoveFromCartKeepsOrder | src/stores/cart.ts:31 | the result consists of lines of the input at strictly increasing positions, and it includes every line with a different id, so relative order is kept and nothing else is dropped |
| CartStore.RemoveUniqueIsDelete | src/stores/cart.ts:30-32 | under the unique-id invariant, removing the id of line `k` deletes exactly line `k` |
| CartStore.RemoveFromCartTotal | src/stores/cart.ts:9-32 | under the invariant, removing a present id lowers `cartCount` by 1 and the total by that line's `price * quantity` |
| CartStore.RemoveFromCartSplitsTotal | src/stores/cart.ts:13-32 | for any cart, the total before removal is the total after plus the total of the dropped lines, and the line count splits the same way |
| CartStore.RemoveFromCartPreservesUniqueIds | src/stores/cart.ts:30-32 | `removeFromCart` keeps at most one line per product id |
| CartStore.CartCountIsDistinctProducts | src/stores/cart.ts:9-11 | under the invariant, `cartCount` equals the number of distinct product ids in the cart, not a sum of quantities |
| ProductsStore.InitialStateIdle | src/stores/products.ts:8-10 | the store starts with no products, `loading` false and a null error, and clearing the error there changes nothing |
| ProductsStore.ErrorMessage | src/stores/products.ts:20 | no ensures of its own; FetchProducts states its two cases |
| ProductsStore.StartFetch | src/stores/products.ts:14-15 | no ensures of its own; StartFetchPending states the pending state it produces |
| ProductsStore.StartFetchPending | src/stores/products.ts:14-15 | while the request is pending `loading` is true, the error is null, and the list held before the call is still shown |
| ProductsStore.SettleFetch | src/stores/products.ts:17-24 | no ensures of its own; FetchProducts states the state it produces |
| ProductsStore.ClearError | src/stores/products.ts:27-29 | no ensures of its own; stated by ClearErrorSpec |
| ProductsStore.FetchProducts | src/stores/products.ts:13-25 | after the request settles `loading` is false; on success the list is the fetched one and the error is null; on failure the list is unchanged and the error is the `Error`'s message or `'Failed to fetch products'` |
| ProductsStore.FetchErrorIffRejected | src/stores/products.ts:15-20 | after a fetch the error is null exactly when the request resolved |
| ProductsStore.FetchForgetsPreviousStatus | src/stores/products.ts:13-25 | the state after a fetch depends only on the old list and the outcome, not on the flag or message held before |
| ProductsStore.FetchResolvedIdempotent | src/stores/products.ts:18 | repeating a successful fetch with the same response changes nothing more |
| ProductsStore.ClearErrorSpec | src/stores/products.ts:27-29 | `clearError` sets the error to null, leaves the list and `loading` untouched, is idempotent, and changes nothing when no error is held |
| ProductsStore.FindIndex | src/stores/products.ts:32 | the result is -1 exactly when no product has the id; otherwise it is the first position holding that id |
| ProductsStore.UpdateProduct | src/stores/products.ts:31-36 | the list length and the flags are kept; with no matching id nothing changes; otherwise the first match is replaced by the update and every other position is unchanged |
| ProductsStore.UpdateProductKeepsIds | src/stores/products.ts:31-36 | no position changes its id, so looking the id up again finds the same position |
| ProductsStore.UpdateProductIdempotent | src/stores/products.ts:31-36 | applying the same update twice equals applying it once |
| ProductsStore.UpdateProductFirstOnly | src/stores/products.ts:32-34 | when two products share the id, the later one keeps its old record |

## Left out

- `src/services/products.ts`, the HTTP GET to a mock endpoint. The request is replaced by its outcome, which is a parameter of `FetchProducts`.
- `src/main.ts` (application bootstrap and plugin wiring) and `src/router/index.ts` (a static two-entry route table). Neither contains store logic.
- Persistence of the cart (`persist: true`, src/stores/cart.ts:42) and local storage. This is plugin I/O.
- Vue reactivity, `console.error` and the async interleaving of `fetchProducts`. Only the state before and after a call is modelled, plus the pending state `StartFetch`. Two overlapping fetches are not modelled.
- JavaScript `number` arithmetic. `price` and `quantity` are typed `number` in the source, so they may be fractional, `NaN` or `Infinity`, and `price * quantity`, the `+=` on a line's quantity and the `reduce` are floating-point operations. The model takes `price` as an integer amount such as cents and `quantity` as an integer. Non-integer, `NaN` and `Infinity` quantities and prices, and float rounding, are not modelled. The inert `stock` and `sku` fields are integers for the same reason.
- Quantity or stock validation. The code checks neither, so within the integer model above a quantity may be zero or negative. Neither store has a stock-decrement operation, so none is modelled.
- `src/types/cart.ts` is not part of this model. `CartItem` is taken to be `{ product, quantity }` as built at src/stores/cart.ts:23-26.
- JavaScript number ids compared with `===`: ids are modelled as integers, so `NaN` ids are not modelled.
- Object identity. `find` returns the line object and mutates it in place. This is modelled as updating the line at its position. Cart lines and the products list may share product objects. `updateProduct` replaces the element rather than mutating it, so sharing has no visible effect.
