# GoMarketplace cart, modelled in Dafny

This project models the cart bookkeeping of the GoMarketplace mobile app (`src/hooks/cart.tsx`).
`CartProvider` holds a list of products (`products`). Three callbacks replace that list:

- `addToCart` merges a product into the line that already has its id, or appends a new line holding one unit.
- `increment` adds one unit to the line with a given id.
- `decrement` takes one unit off that line. It then removes the first line of the whole list whose quantity is zero.

After every call the provider writes a list to AsyncStorage, and on start it loads the list stored there.

Files:

- `wrappers.dfy`: module `Wrappers`, the `Option` type.
- `cart.dfy`: module `Cart`.
  - The `Product` record, and the `ProductInfo` that `addToCart` receives (a product without its quantity).
  - The array operations the source uses: each `map` call with its callback (`MergeEach`, `Increment`, `DecrementEach`), `find`, `findIndex` and `splice`.
  - The three rewrites as pure functions over `seq<Product>` (`AddToCart`, `Increment`, `Decrement`).
  - The lemmas about them. Most lemmas rely on the "settled" invariant: ids are unique and every quantity is at least 1.
- `cart_provider.dfy`: module `CartProvider`, the class `CartStore`.
  - Its `products` field is the provider's state.
  - Each method replaces that field and returns the list that the source writes to storage.
  - `Decrement` runs the source's steps one statement at a time: map, then find the first zero, then splice the local list.

`addToCart` writes the list from *before* the call, while `increment` and `decrement` write the updated list.
The model keeps this difference (see "## Findings").

Decrementing an id that is not in the cart leaves it unchanged only when no line holds zero units (`Cart.DecrementAbsentIsNoop`).
The removal step scans every line, not only the decremented one (`src/hooks/cart.tsx:93-99`).
So when the cart already holds a line at zero, for example from a stored list, decrementing an id that is not in the cart removes the first such line (`Cart.DecrementRemovesStrayZero`).

## Model

| member | source | states |
|---|---|---|
| `Cart.MergeEach` | src/hooks/cart.tsx:49-54 | the `map` of `addToCart` keeps the length; each line with the incoming id becomes the incoming fields with its quantity + 1, and every other line is unchanged |
| `Cart.Find` | src/hooks/cart.tsx:46 | `find` by id returns nothing exactly when no line has the id; otherwise it returns a line of the list with that id (only whether something is found is used) |
| `Cart.FirstZeroIndex` | src/hooks/cart.tsx:93-95 | `findIndex` of a zero quantity returns -1 exactly when no line is at zero; otherwise it returns the index of the first zero line |
| `Cart.Splice` | src/hooks/cart.tsx:97-99 | `splice(k, 1)` drops exactly the line at `k`; the lines before it stay in place and the lines after it move down by one, in order |
| `Cart.AddToCart` | src/hooks/cart.tsx:44-58 | an absent id appends one line at the end with the incoming fields and quantity 1, and earlier lines are unchanged; a present id keeps length and positions, the matching line takes the incoming fields and old quantity + 1, and every other line is unchanged |
| `Cart.AddToCartPreservesSettled` | src/hooks/cart.tsx:46-57 | if ids are unique and every quantity is at least 1 before `addToCart`, both still hold after it |
| `Cart.AddToCartExistingIsIncrement` | src/hooks/cart.tsx:48-55 | when the id is present and the incoming fields equal the stored ones, `addToCart` gives the same list as `increment` |
| `Cart.AddSameIdTwice` | src/hooks/cart.tsx:46-57 | two adds of one id to a cart without it give one new line with quantity 2 and the fields of the second call |
| `Cart.AddDistinctAppends` | src/hooks/cart.tsx:56-57 | a run of adds with distinct ids, none already in the cart, appends one line per item in call order, each with quantity 1 |
| `Cart.AddToCartChangesCart` | src/hooks/cart.tsx:57-62 | `addToCart` never returns the list it started from, so the pre-call list it writes never records the call |
| `Cart.Increment` | src/hooks/cart.tsx:67-75 | `increment` keeps length and order and every field but the quantity; a line with the id gains exactly 1 and every other quantity is unchanged |
| `Cart.IncrementAt` | src/hooks/cart.tsx:69-74 | with ids unique, `increment` of the id at position `k` gives the list with only that line's quantity raised by one |
| `Cart.IncrementAbsentIsNoop` | src/hooks/cart.tsx:69-74 | incrementing an id that is not in the list returns the list unchanged |
| `Cart.IncrementPreservesSettled` | src/hooks/cart.tsx:69-75 | `increment` keeps ids unique and every quantity at least 1 |
| `Cart.DecrementEach` | src/hooks/cart.tsx:86-91 | the mapping step of `decrement` keeps the length; only a line with the id and a quantity above 0 loses one unit |
| `Cart.Decrement` | src/hooks/cart.tsx:84-100 | `decrement` removes at most one line: the length drops by 0 or 1 |
| `Cart.DecrementRemovesFirstZero` | src/hooks/cart.tsx:93-98 | when no line of the mapped list is at zero, `decrement` returns the mapped list; when some line is at zero, the length drops by exactly one |
| `Cart.DecrementRemovesAtMostOne` | src/hooks/cart.tsx:93-99 | if the length is kept, the result is the mapped list; otherwise exactly one line of the mapped list is removed, the first line at zero, and the other lines keep their relative order |
| `Cart.DecrementNeverNegative` | src/hooks/cart.tsx:86-91 | if no quantity is negative before `decrement`, none is after, because only a line with units left loses one |
| `Cart.DecrementRemovesLastUnit` | src/hooks/cart.tsx:86-99 | on a settled cart, decrementing a line holding one unit removes exactly that line |
| `Cart.DecrementReducesLine` | src/hooks/cart.tsx:86-91 | on a settled cart, decrementing a line holding more than one unit takes exactly one unit off it, keeps it in place and changes nothing else |
| `Cart.DecrementAbsentIsNoop` | src/hooks/cart.tsx:86-99 | decrementing an absent id leaves unchanged a cart whose lines all hold at least one unit |
| `Cart.DecrementRemovesStrayZero` | src/hooks/cart.tsx:93-99 | decrementing an absent id removes the first line that already holds zero units |
| `Cart.DecrementPreservesSettled` | src/hooks/cart.tsx:86-100 | `decrement` keeps ids unique and every quantity at least 1 |
| `Cart.DecrementUndoesIncrement` | src/hooks/cart.tsx:69-99 | on a settled cart, decrementing an id that is present undoes incrementing it |
| `Cart.DecrementUndoesAdd` | src/hooks/cart.tsx:56-99 | on a settled cart, decrementing the id of a newly added product undoes the add |
| `CartProvider.CartStore.constructor` | src/hooks/cart.tsx:29 | the provider starts with an empty cart |
| `CartProvider.CartStore.Load` | src/hooks/cart.tsx:31-42 | a stored list replaces the cart wholesale; when storage holds nothing, the cart is left unchanged |
| `CartProvider.CartStore.AddToCart` | src/hooks/cart.tsx:44-65 | the cart becomes `Cart.AddToCart` of the old cart; the list handed to storage is the old cart and differs from the new one; a settled cart stays settled |
| `CartProvider.CartStore.AddToCartWritingUpdate` | src/hooks/cart.tsx:59-62 | the same update to the cart, but the list handed to storage is the updated cart |
| `CartProvider.CartStore.Increment` | src/hooks/cart.tsx:67-82 | the cart becomes `Cart.Increment` of the old cart; the list handed to storage is the new cart; a settled cart stays settled |
| `CartProvider.CartStore.Decrement` | src/hooks/cart.tsx:84-108 | the steps of the source (map, find the first zero, splice) leave the cart equal to `Cart.Decrement` of the old cart; the list handed to storage is the new cart; a settled cart stays settled |

## Left out

- AsyncStorage reads and writes, and the `async`/`await` around them, are external I/O. Each method returns the list it would write, and `Load` takes the stored value as a parameter.
- JSON serialisation (`JSON.stringify` / `JSON.parse`) is library code and is not modelled. A stored list is taken to read back as the same list, and a missing one as `None`. The case where parsing fails is not modelled.
- React context, `useState`/`useCallback`/`useMemo` and the `useCart` guard for a missing provider (`src/hooks/cart.tsx:110-126`) are framework plumbing.
- Each callback reads the `products` captured at its last render. Two calls made before a re-render therefore both start from the same list. The model applies calls one after another, each to the current list.
- `price` is a JavaScript floating-point number that is only copied. It is modelled as `real`, and no arithmetic is done on it.
- `quantity` is modelled as an unbounded `int`. The source's JavaScript numbers lose precision above 2^53, which a cart never reaches.

## Findings

| source | as written | input that shows it | evidently intended | confidence | as-written member | corrected member |
|---|---|---|---|---|---|---|
| src/hooks/cart.tsx:59-62 | `addToCart` writes `JSON.stringify(products)`, the list from before the call | empty cart, then `addToCart` of any product: the cart holds one line but storage holds `[]`, so after a restart the product is gone | write the updated list, as `increment` and `decrement` do (lines 76-79, 102-105) | high; not executed | `CartProvider.CartStore.AddToCart` (with `Cart.AddToCartChangesCart`: the written list never equals the new cart) | `CartProvider.CartStore.AddToCartWritingUpdate` |
