# Shopping-cart engine of RocketShoes, in Dafny

This project models the cart engine of a React storefront: the `CartProvider` in
`src/hooks/useCart.tsx` and the per-product quantity lookup of the catalog page in
`src/pages/Home/index.tsx`.

The cart is an ordered sequence of line items. Each line is a catalog product plus an
`amount`. The cart is loaded once from a persisted slot and rewritten there after every
committed change. Three operations change it:

- `addProduct` checks the stock service's figure. It then either increments the existing
  line or appends a new line with amount 1, built from the catalog service's entry.
- `removeProduct` filters out the lines with the id. If no line has the id, it raises an error.
- `updateProductAmount` sets an exact amount, bounded by stock. Amounts below 1 are ignored.

Files:

- `wrappers.dfy` (module `Wrappers`): the `Option` type.
- `cart_state.dfy` (module `CartState`): the line-item data model and the three operations.
  Each operation is a function from the current cart and the services' answers to an
  `Outcome`: a committed cart, a failure with its notification, or nothing. The module also
  holds the lemmas stating what each operation promises.
- `cart_engine.dfy` (module `CartEngine`): class `CartProvider`. Its fields are `cart` (the
  state `setCart` replaces) and `store` (the persisted slot). Its constructor is the start-up
  load. Its methods perform the three operations in place, commit through `SetCart`, and
  are proved against the `CartState` functions.
- `home_lookup.dfy` (module `HomeLookup`): the `reduce` that builds the id-to-amount
  dictionary, as a loop proved against a fold function, and the read with default 0.

Behaviour kept exactly as the code has it:

- The stock comparison value in `addProduct` (`useCart.tsx:78`) is `amount + 1` only when the
  first matching line's amount is non-zero (truthy). Otherwise it is 0. A first-time add
  therefore passes the stock check for any non-negative stock, zero included, and still
  appends a line with amount 1. Only a negative stock reports out-of-stock. This asymmetry is
  reproduced, not corrected.
- A line whose amount is 0 can only come from a stored cart. `addProduct` gives it the
  comparison value 0 too, and raises it to 1 (`AddZeroAmountLine`).
- The appended line takes its id from the catalog entry (`...product`), not from the
  requested id. So `AddPreservesUnique` assumes the catalog answers for the id it was asked.
- `updateProductAmount` looks at the first line with the id. It treats a line whose amount is
  0 as missing (`useCart.tsx:150`) and reports the update error.
- `removeProduct` drops every line with the id (`filter`). On a cart with unique ids this is
  exactly one line (`RemovePresent`).
- Start-up does not write the store. Every commit does (the reference-inequality check at
  `useCart.tsx:58` holds for every new array `setCart` receives). The class predicate
  `Synced` says that loading the store gives the in-memory cart. Every operation keeps it.
- Building the lookup cannot change the cart: `ItemsAmount` takes the cart as a value and
  returns a new map.

## Model

| member | source | states |
|---|---|---|
| CartState.Load | src/hooks/useCart.tsx:32-43 | the start-up read of the store; no contract of its own, specified by the `CartProvider` constructor and the `Synced` predicate it keeps |
| CartState.NewLine | src/hooks/useCart.tsx:98-102 | the line built from a catalog entry with amount 1; no contract of its own, specified by `AddNewLine` |
| CartState.SetAmount | src/hooks/useCart.tsx:88 | changing one line's amount keeps the length and every id, sets that line's amount and leaves every other line as it was |
| CartState.Add | src/hooks/useCart.tsx:63-108 | an add never ends ignored; it commits only on a stock answer; a commit on a present id keeps the length, and one on an absent id appends exactly the catalog's new line (details in the `Add*` lemmas) |
| CartState.Remove | src/hooks/useCart.tsx:110-123 | a removal fails, with the removal error, exactly when no line has the id; a commit is strictly shorter and holds no line with the id |
| CartState.UpdateAmount | src/hooks/useCart.tsx:125-160 | an update is ignored exactly when the amount is below 1; a commit keeps the length, needs a line with the id, and sets an amount between 1 and the observed stock |
| CartState.IndexOf | src/hooks/useCart.tsx:74-76 | `find` by id: the result, if any, is an index holding the id with no earlier line holding it; there is no result exactly when no line has the id |
| CartState.Without | src/hooks/useCart.tsx:117 | the filtered cart has no line with the id, keeps every other line, and holds nothing that was not in the cart |
| CartState.WithoutShrinks | src/hooks/useCart.tsx:117 | filtering out an id some line has makes the cart strictly shorter |
| CartState.WithoutConcat | src/hooks/useCart.tsx:117 | filtering distributes over concatenation, so the kept lines stay in their original order |
| CartState.WithoutAbsent | src/hooks/useCart.tsx:117 | filtering out an id that no line has returns the cart unchanged |
| CartState.WithoutSplice | src/hooks/useCart.tsx:117 | filtering out the id of the one line that has it leaves the lines before and after it, in order |
| CartState.WithoutKeepsUnique | src/hooks/useCart.tsx:117 | filtering keeps ids unique |
| CartState.UniqueIndexOf | src/hooks/useCart.tsx:74-76 | with unique ids, `find` returns the one line holding the id |
| CartState.AddStockQueryFails | src/hooks/useCart.tsx:64-69 | a failed stock query yields the add error, a failure, so the cart is unchanged |
| CartState.AddIncrementsExisting | src/hooks/useCart.tsx:71-89 | adding an id already in a cart with unique ids, with stock at least its amount + 1 (whatever that amount), commits a cart of the same length where that line's amount is exactly one more and every other line is unchanged |
| CartState.AddZeroAmountLine | src/hooks/useCart.tsx:78-89 | an existing line with amount 0 gets the comparison value 0: any non-negative stock raises it to exactly 1, a negative stock yields out-of-stock |
| CartState.AddExistingOutOfStock | src/hooks/useCart.tsx:78-84 | adding an id already in the cart with stock below its amount + 1 yields the out-of-stock error |
| CartState.AddNewLine | src/hooks/useCart.tsx:78-103 | adding an id not in the cart, with any non-negative stock and a catalog entry, appends exactly one line with amount 1 at the end; with no catalog entry it yields the add error; only a negative stock yields out-of-stock |
| CartState.AppendKeepsUnique | src/hooks/useCart.tsx:99-102 | appending a line whose id is new keeps ids unique |
| CartState.SetAmountKeepsIds | src/hooks/useCart.tsx:88 | changing one line's amount keeps the length, every id and uniqueness |
| CartState.AddPreservesUnique | src/hooks/useCart.tsx:74-104 | if no two lines shared an id before an add, none do after, given that the catalog answers for the requested id |
| CartState.RemoveAbsent | src/hooks/useCart.tsx:113-121 | removing an id no line has yields the removal error, a failure, so the cart stays identical |
| CartState.UniqueSplit | src/hooks/useCart.tsx:117 | with unique ids, no line before or after a given line has its id |
| CartState.RemovePresent | src/hooks/useCart.tsx:113-119 | removing a present id from a cart with unique ids commits exactly the other lines in their original order |
| CartState.RemovePreservesUnique | src/hooks/useCart.tsx:117 | removal keeps ids unique |
| CartState.UpdateBelowOneIgnored | src/hooks/useCart.tsx:131 | an amount below 1 is ignored, so it changes nothing and raises nothing, whatever the stock |
| CartState.UpdateFailures | src/hooks/useCart.tsx:133-158 | for an amount of at least 1: a failed stock query yields the update error; stock below the amount yields out-of-stock; an id with no line yields the update error |
| CartState.UpdateSetsExact | src/hooks/useCart.tsx:144-153 | with unique ids and enough stock, the update sets that line's amount to exactly the given amount and changes nothing else |
| CartState.UpdateStockCeiling | src/hooks/useCart.tsx:139-153 | whenever an update commits, the length is kept, and the only line that differs has the id and the given amount, which is at least 1 and at most the observed stock |
| CartState.UpdatePreservesUnique | src/hooks/useCart.tsx:144-153 | an update keeps ids unique |
| CartState.OperationsKeepAmountsPositive | src/hooks/useCart.tsx:86-153 | if every line holds at least one unit, this stays true after any add, remove or update |
| CartEngine.CartProvider.constructor | src/hooks/useCart.tsx:32-43 | start-up: the cart is empty when the store has no record, otherwise the stored sequence; the store is not rewritten and is in sync |
| CartEngine.CartProvider.SetCart | src/hooks/useCart.tsx:57-61 | a commit replaces the cart and writes it to the store |
| CartEngine.CartProvider.AddProduct | src/hooks/useCart.tsx:63-108 | performs `Add` in place: the new cart and notification are those of `Add`; the store is rewritten only on commit; keeps the store in sync, ids unique (given a matching catalog id) and amounts positive |
| CartEngine.CartProvider.RemoveProduct | src/hooks/useCart.tsx:110-123 | performs `Remove` in place, with the same guarantees on the store, uniqueness and amounts |
| CartEngine.CartProvider.UpdateProductAmount | src/hooks/useCart.tsx:125-160 | performs `UpdateAmount` in place, with the same guarantees on the store, uniqueness and amounts |
| HomeLookup.AmountsOf | src/pages/Home/index.tsx:33-37 | the fold of the cart into an id-to-amount dictionary, one write per line; no contract of its own, specified by `AmountsKeys`, `LastOccurrenceWins` and `UniqueLookup` |
| HomeLookup.QuantityInCart | src/pages/Home/index.tsx:80 | the read with default 0; no contract of its own, specified by `AbsentReadsZero`, `LastOccurrenceWins` and `UniqueLookup` |
| HomeLookup.ItemsAmount | src/pages/Home/index.tsx:33-37 | the loop builds exactly the fold of the cart into an id-to-amount dictionary |
| HomeLookup.AmountsKeys | src/pages/Home/index.tsx:33-37 | the dictionary holds an id exactly when some line has it |
| HomeLookup.AbsentReadsZero | src/pages/Home/index.tsx:80 | an id with no line reads as 0, so every id reads 0 for the empty cart |
| HomeLookup.LastOccurrenceWins | src/pages/Home/index.tsx:34 | when an id occurs more than once, the amount of its last line is the one read |
| HomeLookup.UniqueLookup | src/pages/Home/index.tsx:33-37 | for a cart with unique ids, each line's id reads as that line's amount |

## Left out

- React plumbing is not modelled: the context, `useRef`/`useEffect` scheduling and rendering. The change check at `useCart.tsx:58` becomes "write the store on every commit, not at start-up".
- `toast` notifications are not modelled. Each operation returns the notification kind instead (`CartError`, or none).
- `api.get` HTTP calls are foreign calls. Each becomes a parameter: the stock answer as an optional integer, the catalog answer as an optional product.
- `localStorage` and `JSON.stringify`/`JSON.parse` are not modelled. The store is an optional sequence of lines, and serialisation is the identity.
- `JSON.parse` at `useCart.tsx:38` is not guarded, so a malformed stored value is not modelled: the store holds either no record or a sequence of lines.
- Concurrency is not modelled. The async suspension points, and the lost update when two operations on the same product overlap, are out of scope; each operation runs as one step.
- Shallow-copy aliasing is not modelled. At `useCart.tsx:71/88` and `145/152` the line object is mutated in place and shared with the previous snapshot; the model uses value semantics.
- Numbers are modelled as unbounded integers. Fractional or `NaN` amounts and stocks are not modelled, and prices are carried as reals without arithmetic.
- `src/pages/Cart/index.tsx` is not part of this model. It holds display, floating-point subtotals and currency formatting, and its handlers only pass `amount ± 1` to `updateProductAmount`.
- `loadProducts` in `src/pages/Home/index.tsx:40-59` is a network fetch plus price formatting, and is not modelled.
