# Inventory store and product entry, in Dafny

This project models the logic of a small inventory-browsing app. The app lists
products held in a tabular store, pages through them with a cursor, and adds a
product by scanned barcode after looking its metadata up in a product database.

- `wrappers.dfy` — `Option`, the stand-in for a JavaScript value that may be `undefined`.
- `inventory.dfy` (module `Inventory`) — the inventory slice of the store.
  It holds the records (`Item`, `Fields`), the slice state (`State`: the
  `fetching` and `sending` flags, the id→record map `byId`, the ordered id list
  `allIds`, and the cursor `offset`, typed `number | string` as `Offset`), and the
  six actions. It also holds the reducer `Reduce` and its store-facing form
  `InventoryReducer`, the two selectors, and `Run`, the reducer folded over a
  sequence of actions. The page merge of the success case is the function
  `PageIndex`. The in-place `reduce` callback that builds it is the method
  `IndexPage`, proved equal to `PageIndex`.
- `thunks.dfy` (module `InventoryThunks`) — the three asynchronous operations.
  Each network request is replaced by the outcome it would have: a failure,
  or a decoded body (`PageResponse`, `LookupResponse`, `CreateResponse`).
  Each operation is specified as the ordered list of its observable effects
  (`Effect`: a dispatched action, a request, or the `goBack` callback). The
  specifications are `FetchEffects` and `SendEffects`. The class `Store` holds
  the slice state and the effects so far. Its methods run the operations step
  by step, with the `sending` guard read from the current state. Each method is
  proved to append exactly the specified effects and to leave the state that
  the reducer gives for the dispatched actions.
- `product_item.dfy` (module `ProductItem`) — the two values a list entry
  derives from a record. The category chips are JavaScript's `split(",")`
  followed by `slice(0, 3)`. The thumbnail address falls back to the
  placeholder image.

Behaviour of the code that the model keeps, though it may surprise a reader:

- A lookup body that is an object without a `product` member makes reading the
  product name throw. So the send stops with SEND_INVENTORY_ERROR and no record
  is created. A lookup body that decodes to `null` short-circuits the optional
  chain instead: the record is still created, with only its product code set
  (`LookupProduct`).
- A list body without `records` makes the reducer throw on the success action.
  The store then keeps its state, and the thunk's `catch` dispatches
  FETCH_INVENTORY_ERROR. The model records only the error action for that case.
- The creation response's status is never checked. Every decoded body counts
  as success, so it is followed by `goBack`.
- The next-page operation puts whatever cursor it is given into its request,
  `0` included. The model allows `NextPage(Num(0))`.
- The two fetch thunks share one body in the model (`Store.Fetch`). They differ
  only in the URL they request: the first page also asks for at most 100
  records of the `Grid view` view, while the next page passes only the cursor.
  The model keeps only which page is requested (see HTTP under "## Left out").

## Model

| member | source | states |
|---|---|---|
| `Inventory.InitialStateIsEmpty` | react-native/src/store/inventory.ts:26-32 | the initial state has both flags false, no records, no ids and cursor 0; it satisfies the slice invariant and selects nothing |
| `Inventory.Reduce` | react-native/src/store/inventory.ts:38-78 | only FETCH_INVENTORY_SUCCESS changes `byId`, `allIds` or `offset`; a fetch action sets `fetching` to whether it is FETCH_INVENTORY and leaves `sending`; a send action sets `sending` to whether it is SEND_INVENTORY and leaves `fetching`; any other action returns the state unchanged |
| `Inventory.InventoryReducer` | react-native/src/store/inventory.ts:34-37 | an absent state stands for the initial one for every action, so the store's first action of another kind yields the initial state; a present state goes through the reducer |
| `Inventory.Ids` | react-native/src/store/inventory.ts:56 | the ids of a page, one per record, in page order |
| `Inventory.PageIndex` | react-native/src/store/inventory.ts:50-53 | the page's index stores every record under its own id |
| `Inventory.PageIndexLastWins` | react-native/src/store/inventory.ts:50-53 | the page's index has exactly the page's ids as keys, and each id maps to the last record of the page that carries it |
| `Inventory.PageIdsAreKeys` | react-native/src/store/inventory.ts:50-53 | every id of a page is a key of the page's index |
| `Inventory.IndexPage` | react-native/src/store/inventory.ts:50-53 | the accumulator filled in place, record after record, ends equal to the page index |
| `Inventory.FetchSuccessAppends` | react-native/src/store/inventory.ts:55-58 | after a success the id list is the old list followed by the page's ids in page order, longer by exactly the page size (duplicates kept), and the cursor is the action's |
| `Inventory.FetchSuccessById` | react-native/src/store/inventory.ts:48-54 | after a success the keys are the old keys plus the page's ids; each page id maps to the page's last record with that id; every other old key keeps its record |
| `Inventory.RepeatedPageSameRecords` | react-native/src/store/inventory.ts:44-58 | receiving the same page twice leaves the same records and cursor as receiving it once, while the id list grows by the page size again |
| `Inventory.ReducePreservesKnownIds` | react-native/src/store/inventory.ts:48-57 | every transition keeps each listed id among the keys of `byId` |
| `Inventory.RunPreservesKnownIds` | react-native/src/store/inventory.ts:34-79 | the invariant holds after any sequence of actions |
| `Inventory.RunKeepsListedIds` | react-native/src/store/inventory.ts:55-57 | the id list is append-only: after any actions the old list is still its prefix |
| `Inventory.SelectInventoryComplete` | react-native/src/store/inventory.ts:222-223 | the selection has one entry per listed id; it misses no record if and only if the invariant holds, and then entry i is the record of the i-th id |
| `Inventory.SelectInventory` | react-native/src/store/inventory.ts:222-223 | one entry per listed id, in list order; entry i is present exactly when the i-th id has a record, and is then that record |
| `Inventory.InventoryOffset` | react-native/src/store/inventory.ts:224 | the cursor selector returns the slice's cursor as it is |
| `Inventory.ReachableSelectionComplete` | react-native/src/store/inventory.ts:222-223 | in every state reachable from the initial one the selection has one entry per listed id and misses no record |
| `InventoryThunks.Truthy` | react-native/src/store/inventory.ts:132 | an absent or null cursor is falsy; only a number or a string can be truthy |
| `InventoryThunks.ResponseOffset` | react-native/src/store/inventory.ts:132 | the response cursor or 0: the cursor is not 0 exactly when the response's is truthy, and a truthy string or number is kept as it is; absent, null, 0 and the empty string all give 0 |
| `InventoryThunks.FetchEffects` | react-native/src/store/inventory.ts:118-141 | a fetch dispatches FETCH_INVENTORY, then requests its page, then dispatches one outcome; the success action is dispatched exactly when the body carries records, with those records and the defaulted cursor |
| `InventoryThunks.FetchActions` | react-native/src/store/inventory.ts:116-171 | the actions of a fetch are FETCH_INVENTORY followed by its outcome action |
| `InventoryThunks.FetchOutcome` | react-native/src/store/inventory.ts:116-171 | after a fetch `fetching` is false and `sending` unchanged; on success the state is the success action applied, the page ids are appended and the selected cursor is the defaulted response cursor; on failure records, ids and cursor are unchanged |
| `InventoryThunks.NewRecordFields` | react-native/src/store/inventory.ts:196-201 | the created record's product code is the scanned string; its name, categories and image are the looked-up ones; no posting date is sent |
| `InventoryThunks.LookupProduct` | react-native/src/store/inventory.ts:198-200 | the product is read exactly when the lookup body is `null` or carries a product; a `null` body gives every field absent; an object body gives its product |
| `InventoryThunks.SendEffects` | react-native/src/store/inventory.ts:179-183 | a send performs no effect at all exactly when a send is pending |
| `InventoryThunks.SendEffectsOrder` | react-native/src/store/inventory.ts:183-216 | SEND_INVENTORY first, the lookup second, each request at most once, so the send has exactly 3, 4 or 5 effects; the creation request comes third, is made if and only if the product read succeeds, and carries the scanned code and the read fields; `goBack` happens if and only if both requests succeed, then once, last, right after SEND_INVENTORY_SUCCESS; the success action is dispatched if and only if `goBack` happens; otherwise the send ends with SEND_INVENTORY_ERROR |
| `InventoryThunks.NullLookupStillCreates` | react-native/src/store/inventory.ts:196-201 | a lookup body that decodes to `null` still leads to a creation request carrying only the scanned code |
| `InventoryThunks.SendActions` | react-native/src/store/inventory.ts:207-216 | a send past the guard dispatches exactly two actions: SEND_INVENTORY and one of SEND_INVENTORY_SUCCESS or SEND_INVENTORY_ERROR |
| `InventoryThunks.SendOutcome` | react-native/src/store/inventory.ts:65-75 | a send refused by the guard leaves the state unchanged; any other ends with `sending` false; no send changes `fetching`, the records, the ids or the cursor, so a created record is not listed |
| `InventoryThunks.TwoPagesFromFreshStore` | react-native/src/store/inventory.ts:144-172 | from a fresh store, a first page with cursor "off1" selects its record with cursor "off1", and a next page without a cursor selects both records in order with cursor 0 |
| `InventoryThunks.Store.constructor` | react-native/src/store/inventory.ts:34-37 | a new store holds the initial state and has performed no effect |
| `InventoryThunks.Store.Dispatch` | react-native/src/store/inventory.ts:34-79 | dispatching replaces the state by the reducer's result, keeps the invariant and records the action |
| `InventoryThunks.Store.SelectItems` | react-native/src/store/inventory.ts:222-223 | selecting from the store gives the selector's result on its state, with one entry per listed id and none missing |
| `InventoryThunks.Store.Fetch` | react-native/src/store/inventory.ts:116-171 | the shared fetch body appends exactly the specified fetch effects and leaves the state the reducer gives for their actions |
| `InventoryThunks.Store.FetchInventory` | react-native/src/store/inventory.ts:116-142 | the first-page fetch appends its specified effects and leaves the reducer's state for them |
| `InventoryThunks.Store.FetchMoreInventory` | react-native/src/store/inventory.ts:144-172 | the next-page fetch, for the cursor its caller passes, appends its specified effects and leaves the reducer's state for them |
| `InventoryThunks.Store.SendInventory` | react-native/src/store/inventory.ts:174-218 | the guard reads the current state; the send appends exactly the specified send effects and leaves the reducer's state for their actions |
| `ProductItem.Split` | react-native/src/components/ProductItem.tsx:46 | splitting always gives at least one piece (the empty string gives one empty piece) |
| `ProductItem.JoinSplit` | react-native/src/components/ProductItem.tsx:46 | joining the pieces with the separator gives the original string back |
| `ProductItem.SplitPieces` | react-native/src/components/ProductItem.tsx:46 | no piece contains the separator, and there is one piece more than there are separators |
| `ProductItem.Chips` | react-native/src/components/ProductItem.tsx:45-47 | at most three chips, and none exactly when the fields or the categories are absent |
| `ProductItem.ChipsArePrefix` | react-native/src/components/ProductItem.tsx:45-48 | at most three chips; none when the fields or the categories are absent; otherwise the chips are the leading min(3, k) comma pieces, untrimmed and in order, contain no comma, and join into a prefix of the categories, the whole of it when there are at most three pieces |
| `ProductItem.EmptyCategoriesGiveOneEmptyChip` | react-native/src/components/ProductItem.tsx:45-47 | empty categories give exactly one empty chip |
| `ProductItem.ImageUri` | react-native/src/components/ProductItem.tsx:22-24 | the address is never empty; a non-empty image address is used as it is; an absent or empty one, or absent fields, give the placeholder |

## Left out

- HTTP: the URLs, query strings (`maxRecords`, `view`, `offset`), headers, the `Authorization` credential and JSON decoding are not modelled. Each request is an outcome parameter. The effect log records only the page requested, the looked-up code and the fields sent.
- Overlapping operations: in the source, responses of concurrent fetches can arrive in any order. The cursor of the response that arrives last wins; every page's ids are appended in arrival order and, per id, the later record overwrites the earlier. The `Store` runs each operation to completion. Any interleaving of dispatches is still covered by the lemmas about `Run` over arbitrary action sequences.
- `formatDate` and `isNewlyPosted` in ProductItem.tsx depend on a date library and the wall clock.
- All rendering: cards, chips, images and styles.
- react-native/src/HomeScreen.tsx only wires the operations to screen events and holds no logic of its own.
- Redux and thunk framework types. The action-type strings appear only as constructors of `Action`. Error payloads are dropped because the reducer ignores them.
- JSON values of unexpected types: booleans, objects, non-integer numbers and NaN for the cursor, and non-string record fields. The cursor is modelled as missing, null, an integer or a string.
- `byId` is a plain JavaScript object in the source. Ids that collide with its prototype's members (`"constructor"`, `"__proto__"`) would behave differently from the map used here. Record ids of the tabular store never take those forms.
- `goBack` throwing after SEND_INVENTORY_SUCCESS would also dispatch SEND_INVENTORY_ERROR. The model takes the callback as one that returns.
- For a list body without `records`, the success dispatch that throws in the reducer is not recorded in the effects. Only its consequence is modelled: the state is unchanged and the error action follows.
