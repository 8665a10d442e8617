/** The inventory slice of the application's store: the records fetched from
    the tabular store, the slice's state, its six actions, the reducer that
    maps a state and an action to the next state, and the two selectors
    (react-native/src/store/inventory.ts). */
module Inventory {
  import opened Wrappers

  /** The optional named attributes of a record; any of them may be absent. */
  datatype Fields = Fields(
    posted: Option<string>,
    productCode: Option<string>,
    productName: Option<string>,
    productImage: Option<string>,
    productCategories: Option<string>)

  /** One record of the tabular store. */
  datatype Item = Item(id: string, createdTime: string, fields: Fields)

  /** The pagination cursor, typed `number | string` in the source. */
  datatype Offset = Num(n: int) | Cursor(s: string)

  /** The cursor the slice starts from, and the one a response without a
      cursor is mapped to. */
  const Zero: Offset := Num(0)

  datatype State = State(
    fetching: bool,
    sending: bool,
    byId: map<string, Item>,
    allIds: seq<string>,
    offset: Offset)

  /** The slice's six action kinds, plus every action of another slice that
      reaches the reducer. Error payloads are left out: the reducer ignores them. */
  datatype Action =
    | FetchStarted                                        // FETCH_INVENTORY
    | FetchSucceeded(records: seq<Item>, cursor: Offset)  // FETCH_INVENTORY_SUCCESS
    | FetchFailed                                         // FETCH_INVENTORY_ERROR
    | SendStarted                                         // SEND_INVENTORY
    | SendSucceeded(record: Item)                         // SEND_INVENTORY_SUCCESS
    | SendFailed                                          // SEND_INVENTORY_ERROR
    | Unrelated                                           // any other action type
  {
    predicate IsFetch() { FetchStarted? || FetchSucceeded? || FetchFailed? }
    predicate IsSend() { SendStarted? || SendSucceeded? || SendFailed? }
  }

  const InitialState: State := State(false, false, map[], [], Zero)

  /** The slice invariant: every listed id has a record. */
  predicate AllIdsKnown(s: State) {
    forall i :: 0 <= i < |s.allIds| ==> s.allIds[i] in s.byId
  }

  lemma InitialStateIsEmpty()
    ensures !InitialState.fetching && !InitialState.sending
    ensures InitialState.byId == map[] && InitialState.allIds == []
    ensures InitialState.offset == Zero
    ensures AllIdsKnown(InitialState) && SelectInventory(InitialState) == []
  {
  }

  /** The ids of a page, in page order (`records.map(item => item.id)`). */
  function Ids(records: seq<Item>): (ids: seq<string>)
    ensures |ids| == |records|
    ensures forall i :: 0 <= i < |records| ==> ids[i] == records[i].id
  {
    seq(|records|, i requires 0 <= i < |records| => records[i].id)
  }

  /** The map the `reduce` callback builds from one page, read as a left fold:
      every record stored under its id, a later record overwriting an earlier
      one with the same id. */
  function PageIndex(records: seq<Item>): (byId: map<string, Item>)
    ensures forall id :: id in byId ==> byId[id].id == id
  {
    if records == [] then map[]
    else
      var last := records[|records| - 1];
      PageIndex(records[..|records| - 1])[last.id := last]
  }

  /** No record after position `i` carries the id of the record at `i`. */
  predicate IsLastOfId(records: seq<Item>, i: int) {
    0 <= i < |records| &&
    forall j :: i < j < |records| ==> records[j].id != records[i].id
  }

  /** The page index holds exactly the page's ids, and each id is mapped to
      the last record of the page that carries it. */
  lemma {:induction false} PageIndexLastWins(records: seq<Item>)
    ensures forall id :: id in PageIndex(records) <==> id in Ids(records)
    ensures forall i :: IsLastOfId(records, i) ==>
      records[i].id in PageIndex(records) && PageIndex(records)[records[i].id] == records[i]
  {
    if records != [] {
      var n := |records| - 1;
      var init := records[..n];
      PageIndexLastWins(init);
      assert Ids(records) == Ids(init) + [records[n].id];
      forall i | IsLastOfId(records, i)
        ensures records[i].id in PageIndex(records) && PageIndex(records)[records[i].id] == records[i]
      {
        if i < n {
          assert records[n].id != records[i].id;
          assert IsLastOfId(init, i);
        }
      }
    }
  }

  /** The `reduce` callback of the success case, which fills its accumulator
      in place, one record after the other. */
  method IndexPage(records: seq<Item>) returns (byId: map<string, Item>)
    ensures byId == PageIndex(records)
  {
    byId := map[];
    for i := 0 to |records|
      invariant byId == PageIndex(records[..i])
    {
      assert records[..i + 1][..i] == records[..i];
      byId := byId[records[i].id := records[i]];
    }
    assert records[..|records|] == records;
  }

  /** `inventoryReducer` once the state is present. Only the success action
      touches the records, the id list and the cursor; each flag is moved only
      by its own three actions; an unrelated action changes nothing. */
  function Reduce(s: State, a: Action): (r: State)
    ensures !a.FetchSucceeded? ==> r.byId == s.byId && r.allIds == s.allIds && r.offset == s.offset
    ensures a.IsFetch() ==> r.fetching == a.FetchStarted?
    ensures !a.IsFetch() ==> r.fetching == s.fetching
    ensures a.IsSend() ==> r.sending == a.SendStarted?
    ensures !a.IsSend() ==> r.sending == s.sending
    ensures a.Unrelated? ==> r == s
  {
    match a
    case FetchStarted => s.(fetching := true)
    case FetchSucceeded(records, cursor) =>
      s.(fetching := false,
         byId := s.byId + PageIndex(records),
         allIds := s.allIds + Ids(records),
         offset := cursor)
    case FetchFailed => s.(fetching := false)
    case SendStarted => s.(sending := true)
    case SendSucceeded(_) => s.(sending := false)
    case SendFailed => s.(sending := false)
    case Unrelated => s
  }

  /** `inventoryReducer` as the store calls it: an absent state stands for the
      initial one, which is how the store obtains its first state. */
  function InventoryReducer(state: Option<State>, a: Action): (r: State)
    ensures state.None? ==> r == Reduce(InitialState, a)
    ensures state.None? && a.Unrelated? ==> r == InitialState
    ensures state.Some? ==> r == Reduce(state.value, a)
  {
    Reduce(state.GetOr(InitialState), a)
  }

  /** A successful page appends its ids, in page order and duplicates kept,
      behind the ids already listed, and replaces the cursor. */
  lemma FetchSuccessAppends(s: State, records: seq<Item>, cursor: Offset)
    ensures var r := Reduce(s, FetchSucceeded(records, cursor));
      && |r.allIds| == |s.allIds| + |records|
      && r.allIds[..|s.allIds|] == s.allIds
      && (forall i :: 0 <= i < |records| ==> r.allIds[|s.allIds| + i] == records[i].id)
      && r.offset == cursor
      && !r.fetching && r.sending == s.sending
  {
  }

  /** A successful page adds its ids to the keys; each id of the page maps to
      the page's last record with that id, every other key keeps its record. */
  lemma {:induction false} FetchSuccessById(s: State, records: seq<Item>, cursor: Offset)
    ensures var r := Reduce(s, FetchSucceeded(records, cursor));
      && (forall id :: id in r.byId <==> id in s.byId || id in Ids(records))
      && (forall i :: IsLastOfId(records, i) ==> r.byId[records[i].id] == records[i])
      && (forall id :: id in s.byId && id !in Ids(records) ==> r.byId[id] == s.byId[id])
  {
    PageIndexLastWins(records);
  }

  /** Receiving the same page twice leaves the same records as receiving it
      once, while the id list grows by the page size each time. */
  lemma RepeatedPageSameRecords(s: State, records: seq<Item>, cursor: Offset)
    ensures var once := Reduce(s, FetchSucceeded(records, cursor));
      var twice := Reduce(once, FetchSucceeded(records, cursor));
      && twice.byId == once.byId
      && |twice.allIds| == |once.allIds| + |records|
      && twice.offset == once.offset
  {
  }

  /** Every transition keeps every listed id among the record keys. */
  lemma {:induction false} ReducePreservesKnownIds(s: State, a: Action)
    requires AllIdsKnown(s)
    ensures AllIdsKnown(Reduce(s, a))
  {
    if a.FetchSucceeded? {
      var r := Reduce(s, a);
      var n := |s.allIds|;
      PageIdsAreKeys(a.records);
      forall i | 0 <= i < |r.allIds| ensures r.allIds[i] in r.byId {
        if i >= n {
          assert r.allIds[i] == a.records[i - n].id;
        }
      }
    }
  }

  /** Every id of a page is a key of the page's index. */
  lemma {:induction false} PageIdsAreKeys(records: seq<Item>)
    ensures forall k :: 0 <= k < |records| ==> records[k].id in PageIndex(records)
  {
    PageIndexLastWins(records);
    forall k | 0 <= k < |records| ensures records[k].id in PageIndex(records) {
      assert Ids(records)[k] == records[k].id;
    }
  }

  /** The state after the reducer has seen `actions` in order. */
  function Run(s: State, actions: seq<Action>): (r: State)
    decreases |actions|
  {
    if actions == [] then s else Run(Reduce(s, actions[0]), actions[1..])
  }

  /** The invariant holds after any sequence of actions. */
  lemma {:induction false} RunPreservesKnownIds(s: State, actions: seq<Action>)
    requires AllIdsKnown(s)
    ensures AllIdsKnown(Run(s, actions))
    decreases |actions|
  {
    if actions != [] {
      ReducePreservesKnownIds(s, actions[0]);
      RunPreservesKnownIds(Reduce(s, actions[0]), actions[1..]);
    }
  }

  /** The id list is append-only: whatever actions follow, the ids already
      listed stay in place at the front. */
  lemma {:induction false} RunKeepsListedIds(s: State, actions: seq<Action>)
    ensures |s.allIds| <= |Run(s, actions).allIds|
    ensures Run(s, actions).allIds[..|s.allIds|] == s.allIds
    decreases |actions|
  {
    if actions != [] {
      var next := Reduce(s, actions[0]);
      RunKeepsListedIds(next, actions[1..]);
      assert next.allIds[..|s.allIds|] == s.allIds;
      assert Run(s, actions).allIds[..|next.allIds|][..|s.allIds|] == s.allIds;
    }
  }

  /** The record stored under `id`, or none (`byId[id]` is `undefined`). */
  function Lookup(byId: map<string, Item>, id: string): (item: Option<Item>)
  {
    if id in byId then Some(byId[id]) else None
  }

  /** `selectors.selectInventory`: the id list mapped through the records. */
  function SelectInventory(s: State): (items: seq<Option<Item>>)
    ensures |items| == |s.allIds|
    ensures forall i :: 0 <= i < |items| ==>
      (items[i].Some? <==> s.allIds[i] in s.byId) && (items[i].Some? ==> items[i].value == s.byId[s.allIds[i]])
  {
    seq(|s.allIds|, i requires 0 <= i < |s.allIds| => Lookup(s.byId, s.allIds[i]))
  }

  /** `selectors.inventoryOffset`. */
  function InventoryOffset(s: State): (o: Offset)
    ensures o == s.offset
  {
    s.offset
  }

  /** The selection has one entry per listed id, and it misses no record
      exactly when the slice invariant holds. */
  lemma SelectInventoryComplete(s: State)
    ensures |SelectInventory(s)| == |s.allIds|
    ensures None !in SelectInventory(s) <==> AllIdsKnown(s)
    ensures AllIdsKnown(s) ==>
      forall i :: 0 <= i < |s.allIds| ==> SelectInventory(s)[i] == Some(s.byId[s.allIds[i]])
  {
  }

  /** In every state the store can reach, the selection misses nothing. */
  lemma ReachableSelectionComplete(actions: seq<Action>)
    ensures var s := Run(InitialState, actions);
      |SelectInventory(s)| == |s.allIds| && None !in SelectInventory(s)
  {
    RunPreservesKnownIds(InitialState, actions);
    SelectInventoryComplete(Run(InitialState, actions));
  }
}
