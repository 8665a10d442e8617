/** The slice's three asynchronous operations (`actions.fetchInventory`,
    `actions.fetchMoreInventory`, `actions.sendInventory` in
    react-native/src/store/inventory.ts). The network is replaced by the
    outcome each request would have; an operation is then the ordered list of
    effects it performs: dispatched actions, requests and the `goBack` callback.
    The `Store` class runs them step by step against the reducer. */
module InventoryThunks {
  import opened Wrappers
  import opened Inventory

  /** The `offset` member of a decoded list response, as the JSON gives it. */
  datatype RawOffset = Missing | Null | Number(n: int) | Text(s: string)

  /** JavaScript truthiness of that member: an absent or null member is falsy. */
  predicate Truthy(raw: RawOffset)
    ensures Truthy(raw) ==> raw.Number? || raw.Text?
  {
    match raw
    case Number(n) => n != 0
    case Text(s) => s != ""
    case _ => false
  }

  /** The cursor a thunk puts in its success action: `body.offset || 0`. A
      truthy cursor is kept as it is; anything else becomes 0. */
  function ResponseOffset(raw: RawOffset): (o: Offset)
    ensures o != Zero <==> Truthy(raw)
    ensures raw.Text? && raw.s != "" ==> o == Cursor(raw.s)
    ensures raw.Number? && raw.n != 0 ==> o == Num(raw.n)
  {
    match raw
    case Number(n) => if n != 0 then Num(n) else Zero
    case Text(s) => if s != "" then Cursor(s) else Zero
    case _ => Zero
  }

  /** Which list request a fetch sends: the first page, or the page after a
      cursor given by the caller. */
  datatype PageRequest = FirstPage | NextPage(after: Offset)

  /** What a list request yields: a transport or decoding failure, or a body
      whose `records` member may be missing. */
  datatype PageResponse = PageFailed | PageBody(records: Option<seq<Item>>, offset: RawOffset)

  /** The `product` member of a lookup body. */
  datatype Product = Product(name: Option<string>, categories: Option<string>, imageUrl: Option<string>)

  /** What the product lookup yields: a failure, a body that decodes to
      `null`, or an object body, which may lack its `product` member. */
  datatype LookupResponse = LookupFailed | LookupNull | LookupBody(product: Option<Product>)

  /** What the record creation yields. The status code is not inspected, so
      every decoded body is taken as the created record. */
  datatype CreateResponse = CreateFailed | CreateBody(record: Item)

  /** What an operation does that can be observed from outside it. */
  datatype Effect =
    | Dispatch(action: Action)
    | RequestPage(page: PageRequest)
    | RequestLookup(code: string)
    | RequestCreate(fields: Fields)
    | GoBack

  /** The fields of the record a send creates: the scanned code and the
      looked-up name, categories and image. */
  function NewRecordFields(code: string, p: Product): (f: Fields)
    ensures f.productCode == Some(code) && f.posted == None
    ensures f.productName == p.name && f.productCategories == p.categories && f.productImage == p.imageUrl
  {
    Fields(None, Some(code), p.name, p.imageUrl, p.categories)
  }

  /** The actions among `effects`, in order. */
  function ActionsOf(effects: seq<Effect>): (actions: seq<Action>)
    ensures |actions| <= |effects|
  {
    if effects == [] then []
    else (if effects[0].Dispatch? then [effects[0].action] else []) + ActionsOf(effects[1..])
  }

  lemma {:induction false} ActionsOfAppend(a: seq<Effect>, b: seq<Effect>)
    ensures ActionsOf(a + b) == ActionsOf(a) + ActionsOf(b)
  {
    if a == [] {
      assert a + b == b;
    } else {
      var head := if a[0].Dispatch? then [a[0].action] else [];
      assert (a + b)[0] == a[0];
      assert (a + b)[1..] == a[1..] + b;
      assert ActionsOf(a + b) == head + ActionsOf(a[1..] + b);
      ActionsOfAppend(a[1..], b);
      assert ActionsOf(a) == head + ActionsOf(a[1..]);
    }
  }

  lemma ActionsOfCons(e: Effect, rest: seq<Effect>)
    ensures ActionsOf([e] + rest) == (if e.Dispatch? then [e.action] else []) + ActionsOf(rest)
  {
  }

  /** The effects of one fetch: FETCH_INVENTORY, then the request, then
      exactly one outcome action. The success action is dispatched exactly
      when the body carries its records. A body without them makes the
      reducer throw on the success action, which leaves the state as it was,
      and the thunk's `catch` then dispatches the error action. */
  function FetchEffects(page: PageRequest, resp: PageResponse): (effects: seq<Effect>)
    ensures |effects| == 3
    ensures effects[0] == Dispatch(FetchStarted) && effects[1] == RequestPage(page)
    ensures effects[2].Dispatch? && effects[2].action.IsFetch() && !effects[2].action.FetchStarted?
    ensures effects[2].action.FetchSucceeded? <==> resp.PageBody? && resp.records.Some?
    ensures effects[2].action.FetchSucceeded? ==>
      effects[2].action.records == resp.records.value &&
      effects[2].action.cursor == ResponseOffset(resp.offset)
  {
    [Dispatch(FetchStarted), RequestPage(page)] +
    match resp
    case PageBody(Some(records), raw) => [Dispatch(FetchSucceeded(records, ResponseOffset(raw)))]
    case _ => [Dispatch(FetchFailed)]
  }

  /** The product a send reads from the lookup body with
      `body?.product["product_name"]` and its two siblings, or none when that
      read throws. A `null` body short-circuits the whole chain to
      `undefined`, so every field comes out absent; an object body without
      `product` makes the indexing throw. */
  function LookupProduct(lookup: LookupResponse): (p: Option<Product>)
    ensures p.Some? <==> lookup.LookupNull? || (lookup.LookupBody? && lookup.product.Some?)
    ensures lookup.LookupNull? ==> p == Some(Product(None, None, None))
    ensures lookup.LookupBody? ==> p == lookup.product
  {
    match lookup
    case LookupNull => Some(Product(None, None, None))
    case LookupBody(product) => product
    case LookupFailed => None
  }

  /** Whether a send reaches the creation request. */
  predicate LookupFound(lookup: LookupResponse) {
    LookupProduct(lookup).Some?
  }

  /** The effects of one send: nothing while a send is pending; otherwise
      SEND_INVENTORY, the lookup request, then the creation request when the
      lookup found a product, and last either SEND_INVENTORY_SUCCESS followed
      by `goBack` or SEND_INVENTORY_ERROR. */
  function SendEffects(s: State, code: string, lookup: LookupResponse, create: CreateResponse)
    : (effects: seq<Effect>)
    ensures s.sending <==> effects == []
  {
    if s.sending then []
    else
      [Dispatch(SendStarted), RequestLookup(code)] +
      match LookupProduct(lookup)
      case Some(p) =>
        [RequestCreate(NewRecordFields(code, p))] +
        (match create
         case CreateBody(record) => [Dispatch(SendSucceeded(record)), GoBack]
         case CreateFailed => [Dispatch(SendFailed)])
      case None => [Dispatch(SendFailed)]
  }

  /** The order a send keeps. SEND_INVENTORY comes first and the lookup
      request second, and each request is made at most once; the creation request is made only after a successful
      lookup and carries the scanned code; `goBack` is called once, last,
      right after SEND_INVENTORY_SUCCESS, and only when both requests succeed;
      any failure ends with SEND_INVENTORY_ERROR and no success action. */
  lemma SendEffectsOrder(s: State, code: string, lookup: LookupResponse, create: CreateResponse)
    requires !s.sending
    ensures var effects := SendEffects(s, code, lookup, create);
      && |effects| == (if LookupFound(lookup) then (if create.CreateBody? then 5 else 4) else 3)
      && effects[0] == Dispatch(SendStarted) && effects[1] == RequestLookup(code)
      && (LookupFound(lookup) ==> effects[2] == RequestCreate(NewRecordFields(code, LookupProduct(lookup).value)))
      && ((exists e :: e in effects && e.RequestCreate?) <==> LookupFound(lookup))
      && (forall e :: e in effects && e.RequestCreate? ==>
            e.fields.productCode == Some(code) && e.fields == NewRecordFields(code, LookupProduct(lookup).value))
      && (GoBack in effects <==> LookupFound(lookup) && create.CreateBody?)
      && (GoBack in effects ==>
            && effects[|effects| - 1] == GoBack
            && effects[|effects| - 2] == Dispatch(SendSucceeded(create.record))
            && GoBack !in effects[..|effects| - 1])
      && ((exists e :: e in effects && e.Dispatch? && e.action.SendSucceeded?) <==> GoBack in effects)
      && (GoBack !in effects ==> effects[|effects| - 1] == Dispatch(SendFailed))
  {
    var effects := SendEffects(s, code, lookup, create);
    if LookupFound(lookup) {
      var p := LookupProduct(lookup).value;
      assert effects[2] == RequestCreate(NewRecordFields(code, p));
      if create.CreateBody? {
        assert effects == [Dispatch(SendStarted), RequestLookup(code), RequestCreate(NewRecordFields(code, p)),
                           Dispatch(SendSucceeded(create.record)), GoBack];
        assert effects[3].Dispatch? && effects[3].action.SendSucceeded?;
      } else {
        assert effects == [Dispatch(SendStarted), RequestLookup(code), RequestCreate(NewRecordFields(code, p)),
                           Dispatch(SendFailed)];
      }
    } else {
      assert effects == [Dispatch(SendStarted), RequestLookup(code), Dispatch(SendFailed)];
    }
  }

  /** A fetch dispatches FETCH_INVENTORY and then its outcome action. */
  lemma FetchActions(page: PageRequest, resp: PageResponse)
    ensures var effects := FetchEffects(page, resp);
      ActionsOf(effects) == [FetchStarted, effects[2].action]
  {
    var effects := FetchEffects(page, resp);
    assert effects == [effects[0]] + ([effects[1]] + ([effects[2]] + []));
    ActionsOfCons(effects[0], [effects[1]] + ([effects[2]] + []));
    ActionsOfCons(effects[1], [effects[2]] + []);
    ActionsOfCons(effects[2], []);
  }

  /** After a fetch has run its course the loading flag is down and the send
      flag untouched; a successful page is appended and its cursor, defaulted,
      becomes the slice's cursor; a failed one leaves the list and the cursor. */
  lemma FetchOutcome(s: State, page: PageRequest, resp: PageResponse)
    ensures var r := Run(s, ActionsOf(FetchEffects(page, resp)));
      && !r.fetching && r.sending == s.sending
      && (resp.PageBody? && resp.records.Some? ==>
            r == Reduce(s, FetchSucceeded(resp.records.value, ResponseOffset(resp.offset))) &&
            r.allIds == s.allIds + Ids(resp.records.value) &&
            InventoryOffset(r) == ResponseOffset(resp.offset))
      && (!(resp.PageBody? && resp.records.Some?) ==>
            r.byId == s.byId && r.allIds == s.allIds && r.offset == s.offset)
  {
    var effects := FetchEffects(page, resp);
    FetchActions(page, resp);
    var s1 := Reduce(s, FetchStarted);
    assert Run(s, [FetchStarted, effects[2].action]) == Run(s1, [effects[2].action]);
    assert Run(s1, [effects[2].action]) == Reduce(s1, effects[2].action);
  }

  /** A send refused by the guard changes nothing; any other send ends with
      the send flag down. No send touches the records, the id list, the
      cursor or the loading flag, so a created record is not listed. */
  lemma SendOutcome(s: State, code: string, lookup: LookupResponse, create: CreateResponse)
    ensures var r := Run(s, ActionsOf(SendEffects(s, code, lookup, create)));
      && (s.sending ==> r == s)
      && (!s.sending ==> !r.sending)
      && r.fetching == s.fetching && r.byId == s.byId && r.allIds == s.allIds && r.offset == s.offset
  {
    if !s.sending {
      SendActions(s, code, lookup, create);
      var last := ActionsOf(SendEffects(s, code, lookup, create))[1];
      assert ActionsOf(SendEffects(s, code, lookup, create)) == [SendStarted, last];
      var s1 := Reduce(s, SendStarted);
      assert Run(s, [SendStarted, last]) == Run(s1, [last]);
      assert Run(s1, [last]) == Reduce(s1, last);
    }
  }

  /** A lookup body that decodes to `null` does not stop a send: the creation
      request is still made, carrying the scanned code and nothing else. */
  lemma NullLookupStillCreates(s: State, code: string, create: CreateResponse)
    requires !s.sending
    ensures RequestCreate(Fields(None, Some(code), None, None, None)) in SendEffects(s, code, LookupNull, create)
  {
  }

  /** A send that passes the guard dispatches SEND_INVENTORY and then
      exactly one outcome action: SEND_INVENTORY_SUCCESS or SEND_INVENTORY_ERROR. */
  lemma SendActions(s: State, code: string, lookup: LookupResponse, create: CreateResponse)
    requires !s.sending
    ensures var actions := ActionsOf(SendEffects(s, code, lookup, create));
      |actions| == 2 && actions[0] == SendStarted && actions[1].IsSend() && !actions[1].SendStarted?
  {
    var d0, r1 := Dispatch(SendStarted), RequestLookup(code);
    ActionsOfCons(d0, []);
    ActionsOfCons(r1, []);
    if LookupFound(lookup) {
      var c := RequestCreate(NewRecordFields(code, LookupProduct(lookup).value));
      ActionsOfCons(c, []);
      if create.CreateBody? {
        var d := Dispatch(SendSucceeded(create.record));
        ActionsOfCons(d, []);
        ActionsOfCons(GoBack, []);
        ActionsOfAppend([d0, r1, c], [d, GoBack]);
        ActionsOfAppend([d0, r1], [c]);
        ActionsOfAppend([d0], [r1]);
        ActionsOfAppend([d], [GoBack]);
        assert SendEffects(s, code, lookup, create) == [d0, r1, c] + [d, GoBack];
      } else {
        var d := Dispatch(SendFailed);
        ActionsOfCons(d, []);
        ActionsOfAppend([d0, r1, c], [d]);
        ActionsOfAppend([d0, r1], [c]);
        ActionsOfAppend([d0], [r1]);
        assert SendEffects(s, code, lookup, create) == [d0, r1, c] + [d];
      }
    } else {
      var d := Dispatch(SendFailed);
      ActionsOfCons(d, []);
      ActionsOfAppend([d0, r1], [d]);
      ActionsOfAppend([d0], [r1]);
      assert SendEffects(s, code, lookup, create) == [d0, r1] + [d];
    }
  }

  /** The application store: the inventory slice and the effects performed
      so far, in order. */
  class Store {
    var state: State
    var effects: seq<Effect>

    ghost predicate Valid()
      reads this
    {
      AllIdsKnown(state)
    }

    /** The store asks the reducer for its first state with an absent state
        and an action the slice does not handle. */
    constructor ()
      ensures Valid() && state == InitialState && effects == []
    {
      state := InventoryReducer(None, Unrelated);
      effects := [];
    }

    method Dispatch(a: Action)
      requires Valid()
      modifies this
      ensures Valid()
      ensures state == Reduce(old(state), a)
      ensures effects == old(effects) + [Effect.Dispatch(a)]
    {
      ReducePreservesKnownIds(state, a);
      state := Reduce(state, a);
      effects := effects + [Effect.Dispatch(a)];
    }

    /** `selectors.selectInventory` on the store's current state: the invariant
        the store keeps means that no entry is missing. */
    method SelectItems() returns (items: seq<Option<Item>>)
      requires Valid()
      ensures items == SelectInventory(state)
      ensures |items| == |state.allIds| && None !in items
    {
      SelectInventoryComplete(state);
      items := SelectInventory(state);
    }

    /** A request or a callback: observable, but no change to the state. */
    method Perform(e: Effect)
      requires !e.Dispatch?
      modifies this
      ensures state == old(state)
      ensures effects == old(effects) + [e]
    {
      effects := effects + [e];
    }

    /** The body shared by both fetch thunks. */
    method Fetch(page: PageRequest, resp: PageResponse)
      requires Valid()
      modifies this
      ensures Valid()
      ensures effects == old(effects) + FetchEffects(page, resp)
      ensures state == Run(old(state), ActionsOf(FetchEffects(page, resp)))
    {
      ghost var before := state;
      Dispatch(FetchStarted);
      ghost var started := state;
      Perform(RequestPage(page));
      match resp {
        case PageBody(Some(records), raw) =>
          Dispatch(FetchSucceeded(records, ResponseOffset(raw)));
        case _ =>
          Dispatch(FetchFailed);
      }
      var done := FetchEffects(page, resp);
      FetchActions(page, resp);
      assert Run(before, [FetchStarted, done[2].action]) == Run(started, [done[2].action]);
      assert Run(started, [done[2].action]) == Reduce(started, done[2].action);
    }

    /** `actions.fetchInventory()`. */
    method FetchInventory(resp: PageResponse)
      requires Valid()
      modifies this
      ensures Valid()
      ensures effects == old(effects) + FetchEffects(FirstPage, resp)
      ensures state == Run(old(state), ActionsOf(FetchEffects(FirstPage, resp)))
    {
      Fetch(FirstPage, resp);
    }

    /** `actions.fetchMoreInventory(offset)`, with the cursor its caller read. */
    method FetchMoreInventory(offset: Offset, resp: PageResponse)
      requires Valid()
      modifies this
      ensures Valid()
      ensures effects == old(effects) + FetchEffects(NextPage(offset), resp)
      ensures state == Run(old(state), ActionsOf(FetchEffects(NextPage(offset), resp)))
    {
      Fetch(NextPage(offset), resp);
    }

    /** `actions.sendInventory(code, goBack)`: the guard reads the current
        state, then the requests are made and the actions dispatched in order. */
    method SendInventory(code: string, lookup: LookupResponse, create: CreateResponse)
      requires Valid()
      modifies this
      ensures Valid()
      ensures effects == old(effects) + SendEffects(old(state), code, lookup, create)
      ensures state == Run(old(state), ActionsOf(SendEffects(old(state), code, lookup, create)))
    {
      ghost var before := state;
      if state.sending {
        assert SendEffects(before, code, lookup, create) == [];
        return;
      }
      Dispatch(SendStarted);
      ghost var started := state;
      Perform(RequestLookup(code));
      var product := LookupProduct(lookup);
      match product {
        case Some(p) =>
          Perform(RequestCreate(NewRecordFields(code, p)));
          match create {
            case CreateBody(record) =>
              Dispatch(SendSucceeded(record));
              Perform(GoBack);
            case CreateFailed =>
              Dispatch(SendFailed);
          }
        case None =>
          Dispatch(SendFailed);
      }
      SendActions(before, code, lookup, create);
      var last := ActionsOf(SendEffects(before, code, lookup, create))[1];
      assert ActionsOf(SendEffects(before, code, lookup, create)) == [SendStarted, last];
      assert Run(before, [SendStarted, last]) == Run(started, [last]);
      assert Run(started, [last]) == Reduce(started, last);
    }
  }

  /** Two pages in a row from a fresh store: the first with a cursor, the
      second without one. */
  lemma TwoPagesFromFreshStore(r1: Item, r2: Item)
    requires r1.id == "r1" && r2.id == "r2"
    ensures var a := Run(InitialState, ActionsOf(FetchEffects(FirstPage, PageBody(Some([r1]), Text("off1")))));
      var b := Run(a, ActionsOf(FetchEffects(NextPage(InventoryOffset(a)), PageBody(Some([r2]), Missing))));
      && SelectInventory(a) == [Some(r1)] && InventoryOffset(a) == Cursor("off1") && !a.fetching
      && SelectInventory(b) == [Some(r1), Some(r2)] && InventoryOffset(b) == Zero && !b.fetching
  {
    var a := Run(InitialState, ActionsOf(FetchEffects(FirstPage, PageBody(Some([r1]), Text("off1")))));
    FetchOutcome(InitialState, FirstPage, PageBody(Some([r1]), Text("off1")));
    FetchSuccessById(InitialState, [r1], Cursor("off1"));
    assert IsLastOfId([r1], 0);
    assert a.allIds == ["r1"];
    var page2 := PageBody(Some([r2]), Missing);
    FetchOutcome(a, NextPage(InventoryOffset(a)), page2);
    var b := Run(a, ActionsOf(FetchEffects(NextPage(InventoryOffset(a)), page2)));
    FetchSuccessById(a, [r2], Zero);
    assert IsLastOfId([r2], 0);
    assert b.allIds == ["r1", "r2"];
  }
}
