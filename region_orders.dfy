/**
 * The region order reconciler: one sync cycle of a region loads the ids of
 * the region's stored orders as removal candidates, walks the region's
 * order pages diffing every fetched order against the store, and finally
 * deletes the candidates that no successful page re-observed.
 *
 * The order collection is a map keyed by `order_id` (the collection has a
 * unique index on it).  Each page outcome is an input value; pages are
 * processed one after another.
 */
module RegionOrders {
  import opened Common

  /** An order as the market feed returns it (no region field). */
  datatype Order = Order(
    order_id: int,
    type_id: int,
    price: real,
    volume_remain: int,
    volume_total: int,
    is_buy_order: bool,
    location_id: int,
    system_id: int,
    range: string,
    issued: string,
    duration: int,
    min_volume: int)

  /** A stored order document: the fetched order plus its `region_id`. */
  datatype Stored = Stored(order: Order, region_id: int)

  /** The `$set` of an update: only the fields that changed. */
  datatype PriceVolume = PriceVolume(price: Option<real>, volume_remain: Option<int>)

  /** One entry of the page's `bulk` array. */
  datatype BulkOp =
    | InsertOne(doc: Stored)
    | UpdateOne(order_id: int, fields: PriceVolume)

  /** The region's `updates` counters. */
  datatype Counts = Counts(inserts: nat, updates: nat, removed: nat, untouched: nat)

  /**
   * The three entity side effects run for a location seen for the first
   * time: add its solar system (waiting), add the location, and record the
   * system on the location's information row.
   */
  datatype LocationEffect = LocationEffect(location_id: int, system_id: int)

  /** What the page fetch produced. */
  datatype FetchOutcome =
    | Bailout                       // `app.bailout` was set: null, no request
    | Threw                         // the GET itself rejected
    | Response(status: int, xPages: Option<int>, body: Option<seq<Order>>)
      // `xPages` is the number the `x-pages` header denotes (None when absent
      // or not a number); `body` is None when it does not parse as JSON

  /** What `loadRegionPage` returns: null/undefined, or the response. */
  datatype PageResult = NoResult | Result(status: int, xPages: Option<int>)

  /** The abstract state touched by a cycle. */
  datatype SyncState = SyncState(
    store: map<int, Stored>,        // the order collection, keyed by order_id
    candidates: set<int>,           // the region's `order_ids`
    counts: Counts,                 // the region's `updates`
    located: set<int>,              // process-wide `locations_added`
    effects: seq<LocationEffect>)   // location side effects issued so far

  // ---------------------------------------------------------------------
  // Classification of one fetched order
  // ---------------------------------------------------------------------

  function NormaliseRange(range: string): string {
    if range == "solarsystem" then "system" else range
  }

  /**
   * The document inserted for an order the store does not know: the
   * fetched order tagged with its region, a `solarsystem` range renamed
   * `system`, every other field as fetched.
   */
  function InsertRecord(o: Order, region: int): (d: Stored)
    ensures d.region_id == region
    ensures d.order.range == (if o.range == "solarsystem" then "system" else o.range)
    ensures d.order.(range := o.range) == o
  {
    Stored(o.(range := NormaliseRange(o.range)), region)
  }

  predicate Changed(cur: Stored, o: Order) {
    cur.order.price != o.price || cur.order.volume_remain != o.volume_remain
  }

  function ChangedFields(cur: Stored, o: Order): PriceVolume {
    PriceVolume(
      if cur.order.price != o.price then Some(o.price) else None,
      if cur.order.volume_remain != o.volume_remain then Some(o.volume_remain) else None)
  }

  /** The bulk operation staged for one order, if any. */
  function Stage(store: map<int, Stored>, region: int, o: Order): Option<BulkOp> {
    if o.order_id !in store then Some(InsertOne(InsertRecord(o, region)))
    else if Changed(store[o.order_id], o) then Some(UpdateOne(o.order_id, ChangedFields(store[o.order_id], o)))
    else None
  }

  /**
   * An update stages exactly the fields that differ, with their new values,
   * and an order whose price and volume are both unchanged stages nothing.
   */
  lemma StageExistingExact(store: map<int, Stored>, region: int, o: Order)
    requires o.order_id in store
    ensures var cur := store[o.order_id];
            && (Stage(store, region, o).None? <==> !Changed(cur, o))
            && (Stage(store, region, o).Some? ==>
                  && Stage(store, region, o).value.UpdateOne?
                  && Stage(store, region, o).value.order_id == o.order_id
                  && var s := Stage(store, region, o).value.fields;
                  && (s.price.Some? <==> cur.order.price != o.price)
                  && (s.price.Some? ==> s.price.value == o.price)
                  && (s.volume_remain.Some? <==> cur.order.volume_remain != o.volume_remain)
                  && (s.volume_remain.Some? ==> s.volume_remain.value == o.volume_remain))
  {
  }

  /** The page's operations for `orders` in pop order: the last order's first. */
  function Staged(store: map<int, Stored>, region: int, orders: seq<Order>): seq<BulkOp>
    decreases |orders|
  {
    if orders == [] then []
    else StagedOne(store, region, orders[|orders| - 1]) + Staged(store, region, orders[..|orders| - 1])
  }

  /** The operation staged for one order, as a sequence of zero or one operations. */
  function StagedOne(store: map<int, Stored>, region: int, o: Order): seq<BulkOp> {
    match Stage(store, region, o)
    case Some(op) => [op]
    case None => []
  }

  // ---------------------------------------------------------------------
  // One page: `while (orders.length > 0) { let order = orders.pop(); ... }`
  // ---------------------------------------------------------------------

  /** The page-local state of the loop. */
  datatype PageState = PageState(
    candidates: set<int>,
    counts: Counts,
    bulk: seq<BulkOp>,
    located: set<int>,
    effects: seq<LocationEffect>)

  function StepOrder(store: map<int, Stored>, region: int, st: PageState, o: Order): PageState {
    if o.order_id !in store then
      var st1 := st.(bulk := st.bulk + [InsertOne(InsertRecord(o, region))],
                     counts := st.counts.(inserts := st.counts.inserts + 1));
      if o.location_id !in st.located then
        st1.(located := st.located + {o.location_id},
             effects := st.effects + [LocationEffect(o.location_id, o.system_id)])
      else st1
    else
      var st1 := st.(candidates := st.candidates - {o.order_id});
      if Changed(store[o.order_id], o) then
        st1.(bulk := st.bulk + [UpdateOne(o.order_id, ChangedFields(store[o.order_id], o))],
             counts := st.counts.(updates := st.counts.updates + 1))
      else
        st1.(counts := st.counts.(untouched := st.counts.untouched + 1))
  }

  /** Pop every order off the end of `orders`, stepping each. */
  function PopAll(store: map<int, Stored>, region: int, st: PageState, orders: seq<Order>): PageState
    decreases |orders|
  {
    if |orders| == 0 then st
    else PopAll(store, region, StepOrder(store, region, st, orders[|orders| - 1]), orders[..|orders| - 1])
  }

  /** Ids of the orders in `orders` that the store already holds. */
  function KnownIds(store: map<int, Stored>, orders: seq<Order>): set<int> {
    set i | 0 <= i < |orders| && orders[i].order_id in store :: orders[i].order_id
  }

  function IdsOf(orders: seq<Order>): set<int> {
    set i | 0 <= i < |orders| :: orders[i].order_id
  }

  function CountNew(store: map<int, Stored>, orders: seq<Order>): nat {
    if orders == [] then 0
    else (if orders[0].order_id !in store then 1 else 0) + CountNew(store, orders[1..])
  }

  function CountChanged(store: map<int, Stored>, orders: seq<Order>): nat {
    if orders == [] then 0
    else (if orders[0].order_id in store && Changed(store[orders[0].order_id], orders[0]) then 1 else 0)
         + CountChanged(store, orders[1..])
  }

  function CountSame(store: map<int, Stored>, orders: seq<Order>): nat {
    if orders == [] then 0
    else (if orders[0].order_id in store && !Changed(store[orders[0].order_id], orders[0]) then 1 else 0)
         + CountSame(store, orders[1..])
  }

  lemma {:induction false} CountsSplitLast(store: map<int, Stored>, orders: seq<Order>)
    requires |orders| > 0
    ensures var o := orders[|orders| - 1]; var init := orders[..|orders| - 1];
            && CountNew(store, orders) == CountNew(store, init) + (if o.order_id !in store then 1 else 0)
            && CountChanged(store, orders) == CountChanged(store, init)
                 + (if o.order_id in store && Changed(store[o.order_id], o) then 1 else 0)
            && CountSame(store, orders) == CountSame(store, init)
                 + (if o.order_id in store && !Changed(store[o.order_id], o) then 1 else 0)
    decreases |orders|
  {
    if |orders| > 1 {
      CountsSplitLast(store, orders[1..]);
      assert orders[1..][..|orders[1..]| - 1] == orders[..|orders| - 1][1..];
      assert orders[1..][|orders[1..]| - 1] == orders[|orders| - 1];
    }
  }

  lemma {:induction false} CountsPartition(store: map<int, Stored>, orders: seq<Order>)
    ensures CountNew(store, orders) + CountChanged(store, orders) + CountSame(store, orders) == |orders|
  {
    if orders != [] {
      CountsPartition(store, orders[1..]);
    }
  }

  /**
   * Per page, the counters grow by the number of new, changed and unchanged
   * orders respectively, together by the number of orders on the page, and
   * the bulk grows by exactly one operation per insert or update; `removed`
   * is untouched.
   */
  lemma {:induction false} PopAllCounts(store: map<int, Stored>, region: int, st: PageState, orders: seq<Order>)
    ensures var r := PopAll(store, region, st, orders);
            && r.counts.inserts == st.counts.inserts + CountNew(store, orders)
            && r.counts.updates == st.counts.updates + CountChanged(store, orders)
            && r.counts.untouched == st.counts.untouched + CountSame(store, orders)
            && r.counts.removed == st.counts.removed
            && |r.bulk| - |st.bulk| == CountNew(store, orders) + CountChanged(store, orders)
            && (r.counts.inserts + r.counts.updates + r.counts.untouched)
               - (st.counts.inserts + st.counts.updates + st.counts.untouched) == |orders|
    decreases |orders|
  {
    CountsPartition(store, orders);
    if |orders| > 0 {
      var o := orders[|orders| - 1];
      PopAllCounts(store, region, StepOrder(store, region, st, o), orders[..|orders| - 1]);
      CountsSplitLast(store, orders);
      CountsPartition(store, orders[..|orders| - 1]);
    }
  }

  /**
   * The bulk of a page is the staged operation of each order, in pop order
   * (last order first): one `insertOne` per unknown order, one `updateOne`
   * per changed order, nothing for an unchanged one.
   */
  lemma {:induction false} PopAllBulk(store: map<int, Stored>, region: int, st: PageState, orders: seq<Order>)
    ensures PopAll(store, region, st, orders).bulk == st.bulk + Staged(store, region, orders)
    decreases |orders|
  {
    if |orders| > 0 {
      var o := orders[|orders| - 1];
      var init := orders[..|orders| - 1];
      var st1 := StepOrder(store, region, st, o);
      assert st1.bulk == st.bulk + StagedOne(store, region, o);
      PopAllBulk(store, region, st1, init);
    }
  }

  lemma KnownIdsSplitLast(store: map<int, Stored>, orders: seq<Order>)
    requires |orders| > 0
    ensures var o := orders[|orders| - 1];
            KnownIds(store, orders) == KnownIds(store, orders[..|orders| - 1])
              + (if o.order_id in store then {o.order_id} else {})
  {
    var o := orders[|orders| - 1];
    var init := orders[..|orders| - 1];
    forall x | x in KnownIds(store, orders)
      ensures x in KnownIds(store, init) + (if o.order_id in store then {o.order_id} else {})
    {
      var i :| 0 <= i < |orders| && orders[i].order_id in store && orders[i].order_id == x;
      if i < |orders| - 1 { assert init[i] == orders[i]; }
    }
    forall x | x in KnownIds(store, init) ensures x in KnownIds(store, orders) {
      var i :| 0 <= i < |init| && init[i].order_id in store && init[i].order_id == x;
      assert orders[i] == init[i];
    }
  }

  /**
   * The page strikes from the candidate set exactly the ids of its orders
   * that the store already holds; when every candidate is stored (as the
   * snapshot is) that is every id on the page.
   */
  lemma {:induction false} PopAllStrikes(store: map<int, Stored>, region: int, st: PageState, orders: seq<Order>)
    ensures PopAll(store, region, st, orders).candidates == st.candidates - KnownIds(store, orders)
    ensures st.candidates <= store.Keys ==>
              PopAll(store, region, st, orders).candidates == st.candidates - IdsOf(orders)
    decreases |orders|
  {
    if |orders| > 0 {
      var o := orders[|orders| - 1];
      var init := orders[..|orders| - 1];
      PopAllStrikes(store, region, StepOrder(store, region, st, o), init);
      KnownIdsSplitLast(store, orders);
    }
    if st.candidates <= store.Keys {
      forall x | x in st.candidates && x in IdsOf(orders) ensures x in KnownIds(store, orders) {
        var i :| 0 <= i < |orders| && orders[i].order_id == x;
      }
    }
  }

  /** Location ids of a list of effects. */
  function EffectLocations(es: seq<LocationEffect>): set<int> {
    set i | 0 <= i < |es| :: es[i].location_id
  }

  /** Every location's side effects were issued once, and `located` records which. */
  predicate LocationsOnce(located: set<int>, es: seq<LocationEffect>) {
    && (forall i, j :: 0 <= i < j < |es| ==> es[i].location_id != es[j].location_id)
    && EffectLocations(es) == located
  }

  lemma EffectLocationsAppend(es: seq<LocationEffect>, e: LocationEffect)
    ensures EffectLocations(es + [e]) == EffectLocations(es) + {e.location_id}
  {
    var es' := es + [e];
    forall x | x in EffectLocations(es') ensures x in EffectLocations(es) + {e.location_id} {
      var i :| 0 <= i < |es'| && es'[i].location_id == x;
      if i < |es| { assert es'[i] == es[i]; }
    }
    forall x | x in EffectLocations(es) ensures x in EffectLocations(es') {
      var i :| 0 <= i < |es| && es[i].location_id == x;
      assert es'[i] == es[i];
    }
    assert es'[|es|] == e;
  }

  /**
   * Location side effects run at most once per `location_id` (kept across
   * pages and cycles), and after a page every location of a new order on it
   * has been handled.
   */
  lemma {:induction false} PopAllLocationsOnce(store: map<int, Stored>, region: int, st: PageState, orders: seq<Order>)
    requires LocationsOnce(st.located, st.effects)
    ensures var r := PopAll(store, region, st, orders);
            && LocationsOnce(r.located, r.effects)
            && st.located <= r.located
            && |st.effects| <= |r.effects| && r.effects[..|st.effects|] == st.effects
            && forall i :: 0 <= i < |orders| && orders[i].order_id !in store ==> orders[i].location_id in r.located
    decreases |orders|
  {
    if |orders| > 0 {
      var o := orders[|orders| - 1];
      var init := orders[..|orders| - 1];
      var st1 := StepOrder(store, region, st, o);
      if o.order_id !in store && o.location_id !in st.located {
        EffectLocationsAppend(st.effects, LocationEffect(o.location_id, o.system_id));
        assert st1.effects[..|st.effects|] == st.effects;
      }
      assert LocationsOnce(st1.located, st1.effects);
      PopAllLocationsOnce(store, region, st1, init);
      var r := PopAll(store, region, st1, init);
      assert r.effects[..|st1.effects|] == st1.effects;
      assert r.effects[..|st.effects|] == st1.effects[..|st.effects|];
      forall i | 0 <= i < |orders| && orders[i].order_id !in store
        ensures orders[i].location_id in r.located
      {
        if i < |orders| - 1 { assert init[i] == orders[i]; }
      }
    }
  }

  // ---------------------------------------------------------------------
  // The ordered bulk write
  // ---------------------------------------------------------------------

  function ApplySet(d: Stored, s: PriceVolume): Stored {
    var o := d.order;
    var o1 := if s.price.Some? then o.(price := s.price.value) else o;
    var o2 := if s.volume_remain.Some? then o1.(volume_remain := s.volume_remain.value) else o1;
    d.(order := o2)
  }

  /**
   * An ordered `bulkWrite`: operations run in sequence; an `insertOne`
   * whose `order_id` is already stored violates the unique index and stops
   * the write (earlier operations stay applied); an `updateOne` matching no
   * document does nothing.
   */
  function ApplyBulk(store: map<int, Stored>, bulk: seq<BulkOp>): (r: (map<int, Stored>, bool))
    decreases |bulk|
  {
    if bulk == [] then (store, true)
    else match bulk[0]
      case InsertOne(d) =>
        if d.order.order_id in store then (store, false)
        else ApplyBulk(store[d.order.order_id := d], bulk[1..])
      case UpdateOne(id, s) =>
        if id in store then ApplyBulk(store[id := ApplySet(store[id], s)], bulk[1..])
        else ApplyBulk(store, bulk[1..])
  }

  /** The write deletes nothing and moves no order to another region. */
  lemma {:induction false} ApplyBulkKeeps(store: map<int, Stored>, bulk: seq<BulkOp>)
    ensures var r := ApplyBulk(store, bulk);
            forall id :: id in store ==> id in r.0 && r.0[id].region_id == store[id].region_id
    decreases |bulk|
  {
    if bulk != [] {
      match bulk[0]
      case InsertOne(d) =>
        if d.order.order_id !in store {
          ApplyBulkKeeps(store[d.order.order_id := d], bulk[1..]);
        }
      case UpdateOne(id, s) =>
        if id in store {
          ApplyBulkKeeps(store[id := ApplySet(store[id], s)], bulk[1..]);
        } else {
          ApplyBulkKeeps(store, bulk[1..]);
        }
    }
  }

  /** Writing `a + b` writes `a`, then, when `a` went through, `b` on its result. */
  lemma {:induction false} ApplyBulkAppend(store: map<int, Stored>, a: seq<BulkOp>, b: seq<BulkOp>)
    ensures var ra := ApplyBulk(store, a);
            ApplyBulk(store, a + b) == if ra.1 then ApplyBulk(ra.0, b) else ra
    decreases |a|
  {
    if a == [] {
      assert a + b == b;
    } else {
      assert (a + b)[0] == a[0];
      assert (a + b)[1..] == a[1..] + b;
      match a[0]
      case InsertOne(d) =>
        if d.order.order_id !in store {
          ApplyBulkAppend(store[d.order.order_id := d], a[1..], b);
        }
      case UpdateOne(id, s) =>
        if id in store {
          ApplyBulkAppend(store[id := ApplySet(store[id], s)], a[1..], b);
        } else {
          ApplyBulkAppend(store, a[1..], b);
        }
    }
  }

  /**
   * The write stops at an `insertOne` of an id the store holds by then:
   * the operations before it stay applied and none after it runs.
   */
  lemma ApplyBulkStops(store: map<int, Stored>, bulk: seq<BulkOp>, k: nat)
    requires k < |bulk| && bulk[k].InsertOne?
    requires ApplyBulk(store, bulk[..k]).1
    requires bulk[k].doc.order.order_id in ApplyBulk(store, bulk[..k]).0
    ensures ApplyBulk(store, bulk) == (ApplyBulk(store, bulk[..k]).0, false)
  {
    assert bulk == bulk[..k] + bulk[k..];
    ApplyBulkAppend(store, bulk[..k], bulk[k..]);
    assert bulk[k..][0] == bulk[k];
  }

  /**
   * A write that does not go through stopped at such an insert: what it
   * leaves is the write of the operations before that insert.
   */
  lemma {:induction false} ApplyBulkFailed(store: map<int, Stored>, bulk: seq<BulkOp>) returns (k: nat)
    requires !ApplyBulk(store, bulk).1
    ensures k < |bulk| && bulk[k].InsertOne?
    ensures ApplyBulk(store, bulk[..k]).1
    ensures bulk[k].doc.order.order_id in ApplyBulk(store, bulk[..k]).0
    ensures ApplyBulk(store, bulk).0 == ApplyBulk(store, bulk[..k]).0
    decreases |bulk|
  {
    var next: map<int, Stored>;
    match bulk[0] {
      case InsertOne(d) =>
        if d.order.order_id in store {
          assert bulk[..0] == [];
          return 0;
        }
        next := store[d.order.order_id := d];
      case UpdateOne(id, s) =>
        next := if id in store then store[id := ApplySet(store[id], s)] else store;
    }
    var k' := ApplyBulkFailed(next, bulk[1..]);
    k := k' + 1;
    assert bulk[..k][0] == bulk[0];
    assert bulk[..k][1..] == bulk[1..][..k'];
  }

  // ---------------------------------------------------------------------
  // One page and one cycle, as specifications
  // ---------------------------------------------------------------------

  function PageStateOf(s: SyncState): PageState {
    PageState(s.candidates, s.counts, [], s.located, s.effects)
  }

  /** `loadRegionPage`: the new state and what it returns. */
  function PageSpec(s: SyncState, region: int, outcome: FetchOutcome): (SyncState, PageResult) {
    match outcome
    case Bailout => (s, NoResult)
    case Threw => (s, NoResult)
    case Response(status, xPages, body) =>
      if status != 200 then (s, Result(status, xPages))
      else if body.None? then (s, NoResult)
      else
        var p := PopAll(s.store, region, PageStateOf(s), body.value);
        var (store', ok) := ApplyBulk(s.store, p.bulk);
        (SyncState(store', p.candidates, p.counts, p.located, p.effects),
         if ok then Result(status, xPages) else NoResult)
  }

  /** No order the store does not know appears twice on the page. */
  predicate NewIdsOnce(store: map<int, Stored>, orders: seq<Order>) {
    forall i, j :: 0 <= i < j < |orders| && orders[i].order_id !in store ==> orders[i].order_id != orders[j].order_id
  }

  /** No order appears twice on the page. */
  predicate IdsOnce(orders: seq<Order>) {
    forall i, j :: 0 <= i < j < |orders| ==> orders[i].order_id != orders[j].order_id
  }

  /** A stored order carrying the fetched price and remaining volume. */
  function Refreshed(d: Stored, o: Order): Stored {
    d.(order := d.order.(price := o.price, volume_remain := o.volume_remain))
  }

  /** Every new order on the page is absent from `T`. */
  predicate NewAbsent(S: map<int, Stored>, T: map<int, Stored>, orders: seq<Order>) {
    forall i :: 0 <= i < |orders| && orders[i].order_id !in S ==> orders[i].order_id !in T
  }

  lemma NewIdsOnceSplit(S: map<int, Stored>, orders: seq<Order>)
    requires |orders| > 0
    ensures var n := |orders| - 1;
            NewIdsOnce(S, orders) <==>
              && NewIdsOnce(S, orders[..n])
              && forall i :: 0 <= i < n && orders[i].order_id !in S ==> orders[i].order_id != orders[n].order_id
  {
    var n := |orders| - 1;
    assert forall i :: 0 <= i < n ==> orders[..n][i] == orders[i];
  }

  lemma NewAbsentSplit(S: map<int, Stored>, T: map<int, Stored>, orders: seq<Order>, T1: map<int, Stored>)
    requires |orders| > 0
    requires T1.Keys == T.Keys + {orders[|orders| - 1].order_id}
    ensures var n := |orders| - 1;
            NewAbsent(S, T1, orders[..n]) <==>
              && NewAbsent(S, T, orders[..n])
              && forall i :: 0 <= i < n && orders[i].order_id !in S ==> orders[i].order_id != orders[n].order_id
  {
    var n := |orders| - 1;
    assert forall i :: 0 <= i < n ==> orders[..n][i] == orders[i];
  }

  lemma NewAbsentLast(S: map<int, Stored>, T: map<int, Stored>, orders: seq<Order>)
    requires |orders| > 0
    ensures var n := |orders| - 1;
            NewAbsent(S, T, orders) <==>
              NewAbsent(S, T, orders[..n]) && (orders[n].order_id !in S ==> orders[n].order_id !in T)
  {
    var n := |orders| - 1;
    assert forall i :: 0 <= i < n ==> orders[..n][i] == orders[i];
  }

  /** Writing the operation staged for one order. */
  lemma StagedOneKeys(S: map<int, Stored>, T: map<int, Stored>, region: int, o: Order)
    requires S.Keys <= T.Keys
    ensures var w := ApplyBulk(T, StagedOne(S, region, o));
            && (w.1 <==> o.order_id in S || o.order_id !in T)
            && (w.1 ==> w.0.Keys == T.Keys + {o.order_id})
  {
    var ops := StagedOne(S, region, o);
    if ops != [] {
      assert ops[1..] == [];
    }
  }

  /** ... and what it writes when the store agrees with the snapshot on that order. */
  lemma StagedOneWrite(S: map<int, Stored>, T: map<int, Stored>, region: int, o: Order)
    requires S.Keys <= T.Keys
    requires o.order_id in S ==> T[o.order_id] == S[o.order_id]
    requires o.order_id !in S ==> o.order_id !in T
    ensures var w := ApplyBulk(T, StagedOne(S, region, o));
            w.1 && w.0 == T[o.order_id := Written(S, region, o)]
  {
    var ops := StagedOne(S, region, o);
    if ops != [] {
      assert ops[1..] == [];
    }
  }

  /**
   * Writing a page's operations, staged against the snapshot `S`, into a
   * store `T` that holds at least the snapshot's ids goes through exactly
   * when no new order is already in `T` and none appears twice.
   */
  lemma {:induction false} StagedWriteOk(S: map<int, Stored>, T: map<int, Stored>, region: int, orders: seq<Order>)
    requires S.Keys <= T.Keys
    ensures ApplyBulk(T, Staged(S, region, orders)).1 <==> NewIdsOnce(S, orders) && NewAbsent(S, T, orders)
    decreases |orders|
  {
    if orders != [] {
      var n := |orders| - 1;
      var o, init := orders[n], orders[..n];
      var w := ApplyBulk(T, StagedOne(S, region, o));
      StagedOneKeys(S, T, region, o);
      ApplyBulkAppend(T, StagedOne(S, region, o), Staged(S, region, init));
      NewIdsOnceSplit(S, orders);
      NewAbsentLast(S, T, orders);
      if w.1 {
        StagedWriteOk(S, w.0, region, init);
        NewAbsentSplit(S, T, orders, w.0);
      }
    }
  }

  /** What the page leaves stored for one of its orders. */
  function Written(S: map<int, Stored>, region: int, o: Order): Stored {
    if o.order_id in S then Refreshed(S[o.order_id], o) else InsertRecord(o, region)
  }

  /**
   * With every order on the page once, the write into `T` (which holds
   * the snapshot's ids and none of the page's new ones) adds exactly the
   * page's ids.
   */
  lemma {:induction false} StagedWriteKeys(S: map<int, Stored>, T: map<int, Stored>, region: int, orders: seq<Order>)
    requires S.Keys <= T.Keys && IdsOnce(orders)
    requires forall i :: 0 <= i < |orders| && orders[i].order_id in S ==> T[orders[i].order_id] == S[orders[i].order_id]
    requires NewAbsent(S, T, orders)
    ensures ApplyBulk(T, Staged(S, region, orders)).0.Keys == T.Keys + IdsOf(orders)
    decreases |orders|
  {
    if orders != [] {
      var n := |orders| - 1;
      var o, init := orders[n], orders[..n];
      StagedOneWrite(S, T, region, o);
      ApplyBulkAppend(T, StagedOne(S, region, o), Staged(S, region, init));
      var T1 := T[o.order_id := Written(S, region, o)];
      IdsOnceSplit(S, T, orders, Written(S, region, o));
      StagedWriteKeys(S, T1, region, init);
      IdsOfSplitLast(orders);
    }
  }

  /** ... leaves every document whose id is not on the page as it was ... */
  lemma {:induction false} StagedWriteOther(S: map<int, Stored>, T: map<int, Stored>, region: int, orders: seq<Order>, id: int)
    requires S.Keys <= T.Keys && IdsOnce(orders)
    requires forall i :: 0 <= i < |orders| && orders[i].order_id in S ==> T[orders[i].order_id] == S[orders[i].order_id]
    requires NewAbsent(S, T, orders)
    requires id in T && id !in IdsOf(orders)
    ensures var w := ApplyBulk(T, Staged(S, region, orders)).0;
            id in w && w[id] == T[id]
    decreases |orders|
  {
    if orders != [] {
      var n := |orders| - 1;
      var o, init := orders[n], orders[..n];
      StagedOneWrite(S, T, region, o);
      ApplyBulkAppend(T, StagedOne(S, region, o), Staged(S, region, init));
      IdsOnceSplit(S, T, orders, Written(S, region, o));
      IdsOfSplitLast(orders);
      StagedWriteOther(S, T[o.order_id := Written(S, region, o)], region, init, id);
    }
  }

  /**
   * ... and leaves each order of the page stored as it writes it: a new
   * order as its insert document, a known one with the page's price and
   * remaining volume.
   */
  lemma {:induction false} StagedWriteAt(S: map<int, Stored>, T: map<int, Stored>, region: int, orders: seq<Order>, i: nat)
    requires S.Keys <= T.Keys && IdsOnce(orders)
    requires forall i :: 0 <= i < |orders| && orders[i].order_id in S ==> T[orders[i].order_id] == S[orders[i].order_id]
    requires NewAbsent(S, T, orders)
    requires i < |orders|
    ensures var w := ApplyBulk(T, Staged(S, region, orders)).0;
            orders[i].order_id in w && w[orders[i].order_id] == Written(S, region, orders[i])
    decreases |orders|
  {
    var n := |orders| - 1;
    var o, init := orders[n], orders[..n];
    StagedOneWrite(S, T, region, o);
    ApplyBulkAppend(T, StagedOne(S, region, o), Staged(S, region, init));
    IdsOnceSplit(S, T, orders, Written(S, region, o));
    var T1 := T[o.order_id := Written(S, region, o)];
    assert ApplyBulk(T, Staged(S, region, orders)) == ApplyBulk(T1, Staged(S, region, init));
    if i == n {
      IdsOfSplitLast(orders);
      assert o.order_id !in IdsOf(init);
      StagedWriteOther(S, T1, region, init, o.order_id);
    } else {
      StagedWriteAt(S, T1, region, init, i);
      assert orders[i] == init[i];
    }
  }

  /** The page's write as a whole, for a page that lists every order once. */
  lemma StagedWriteStore(S: map<int, Stored>, T: map<int, Stored>, region: int, orders: seq<Order>)
    requires S.Keys <= T.Keys && IdsOnce(orders)
    requires forall i :: 0 <= i < |orders| && orders[i].order_id in S ==> T[orders[i].order_id] == S[orders[i].order_id]
    requires NewAbsent(S, T, orders)
    ensures var w := ApplyBulk(T, Staged(S, region, orders)).0;
            && w.Keys == T.Keys + IdsOf(orders)
            && (forall i :: 0 <= i < |orders| ==> w[orders[i].order_id] == Written(S, region, orders[i]))
            && (forall id :: id in T && id !in IdsOf(orders) ==> w[id] == T[id])
  {
    StagedWriteKeys(S, T, region, orders);
    forall i | 0 <= i < |orders|
      ensures ApplyBulk(T, Staged(S, region, orders)).0[orders[i].order_id] == Written(S, region, orders[i])
    {
      StagedWriteAt(S, T, region, orders, i);
    }
    forall id | id in T && id !in IdsOf(orders)
      ensures ApplyBulk(T, Staged(S, region, orders)).0[id] == T[id]
    {
      StagedWriteOther(S, T, region, orders, id);
    }
  }

  /** The page's earlier orders, written after the last one, still meet the write's assumptions. */
  lemma IdsOnceSplit(S: map<int, Stored>, T: map<int, Stored>, orders: seq<Order>, v: Stored)
    requires |orders| > 0 && IdsOnce(orders) && S.Keys <= T.Keys
    requires forall i :: 0 <= i < |orders| && orders[i].order_id in S ==> T[orders[i].order_id] == S[orders[i].order_id]
    requires NewAbsent(S, T, orders)
    ensures var init := orders[..|orders| - 1];
            var T1 := T[orders[|orders| - 1].order_id := v];
            && IdsOnce(init)
            && (forall i :: 0 <= i < |init| && init[i].order_id in S ==> T1[init[i].order_id] == S[init[i].order_id])
            && NewAbsent(S, T1, init)
            && forall i :: 0 <= i < |init| ==> init[i] == orders[i] && init[i].order_id != orders[|orders| - 1].order_id
  {
  }

  lemma IdsOfSplitLast(orders: seq<Order>)
    requires |orders| > 0
    ensures IdsOf(orders) == IdsOf(orders[..|orders| - 1]) + {orders[|orders| - 1].order_id}
  {
    var n := |orders| - 1;
    forall x | x in IdsOf(orders) ensures x in IdsOf(orders[..n]) + {orders[n].order_id} {
      var i :| 0 <= i < |orders| && orders[i].order_id == x;
      if i < n { assert orders[..n][i] == orders[i]; }
    }
    forall x | x in IdsOf(orders[..n]) ensures x in IdsOf(orders) {
      var i :| 0 <= i < n && orders[..n][i].order_id == x;
      assert orders[i] == orders[..n][i];
    }
  }

  /** A 200 page writes its staged operations into the store. */
  lemma PageWritesStaged(s: SyncState, region: int, xPages: Option<int>, orders: seq<Order>)
    ensures var (s', r) := PageSpec(s, region, Response(200, xPages, Some(orders)));
            var w := ApplyBulk(s.store, Staged(s.store, region, orders));
            s'.store == w.0 && r == if w.1 then Result(200, xPages) else NoResult
  {
    var bulk := Staged(s.store, region, orders);
    PopAllBulk(s.store, region, PageStateOf(s), orders);
    assert [] + bulk == bulk;
  }

  /**
   * A 200 page's write, as the stored orders see it: it goes through, and
   * the page returns its response, exactly when no new order appears on it
   * twice.  With every order once, each new order is stored as its insert
   * document, each known one with the page's price and remaining volume,
   * and every other document is unchanged.  A write that stops leaves the
   * page's operations up to the repeated insert applied.
   */
  lemma PageWrite(s: SyncState, region: int, xPages: Option<int>, orders: seq<Order>)
    ensures var (s', r) := PageSpec(s, region, Response(200, xPages, Some(orders)));
            && (r == Result(200, xPages) <==> NewIdsOnce(s.store, orders))
            && (r != Result(200, xPages) ==> r == NoResult)
    ensures var s' := PageSpec(s, region, Response(200, xPages, Some(orders))).0;
            IdsOnce(orders) ==>
              && s'.store.Keys == s.store.Keys + IdsOf(orders)
              && (forall i :: 0 <= i < |orders| && orders[i].order_id !in s.store ==>
                    s'.store[orders[i].order_id] == InsertRecord(orders[i], region))
              && (forall i :: 0 <= i < |orders| && orders[i].order_id in s.store ==>
                    s'.store[orders[i].order_id] == Refreshed(s.store[orders[i].order_id], orders[i]))
              && (forall id :: id in s.store && id !in IdsOf(orders) ==> s'.store[id] == s.store[id])
    ensures var s' := PageSpec(s, region, Response(200, xPages, Some(orders))).0;
            var bulk := Staged(s.store, region, orders);
            !NewIdsOnce(s.store, orders) ==>
              exists k :: 0 <= k < |bulk| && bulk[k].InsertOne? && ApplyBulk(s.store, bulk[..k]).1
                          && bulk[k].doc.order.order_id in ApplyBulk(s.store, bulk[..k]).0
                          && s'.store == ApplyBulk(s.store, bulk[..k]).0
  {
    var bulk := Staged(s.store, region, orders);
    PageWritesStaged(s, region, xPages, orders);
    StagedWriteOk(s.store, s.store, region, orders);
    if IdsOnce(orders) {
      StagedWriteStore(s.store, s.store, region, orders);
    }
    if !NewIdsOnce(s.store, orders) {
      var k := ApplyBulkFailed(s.store, bulk);
    }
  }

  /** `ToInt32` of an integral number. */
  function ToInt32(n: int): (r: int)
    ensures -0x8000_0000 <= r < 0x8000_0000
    ensures (r - n) % 0x1_0000_0000 == 0
  {
    var m := n % 0x1_0000_0000;
    if m >= 0x8000_0000 then m - 0x1_0000_0000 else m
  }

  /** Bitwise or of two naturals, bit by bit from the lowest. */
  function BitOr(a: nat, b: nat): nat
    decreases a + b
  {
    if a == 0 then b
    else if b == 0 then a
    else 2 * BitOr(a / 2, b / 2) + (if a % 2 == 1 || b % 2 == 1 then 1 else 0)
  }

  /** `x | 1` on a 32-bit signed integer, computed on its two's-complement bits. */
  function OrOne(x: int): int
    requires -0x8000_0000 <= x < 0x8000_0000
  {
    var r := BitOr(if x < 0 then x + 0x1_0000_0000 else x, 1);
    if r >= 0x8000_0000 then r - 0x1_0000_0000 else r
  }

  /** `res.headers['x-pages'] | 1`; a missing or non-numeric header is 0. */
  function PageCount(xPages: Option<int>): int {
    OrOne(ToInt32(match xPages case Some(n) => n case None => 0))
  }

  lemma OrZero(a: nat)
    ensures BitOr(a, 0) == a
  {
  }

  /** Or-ing in the low bit makes an even number odd and leaves an odd one. */
  lemma OrOneArith(x: int)
    requires -0x8000_0000 <= x < 0x8000_0000
    ensures OrOne(x) == if x % 2 == 0 then x + 1 else x
  {
    var u: nat := if x < 0 then x + 0x1_0000_0000 else x;
    if u > 0 {
      OrZero(u / 2);
      assert BitOr(u, 1) == 2 * (u / 2) + 1;
    }
    assert BitOr(u, 1) == if u % 2 == 0 then u + 1 else u;
  }

  /**
   * The page count is always odd; it is at least 1 exactly when the
   * header's 32-bit value is not negative, and an even header `2k` yields
   * `2k + 1` pages (a bitwise, not a logical, or).
   */
  lemma PageCountOdd(xPages: Option<int>)
    ensures PageCount(xPages) % 2 == 1
    ensures PageCount(xPages) >= 1 <==> ToInt32(match xPages case Some(n) => n case None => 0) >= 0
    ensures xPages.None? ==> PageCount(xPages) == 1
    ensures xPages.Some? && 0 <= xPages.value < 0x8000_0000 ==>
              PageCount(xPages) == if xPages.value % 2 == 0 then xPages.value + 1 else xPages.value
  {
    OrOneArith(ToInt32(match xPages case Some(n) => n case None => 0));
  }

  /** Pages `i..pages`, one after another. */
  function PagesFrom(s: SyncState, region: int, fetch: nat -> FetchOutcome, i: nat, pages: int): SyncState
    decreases if i <= pages then pages - i + 1 else 0
  {
    if i > pages then s else PagesFrom(PageSpec(s, region, fetch(i)).0, region, fetch, i + 1, pages)
  }

  /** The ids of the region's stored orders, as `find({region_id})` yields them. */
  function Snapshot(store: map<int, Stored>, region: int): set<int> {
    set id | id in store && store[id].region_id == region
  }

  /** The removal pass: delete the remaining candidates unless bailing out. */
  function RemovalPass(s: SyncState, region: int, bailout: bool): SyncState {
    if |s.candidates| > 0 && !bailout then
      s.(store := map id | id in s.store && !(id in s.candidates && s.store[id].region_id == region) :: s.store[id],
         counts := s.counts.(removed := |s.candidates|))
    else s
  }

  function CycleStart(s: SyncState, region: int): SyncState {
    s.(candidates := Snapshot(s.store, region), counts := Counts(0, 0, 0, 0))
  }

  /**
   * `loadRegion`: page 1, then (only after a 200) pages 2..`x-pages | 1`
   * and the removal pass.  `bailout` is the flag's value at the removal pass.
   */
  function CycleSpec(s: SyncState, region: int, fetch: nat -> FetchOutcome, bailout: bool): SyncState {
    var (s1, r1) := PageSpec(CycleStart(s, region), region, fetch(1));
    if r1.NoResult? || r1.status != 200 then s1
    else RemovalPass(PagesFrom(s1, region, fetch, 2, PageCount(r1.xPages)), region, bailout)
  }

  // ---------------------------------------------------------------------
  // Properties of a cycle
  // ---------------------------------------------------------------------

  /** A page counts as seen when it answered 200 with a parseable body. */
  function PageIds(outcome: FetchOutcome): set<int> {
    if outcome.Response? && outcome.status == 200 && outcome.body.Some? then IdsOf(outcome.body.value) else {}
  }

  function SeenFrom(fetch: nat -> FetchOutcome, i: nat, pages: int): set<int>
    decreases if i <= pages then pages - i + 1 else 0
  {
    if i > pages then {} else PageIds(fetch(i)) + SeenFrom(fetch, i + 1, pages)
  }

  /** Candidates are stored orders of the region. */
  predicate CandidatesStored(s: SyncState, region: int) {
    s.candidates <= Snapshot(s.store, region)
  }

  /**
   * A page keeps every stored order stored in its region, strikes exactly
   * its orders' ids from the candidates, and leaves `removed` alone.
   */
  lemma PageSpecStrikes(s: SyncState, region: int, outcome: FetchOutcome)
    requires CandidatesStored(s, region)
    ensures var s' := PageSpec(s, region, outcome).0;
            && Snapshot(s.store, region) <= Snapshot(s'.store, region)
            && s'.candidates == s.candidates - PageIds(outcome)
            && CandidatesStored(s', region)
            && s'.counts.removed == s.counts.removed
  {
    if outcome.Response? && outcome.status == 200 && outcome.body.Some? {
      var orders := outcome.body.value;
      PopAllStrikes(s.store, region, PageStateOf(s), orders);
      PopAllCounts(s.store, region, PageStateOf(s), orders);
      var w := ApplyBulk(s.store, PopAll(s.store, region, PageStateOf(s), orders).bulk).0;
      ApplyBulkKeeps(s.store, PopAll(s.store, region, PageStateOf(s), orders).bulk);
      forall id | id in Snapshot(s.store, region) ensures id in Snapshot(w, region) {
        assert id in s.store && id in w;
      }
    }
  }

  lemma {:induction false} PagesFromStrikes(s: SyncState, region: int, fetch: nat -> FetchOutcome, i: nat, pages: int)
    requires CandidatesStored(s, region)
    ensures var s' := PagesFrom(s, region, fetch, i, pages);
            && Snapshot(s.store, region) <= Snapshot(s'.store, region)
            && s'.candidates == s.candidates - SeenFrom(fetch, i, pages)
            && CandidatesStored(s', region)
            && s'.counts.removed == s.counts.removed
    decreases if i <= pages then pages - i + 1 else 0
  {
    if i <= pages {
      PageSpecStrikes(s, region, fetch(i));
      PagesFromStrikes(PageSpec(s, region, fetch(i)).0, region, fetch, i + 1, pages);
    }
  }

  /**
   * Pages 2.. are fetched, and orders removed, only after page 1 answered
   * 200 and its bulk write went through; otherwise the cycle is page 1's
   * effect alone and nothing is deleted.
   */
  lemma CycleNeedsPageOne(s: SyncState, region: int, fetch: nat -> FetchOutcome, bailout: bool)
    requires var r1 := PageSpec(CycleStart(s, region), region, fetch(1)).1;
             r1.NoResult? || r1.status != 200
    ensures CycleSpec(s, region, fetch, bailout) == PageSpec(CycleStart(s, region), region, fetch(1)).0
    ensures CycleSpec(s, region, fetch, bailout).counts.removed == 0
    ensures Snapshot(s.store, region) <= Snapshot(CycleSpec(s, region, fetch, bailout).store, region)
  {
    PageSpecStrikes(CycleStart(s, region), region, fetch(1));
  }

  /**
   * The removal pass on stored candidates deletes exactly them, counts them
   * in `removed`, and touches no other document; with `bailout` it does
   * nothing.
   */
  lemma RemovalPassExact(pre: SyncState, region: int, bailout: bool)
    requires CandidatesStored(pre, region)
    ensures var s' := RemovalPass(pre, region, bailout);
            && (!bailout ==>
                  && s'.store.Keys == pre.store.Keys - pre.candidates
                  && (forall id :: id in s'.store ==> s'.store[id] == pre.store[id])
                  && (|pre.candidates| > 0 ==> s'.counts.removed == |pre.candidates|)
                  && |pre.store.Keys| - |s'.store.Keys| == |pre.candidates|)
            && (bailout ==> s'.store == pre.store)
  {
    if !bailout {
      var s' := RemovalPass(pre, region, bailout);
      assert pre.candidates <= pre.store.Keys;
      if |pre.candidates| > 0 {
        assert s'.store.Keys == pre.store.Keys - pre.candidates;
      } else {
        assert pre.candidates == {};
      }
      assert |pre.store.Keys - pre.candidates| == |pre.store.Keys| - |pre.candidates|;
    }
  }

  /** The candidates left after page 1 and pages 2..`pages`. */
  lemma CandidatesLeft(s: SyncState, region: int, fetch: nat -> FetchOutcome, pages: int)
    ensures var s1 := PageSpec(CycleStart(s, region), region, fetch(1)).0;
            var pre := PagesFrom(s1, region, fetch, 2, pages);
            && CandidatesStored(pre, region)
            && pre.candidates == Snapshot(s.store, region) - (PageIds(fetch(1)) + SeenFrom(fetch, 2, pages))
            && pre.counts.removed == 0
  {
    var s0 := CycleStart(s, region);
    assert CandidatesStored(s0, region);
    PageSpecStrikes(s0, region, fetch(1));
    var s1 := PageSpec(s0, region, fetch(1)).0;
    PagesFromStrikes(s1, region, fetch, 2, pages);
  }

  /**
   * After a successful page 1, the removal pass deletes exactly the
   * region's snapshot ids that neither page 1 nor any 200 page among
   * 2..`x-pages | 1` re-observed -- including live orders whose page failed -- and
   * `removed` counts them.  No other document is touched by the pass.
   * With `bailout` set nothing is deleted.
   */
  lemma CycleRemovesUnseen(s: SyncState, region: int, fetch: nat -> FetchOutcome, bailout: bool)
    requires var r1 := PageSpec(CycleStart(s, region), region, fetch(1)).1;
             r1.Result? && r1.status == 200
    ensures var r1 := PageSpec(CycleStart(s, region), region, fetch(1)).1;
            var pages := PageCount(r1.xPages);
            var pre := PagesFrom(PageSpec(CycleStart(s, region), region, fetch(1)).0, region, fetch, 2, pages);
            var gone := Snapshot(s.store, region) - (PageIds(fetch(1)) + SeenFrom(fetch, 2, pages));
            var s' := CycleSpec(s, region, fetch, bailout);
            && gone <= Snapshot(pre.store, region)
            && (!bailout ==>
                  && s'.store.Keys == pre.store.Keys - gone
                  && (forall id :: id in s'.store ==> s'.store[id] == pre.store[id])
                  && s'.counts.removed == |gone|
                  && |pre.store.Keys| - |s'.store.Keys| == |gone|)
            && (bailout ==> s'.store == pre.store)
  {
    var r1 := PageSpec(CycleStart(s, region), region, fetch(1)).1;
    var pages := PageCount(r1.xPages);
    CandidatesLeft(s, region, fetch, pages);
    var pre := PagesFrom(PageSpec(CycleStart(s, region), region, fetch(1)).0, region, fetch, 2, pages);
    RemovalPassExact(pre, region, bailout);
  }

  // ---------------------------------------------------------------------
  // The stateful reconciler
  // ---------------------------------------------------------------------

  class RegionLoader {
    var store: map<int, Stored>
    var orderIds: set<int>
    var updates: Counts
    var locationsAdded: set<int>
    var effects: seq<LocationEffect>

    function State(): SyncState
      reads this
    {
      SyncState(store, orderIds, updates, locationsAdded, effects)
    }

    /** Location side effects have run at most once per location id. */
    ghost predicate Valid()
      reads this
    {
      LocationsOnce(locationsAdded, effects)
    }

    constructor (orders: map<int, Stored>)
      ensures Valid()
      ensures State() == SyncState(orders, {}, Counts(0, 0, 0, 0), {}, [])
    {
      store := orders;
      orderIds := {};
      updates := Counts(0, 0, 0, 0);
      locationsAdded := {};
      effects := [];
    }

    /** `loadRegionPage(app, regionID, page, order_ids, updates)` */
    method LoadRegionPage(region: int, outcome: FetchOutcome) returns (res: PageResult)
      requires Valid()
      modifies this
      ensures Valid()
      ensures (State(), res) == PageSpec(old(State()), region, outcome)
    {
      if outcome.Bailout? || outcome.Threw? {
        return NoResult;
      }
      if outcome.status != 200 {
        // a 5xx is followed by a one-second pause; either way the response is returned
        return Result(outcome.status, outcome.xPages);
      }
      if outcome.body.None? {
        return NoResult;
      }
      ghost var s0 := State();
      ghost var all := outcome.body.value;
      var orders := outcome.body.value;
      var bulk: seq<BulkOp> := [];
      PopAllLocationsOnce(store, region, PageStateOf(s0), all);
      while |orders| > 0
        invariant store == s0.store
        invariant PopAll(store, region, PageState(orderIds, updates, bulk, locationsAdded, effects), orders)
                  == PopAll(store, region, PageStateOf(s0), all)
        decreases |orders|
      {
        var order := orders[|orders| - 1];
        ghost var before := PageState(orderIds, updates, bulk, locationsAdded, effects);
        assert PopAll(store, region, before, orders)
               == PopAll(store, region, StepOrder(store, region, before, order), orders[..|orders| - 1]);
        orders := orders[..|orders| - 1];
        if order.order_id !in store {
          bulk := bulk + [InsertOne(InsertRecord(order, region))];
          updates := updates.(inserts := updates.inserts + 1);
          if order.location_id !in locationsAdded {
            effects := effects + [LocationEffect(order.location_id, order.system_id)];
            locationsAdded := locationsAdded + {order.location_id};
          }
        } else {
          orderIds := orderIds - {order.order_id};
          var cur := store[order.order_id];
          if cur.order.price != order.price || cur.order.volume_remain != order.volume_remain {
            var fields := PriceVolume(
              if cur.order.price != order.price then Some(order.price) else None,
              if cur.order.volume_remain != order.volume_remain then Some(order.volume_remain) else None);
            bulk := bulk + [UpdateOne(order.order_id, fields)];
            updates := updates.(updates := updates.updates + 1);
          } else {
            updates := updates.(untouched := updates.untouched + 1);
          }
        }
        assert PageState(orderIds, updates, bulk, locationsAdded, effects) == StepOrder(store, region, before, order);
      }
      var ok := true;
      if |bulk| > 0 {
        var written := ApplyBulk(store, bulk);
        store := written.0;
        ok := written.1;
      }
      res := if ok then Result(200, outcome.xPages) else NoResult;
    }

    /**
     * `loadRegion(app, regionID)`: one cycle.  `fetch(i)` is the outcome of
     * fetching page `i`; `bailout` is the flag at the removal pass.
     */
    method LoadRegion(region: int, fetch: nat -> FetchOutcome, bailout: bool)
      requires Valid()
      modifies this
      ensures Valid()
      ensures State() == CycleSpec(old(State()), region, fetch, bailout)
    {
      ghost var s := State();
      StartCycle(region);
      var res := LoadRegionPage(region, fetch(1));
      if res.Result? && res.status != 200 {
        return;       // logged as an error
      } else if res.Result? {
        var pages := PageCount(res.xPages);
        ghost var target := PagesFrom(State(), region, fetch, 2, pages);
        assert CycleSpec(s, region, fetch, bailout) == RemovalPass(target, region, bailout);
        var i := 2;
        while i <= pages
          invariant Valid()
          invariant PagesFrom(State(), region, fetch, i, pages) == target
          decreases if i <= pages then pages - i + 1 else 0
        {
          var _ := LoadRegionPage(region, fetch(i));
          i := i + 1;
        }
        assert State() == target;
        RemoveUnseen(region, bailout);
      }
    }

    /** The region's stored ids become the removal candidates; the counters restart. */
    method StartCycle(region: int)
      requires Valid()
      modifies this
      ensures Valid()
      ensures State() == CycleStart(old(State()), region)
    {
      orderIds := set id | id in store && store[id].region_id == region;
      updates := Counts(0, 0, 0, 0);
    }

    /** `deleteMany({order_id: {$in: [...order_ids]}, region_id})` unless bailing out. */
    method RemoveUnseen(region: int, bailout: bool)
      requires Valid()
      modifies this
      ensures Valid()
      ensures State() == RemovalPass(old(State()), region, bailout)
    {
      if |orderIds| > 0 {
        if bailout {
          return;
        }
        store := map id | id in store && !(id in orderIds && store[id].region_id == region) :: store[id];
        updates := updates.(removed := |orderIds|);
      }
    }
  }
}
