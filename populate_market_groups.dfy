/**
 * populate_market_groups.js, the first market-group builder: GET and POST
 * requests with bounded retries, the group detail loop in batches of 50,
 * the bulk name resolver in batches of 1000 with its fall-back to one
 * request per type in batches of 10, and the unsorted `groups.json` tree.
 *
 * The script's promises are awaited one batch at a time and the requests
 * of a batch are taken in order.  Sleeps are not modelled: no result
 * depends on them.  Every HTTP attempt is logged with its endpoint (the
 * script prints `Fetching: url` for each), and the length of that log is
 * the position in the stream of attempts.
 */
module PopulateMarketGroups {
  import opened Common
  import opened JsValue
  import opened MarketGroups

  const Retries := 3

  // ---------------------------------------------------------------------
  // `makeRequest` (GET) and `makeRequestPost` classification
  // ---------------------------------------------------------------------

  /** 5xx answers and request errors are retried while retries remain. */
  predicate Retryable(a: Attempt) {
    (a.Answered? && a.status >= 500) || a.NetError?
  }

  /** How a GET settles when it is not retried: 200 gives the parsed body, 404 null, the rest rejects. */
  function SettleGet(a: Attempt): Reply {
    match a
    case Answered(status, body) =>
      if status == 200 then (if body.Some? then Resolved(body.value) else Rejected)
      else if status == 404 then Resolved(Null)
      else Rejected
    case NetError => Rejected
    case TimedOut => Rejected
  }

  /** How a POST settles when it is not retried: only a 200 with a parsable body resolves. */
  function SettlePost(a: Attempt): Reply {
    if a.Answered? && a.status == 200 && a.body.Some? then Resolved(a.body.value) else Rejected
  }

  /**
   * A GET resolves a 200 to its parsed body (rejecting when it does not
   * parse) and a 404 to null; a 5xx or a request error with retries left
   * makes one more attempt with one retry fewer; anything else rejects.
   */
  lemma ClassificationGet(net: nat -> Attempt, from: nat, retries: nat)
    ensures var s := Serve(net, from, retries, Retryable, SettleGet);
            var a := net(from);
            && (a.Answered? && a.status == 200 ==>
                  s == Served(if a.body.Some? then Resolved(a.body.value) else Rejected, 1))
            && (a.Answered? && a.status == 404 ==> s == Served(Resolved(Null), 1))
            && (Retryable(a) && retries > 0 ==>
                  var next := Serve(net, from + 1, retries - 1, Retryable, SettleGet);
                  s == Served(next.reply, next.calls + 1))
            && (Retryable(a) && retries == 0 ==> s == Served(Rejected, 1))
            && (a.Answered? && a.status != 200 && a.status != 404 && !Retryable(a) ==> s == Served(Rejected, 1))
            && (a.TimedOut? ==> s == Served(Rejected, 1))
  {
  }

  /** A POST has no 404 case: a 404 rejects like every other non-200 answer that is not retried. */
  lemma ClassificationPost(net: nat -> Attempt, from: nat, retries: nat)
    ensures var s := Serve(net, from, retries, Retryable, SettlePost);
            var a := net(from);
            && (a.Answered? && a.status == 200 ==>
                  s == Served(if a.body.Some? then Resolved(a.body.value) else Rejected, 1))
            && (Retryable(a) && retries > 0 ==>
                  var next := Serve(net, from + 1, retries - 1, Retryable, SettlePost);
                  s == Served(next.reply, next.calls + 1))
            && (!Retryable(a) || retries == 0 ==> (s.reply.Resolved? <==> a.Answered? && a.status == 200 && a.body.Some?))
  {
  }

  // ---------------------------------------------------------------------
  // Endpoints and the state the fetch loops change
  // ---------------------------------------------------------------------

  /** `/latest/markets/groups/`, `.../groups/{id}/`, `/latest/universe/types/{id}/`, `POST /latest/universe/names/`. */
  datatype Endpoint = GroupList | GroupDetail(groupId: Js) | TypeDetail(typeId: Js) | Names(ids: seq<Js>)

  /** The log lines of `n` attempts at the same endpoint. */
  function Copies(e: Endpoint, n: nat): (r: seq<Endpoint>)
    ensures |r| == n && forall i :: 0 <= i < n ==> r[i] == e
  {
    if n == 0 then [] else [e] + Copies(e, n - 1)
  }

  /** The `marketGroups` and `typeInfo` maps and the attempts made so far. */
  datatype Store = Store(groups: seq<(Js, Group)>, types: seq<(Js, TypeRecord)>, requests: seq<Endpoint>)

  /** `fetchMarketGroupDetails`: any truthy reply is stored, its fields as they come, with `types || []`. */
  function StoreGroupData(groups: seq<(Js, Group)>, groupId: Js, reply: Reply): seq<(Js, Group)> {
    if reply.Resolved? && Truthy(reply.value) then
      var d := reply.value;
      Put(groups, groupId, Group(groupId, Get(d, "name"), Get(d, "description"), Get(d, "parent_group_id"),
                                 Or(Get(d, "types"), Arr([]))))
    else groups
  }

  /** `fetchTypeDetails`: any truthy reply is stored, its fields as they come. */
  function StoreTypeData(types: seq<(Js, TypeRecord)>, typeId: Js, reply: Reply): seq<(Js, TypeRecord)> {
    if reply.Resolved? && Truthy(reply.value) then
      var d := reply.value;
      Put(types, typeId, TypeRecord(typeId, Get(d, "name"), Get(d, "description"), Get(d, "group_id"),
                                    Get(d, "category_id"), Get(d, "published"), Get(d, "market_group_id")))
    else types
  }

  /**
   * A group is stored under its id exactly when the reply resolved to a
   * truthy value (a 404's null is not); the record keeps the reply's name,
   * description and parent unchanged and defaults its types to `[]`; no
   * other entry changes.
   */
  lemma StoreGroupDataRule(groups: seq<(Js, Group)>, groupId: Js, reply: Reply)
    ensures var d := if reply.Resolved? then reply.value else Undef;
            var after := StoreGroupData(groups, groupId, reply);
            && (Truthy(d) ==> Lookup(after, groupId) == Some(Group(groupId, Get(d, "name"), Get(d, "description"),
                                 Get(d, "parent_group_id"), if Truthy(Get(d, "types")) then Get(d, "types") else Arr([]))))
            && (!Truthy(d) ==> after == groups)
            && (forall k :: k != groupId ==> Lookup(after, k) == Lookup(groups, k))
  {
  }

  /**
   * A type is stored under its id exactly when the reply resolved to a
   * truthy value; `published` is kept as it comes, so a reply without it
   * stores `undefined`; no other entry changes.
   */
  lemma StoreTypeDataRule(types: seq<(Js, TypeRecord)>, typeId: Js, reply: Reply)
    ensures var d := if reply.Resolved? then reply.value else Undef;
            var after := StoreTypeData(types, typeId, reply);
            && (Truthy(d) ==> exists r :: Lookup(after, typeId) == Some(r) && r.id == typeId
                                         && r.name == Get(d, "name") && r.published == Get(d, "published"))
            && (!Truthy(d) ==> after == types)
            && (forall k :: k != typeId ==> Lookup(after, k) == Lookup(types, k))
  {
    var after := StoreTypeData(types, typeId, reply);
    if reply.Resolved? && Truthy(reply.value) {
      assert Lookup(after, typeId).Some?;
    }
  }

  // ---------------------------------------------------------------------
  // Detail requests, one id after the other
  // ---------------------------------------------------------------------

  datatype Kind = GroupDetails | TypeDetails

  function DetailEndpoint(kind: Kind, id: Js): Endpoint {
    if kind.GroupDetails? then GroupDetail(id) else TypeDetail(id)
  }

  /** One detail request for `id`: its attempts are logged and its reply stored. */
  function DetailStep(net: nat -> Attempt, kind: Kind, st: Store, id: Js): Store {
    var s := Serve(net, |st.requests|, Retries, Retryable, SettleGet);
    var logged := st.requests + Copies(DetailEndpoint(kind, id), s.calls);
    if kind.GroupDetails? then Store(StoreGroupData(st.groups, id, s.reply), st.types, logged)
    else Store(st.groups, StoreTypeData(st.types, id, s.reply), logged)
  }

  /** The detail requests for `ids`, in order. */
  function Details(net: nat -> Attempt, kind: Kind, st: Store, ids: seq<Js>): Store
    decreases |ids|
  {
    if ids == [] then st else Details(net, kind, DetailStep(net, kind, st, ids[0]), ids[1..])
  }

  lemma {:induction false} DetailsAppend(net: nat -> Attempt, kind: Kind, st: Store, a: seq<Js>, b: seq<Js>)
    ensures Details(net, kind, st, a + b) == Details(net, kind, Details(net, kind, st, a), b)
    decreases |a|
  {
    if a != [] {
      assert (a + b)[0] == a[0] && (a + b)[1..] == a[1..] + b;
      DetailsAppend(net, kind, DetailStep(net, kind, st, a[0]), a[1..], b);
    } else {
      assert a + b == b;
    }
  }

  /** The requests for `ids[i..]` are those for the batch `ids[i..hi]`, then those for `ids[hi..]`. */
  lemma DetailsSplit(net: nat -> Attempt, kind: Kind, st: Store, ids: seq<Js>, i: nat, hi: nat)
    requires i <= hi <= |ids|
    ensures Details(net, kind, st, ids[i..]) == Details(net, kind, Details(net, kind, st, ids[i..hi]), ids[hi..])
  {
    assert ids[i..] == ids[i..hi] + ids[hi..];
    DetailsAppend(net, kind, st, ids[i..hi], ids[hi..]);
  }

  /**
   * The detail requests for `ids` only add to the log, and what they add
   * is exactly one or more attempts at the endpoint of each id; the group
   * loop leaves the types alone and the type loop the groups.
   */
  lemma {:induction false} DetailsRequests(net: nat -> Attempt, kind: Kind, st: Store, ids: seq<Js>)
    ensures var after := Details(net, kind, st, ids);
            && st.requests <= after.requests
            && (forall e :: e in after.requests[|st.requests|..] <==> exists id :: id in ids && e == DetailEndpoint(kind, id))
            && (kind.GroupDetails? ==> after.types == st.types)
            && (kind.TypeDetails? ==> after.groups == st.groups)
    decreases |ids|
  {
    DetailsFrame(net, kind, st, ids);
    DetailsEndpoints(net, kind, st, ids);
  }

  /** The detail requests only append to the log and leave the other map alone. */
  lemma {:induction false} DetailsFrame(net: nat -> Attempt, kind: Kind, st: Store, ids: seq<Js>)
    ensures var after := Details(net, kind, st, ids);
            && st.requests <= after.requests
            && (kind.GroupDetails? ==> after.types == st.types)
            && (kind.TypeDetails? ==> after.groups == st.groups)
    decreases |ids|
  {
    if ids != [] {
      DetailsFrame(net, kind, DetailStep(net, kind, st, ids[0]), ids[1..]);
    }
  }

  /** The attempts one detail request logs are all at its endpoint, and there is at least one. */
  lemma DetailStepLogs(net: nat -> Attempt, kind: Kind, st: Store, id: Js)
    ensures var next := DetailStep(net, kind, st, id);
            && st.requests <= next.requests
            && |next.requests| > |st.requests|
            && forall e :: e in next.requests[|st.requests|..] <==> e == DetailEndpoint(kind, id)
  {
    var s := Serve(net, |st.requests|, Retries, Retryable, SettleGet);
    var mine := Copies(DetailEndpoint(kind, id), s.calls);
    assert DetailStep(net, kind, st, id).requests[|st.requests|..] == mine;
    assert mine[0] == DetailEndpoint(kind, id);
  }

  lemma {:induction false} DetailsEndpoints(net: nat -> Attempt, kind: Kind, st: Store, ids: seq<Js>)
    ensures var after := Details(net, kind, st, ids);
            && st.requests <= after.requests
            && (forall e :: e in after.requests[|st.requests|..] <==> exists id :: id in ids && e == DetailEndpoint(kind, id))
    decreases |ids|
  {
    if ids != [] {
      var next := DetailStep(net, kind, st, ids[0]);
      var after := Details(net, kind, st, ids);
      DetailStepLogs(net, kind, st, ids[0]);
      DetailsEndpoints(net, kind, next, ids[1..]);
      var mine := next.requests[|st.requests|..];
      var rest := after.requests[|next.requests|..];
      assert after.requests[|st.requests|..] == mine + rest;
      forall e
        ensures e in mine + rest <==> exists id :: id in ids && e == DetailEndpoint(kind, id)
      {
        assert forall id :: id in ids <==> id == ids[0] || id in ids[1..];
      }
    }
  }

  // ---------------------------------------------------------------------
  // The bulk name resolver
  // ---------------------------------------------------------------------

  const InventoryType: string := "inventory_type"

  /** `item.id && item.name && item.category === 'inventory_type'` */
  predicate Accepted(item: Js) {
    Truthy(Get(item, "id")) && Truthy(Get(item, "name")) && Get(item, "category") == Str(InventoryType)
  }

  /** The record stored for a resolved name. */
  function NameRecord(item: Js): TypeRecord {
    TypeRecord(Get(item, "id"), Get(item, "name"), Str(""), Null, Null, Bool(true), Null)
  }

  /**
   * `nameData.forEach(item => ...)`: accepted items are stored under
   * `item.id`; reading `item.id` of a null or undefined item throws, which
   * ends the loop (`true` in the second component).
   */
  function StoreNames(types: seq<(Js, TypeRecord)>, items: seq<Js>): (seq<(Js, TypeRecord)>, bool)
    decreases |items|
  {
    if items == [] then (types, false)
    else if IsNullish(items[0]) then (types, true)
    else StoreNames(if Accepted(items[0]) then Put(types, Get(items[0], "id"), NameRecord(items[0])) else types,
                    items[1..])
  }

  /** The loop throws exactly when some item is null or undefined. */
  lemma {:induction false} StoreNamesThrows(types: seq<(Js, TypeRecord)>, items: seq<Js>)
    ensures StoreNames(types, items).1 <==> exists i :: 0 <= i < |items| && IsNullish(items[i])
    decreases |items|
  {
    if items != [] && !IsNullish(items[0]) {
      var next := if Accepted(items[0]) then Put(types, Get(items[0], "id"), NameRecord(items[0])) else types;
      StoreNamesThrows(next, items[1..]);
      assert forall i :: 1 <= i < |items| ==> items[i] == items[1..][i - 1];
    }
  }

  /** The items before the first null one are stored; none after it is. */
  lemma {:induction false} StoreNamesStops(types: seq<(Js, TypeRecord)>, items: seq<Js>, i: nat)
    requires i < |items| && IsNullish(items[i])
    requires forall j :: 0 <= j < i ==> !IsNullish(items[j])
    ensures StoreNames(types, items) == (StoreNames(types, items[..i]).0, true)
    decreases i
  {
    if i > 0 {
      var next := if Accepted(items[0]) then Put(types, Get(items[0], "id"), NameRecord(items[0])) else types;
      assert items[1..][..i - 1] == items[..i][1..];
      StoreNamesStops(next, items[1..], i - 1);
    }
  }

  /**
   * Every entry after the loop was there before or was written for an
   * accepted item under its `id`, as `{id, name, description: '',
   * group_id: null, category_id: null, published: true, market_group_id:
   * null}`; a key that no accepted item carries keeps its entry.
   */
  lemma {:induction false} StoreNamesStored(types: seq<(Js, TypeRecord)>, items: seq<Js>, k: Js)
    ensures var after := StoreNames(types, items).0;
            && (forall r :: Lookup(after, k) == Some(r) ==>
                  Lookup(types, k) == Some(r)
                  || exists x :: x in items && Accepted(x) && Get(x, "id") == k
                                 && r == TypeRecord(k, Get(x, "name"), Str(""), Null, Null, Bool(true), Null))
            && ((forall x :: x in items && Accepted(x) ==> Get(x, "id") != k) ==> Lookup(after, k) == Lookup(types, k))
    decreases |items|
  {
    if items != [] && !IsNullish(items[0]) {
      var next := if Accepted(items[0]) then Put(types, Get(items[0], "id"), NameRecord(items[0])) else types;
      StoreNamesStored(next, items[1..], k);
      assert forall x :: x in items[1..] ==> x in items;
    }
  }

  /** When no item is null, every accepted item's `id` ends up stored. */
  lemma {:induction false} StoreNamesComplete(types: seq<(Js, TypeRecord)>, items: seq<Js>, x: Js)
    requires !StoreNames(types, items).1
    requires x in items && Accepted(x)
    ensures HasKey(StoreNames(types, items).0, Get(x, "id"))
    decreases |items|
  {
    var next := if Accepted(items[0]) then Put(types, Get(items[0], "id"), NameRecord(items[0])) else types;
    if x in items[1..] {
      StoreNamesComplete(next, items[1..], x);
    } else {
      assert x == items[0];
      StoreNamesKeeps(next, items[1..], Get(x, "id"));
    }
  }

  /** Stored keys stay stored. */
  lemma {:induction false} StoreNamesKeeps(types: seq<(Js, TypeRecord)>, items: seq<Js>, k: Js)
    requires HasKey(types, k)
    ensures HasKey(StoreNames(types, items).0, k)
    decreases |items|
  {
    if items != [] && !IsNullish(items[0]) {
      var next := if Accepted(items[0]) then Put(types, Get(items[0], "id"), NameRecord(items[0])) else types;
      assert Lookup(next, k).Some?;
      StoreNamesKeeps(next, items[1..], k);
    }
  }

  /**
   * `fetchTypeNamesBulk(batch)`: the state after it and whether it threw.
   * An empty batch makes no request; a rejected POST and a null item throw;
   * an answer that is not an array stores nothing.
   */
  function Bulk(net: nat -> Attempt, st: Store, batch: seq<Js>): (Store, bool) {
    if |batch| == 0 then (st, false)
    else
      var s := Serve(net, |st.requests|, Retries, Retryable, SettlePost);
      var logged := st.requests + Copies(Names(batch), s.calls);
      match s.reply
      case Rejected => (Store(st.groups, st.types, logged), true)
      case Resolved(v) =>
        if v.Arr? then
          var r := StoreNames(st.types, v.elems);
          (Store(st.groups, r.0, logged), r.1)
        else (Store(st.groups, st.types, logged), false)
  }

  /** One batch of `fetchTypeInformation`: the bulk request, and one request per id when it throws. */
  function TypeBatch(net: nat -> Attempt, st: Store, batch: seq<Js>): Store {
    var r := Bulk(net, st, batch);
    if r.1 then Details(net, TypeDetails, r.0, batch) else r.0
  }

  function TypeBatches(net: nat -> Attempt, st: Store, batches: seq<seq<Js>>): Store
    decreases |batches|
  {
    if batches == [] then st else TypeBatches(net, TypeBatch(net, st, batches[0]), batches[1..])
  }

  /**
   * A non-empty batch first logs one or more attempts at the bulk endpoint
   * for exactly that batch.  When the bulk step throws, what follows is
   * one request per id of exactly the same batch; otherwise nothing follows.
   */
  lemma TypeBatchRequests(net: nat -> Attempt, st: Store, batch: seq<Js>)
    requires |batch| > 0
    ensures var r := Bulk(net, st, batch);
            var after := TypeBatch(net, st, batch);
            && st.requests < r.0.requests
            && (forall e :: e in r.0.requests[|st.requests|..] ==> e == Names(batch))
            && r.0.groups == st.groups && after.groups == st.groups
            && (r.1 ==> r.0.requests <= after.requests
                        && forall e :: e in after.requests[|r.0.requests|..] <==>
                                       exists id :: id in batch && e == TypeDetail(id))
            && (!r.1 ==> after == r.0)
  {
    var r := Bulk(net, st, batch);
    var s := Serve(net, |st.requests|, Retries, Retryable, SettlePost);
    assert r.0.requests == st.requests + Copies(Names(batch), s.calls);
    assert r.0.requests[|st.requests|..] == Copies(Names(batch), s.calls);
    DetailsRequests(net, TypeDetails, r.0, batch);
  }

  /** With no bulk response to try, an empty batch changes nothing. */
  lemma BulkEmpty(net: nat -> Attempt, st: Store)
    ensures Bulk(net, st, []) == (st, false) && TypeBatch(net, st, []) == st
  {
  }

  /** The type phase: every unique type id of the stored groups, in batches of 1000. */
  function TypePhase(net: nat -> Attempt, st: Store): Store {
    TypeBatches(net, st, Chunks(Dedup(AllTypeIds(Values(st.groups))), 1000))
  }

  /**
   * The group phase: the id list, then each group's details.  It throws
   * (`false`) unless the list request resolved to an array.
   */
  function GroupPhase(net: nat -> Attempt, st: Store): (Store, bool) {
    var s := Serve(net, |st.requests|, Retries, Retryable, SettleGet);
    var listed := Store(st.groups, st.types, st.requests + Copies(GroupList, s.calls));
    if s.reply.Resolved? && s.reply.value.Arr? then (Details(net, GroupDetails, listed, s.reply.value.elems), true)
    else (listed, false)
  }

  /**
   * The group phase requests the list, then exactly the listed groups'
   * details; it never touches the types.
   */
  lemma GroupPhaseRequests(net: nat -> Attempt, st: Store)
    ensures var s := Serve(net, |st.requests|, Retries, Retryable, SettleGet);
            var r := GroupPhase(net, st);
            var n := |st.requests| + s.calls;
            && r.0.types == st.types
            && (r.1 <==> s.reply.Resolved? && s.reply.value.Arr?)
            && n <= |r.0.requests| && r.0.requests[..n] == st.requests + Copies(GroupList, s.calls)
            && (r.1 ==> forall e :: e in r.0.requests[n..] <==>
                                    exists id :: id in s.reply.value.elems && e == GroupDetail(id))
            && (!r.1 ==> r.0.groups == st.groups && |r.0.requests| == n)
  {
    var s := Serve(net, |st.requests|, Retries, Retryable, SettleGet);
    var listed := Store(st.groups, st.types, st.requests + Copies(GroupList, s.calls));
    if s.reply.Resolved? && s.reply.value.Arr? {
      DetailsRequests(net, GroupDetails, listed, s.reply.value.elems);
    }
  }

  // ---------------------------------------------------------------------
  // The updater
  // ---------------------------------------------------------------------

  class MarketGroupsUpdater {
    const rateLimit: int
    const rateLimitWindow: int
    var lastRequestTime: int
    var requestCount: int
    var marketGroups: seq<(Js, Group)>
    var typeInfo: seq<(Js, TypeRecord)>
    /** The endpoint of every HTTP attempt so far, in order. */
    var requests: seq<Endpoint>

    function Current(): Store
      reads this
    {
      Store(marketGroups, typeInfo, requests)
    }

    constructor ()
      ensures rateLimit == 150 && rateLimitWindow == 1000
      ensures lastRequestTime == 0 && requestCount == 0
      ensures Current() == Store([], [], [])
    {
      rateLimit := 150;
      rateLimitWindow := 1000;
      lastRequestTime := 0;
      requestCount := 0;
      marketGroups := [];
      typeInfo := [];
      requests := [];
    }

    /** `enforceRateLimit()` returns at once: the window is never touched (and nothing calls it). */
    method EnforceRateLimit()
      modifies this`requestCount, this`lastRequestTime
      ensures requestCount == old(requestCount) && lastRequestTime == old(lastRequestTime)
    {
      return;
    }

    /** `makeRequest(endpoint, retries)`: a retried attempt is a fresh call with one retry fewer. */
    method MakeRequest(net: nat -> Attempt, endpoint: Endpoint, retries: nat) returns (reply: Reply, ghost s: Served)
      modifies this`requests
      ensures s == Serve(net, |old(requests)|, retries, Retryable, SettleGet)
      ensures reply == s.reply && requests == old(requests) + Copies(endpoint, s.calls)
      decreases retries
    {
      var a := net(|requests|);
      requests := requests + [endpoint];
      if Retryable(a) && retries > 0 {
        ghost var next;
        reply, next := MakeRequest(net, endpoint, retries - 1);
        s := Served(next.reply, next.calls + 1);
      } else {
        reply := SettleGet(a);
        s := Served(reply, 1);
      }
    }

    /** `makeRequestPost(endpoint, postData, retries)` */
    method MakeRequestPost(net: nat -> Attempt, endpoint: Endpoint, retries: nat) returns (reply: Reply, ghost s: Served)
      modifies this`requests
      ensures s == Serve(net, |old(requests)|, retries, Retryable, SettlePost)
      ensures reply == s.reply && requests == old(requests) + Copies(endpoint, s.calls)
      decreases retries
    {
      var a := net(|requests|);
      requests := requests + [endpoint];
      if Retryable(a) && retries > 0 {
        ghost var next;
        reply, next := MakeRequestPost(net, endpoint, retries - 1);
        s := Served(next.reply, next.calls + 1);
      } else {
        reply := SettlePost(a);
        s := Served(reply, 1);
      }
    }

    /** `fetchMarketGroupDetails(id)` or `fetchTypeDetails(id)`; both catch their own errors. */
    method FetchDetail(net: nat -> Attempt, kind: Kind, id: Js)
      modifies this`requests, this`marketGroups, this`typeInfo
      ensures Current() == DetailStep(net, kind, old(Current()), id)
    {
      var data;
      ghost var s;
      data, s := MakeRequest(net, DetailEndpoint(kind, id), Retries);
      if kind.GroupDetails? {
        marketGroups := StoreGroupData(marketGroups, id, data);
      } else {
        typeInfo := StoreTypeData(typeInfo, id, data);
      }
    }

    /** `Promise.all(batch.map(id => fetch(id)))`, taken in order. */
    method FetchBatch(net: nat -> Attempt, kind: Kind, batch: seq<Js>)
      modifies this`requests, this`marketGroups, this`typeInfo
      ensures Current() == Details(net, kind, old(Current()), batch)
    {
      ghost var goal := Details(net, kind, Current(), batch);
      for j := 0 to |batch|
        invariant Details(net, kind, Current(), batch[j..]) == goal
      {
        assert batch[j..][1..] == batch[j + 1..];
        FetchDetail(net, kind, batch[j]);
      }
    }

    /**
     * `for (i = 0; i < ids.length; i += size)` over `ids.slice(i, i + size)`:
     * the loop of `fetchMarketGroups` (size 50) and of
     * `fetchTypesIndividually` (size 10).
     */
    method FetchInBatches(net: nat -> Attempt, kind: Kind, ids: seq<Js>, size: nat) returns (ghost batches: seq<seq<Js>>)
      requires size > 0
      modifies this`requests, this`marketGroups, this`typeInfo
      ensures batches == Chunks(ids, size)
      ensures Current() == Details(net, kind, old(Current()), ids)
    {
      ghost var goal := Details(net, kind, Current(), ids);
      batches := [];
      var i := 0;
      while i < |ids|
        invariant i <= |ids|
        invariant batches + Chunks(ids[i..], size) == Chunks(ids, size)
        invariant Details(net, kind, Current(), ids[i..]) == goal
        decreases |ids| - i
      {
        var hi := Min(i + size, |ids|);
        var batch := ids[i..hi];
        ChunksAdvance(ids, i, size, batches);
        DetailsSplit(net, kind, Current(), ids, i, hi);
        FetchBatch(net, kind, batch);
        batches := batches + [batch];
        i := hi;  // `i += size`, stopping at the end of the list
      }
    }

    /** `fetchMarketGroups()`; `ok` is false where it throws. */
    method FetchMarketGroups(net: nat -> Attempt) returns (ok: bool)
      modifies this`requests, this`marketGroups, this`typeInfo
      ensures (Current(), ok) == GroupPhase(net, old(Current()))
    {
      var groupIds;
      ghost var s;
      groupIds, s := MakeRequest(net, GroupList, Retries);
      if !(groupIds.Resolved? && groupIds.value.Arr?) {
        return false;
      }
      ghost var batches;
      batches := FetchInBatches(net, GroupDetails, groupIds.value.elems, 50);
      ok := true;
    }

    /** `fetchTypesIndividually(typeIds)` */
    method FetchTypesIndividually(net: nat -> Attempt, typeIds: seq<Js>) returns (ghost batches: seq<seq<Js>>)
      modifies this`requests, this`marketGroups, this`typeInfo
      ensures batches == Chunks(typeIds, 10)
      ensures Current() == Details(net, TypeDetails, old(Current()), typeIds)
    {
      batches := FetchInBatches(net, TypeDetails, typeIds, 10);
    }

    /** `fetchTypeNamesBulk(typeIds)`; `threw` is true where it throws. */
    method FetchTypeNamesBulk(net: nat -> Attempt, typeIds: seq<Js>) returns (threw: bool)
      modifies this`requests, this`typeInfo
      ensures (Current(), threw) == Bulk(net, old(Current()), typeIds)
      ensures typeIds == [] ==> Current() == old(Current()) && !threw
    {
      if |typeIds| == 0 {
        return false;
      }
      var nameData;
      ghost var s;
      nameData, s := MakeRequestPost(net, Names(typeIds), Retries);
      if nameData.Rejected? {
        return true;  // logged and rethrown
      }
      threw := false;
      if nameData.value.Arr? {
        var items := nameData.value.elems;
        ghost var goal, logged := StoreNames(typeInfo, items), requests;
        for j := 0 to |items|
          invariant StoreNames(typeInfo, items[j..]) == goal
          invariant requests == logged
        {
          var item := items[j];
          assert items[j..][0] == item && items[j..][1..] == items[j + 1..];
          if IsNullish(item) {
            return true;  // `item.id` throws a TypeError
          }
          if Accepted(item) {
            typeInfo := Put(typeInfo, Get(item, "id"), NameRecord(item));
          }
        }
      }
    }

    /** `fetchTypeInformation()` */
    method FetchTypeInformation(net: nat -> Attempt)
      modifies this`requests, this`marketGroups, this`typeInfo
      ensures Current() == TypePhase(net, old(Current()))
    {
      var typeIdArray := CollectTypeIds(Values(marketGroups));
      ghost var goal := TypeBatches(net, Current(), Chunks(typeIdArray, 1000));
      var i := 0;
      while i < |typeIdArray|
        invariant i <= |typeIdArray|
        invariant TypeBatches(net, Current(), Chunks(typeIdArray[i..], 1000)) == goal
        decreases |typeIdArray| - i
      {
        var hi := Min(i + 1000, |typeIdArray|);
        var batch := typeIdArray[i..hi];
        ChunksStep(typeIdArray, i, 1000);
        var threw := FetchTypeNamesBulk(net, batch);
        if threw {
          ghost var b;
          b := FetchTypesIndividually(net, batch);
        }
        i := hi;
      }
    }
  }

  // ---------------------------------------------------------------------
  // The tree: `buildHierarchy()` and `buildGroupNode(group)`, unsorted
  // ---------------------------------------------------------------------

  /** `typeData && typeData.published !== false`: the name is not looked at. */
  predicate Shown(r: TypeRecord) {
    r.published != Bool(false)
  }

  /** `group.types.forEach(typeId => node.items[typeData.name] = {item_id: typeId, name: typeData.name})` */
  function ItemEntries(ids: seq<Js>, types: seq<(Js, TypeRecord)>): seq<(string, Item)>
    decreases |ids|
  {
    if ids == [] then []
    else
      var rest := ItemEntries(ids[1..], types);
      match Lookup(types, ids[0])
      case Some(r) => if Shown(r) then [(NameKey(r.name), Item(ids[0], r.name))] + rest else rest
      case None => rest
  }

  /** `node.items`, filled only `if (group.types)`. */
  function NodeItems(g: Group, types: seq<(Js, TypeRecord)>): seq<(string, Item)> {
    if Truthy(g.types) then PutAll([], ItemEntries(TypesOf(g), types)) else []
  }

  /** `buildGroupNode(group)`: the recursion ends because `rank` drops from parent to child. */
  function BuildGroupNode(groups: seq<Group>, types: seq<(Js, TypeRecord)>, rank: Js -> nat, g: Group): Node
    requires Ranked(groups, rank) && Live(groups, rank, g)
    decreases rank(g.id), 1
  {
    ChildrenRanked(groups, g, rank);
    Node(g.id, g.name, PutAll([], NodeEntries(groups, types, rank, Children(groups, g), rank(g.id))),
         NodeItems(g, types))
  }

  /** `childGroups.forEach(c => node.subgroups[c.name] = buildGroupNode(c))`, as entries. */
  function NodeEntries(groups: seq<Group>, types: seq<(Js, TypeRecord)>, rank: Js -> nat,
                       cs: seq<Group>, bound: nat): seq<(string, Node)>
    requires Ranked(groups, rank)
    requires forall c :: c in cs ==> Live(groups, rank, c) && rank(c.id) < bound
    decreases bound, 0, |cs|
  {
    if cs == [] then []
    else [(GroupName(cs[0]), BuildGroupNode(groups, types, rank, cs[0]))] + NodeEntries(groups, types, rank, cs[1..], bound)
  }

  /** `rootGroups.forEach(g => hierarchy[g.name] = buildGroupNode(g))`, as entries. */
  function RootEntries(groups: seq<Group>, types: seq<(Js, TypeRecord)>, rank: Js -> nat, cs: seq<Group>): seq<(string, Node)>
    requires Ranked(groups, rank)
    requires forall c :: c in cs ==> Live(groups, rank, c)
  {
    if cs == [] then []
    else [(GroupName(cs[0]), BuildGroupNode(groups, types, rank, cs[0]))] + RootEntries(groups, types, rank, cs[1..])
  }

  /** `buildHierarchy()`: the roots in map order, each with its subtree. */
  function BuildHierarchy(groups: seq<Group>, types: seq<(Js, TypeRecord)>, rank: Js -> nat): seq<(string, Node)>
    requires Ranked(groups, rank)
  {
    FilterMembers(groups, IsRoot);
    PutAll([], RootEntries(groups, types, rank, Filter(groups, IsRoot)))
  }

  /** The item entry written for `id`: its record is stored and not `published: false`. */
  predicate WritesItem(types: seq<(Js, TypeRecord)>, id: Js, e: (string, Item)) {
    match Lookup(types, id)
    case Some(r) => Shown(r) && e == (NameKey(r.name), Item(id, r.name))
    case None => false
  }

  /** An item entry is written for each of the ids with a stored record that is not `published: false`. */
  lemma {:induction false} ItemEntriesSpec(ids: seq<Js>, types: seq<(Js, TypeRecord)>, e: (string, Item))
    ensures e in ItemEntries(ids, types) <==> exists id :: id in ids && WritesItem(types, id, e)
    decreases |ids|
  {
    if ids != [] {
      var rest := ItemEntries(ids[1..], types);
      ItemEntriesSpec(ids[1..], types, e);
      assert forall id :: id in ids <==> id == ids[0] || id in ids[1..];
      if WritesItem(types, ids[0], e) {
        assert ItemEntries(ids, types) == [e] + rest;
      } else {
        assert e in ItemEntries(ids, types) <==> e in rest;
      }
    }
  }

  /**
   * A node's items: a key for each of the group's type ids whose record
   * is stored and not `published: false`, named by the record whatever
   * that name is, holding `{item_id: typeId, name: typeData.name}`.
   */
  lemma NodeItemsSpec(g: Group, types: seq<(Js, TypeRecord)>, k: string)
    ensures HasKey(NodeItems(g, types), k) <==>
            exists id, it :: id in TypesOf(g) && WritesItem(types, id, (k, it))
    ensures forall it :: Lookup(NodeItems(g, types), k) == Some(it) ==>
              exists id :: id in TypesOf(g) && WritesItem(types, id, (k, it))
  {
    var ids := TypesOf(g);
    var es := ItemEntries(ids, types);
    if Truthy(g.types) {
      PutAllHas([], es, k);
      if k in KeysOf(es) {
        var i :| 0 <= i < |es| && KeysOf(es)[i] == k;
        ItemEntriesSpec(ids, types, es[i]);
        assert es[i] == (k, es[i].1);
      }
      if exists id, it :: id in ids && WritesItem(types, id, (k, it)) {
        var id, it :| id in ids && WritesItem(types, id, (k, it));
        ItemEntriesSpec(ids, types, (k, it));
        var i :| 0 <= i < |es| && es[i] == (k, it);
        assert KeysOf(es)[i] == k;
      }
      forall it | Lookup(NodeItems(g, types), k) == Some(it)
        ensures exists id :: id in ids && WritesItem(types, id, (k, it))
      {
        ObjectValue(es, k, it);
        var i :| 0 <= i < |es| && es[i] == (k, it);
        ItemEntriesSpec(ids, types, es[i]);
      }
    } else {
      assert ids == [];
    }
  }

  lemma {:induction false} NodeEntriesShape(groups: seq<Group>, types: seq<(Js, TypeRecord)>, rank: Js -> nat,
                                            cs: seq<Group>, bound: nat)
    requires Ranked(groups, rank)
    requires forall c :: c in cs ==> Live(groups, rank, c) && rank(c.id) < bound
    ensures KeyedBy(NodeEntries(groups, types, rank, cs, bound), cs, GroupName)
    ensures forall i :: 0 <= i < |cs| ==>
              NodeEntries(groups, types, rank, cs, bound)[i].1 == BuildGroupNode(groups, types, rank, cs[i])
    decreases |cs|
  {
    if cs != [] {
      NodeEntriesShape(groups, types, rank, cs[1..], bound);
    }
  }

  lemma {:induction false} RootEntriesShape(groups: seq<Group>, types: seq<(Js, TypeRecord)>, rank: Js -> nat,
                                            cs: seq<Group>)
    requires Ranked(groups, rank)
    requires forall c :: c in cs ==> Live(groups, rank, c)
    ensures KeyedBy(RootEntries(groups, types, rank, cs), cs, GroupName)
    ensures forall i :: 0 <= i < |cs| ==>
              RootEntries(groups, types, rank, cs)[i].1 == BuildGroupNode(groups, types, rank, cs[i])
    decreases |cs|
  {
    if cs != [] {
      RootEntriesShape(groups, types, rank, cs[1..]);
    }
  }

  /**
   * A node copies its group's id and name and holds the group's items; its
   * subgroups are keyed by the names of exactly the groups whose parent is
   * `=== group.id`.
   */
  lemma SubgroupKeys(groups: seq<Group>, types: seq<(Js, TypeRecord)>, rank: Js -> nat, g: Group, k: string)
    requires Ranked(groups, rank) && Live(groups, rank, g)
    ensures var n := BuildGroupNode(groups, types, rank, g);
            n.id == g.id && n.name == g.name && n.items == NodeItems(g, types)
    ensures HasKey(BuildGroupNode(groups, types, rank, g).subgroups, k) <==>
            exists c :: c in groups && IsChildOf(c, g) && GroupName(c) == k
  {
    var cs := Children(groups, g);
    ChildrenRanked(groups, g, rank);
    NodeEntriesShape(groups, types, rank, cs, rank(g.id));
    ObjectKeys(NodeEntries(groups, types, rank, cs, rank(g.id)), cs, GroupName, k);
  }

  /** A child whose name no sibling shares is stored under its name as its own node. */
  lemma SubgroupValue(groups: seq<Group>, types: seq<(Js, TypeRecord)>, rank: Js -> nat, g: Group, c: Group)
    requires Ranked(groups, rank) && Live(groups, rank, g)
    requires c in groups && IsChildOf(c, g) && SoleChildNamed(groups, g, c)
    ensures Lookup(BuildGroupNode(groups, types, rank, g).subgroups, GroupName(c))
            == Some(BuildGroupNode(groups, types, rank, c))
  {
    var cs := Children(groups, g);
    ChildrenRanked(groups, g, rank);
    var es := NodeEntries(groups, types, rank, cs, rank(g.id));
    NodeEntriesShape(groups, types, rank, cs, rank(g.id));
    var m :| 0 <= m < |cs| && cs[m] == c;
    assert KeysOf(es)[m] == GroupName(c);
    var i := LastKeyed(es, GroupName(c));
    assert cs[i] in cs;
    PutAllLast([], es, i);
  }

  /** No other child of `g` has the name of `c`. */
  predicate SoleChildNamed(groups: seq<Group>, g: Group, c: Group) {
    forall d :: d in groups && IsChildOf(d, g) && GroupName(d) == GroupName(c) ==> d == c
  }

  /** The names of `gs`, pairwise different. */
  predicate DistinctNames(gs: seq<Group>) {
    forall i, j :: 0 <= i < j < |gs| ==> GroupName(gs[i]) != GroupName(gs[j])
  }

  /**
   * No sort: when the children's names differ, the subgroups are the
   * children's nodes in the order the children were stored.
   */
  lemma SubgroupsInMapOrder(groups: seq<Group>, types: seq<(Js, TypeRecord)>, rank: Js -> nat, g: Group)
    requires Ranked(groups, rank) && Live(groups, rank, g) && DistinctNames(Children(groups, g))
    ensures var cs := Children(groups, g);
            var sub := BuildGroupNode(groups, types, rank, g).subgroups;
            |sub| == |cs| && forall i :: 0 <= i < |cs| ==> Live(groups, rank, cs[i]) && sub[i] == (GroupName(cs[i]), BuildGroupNode(groups, types, rank, cs[i]))
  {
    var cs := Children(groups, g);
    ChildrenRanked(groups, g, rank);
    var es := NodeEntries(groups, types, rank, cs, rank(g.id));
    NodeEntriesShape(groups, types, rank, cs, rank(g.id));
    PutAllOfDistinct(es);
  }

  /** The hierarchy is keyed by the names of exactly the groups with a falsy `parent_group_id`. */
  lemma RootKeys(groups: seq<Group>, types: seq<(Js, TypeRecord)>, rank: Js -> nat, k: string)
    requires Ranked(groups, rank)
    ensures HasKey(BuildHierarchy(groups, types, rank), k) <==> exists g :: g in groups && IsRoot(g) && GroupName(g) == k
  {
    var cs := Filter(groups, IsRoot);
    FilterMembers(groups, IsRoot);
    RootEntriesShape(groups, types, rank, cs);
    ObjectKeys(RootEntries(groups, types, rank, cs), cs, GroupName, k);
  }

  /** No other root has the name of `g`. */
  predicate SoleRootNamed(groups: seq<Group>, g: Group) {
    forall d :: d in groups && IsRoot(d) && GroupName(d) == GroupName(g) ==> d == g
  }

  /** A root whose name no other root shares is stored under its name as its own node. */
  lemma RootValue(groups: seq<Group>, types: seq<(Js, TypeRecord)>, rank: Js -> nat, g: Group)
    requires Ranked(groups, rank) && Live(groups, rank, g) && IsRoot(g) && SoleRootNamed(groups, g)
    ensures Lookup(BuildHierarchy(groups, types, rank), GroupName(g)) == Some(BuildGroupNode(groups, types, rank, g))
  {
    var cs := Filter(groups, IsRoot);
    FilterMembers(groups, IsRoot);
    var es := RootEntries(groups, types, rank, cs);
    RootEntriesShape(groups, types, rank, cs);
    var m :| 0 <= m < |cs| && cs[m] == g;
    assert KeysOf(es)[m] == GroupName(g);
    var i := LastKeyed(es, GroupName(g));
    assert cs[i] in cs;
    PutAllLast([], es, i);
  }

  /** No sort: when the roots' names differ, the hierarchy lists the roots in the order they were stored. */
  lemma RootsInMapOrder(groups: seq<Group>, types: seq<(Js, TypeRecord)>, rank: Js -> nat)
    requires Ranked(groups, rank) && DistinctNames(Filter(groups, IsRoot))
    ensures var cs := Filter(groups, IsRoot);
            var h := BuildHierarchy(groups, types, rank);
            |h| == |cs| && forall i :: 0 <= i < |cs| ==> Live(groups, rank, cs[i]) && h[i] == (GroupName(cs[i]), BuildGroupNode(groups, types, rank, cs[i]))
  {
    var cs := Filter(groups, IsRoot);
    FilterMembers(groups, IsRoot);
    var es := RootEntries(groups, types, rank, cs);
    RootEntriesShape(groups, types, rank, cs);
    PutAllOfDistinct(es);
  }
}
