/**
 * One round of `populateSet(app, typeValue)` in cron/update_information.js.
 * The rows waiting for their first fetch go first; when none of them was
 * fetched, the ten stalest rows of the type are refreshed, oldest first.
 *
 * The `information` collection is a sequence of rows in natural order, and
 * `updateOne(row, ...)` updates the first row equal to `row`.  Every fetch of
 * a round is applied before the next one starts.  `stop(k)` says whether
 * `app.bailout` or `app.no_api` is set when the round has fetched `k` rows,
 * and `outcomes(k)` is the answer to the k-th fetch.
 */
module InformationRounds {
  import opened Common
  import opened JsValue
  import opened UpdateInformation

  /** `.limit(10)` */
  const BatchLimit := 10

  predicate IsType(row: Row, typeValue: string) {
    Get(Obj(row), "type") == Str(typeValue)
  }

  /** `find({type: typeValue, waiting: true})` */
  predicate Waiting(row: Row, typeValue: string) {
    IsType(row, typeValue) && Get(Obj(row), "waiting") == Bool(true)
  }

  /** `find({type: typeValue, last_updated: {$lt: dayAgo}})` */
  predicate Due(row: Row, typeValue: string, dayAgo: int) {
    IsType(row, typeValue) && Stale(row, dayAgo)
  }

  // ---------------------------------------------------------------------
  // `.sort({last_updated: 1})`
  // ---------------------------------------------------------------------

  /** The number the sort compares (every due row has one). */
  function Updated(row: Row): int {
    var v := Get(Obj(row), "last_updated");
    if v.Num? then v.n else 0
  }

  predicate SortedBy<T>(s: seq<T>, key: T -> int) {
    forall i, j :: 0 <= i < j < |s| ==> key(s[i]) <= key(s[j])
  }

  function InsertBy<T>(x: T, s: seq<T>, key: T -> int): seq<T>
    decreases |s|
  {
    if s == [] || key(x) <= key(s[0]) then [x] + s else [s[0]] + InsertBy(x, s[1..], key)
  }

  /** An insertion sort standing for the database's sort. */
  function SortBy<T>(s: seq<T>, key: T -> int): seq<T>
    decreases |s|
  {
    if s == [] then [] else InsertBy(s[0], SortBy(s[1..], key), key)
  }

  lemma {:induction false} InsertByKeeps<T>(x: T, s: seq<T>, key: T -> int)
    ensures multiset(InsertBy(x, s, key)) == multiset(s) + multiset{x}
    ensures |InsertBy(x, s, key)| == |s| + 1
    decreases |s|
  {
    if s != [] && key(x) > key(s[0]) {
      InsertByKeeps(x, s[1..], key);
      assert s == [s[0]] + s[1..];
    }
  }

  lemma {:induction false} InsertBySorted<T>(x: T, s: seq<T>, key: T -> int)
    requires SortedBy(s, key)
    ensures SortedBy(InsertBy(x, s, key), key)
    decreases |s|
  {
    if s != [] && key(x) > key(s[0]) {
      var r := InsertBy(x, s[1..], key);
      InsertBySorted(x, s[1..], key);
      InsertByKeeps(x, s[1..], key);
      var out := [s[0]] + r;
      forall j | 0 <= j < |r|
        ensures key(s[0]) <= key(r[j])
      {
        assert r[j] in multiset(r);
        if r[j] != x {
          assert r[j] in multiset(s[1..]);
          var k :| 0 <= k < |s[1..]| && s[1..][k] == r[j];
          assert s[k + 1] == r[j];
        }
      }
      forall i, j | 0 <= i < j < |out|
        ensures key(out[i]) <= key(out[j])
      {
        if i > 0 {
          assert out[i] == r[i - 1] && out[j] == r[j - 1];
        } else {
          assert out[j] == r[j - 1];
        }
      }
    }
  }

  lemma {:induction false} SortBySorts<T>(s: seq<T>, key: T -> int)
    ensures SortedBy(SortBy(s, key), key)
    ensures multiset(SortBy(s, key)) == multiset(s)
    ensures |SortBy(s, key)| == |s|
    decreases |s|
  {
    if s != [] {
      SortBySorts(s[1..], key);
      InsertBySorted(s[0], SortBy(s[1..], key), key);
      InsertByKeeps(s[0], SortBy(s[1..], key), key);
      assert s == [s[0]] + s[1..];
    }
  }

  /**
   * The first `n` of the sorted sequence: as many as there are up to `n`,
   * sorted, drawn from `s`, and none of them larger than one left out.
   */
  lemma SmallestFirst<T>(s: seq<T>, key: T -> int, n: nat)
    ensures var batch := Take(SortBy(s, key), n);
            && |batch| == Min(n, |s|)
            && SortedBy(batch, key)
            && multiset(batch) <= multiset(s)
            && (forall x, y :: x in multiset(s) - multiset(batch) && y in batch ==> key(y) <= key(x))
  {
    var sorted := SortBy(s, key);
    SortBySorts(s, key);
    var batch := Take(sorted, n);
    var rest := sorted[|batch|..];
    assert sorted == batch + rest;
    MultisetSplit(multiset(s), multiset(batch), multiset(rest));
    SortedSplit(sorted, key, |batch|);
  }

  lemma MultisetSplit<T>(whole: multiset<T>, a: multiset<T>, b: multiset<T>)
    requires whole == a + b
    ensures a <= whole && whole - a == b
  {
  }

  /** In a sorted sequence nothing before position `m` is larger than anything from `m` on. */
  lemma SortedSplit<T>(sorted: seq<T>, key: T -> int, m: nat)
    requires SortedBy(sorted, key) && m <= |sorted|
    ensures forall x, y :: x in multiset(sorted[m..]) && y in sorted[..m] ==> key(y) <= key(x)
  {
    forall x, y | x in multiset(sorted[m..]) && y in sorted[..m]
      ensures key(y) <= key(x)
    {
      assert x in sorted[m..];
      var i :| 0 <= i < |sorted[m..]| && sorted[m..][i] == x;
      var j :| 0 <= j < m && sorted[..m][j] == y;
      assert sorted[m + i] == x && sorted[j] == y;
    }
  }

  /** `find({type, last_updated: {$lt: dayAgo}}).sort({last_updated: 1}).limit(10)` */
  function OldestDue(rows: seq<Row>, typeValue: string, dayAgo: int): seq<Row> {
    Take(SortBy(Filter(rows, r => Due(r, typeValue, dayAgo)), Updated), BatchLimit)
  }

  /**
   * The stale batch holds ten due rows of the type (all of them when there
   * are fewer), oldest first, and every due row left out is no older than
   * every row taken.
   */
  lemma OldestDueSelects(rows: seq<Row>, typeValue: string, dayAgo: int)
    ensures var due := Filter(rows, r => Due(r, typeValue, dayAgo));
            var batch := OldestDue(rows, typeValue, dayAgo);
            && |batch| == Min(BatchLimit, |due|)
            && (forall x :: x in batch ==> x in rows && Due(x, typeValue, dayAgo))
            && SortedBy(batch, Updated)
            && multiset(batch) <= multiset(due)
            && (forall x, y :: x in multiset(due) - multiset(batch) && y in batch ==> Updated(y) <= Updated(x))
  {
    var p := r => Due(r, typeValue, dayAgo);
    var due := Filter(rows, p);
    var batch := OldestDue(rows, typeValue, dayAgo);
    FilterMembers(rows, p);
    SmallestFirst(due, Updated, BatchLimit);
    forall x | x in batch
      ensures x in rows && Due(x, typeValue, dayAgo)
    {
      assert x in multiset(batch);
      assert x in due;
    }
  }

  // ---------------------------------------------------------------------
  // The store and one round
  // ---------------------------------------------------------------------

  /** The collection and the entity adds issued so far. */
  datatype Store = Store(rows: seq<Row>, adds: seq<EntityAdd>)

  /** `updateOne(filter, update)`: the first row equal to `filter` gets the write. */
  function UpdateFirst(rows: seq<Row>, filter: Row, w: Option<Write>): (r: seq<Row>)
    ensures |r| == |rows|
    ensures forall i :: 0 <= i < |rows| && rows[i] != filter ==> r[i] == rows[i]
    decreases |rows|
  {
    if rows == [] then []
    else if rows[0] == filter then [Apply(rows[0], w)] + rows[1..]
    else [rows[0]] + UpdateFirst(rows[1..], filter, w)
  }

  /** Exactly the first row equal to the filter is written; with no such row nothing changes. */
  lemma {:induction false} UpdateFirstWrites(rows: seq<Row>, filter: Row, w: Option<Write>, i: nat)
    requires i < |rows| && rows[i] == filter && filter !in rows[..i]
    ensures UpdateFirst(rows, filter, w) == rows[i := Apply(filter, w)]
    decreases i
  {
    if i > 0 {
      assert rows[0] in rows[..i];
      assert rows[1..][..i - 1] == rows[..i][1..];
      UpdateFirstWrites(rows[1..], filter, w, i - 1);
    }
  }

  lemma {:induction false} UpdateFirstMissing(rows: seq<Row>, filter: Row, w: Option<Write>)
    requires filter !in rows
    ensures UpdateFirst(rows, filter, w) == rows
    decreases |rows|
  {
    if rows != [] {
      assert rows[0] != filter;
      UpdateFirstMissing(rows[1..], filter, w);
    }
  }

  /** `fetch(app, row)` with its write-back and its adds. */
  function Step(t: Tables, esiUrl: string, s: Store, row: Row, now: int, appNow: int, outcome: HttpOutcome): Store {
    var f := FetchSpec(t, s.rows, row, esiUrl, now, appNow, outcome);
    Store(UpdateFirst(s.rows, row, f.write), s.adds + f.adds)
  }

  /** The fetches of `batch`, one after the other; the k-th gets `outcomes(k)`. */
  function Run(t: Tables, esiUrl: string, s: Store, batch: seq<Row>, now: int, appNow: int,
               outcomes: nat -> HttpOutcome): Store
    decreases |batch|
  {
    if batch == [] then s
    else
      var k := |batch| - 1;
      Step(t, esiUrl, Run(t, esiUrl, s, batch[..k], now, appNow, outcomes), batch[k], now, appNow, outcomes(k))
  }

  /** The number of rows `iterate` fetches from `k` on: it breaks at the first stop. */
  function Ran(stop: nat -> bool, n: nat, k: nat): (r: nat)
    requires k <= n
    ensures k <= r <= n
    ensures forall j :: k <= j < r ==> !stop(j)
    ensures r == n || stop(r)
    decreases n - k
  {
    if k == n || stop(k) then k else Ran(stop, n, k + 1)
  }

  datatype RoundResult = RoundResult(store: Store, fetched: nat, pause: int)

  /**
   * `populateSet(app, typeValue)` up to its recursive call: the store after
   * the round, the rows fetched, and the pause before the next round.
   */
  function Round(t: Tables, esiUrl: string, typeValue: string, s: Store, now: int, appNow: int,
                 noApi: bool, stop: nat -> bool, outcomes: nat -> HttpOutcome): RoundResult
  {
    if noApi then RoundResult(s, 0, 15000)
    else
      var waiting := Take(Filter(s.rows, r => Waiting(r, typeValue)), BatchLimit);
      var n := Ran(stop, |waiting|, 0);
      if n > 0 then RoundResult(Run(t, esiUrl, s, waiting[..n], now, appNow, outcomes), n, 1000)
      else
        var due := OldestDue(s.rows, typeValue, appNow - Day);
        var m := Ran(stop, |due|, 0);
        RoundResult(Run(t, esiUrl, s, due[..m], now, appNow, outcomes), m, if m == 0 then 15000 else 0)
  }

  // ---------------------------------------------------------------------
  // What a round promises
  // ---------------------------------------------------------------------

  /** A round fetches at most ten rows, and sleeps 15 s exactly when it fetched none. */
  lemma RoundBounded(t: Tables, esiUrl: string, typeValue: string, s: Store, now: int, appNow: int,
                     noApi: bool, stop: nat -> bool, outcomes: nat -> HttpOutcome)
    ensures var r := Round(t, esiUrl, typeValue, s, now, appNow, noApi, stop, outcomes);
            && r.fetched <= BatchLimit
            && (r.pause == 15000 <==> r.fetched == 0)
  {
  }

  /**
   * Waiting rows go first: when one exists and the round is not stopped, the
   * round fetches waiting rows of the type, in collection order, and the
   * stale query is not made.
   */
  lemma WaitingFirst(t: Tables, esiUrl: string, typeValue: string, s: Store, now: int, appNow: int,
                     stop: nat -> bool, outcomes: nat -> HttpOutcome, row: Row)
    requires row in s.rows && Waiting(row, typeValue) && !stop(0)
    ensures var r := Round(t, esiUrl, typeValue, s, now, appNow, false, stop, outcomes);
            var waiting := Filter(s.rows, x => Waiting(x, typeValue));
            && 0 < r.fetched && r.pause == 1000
            && r.store == Run(t, esiUrl, s, waiting[..r.fetched], now, appNow, outcomes)
  {
    var waiting := Filter(s.rows, x => Waiting(x, typeValue));
    FilterMembers(s.rows, x => Waiting(x, typeValue));
    assert row in waiting;
    var w := Take(waiting, BatchLimit);
    assert |w| > 0;
    var n := Ran(stop, |w|, 0);
    assert w[..n] == waiting[..n];
  }

  /** With no waiting row, the round refreshes the oldest due rows, in that order. */
  lemma StaleWhenNoneWaiting(t: Tables, esiUrl: string, typeValue: string, s: Store, now: int, appNow: int,
                             stop: nat -> bool, outcomes: nat -> HttpOutcome)
    requires forall x :: x in s.rows ==> !Waiting(x, typeValue)
    ensures var r := Round(t, esiUrl, typeValue, s, now, appNow, false, stop, outcomes);
            var due := OldestDue(s.rows, typeValue, appNow - Day);
            && r.fetched == Ran(stop, |due|, 0)
            && r.store == Run(t, esiUrl, s, due[..r.fetched], now, appNow, outcomes)
  {
    FilterNone(s.rows, x => Waiting(x, typeValue));
  }

  /** Fetches of rows of one type leave the rows of every other type as they were. */
  lemma {:induction false} RunKeepsOthers(t: Tables, esiUrl: string, typeValue: string, s: Store, batch: seq<Row>,
                                          now: int, appNow: int, outcomes: nat -> HttpOutcome)
    requires forall x :: x in batch ==> IsType(x, typeValue)
    ensures var after := Run(t, esiUrl, s, batch, now, appNow, outcomes).rows;
            && |after| == |s.rows|
            && forall i :: 0 <= i < |s.rows| && !IsType(s.rows[i], typeValue) ==> after[i] == s.rows[i]
    decreases |batch|
  {
    if batch != [] {
      var k := |batch| - 1;
      assert forall x :: x in batch[..k] ==> x in batch;
      RunKeepsOthers(t, esiUrl, typeValue, s, batch[..k], now, appNow, outcomes);
      assert batch[k] in batch;
    }
  }

  /** So a round for one type never changes a row of another type, nor the number of rows. */
  lemma RoundKeepsOthers(t: Tables, esiUrl: string, typeValue: string, s: Store, now: int, appNow: int,
                         noApi: bool, stop: nat -> bool, outcomes: nat -> HttpOutcome)
    ensures var after := Round(t, esiUrl, typeValue, s, now, appNow, noApi, stop, outcomes).store.rows;
            && |after| == |s.rows|
            && forall i :: 0 <= i < |s.rows| && !IsType(s.rows[i], typeValue) ==> after[i] == s.rows[i]
  {
    if !noApi {
      var pw := x => Waiting(x, typeValue);
      var waiting := Take(Filter(s.rows, pw), BatchLimit);
      FilterMembers(s.rows, pw);
      var n := Ran(stop, |waiting|, 0);
      if n > 0 {
        assert forall x :: x in waiting[..n] ==> x in Filter(s.rows, pw);
        RunKeepsOthers(t, esiUrl, typeValue, s, waiting[..n], now, appNow, outcomes);
      } else {
        var due := OldestDue(s.rows, typeValue, appNow - Day);
        OldestDueSelects(s.rows, typeValue, appNow - Day);
        var m := Ran(stop, |due|, 0);
        assert forall x :: x in due[..m] ==> x in due;
        RunKeepsOthers(t, esiUrl, typeValue, s, due[..m], now, appNow, outcomes);
      }
    }
  }

  // ---------------------------------------------------------------------
  // The collection as state
  // ---------------------------------------------------------------------

  class Information {
    var rows: seq<Row>
    /** The `entity.add` calls issued so far. */
    var adds: seq<EntityAdd>

    constructor (rows: seq<Row>)
      ensures this.rows == rows && adds == []
    {
      this.rows := rows;
      adds := [];
    }

    /** `updateOne(filter, update)` */
    method UpdateOne(filter: Row, w: Option<Write>)
      modifies this`rows
      ensures rows == UpdateFirst(old(rows), filter, w)
    {
      rows := UpdateFirst(rows, filter, w);
    }

    /** `fetch(app, row)` */
    method FetchOne(t: Tables, esiUrl: string, row: Row, now: int, appNow: int, outcome: HttpOutcome)
      modifies this
      ensures Store(rows, adds) == Step(t, esiUrl, Store(old(rows), old(adds)), row, now, appNow, outcome)
    {
      var r := Fetch(t, rows, row, esiUrl, now, appNow, outcome);
      UpdateOne(row, r.write);
      adds := adds + r.adds;
    }

    /** `iterate(app, cursor)`: fetch the rows in order until a stop; returns how many. */
    method Iterate(t: Tables, esiUrl: string, batch: seq<Row>, now: int, appNow: int,
                   stop: nat -> bool, outcomes: nat -> HttpOutcome) returns (fetched: nat)
      modifies this
      ensures fetched == Ran(stop, |batch|, 0)
      ensures Store(rows, adds) == Run(t, esiUrl, Store(old(rows), old(adds)), batch[..fetched], now, appNow, outcomes)
    {
      ghost var s0 := Store(rows, adds);
      fetched := 0;
      while fetched < |batch| && !stop(fetched)
        invariant fetched <= |batch|
        invariant Ran(stop, |batch|, fetched) == Ran(stop, |batch|, 0)
        invariant Store(rows, adds) == Run(t, esiUrl, s0, batch[..fetched], now, appNow, outcomes)
      {
        FetchOne(t, esiUrl, batch[fetched], now, appNow, outcomes(fetched));
        assert batch[..fetched + 1][..fetched] == batch[..fetched];
        fetched := fetched + 1;
      }
    }

    /** `populateSet(app, typeValue)` up to its recursive call. */
    method PopulateSet(t: Tables, esiUrl: string, typeValue: string, now: int, appNow: int,
                       noApi: bool, stop: nat -> bool, outcomes: nat -> HttpOutcome)
      returns (fetched: nat, pause: int)
      modifies this
      ensures RoundResult(Store(rows, adds), fetched, pause) ==
              Round(t, esiUrl, typeValue, Store(old(rows), old(adds)), now, appNow, noApi, stop, outcomes)
    {
      fetched := 0;
      pause := 0;
      if noApi {
        return 0, 15000;
      }
      var dayAgo := appNow - Day;
      var waiting := Take(Filter(rows, r => Waiting(r, typeValue)), BatchLimit);
      fetched := Iterate(t, esiUrl, waiting, now, appNow, stop, outcomes);
      if fetched > 0 {
        pause := 1000;
      } else {
        var due := OldestDue(rows, typeValue, dayAgo);
        fetched := Iterate(t, esiUrl, due, now, appNow, stop, outcomes);
      }
      if fetched == 0 {
        pause := 15000;
      }
    }
  }
}
