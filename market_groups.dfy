/**
 * What the two market-group builders (update_market_groups.js and
 * populate_market_groups.js) share: the records their `Map`s hold, the
 * `groups.json` node shape, bounded request retries against a stream of
 * network attempts, the unique type-id collection, the name order that
 * stands for `localeCompare`, and the parent links the recursive build
 * follows.
 */
module MarketGroups {
  import opened Common
  import opened JsValue

  // ---------------------------------------------------------------------
  // Requests.  `net(k)` is what the k-th HTTP attempt of the run meets.
  // ---------------------------------------------------------------------

  datatype Attempt =
    | Answered(status: int, body: Option<Js>)  // `body` is None when `JSON.parse` throws
    | NetError                                   // `req.on('error')`
    | TimedOut                                   // `req.setTimeout` fired

  /** How a request's promise settles. */
  datatype Reply = Resolved(value: Js) | Rejected

  datatype Served = Served(reply: Reply, calls: nat)

  /**
   * `makeRequest(endpoint, retries)` against the attempts `net(from)`,
   * `net(from + 1)`, ...: an attempt the script retries leads to the next
   * attempt while retries remain; any other attempt settles the request.
   */
  function Serve(net: nat -> Attempt, from: nat, retries: nat,
                 retryable: Attempt -> bool, settle: Attempt -> Reply): (s: Served)
    ensures 1 <= s.calls <= retries + 1
    decreases retries
  {
    if retryable(net(from)) && retries > 0 then
      var s := Serve(net, from + 1, retries - 1, retryable, settle);
      Served(s.reply, s.calls + 1)
    else Served(settle(net(from)), 1)
  }

  /**
   * A request makes at most `retries + 1` attempts; every attempt but the
   * last is one the script retries; the last one is not, or it is the
   * final attempt; and the request settles as the last attempt says.
   */
  lemma {:induction false} ServeRetriesOnly(net: nat -> Attempt, from: nat, retries: nat,
                                            retryable: Attempt -> bool, settle: Attempt -> Reply)
    ensures var s := Serve(net, from, retries, retryable, settle);
            && s.calls <= retries + 1
            && (forall k :: from <= k < from + s.calls - 1 ==> retryable(net(k)))
            && (!retryable(net(from + s.calls - 1)) || s.calls == retries + 1)
            && s.reply == settle(net(from + s.calls - 1))
    decreases retries
  {
    if retryable(net(from)) && retries > 0 {
      ServeRetriesOnly(net, from + 1, retries - 1, retryable, settle);
    }
  }

  /** `n` requests made one after the other, each starting where the last one stopped. */
  function ServeAll(net: nat -> Attempt, from: nat, n: nat, retries: nat,
                    retryable: Attempt -> bool, settle: Attempt -> Reply): (r: seq<Served>)
    ensures |r| == n
    decreases n
  {
    if n == 0 then []
    else
      var s := Serve(net, from, retries, retryable, settle);
      [s] + ServeAll(net, from + s.calls, n - 1, retries, retryable, settle)
  }

  function Replies(ss: seq<Served>): (rs: seq<Reply>)
    ensures |rs| == |ss|
  {
    if ss == [] then [] else [ss[0].reply] + Replies(ss[1..])
  }

  /** How many of the replies resolved (the requests whose promise did not reject). */
  function ResolvedCount(rs: seq<Reply>): (n: nat)
    ensures n <= |rs|
  {
    if rs == [] then 0 else (if rs[|rs| - 1].Resolved? then 1 else 0) + ResolvedCount(rs[..|rs| - 1])
  }

  // ---------------------------------------------------------------------
  // Records and nodes
  // ---------------------------------------------------------------------

  /** A `marketGroups` entry: `{id, name, description, parent_group_id, types}`. */
  datatype Group = Group(id: Js, name: Js, description: Js, parent: Js, types: Js)

  /** A `typeInfo` entry. */
  datatype TypeRecord = TypeRecord(id: Js, name: Js, description: Js, groupId: Js,
                                   categoryId: Js, published: Js, marketGroupId: Js)

  /** `{item_id, name}` */
  datatype Item = Item(itemId: Js, name: Js)

  /** `{id, name, subgroups: {...}, items: {...}}` */
  datatype Node = Node(id: Js, name: Js, subgroups: seq<(string, Node)>, items: seq<(string, Item)>)

  /** `Array.from(map.values())` */
  function Values<K, V>(m: seq<(K, V)>): (vs: seq<V>)
    ensures |vs| == |m| && forall i :: 0 <= i < |m| ==> vs[i] == m[i].1
  {
    if m == [] then [] else [m[0].1] + Values(m[1..])
  }

  lemma ValuesHave<K, V>(m: seq<(K, V)>, k: K, v: V)
    requires Lookup(m, k) == Some(v)
    ensures v in Values(m)
  {
    var i :| 0 <= i < |m| && m[i] == (k, v);
    assert Values(m)[i] == v;
  }

  /** `a === b`: objects and arrays are never the same object here. */
  predicate StrictEq(a: Js, b: Js) {
    a == b && !IsObjectLike(a)
  }

  /** The name a node is stored under: `obj[group.name]`. */
  function NameKey(name: Js): string {
    ToString(name)
  }

  // ---------------------------------------------------------------------
  // Unique type ids: `new Set()`, `group.types.forEach(id => set.add(id))`,
  // `Array.from(set)`.
  // ---------------------------------------------------------------------

  /** The ids `group.types.forEach` visits (none when `types` is not an array). */
  function TypesOf(g: Group): seq<Js> {
    if g.types.Arr? then g.types.elems else []
  }

  /** Every listed type id of every group, in map order, repeats included. */
  function AllTypeIds(groups: seq<Group>): seq<Js> {
    if groups == [] then [] else AllTypeIds(groups[..|groups| - 1]) + TypesOf(groups[|groups| - 1])
  }

  /** `set.add(x)` on a set kept in insertion order. */
  function AddOnce(ids: seq<Js>, x: Js): seq<Js> {
    if x in ids then ids else ids + [x]
  }

  /** The first occurrences of `xs`, in order. */
  function Dedup(xs: seq<Js>): seq<Js> {
    if xs == [] then [] else AddOnce(Dedup(xs[..|xs| - 1]), xs[|xs| - 1])
  }

  predicate Distinct<T(==)>(s: seq<T>) {
    forall i, j :: 0 <= i < j < |s| ==> s[i] != s[j]
  }

  lemma {:induction false} DedupSpec(xs: seq<Js>)
    ensures forall x :: x in Dedup(xs) <==> x in xs
    ensures Distinct(Dedup(xs))
  {
    if xs != [] {
      var init := xs[..|xs| - 1];
      DedupSpec(init);
      assert xs == init + [xs[|xs| - 1]];
    }
  }

  lemma {:induction false} AllTypeIdsSpec(groups: seq<Group>)
    ensures forall x :: x in AllTypeIds(groups) <==> exists g :: g in groups && x in TypesOf(g)
  {
    if groups != [] {
      var init := groups[..|groups| - 1];
      AllTypeIdsSpec(init);
      assert groups == init + [groups[|groups| - 1]];
    }
  }

  /**
   * The collected ids are every type id of every stored group, each exactly once.
   */
  lemma UniqueTypeIds(groups: seq<Group>)
    ensures forall x :: x in Dedup(AllTypeIds(groups)) <==> exists g :: g in groups && x in TypesOf(g)
    ensures Distinct(Dedup(AllTypeIds(groups)))
  {
    DedupSpec(AllTypeIds(groups));
    AllTypeIdsSpec(groups);
  }

  /** The two nested `forEach` loops adding to the `Set`. */
  method CollectTypeIds(groups: seq<Group>) returns (ids: seq<Js>)
    ensures ids == Dedup(AllTypeIds(groups))
  {
    ids := [];
    for g := 0 to |groups|
      invariant ids == Dedup(AllTypeIds(groups[..g]))
    {
      assert groups[..g + 1][..g] == groups[..g];
      var prefix := AllTypeIds(groups[..g]);
      var elems := TypesOf(groups[g]);
      assert prefix + elems[..0] == prefix;
      for e := 0 to |elems|
        invariant ids == Dedup(prefix + elems[..e])
      {
        assert (prefix + elems[..e + 1])[..|prefix| + e] == prefix + elems[..e];
        ids := AddOnce(ids, elems[e]);
      }
      assert elems[..|elems|] == elems;
      assert AllTypeIds(groups[..g + 1]) == prefix + elems;
    }
    assert groups[..|groups|] == groups;
  }

  // ---------------------------------------------------------------------
  // Names are compared in code-point order, standing for `localeCompare`.
  // ---------------------------------------------------------------------

  predicate NameLe(a: string, b: string)
    decreases |a|
  {
    a == [] || (b != [] && (a[0] < b[0] || (a[0] == b[0] && NameLe(a[1..], b[1..]))))
  }

  lemma {:induction false} NameLeTotal(a: string, b: string)
    ensures NameLe(a, b) || NameLe(b, a)
    decreases |a|
  {
    if a != [] && b != [] && a[0] == b[0] {
      NameLeTotal(a[1..], b[1..]);
    }
  }

  lemma {:induction false} NameLeTrans(a: string, b: string, c: string)
    requires NameLe(a, b) && NameLe(b, c)
    ensures NameLe(a, c)
    decreases |a|
  {
    if a != [] && a[0] == b[0] && b[0] == c[0] {
      NameLeTrans(a[1..], b[1..], c[1..]);
    }
  }

  predicate SortedByName<T>(s: seq<T>, name: T -> string) {
    forall i, j :: 0 <= i < j < |s| ==> NameLe(name(s[i]), name(s[j]))
  }

  function InsertByName<T>(x: T, s: seq<T>, name: T -> string): seq<T>
    decreases |s|
  {
    if s == [] || NameLe(name(x), name(s[0])) then [x] + s else [s[0]] + InsertByName(x, s[1..], name)
  }

  /** `.sort((a, b) => a.name.localeCompare(b.name))`, stable. */
  function SortByName<T>(s: seq<T>, name: T -> string): seq<T>
    decreases |s|
  {
    if s == [] then [] else InsertByName(s[0], SortByName(s[1..], name), name)
  }

  lemma {:induction false} InsertByNameKeeps<T>(x: T, s: seq<T>, name: T -> string)
    ensures multiset(InsertByName(x, s, name)) == multiset(s) + multiset{x}
    decreases |s|
  {
    if s != [] && !NameLe(name(x), name(s[0])) {
      InsertByNameKeeps(x, s[1..], name);
      assert s == [s[0]] + s[1..];
    }
  }

  lemma {:induction false} InsertByNameSorted<T>(x: T, s: seq<T>, name: T -> string)
    requires SortedByName(s, name)
    ensures SortedByName(InsertByName(x, s, name), name)
    decreases |s|
  {
    if s == [] || NameLe(name(x), name(s[0])) {
      var out := [x] + s;
      forall i, j | 0 <= i < j < |out|
        ensures NameLe(name(out[i]), name(out[j]))
      {
        assert out[j] == s[j - 1];
        if i > 0 {
          assert out[i] == s[i - 1];
        } else if j > 1 {
          NameLeTrans(name(x), name(s[0]), name(s[j - 1]));
        }
      }
    } else {
      NameLeTotal(name(x), name(s[0]));
      var r := InsertByName(x, s[1..], name);
      InsertByNameSorted(x, s[1..], name);
      InsertByNameKeeps(x, s[1..], name);
      forall j | 0 <= j < |r|
        ensures NameLe(name(s[0]), name(r[j]))
      {
        assert r[j] in multiset(r);
        if r[j] != x {
          assert r[j] in multiset(s[1..]);
          var k :| 0 <= k < |s[1..]| && s[1..][k] == r[j];
          assert s[k + 1] == r[j];
        }
      }
      var out := [s[0]] + r;
      forall i, j | 0 <= i < j < |out|
        ensures NameLe(name(out[i]), name(out[j]))
      {
        assert out[j] == r[j - 1];
        if i > 0 {
          assert out[i] == r[i - 1];
        }
      }
    }
  }

  /** The sort orders by name and loses or adds nothing. */
  lemma {:induction false} SortByNameSorts<T>(s: seq<T>, name: T -> string)
    ensures SortedByName(SortByName(s, name), name)
    ensures multiset(SortByName(s, name)) == multiset(s)
    ensures |SortByName(s, name)| == |s|
    decreases |s|
  {
    if s != [] {
      SortByNameSorts(s[1..], name);
      InsertByNameSorted(s[0], SortByName(s[1..], name), name);
      InsertByNameKeeps(s[0], SortByName(s[1..], name), name);
      assert s == [s[0]] + s[1..];
      assert |multiset(SortByName(s, name))| == |s|;
    }
  }

  // ---------------------------------------------------------------------
  // Parent links
  // ---------------------------------------------------------------------

  /** `!group.parent_group_id` */
  predicate IsRoot(g: Group) {
    !Truthy(g.parent)
  }

  predicate IsChildOf(c: Group, g: Group) {
    StrictEq(c.parent, g.id)
  }

  /** `groups.filter(c => c.parent_group_id === g.id)` */
  function Children(groups: seq<Group>, g: Group): seq<Group> {
    Filter(groups, (c: Group) => IsChildOf(c, g))
  }

  /**
   * The groups the builders reach: `rank` is positive on each of them.
   * The builders start at the roots and recurse into children without a
   * visited check, so they terminate exactly when no cycle of parent links
   * is reachable from a root (with distinct truthy ids there is none).
   */
  predicate Live(groups: seq<Group>, rank: Js -> nat, g: Group) {
    g in groups && rank(g.id) > 0
  }

  /**
   * A termination measure for the part of the parent links the builders
   * walk: every root is live, and from a live group the rank drops
   * strictly to each of its children, which are live too.  Groups no root
   * reaches are unconstrained.
   */
  predicate Ranked(groups: seq<Group>, rank: Js -> nat) {
    && (forall g :: g in groups && IsRoot(g) ==> rank(g.id) > 0)
    && (forall c, g :: c in groups && g in groups && IsChildOf(c, g) && rank(g.id) > 0 ==>
          0 < rank(c.id) < rank(g.id))
  }

  lemma ChildrenRanked(groups: seq<Group>, g: Group, rank: Js -> nat)
    requires Ranked(groups, rank) && Live(groups, rank, g)
    ensures forall c :: c in Children(groups, g) <==> c in groups && IsChildOf(c, g)
    ensures forall c :: c in Children(groups, g) ==> Live(groups, rank, c) && rank(c.id) < rank(g.id)
  {
    FilterMembers(groups, (c: Group) => IsChildOf(c, g));
  }

  /** Every root is live. */
  lemma RootsLive(groups: seq<Group>, rank: Js -> nat)
    requires Ranked(groups, rank)
    ensures forall g :: g in Filter(groups, IsRoot) ==> Live(groups, rank, g)
  {
    FilterMembers(groups, IsRoot);
  }

  /**
   * Groups with a parent cycle that no root reaches do not stop a rank
   * from existing: with a root of id 3 and groups 1 and 2 each the
   * other's parent, ranking the root alone satisfies the requirement.
   */
  lemma UnreachableCycleRanked(root: Group, a: Group, b: Group)
    requires root.id == Num(3) && root.parent == Null
    requires a.id == Num(1) && a.parent == Num(2) && b.id == Num(2) && b.parent == Num(1)
    ensures IsChildOf(a, b) && IsChildOf(b, a)
    ensures Ranked([root, a, b], (id: Js) => if id == Num(3) then 1 else 0)
  {
  }

  /** The name of a group, as the tree stores and sorts it. */
  function GroupName(g: Group): string {
    NameKey(g.name)
  }

  /** The graph of `x => entry(x)`, keyed by name, as a sequence of object assignments. */
  function Named<T, V>(xs: seq<T>, key: T -> string, val: T -> V): (es: seq<(string, V)>)
    ensures |es| == |xs| && forall i :: 0 <= i < |xs| ==> es[i] == (key(xs[i]), val(xs[i]))
  {
    if xs == [] then [] else [(key(xs[0]), val(xs[0]))] + Named(xs[1..], key, val)
  }

  // ---------------------------------------------------------------------
  // Objects filled by `obj[key(x)] = ...` for each `x` of a list
  // ---------------------------------------------------------------------

  /** Entry `i` is the assignment made for `xs[i]`, under the key `key(xs[i])`. */
  predicate KeyedBy<T, V>(es: seq<(string, V)>, xs: seq<T>, key: T -> string) {
    |es| == |xs| && forall i :: 0 <= i < |xs| ==> es[i].0 == key(xs[i])
  }

  /** The object has a key exactly when some element of the list has that name. */
  lemma ObjectKeys<T, V>(es: seq<(string, V)>, xs: seq<T>, key: T -> string, k: string)
    requires KeyedBy(es, xs, key)
    ensures HasKey(PutAll([], es), k) <==> exists x :: x in xs && key(x) == k
  {
    PutAllHas([], es, k);
    var ks := KeysOf(es);
    if k in ks {
      var i :| 0 <= i < |ks| && ks[i] == k;
      assert xs[i] in xs && key(xs[i]) == k;
    }
    if exists x :: x in xs && key(x) == k {
      var x :| x in xs && key(x) == k;
      var i :| 0 <= i < |xs| && xs[i] == x;
      assert ks[i] == k;
    }
  }

  /** Assigning in name order leaves the object's keys in name order. */
  lemma ObjectSorted<T, V>(es: seq<(string, V)>, xs: seq<T>, key: T -> string)
    requires KeyedBy(es, xs, key) && SortedByName(xs, key)
    ensures SortedKeys(PutAll([], es), NameLe)
  {
    assert SortedKeys(es, NameLe);
    PutAllSorted([], es, NameLe);
  }

  /** The last entry with a given key. */
  lemma {:induction false} LastKeyed<V>(es: seq<(string, V)>, k: string) returns (i: nat)
    requires k in KeysOf(es)
    ensures i < |es| && es[i].0 == k && forall j :: i < j < |es| ==> es[j].0 != k
    decreases |es|
  {
    var n := |es| - 1;
    if es[n].0 == k {
      i := n;
    } else {
      var ks := KeysOf(es);
      var m :| 0 <= m < |ks| && ks[m] == k;
      assert KeysOf(es[..n])[m] == k;
      i := LastKeyed(es[..n], k);
      assert es[..n][i] == es[i];
    }
  }

  /** Whatever the object holds under `k` was written by some entry keyed `k`. */
  lemma ObjectValue<V>(es: seq<(string, V)>, k: string, v: V)
    requires Lookup(PutAll([], es), k) == Some(v)
    ensures exists i :: 0 <= i < |es| && es[i] == (k, v)
  {
    PutAllHas([], es, k);
    var i := LastKeyed(es, k);
    PutAllLast([], es, i);
  }
}
