/**
 * The universe loader: on its first successful run it fetches the list of
 * region ids, shuffles it in place (Fisher–Yates) and stores it on the
 * application object; later runs leave it alone.
 *
 * `Math.random()` is an oracle: the draws, each in [0, 1), are consumed in
 * order, one per swap.  The region request is a parameter: its status and
 * the parsed body (`None` when `JSON.parse` throws).
 */
module LoadUniverse {
  import opened Common
  import opened JsValue

  // ---------------------------------------------------------------------
  // `shuffle`
  // ---------------------------------------------------------------------

  /** `[s[i], s[j]] = [s[j], s[i]]` */
  function Swap<T>(s: seq<T>, i: nat, j: nat): (r: seq<T>)
    requires i < |s| && j < |s|
    ensures |r| == |s|
  {
    s[i := s[j]][j := s[i]]
  }

  lemma SwapPermutes<T>(s: seq<T>, i: nat, j: nat)
    requires i < |s| && j < |s|
    ensures multiset(Swap(s, i, j)) == multiset(s)
  {
    var t := s[i := s[j]];
    assert multiset(t) == multiset(s) - multiset{s[i]} + multiset{s[j]};
    assert t[j] == (if i == j then s[j] else s[j]);
  }

  /** The `j` the step for index `i` swaps with, from its draw. */
  function Partner(r: real, i: nat): (j: nat)
    requires IsDraw(r)
    ensures j <= i
  {
    ScaledRange(r, i + 1);
    Scaled(r, i + 1)
  }

  /**
   * The loop's remaining steps from index `i` down to 1; `rs` holds the
   * draws still to come, the next one first.
   */
  function ShuffleDown<T>(s: seq<T>, i: nat, rs: seq<real>): seq<T>
    requires i < |s| && i <= |rs|
    requires forall k :: 0 <= k < |rs| ==> IsDraw(rs[k])
    decreases i
  {
    if i == 0 then s else ShuffleDown(Swap(s, i, Partner(rs[0], i)), i - 1, rs[1..])
  }

  /** The draws a shuffle of `n` elements consumes. */
  function DrawsFor(n: nat): nat {
    if n == 0 then 0 else n - 1
  }

  /** `shuffle(array)` as a value: what the array holds afterwards. */
  function Shuffled<T>(s: seq<T>, rs: seq<real>): seq<T>
    requires DrawsFor(|s|) <= |rs|
    requires forall k :: 0 <= k < |rs| ==> IsDraw(rs[k])
  {
    if s == [] then s else ShuffleDown(s, |s| - 1, rs)
  }

  /**
   * The remaining steps permute the elements and leave every position
   * above `i` alone.
   */
  lemma {:induction false} ShuffleDownSpec<T>(s: seq<T>, i: nat, rs: seq<real>)
    requires i < |s| && i <= |rs|
    requires forall k :: 0 <= k < |rs| ==> IsDraw(rs[k])
    ensures |ShuffleDown(s, i, rs)| == |s|
    ensures multiset(ShuffleDown(s, i, rs)) == multiset(s)
    ensures forall k :: i < k < |s| ==> ShuffleDown(s, i, rs)[k] == s[k]
    decreases i
  {
    if i > 0 {
      var t := Swap(s, i, Partner(rs[0], i));
      SwapPermutes(s, i, Partner(rs[0], i));
      ShuffleDownSpec(t, i - 1, rs[1..]);
    }
  }

  /** A shuffle yields a permutation of its input. */
  lemma ShuffledPermutes<T>(s: seq<T>, rs: seq<real>)
    requires DrawsFor(|s|) <= |rs|
    requires forall k :: 0 <= k < |rs| ==> IsDraw(rs[k])
    ensures |Shuffled(s, rs)| == |s|
    ensures multiset(Shuffled(s, rs)) == multiset(s)
  {
    if s != [] {
      ShuffleDownSpec(s, |s| - 1, rs);
    }
  }

  /** A draw whose scaled value is `i` makes step `i` swap a cell with itself. */
  lemma {:induction false} TopDrawsKeep<T>(s: seq<T>, i: nat, rs: seq<real>)
    requires i < |s| && i <= |rs|
    requires forall k :: 0 <= k < |rs| ==> IsDraw(rs[k])
    requires forall k :: 0 <= k < i ==> Scaled(rs[k], i - k + 1) == i - k
    ensures ShuffleDown(s, i, rs) == s
    decreases i
  {
    if i > 0 {
      assert Swap(s, i, Partner(rs[0], i)) == s;
      forall k | 0 <= k < i - 1
        ensures Scaled(rs[1..][k], i - 1 - k + 1) == i - 1 - k
      {
        assert rs[1..][k] == rs[k + 1];
      }
      TopDrawsKeep(s, i - 1, rs[1..]);
    }
  }

  /** `[a[i], a[j]] = [a[j], a[i]]` on the array. */
  method SwapCells<T>(a: array<T>, i: nat, j: nat)
    requires i < a.Length && j < a.Length
    modifies a
    ensures a[..] == Swap(old(a[..]), i, j)
  {
    a[i], a[j] := a[j], a[i];
  }

  /**
   * `shuffle(array)` on an array: each step swaps `a[i]` with `a[j]`,
   * `j` in [0, i], for `i` from `a.Length - 1` down to 1, and the array
   * object itself is returned.
   */
  method Shuffle<T>(a: array<T>, rs: seq<real>) returns (r: array<T>)
    requires DrawsFor(a.Length) <= |rs|
    requires forall k :: 0 <= k < |rs| ==> IsDraw(rs[k])
    modifies a
    ensures r == a
    ensures a[..] == Shuffled(old(a[..]), rs)
    ensures multiset(a[..]) == multiset(old(a[..]))
  {
    ghost var goal := Shuffled(a[..], rs);
    ShuffledPermutes(a[..], rs);
    r := a;
    if a.Length == 0 {
      return;
    }
    var i, ds := a.Length - 1, rs;
    while i > 0
      invariant 0 <= i < a.Length && i <= |ds|
      invariant forall k :: 0 <= k < |ds| ==> IsDraw(ds[k])
      invariant goal == ShuffleDown(a[..], i, ds)
      decreases i
    {
      var j := Partner(ds[0], i);
      assert goal == ShuffleDown(Swap(a[..], i, j), i - 1, ds[1..]);
      SwapCells(a, i, j);
      i, ds := i - 1, ds[1..];
    }
  }

  // ---------------------------------------------------------------------
  // `f(app)`: the guarded assignment of `app.regions`
  // ---------------------------------------------------------------------

  /** What one run of the job did with `app.regions`. */
  datatype Loaded = Loaded(regions: Js, requests: nat, threw: bool)

  /**
   * `shuffle` applied to a parsed body.  An array is shuffled; `null`
   * throws on `.length`; a string of two or more characters throws on the
   * first index assignment; anything else has no numeric `length` above 1
   * and is returned as it is.
   */
  function ShuffleValue(v: Js, rs: seq<real>): (r: Option<Js>)
    requires v.Arr? ==> DrawsFor(|v.elems|) <= |rs|
    requires forall k :: 0 <= k < |rs| ==> IsDraw(rs[k])
  {
    match v
    case Arr(xs) => Some(Arr(Shuffled(xs, rs)))
    case Null => None
    case Undef => None
    case Str(s) => if |s| >= 2 then None else Some(v)
    case _ => Some(v)
  }

  /** One run of the job, given the current `app.regions`, the reply and the draws. */
  function Load(regions: Js, status: int, body: Option<Js>, rs: seq<real>): Loaded
    requires body.Some? && body.value.Arr? ==> DrawsFor(|body.value.elems|) <= |rs|
    requires forall k :: 0 <= k < |rs| ==> IsDraw(rs[k])
  {
    if !IsNullish(regions) then Loaded(regions, 0, false)
    else if status != 200 then Loaded(regions, 1, false)
    else if body.None? then Loaded(regions, 1, true)
    else match ShuffleValue(body.value, rs)
      case None => Loaded(regions, 1, true)
      case Some(v) => Loaded(v, 1, false)
  }

  /**
   * `app.regions` changes only when it was `null` or `undefined` and the
   * reply was a 200; once set to a non-null value, later runs make no
   * request.  An array reply is stored as a permutation of itself.
   */
  lemma LoadGuarded(regions: Js, status: int, body: Option<Js>, rs: seq<real>)
    requires body.Some? && body.value.Arr? ==> DrawsFor(|body.value.elems|) <= |rs|
    requires forall k :: 0 <= k < |rs| ==> IsDraw(rs[k])
    ensures var l := Load(regions, status, body, rs);
      l.regions != regions ==> IsNullish(regions) && status == 200 && body.Some?
    ensures !IsNullish(regions) ==> Load(regions, status, body, rs) == Loaded(regions, 0, false)
    ensures IsNullish(regions) ==> Load(regions, status, body, rs).requests == 1
    ensures var l := Load(regions, status, body, rs);
      IsNullish(regions) && status == 200 && body.Some? && body.value.Arr? ==>
        l.regions.Arr? && !l.threw && multiset(l.regions.elems) == multiset(body.value.elems)
  {
    if IsNullish(regions) && status == 200 && body.Some? && body.value.Arr? {
      ShuffledPermutes(body.value.elems, rs);
    }
  }

  /** A second run after a successful array load makes no request and changes nothing. */
  lemma LoadOnce(regions: Js, status: int, xs: seq<Js>, status2: int, body2: Option<Js>, rs: seq<real>, rs2: seq<real>)
    requires IsNullish(regions) && status == 200
    requires DrawsFor(|xs|) <= |rs|
    requires forall k :: 0 <= k < |rs| ==> IsDraw(rs[k])
    requires body2.Some? && body2.value.Arr? ==> DrawsFor(|body2.value.elems|) <= |rs2|
    requires forall k :: 0 <= k < |rs2| ==> IsDraw(rs2[k])
    ensures var l := Load(regions, status, Some(Arr(xs)), rs);
      Load(l.regions, status2, body2, rs2) == Loaded(l.regions, 0, false)
  {
  }

  /** The application object: only `regions` is modelled. */
  class App {
    var regions: Js

    constructor(regions: Js)
      ensures this.regions == regions
    {
      this.regions := regions;
    }

    /**
     * `f(app)`: when `app.regions` is nullish, request the regions and, on
     * a 200, store the shuffled parsed body.  `threw` is an exception out
     * of `JSON.parse` or `shuffle`, which leaves `regions` as it was.
     */
    method Exec(status: int, body: Option<Js>, rs: seq<real>) returns (requests: nat, threw: bool)
      requires body.Some? && body.value.Arr? ==> DrawsFor(|body.value.elems|) <= |rs|
      requires forall k :: 0 <= k < |rs| ==> IsDraw(rs[k])
      modifies this
      ensures Loaded(regions, requests, threw) == Load(old(regions), status, body, rs)
    {
      requests, threw := 0, false;
      if !IsNullish(regions) {
        return;
      }
      requests := 1;
      if status != 200 {
        return;
      }
      if body.None? {
        threw := true;
        return;
      }
      match body.value
      case Arr(xs) =>
        var a := new Js[|xs|](i requires 0 <= i < |xs| => xs[i]);
        assert a[..] == xs;
        var shuffled := Shuffle(a, rs);
        regions := Arr(shuffled[..]);
      case Null =>
        threw := true;
      case Undef =>
        threw := true;
      case Str(s) =>
        if |s| >= 2 {
          threw := true;
        } else {
          regions := body.value;
        }
      case _ =>
        regions := body.value;
    }
  }
}
