/**
 * Shared vocabulary for the model: optional values, results, ordered
 * association lists (the key order of a JavaScript object or `Map`),
 * string join/split, decimal numerals and fixed-size batching.
 */
module Common {

  datatype Option<T> = None | Some(value: T)

  datatype Result<T, E> = Ok(value: T) | Err(error: E)

  // ---------------------------------------------------------------------
  // Association lists.  A JavaScript object or `Map` keeps its keys in
  // insertion order; assigning to an existing key keeps its position.
  // ---------------------------------------------------------------------

  function KeysOf<K, V>(a: seq<(K, V)>): (ks: seq<K>)
    ensures |ks| == |a|
    ensures forall i :: 0 <= i < |a| ==> ks[i] == a[i].0
  {
    if a == [] then [] else [a[0].0] + KeysOf(a[1..])
  }

  predicate HasKey<K(==), V>(a: seq<(K, V)>, k: K) {
    exists i :: 0 <= i < |a| && a[i].0 == k
  }

  /** Keys are pairwise distinct (always true of an object built with Put). */
  predicate DistinctKeys<K(==), V>(a: seq<(K, V)>) {
    forall i, j :: 0 <= i < j < |a| ==> a[i].0 != a[j].0
  }

  /** The value stored under `k`, the first one if keys repeat. */
  function Lookup<K(==), V>(a: seq<(K, V)>, k: K): (r: Option<V>)
    ensures r.Some? <==> HasKey(a, k)
    ensures r.Some? ==> exists i :: 0 <= i < |a| && a[i] == (k, r.value)
  {
    if a == [] then None
    else if a[0].0 == k then Some(a[0].1)
    else
      var r := Lookup(a[1..], k);
      assert r.Some? ==> exists i :: 0 <= i < |a[1..]| && a[1..][i] == (k, r.value);
      assert HasKey(a[1..], k) ==> HasKey(a, k) by {
        if HasKey(a[1..], k) {
          var i :| 0 <= i < |a[1..]| && a[1..][i].0 == k;
          assert a[i + 1].0 == k;
        }
      }
      assert HasKey(a, k) ==> HasKey(a[1..], k) by {
        if HasKey(a, k) {
          var i :| 0 <= i < |a| && a[i].0 == k;
          assert i > 0 && a[1..][i - 1].0 == k;
        }
      }
      r
  }

  /** An entry whose key no earlier entry has is what `Lookup` finds. */
  lemma {:induction false} LookupFirst<K, V>(a: seq<(K, V)>, i: nat)
    requires i < |a| && forall j :: 0 <= j < i ==> a[j].0 != a[i].0
    ensures Lookup(a, a[i].0) == Some(a[i].1)
  {
    if i > 0 {
      assert a[1..][i - 1] == a[i];
      LookupFirst(a[1..], i - 1);
    }
  }

  /** `obj[k] = v`: overwrite in place when `k` is present, else append. */
  function Put<K(==,!new), V>(a: seq<(K, V)>, k: K, v: V): (r: seq<(K, V)>)
    ensures Lookup(r, k) == Some(v)
    ensures forall k' {:trigger Lookup(r, k')} :: k' != k ==> Lookup(r, k') == Lookup(a, k')
  {
    if a == [] then [(k, v)]
    else if a[0].0 == k then [(k, v)] + a[1..]
    else [a[0]] + Put(a[1..], k, v)
  }

  lemma {:induction false} HasKeyTail<K, V>(a: seq<(K, V)>, k: K)
    requires |a| > 0 && a[0].0 != k
    ensures HasKey(a, k) <==> HasKey(a[1..], k)
  {
    if HasKey(a, k) {
      var i :| 0 <= i < |a| && a[i].0 == k;
      assert a[1..][i - 1].0 == k;
    }
    if HasKey(a[1..], k) {
      var i :| 0 <= i < |a[1..]| && a[1..][i].0 == k;
      assert a[i + 1].0 == k;
    }
  }

  /** Put appends exactly when the key is new and otherwise keeps the key order. */
  lemma {:induction false} PutShape<K(!new), V>(a: seq<(K, V)>, k: K, v: V)
    ensures HasKey(a, k) ==> KeysOf(Put(a, k, v)) == KeysOf(a)
    ensures !HasKey(a, k) ==> Put(a, k, v) == a + [(k, v)]
  {
    if a != [] && a[0].0 != k {
      HasKeyTail(a, k);
      PutShape(a[1..], k, v);
      var r := Put(a, k, v);
      assert r == [a[0]] + Put(a[1..], k, v);
      if HasKey(a, k) {
        assert KeysOf(r) == [a[0].0] + KeysOf(Put(a[1..], k, v));
        assert KeysOf(a) == [a[0].0] + KeysOf(a[1..]);
      } else {
        assert a == [a[0]] + a[1..];
        assert r == [a[0]] + (a[1..] + [(k, v)]);
      }
    }
  }

  /** `delete obj[k]`: drop every entry under `k`. */
  function Delete<K(==,!new), V>(a: seq<(K, V)>, k: K): (r: seq<(K, V)>)
    ensures Lookup(r, k) == None
    ensures forall k' {:trigger Lookup(r, k')} :: k' != k ==> Lookup(r, k') == Lookup(a, k')
  {
    if a == [] then []
    else if a[0].0 == k then Delete(a[1..], k)
    else [a[0]] + Delete(a[1..], k)
  }

  lemma HeadNotInTail<K, V>(a: seq<(K, V)>)
    requires a != [] && DistinctKeys(a)
    ensures !HasKey(a[1..], a[0].0)
  {
  }

  /** An object stays an object: assignment and deletion keep the keys distinct. */
  lemma {:induction false} PutDistinct<K(!new), V>(a: seq<(K, V)>, k: K, v: V)
    requires DistinctKeys(a)
    ensures DistinctKeys(Put(a, k, v))
  {
    if a != [] && a[0].0 != k {
      PutDistinct(a[1..], k, v);
      var p := Put(a[1..], k, v);
      HeadNotInTail(a);
      assert Lookup(p, a[0].0) == None;
      assert !HasKey(p, a[0].0);
      assert Put(a, k, v) == [a[0]] + p;
    } else if a != [] {
      assert Put(a, k, v) == [(k, v)] + a[1..];
    }
  }

  lemma {:induction false} DeleteDistinct<K(!new), V>(a: seq<(K, V)>, k: K)
    requires DistinctKeys(a)
    ensures DistinctKeys(Delete(a, k))
  {
    if a != [] {
      DeleteDistinct(a[1..], k);
      if a[0].0 != k {
        var d := Delete(a[1..], k);
        HeadNotInTail(a);
        assert Lookup(d, a[0].0) == None;
        assert !HasKey(d, a[0].0);
        assert Delete(a, k) == [a[0]] + d;
      }
    }
  }

  /** The entries whose key is at least `lo`, in order. */
  function DropBelow<V>(a: seq<(int, V)>, lo: int): (r: seq<(int, V)>)
    ensures forall k :: Lookup(r, k) == if k < lo then None else Lookup(a, k)
  {
    if a == [] then []
    else if a[0].0 < lo then DropBelow(a[1..], lo)
    else [a[0]] + DropBelow(a[1..], lo)
  }

  /** The entries of `a` except those whose key is below `lo` and listed in `ks`. */
  function DropListed<V>(a: seq<(int, V)>, lo: int, ks: seq<int>): seq<(int, V)> {
    if a == [] then []
    else if a[0].0 < lo && a[0].0 in ks then DropListed(a[1..], lo, ks)
    else [a[0]] + DropListed(a[1..], lo, ks)
  }

  /** Deleting one more key below `lo` extends the list of dropped keys. */
  lemma {:induction false} DropListedDelete<V>(a: seq<(int, V)>, lo: int, ks: seq<int>, k: int)
    requires k < lo
    ensures Delete(DropListed(a, lo, ks), k) == DropListed(a, lo, ks + [k])
  {
    if a != [] {
      DropListedDelete(a[1..], lo, ks, k);
      if !(a[0].0 < lo && a[0].0 in ks) {
        assert DropListed(a, lo, ks) == [a[0]] + DropListed(a[1..], lo, ks);
      }
    }
  }

  /** Once every key is listed, exactly the keys below `lo` are gone. */
  lemma {:induction false} DropListedAll<V>(a: seq<(int, V)>, lo: int, ks: seq<int>)
    requires forall i :: 0 <= i < |a| ==> a[i].0 in ks
    ensures DropListed(a, lo, ks) == DropBelow(a, lo)
  {
    if a != [] {
      assert a[0].0 in ks;
      DropListedAll(a[1..], lo, ks);
    }
  }

  /** Listing a key that is not below `lo` drops nothing more. */
  lemma {:induction false} DropListedSkip<V>(a: seq<(int, V)>, lo: int, ks: seq<int>, k: int)
    requires k >= lo
    ensures DropListed(a, lo, ks + [k]) == DropListed(a, lo, ks)
  {
    if a != [] {
      DropListedSkip(a[1..], lo, ks, k);
    }
  }

  /** One more listed key: a key below `lo` is deleted, any other changes nothing. */
  lemma DropListedStep<V>(a: seq<(int, V)>, lo: int, ks: seq<int>, i: nat)
    requires i < |ks|
    ensures DropListed(a, lo, ks[..i + 1])
            == if ks[i] < lo then Delete(DropListed(a, lo, ks[..i]), ks[i]) else DropListed(a, lo, ks[..i])
  {
    assert ks[..i + 1] == ks[..i] + [ks[i]];
    if ks[i] < lo {
      DropListedDelete(a, lo, ks[..i], ks[i]);
    } else {
      DropListedSkip(a, lo, ks[..i], ks[i]);
    }
  }

  lemma {:induction false} DropListedNone<V>(a: seq<(int, V)>, lo: int)
    ensures DropListed(a, lo, []) == a
  {
    if a != [] {
      DropListedNone(a[1..], lo);
    }
  }

  // ---------------------------------------------------------------------
  // Strings
  // ---------------------------------------------------------------------

  /** `xs.join(sep)` for a one-character separator. */
  function Join(xs: seq<string>, sep: char): string {
    if |xs| == 0 then ""
    else if |xs| == 1 then xs[0]
    else xs[0] + [sep] + Join(xs[1..], sep)
  }

  /** `s.split(sep)` for a one-character separator; never empty. */
  function Split(s: string, sep: char): (parts: seq<string>)
    ensures |parts| >= 1
  {
    if |s| == 0 then [""]
    else if s[0] == sep then [""] + Split(s[1..], sep)
    else
      var rest := Split(s[1..], sep);
      [[s[0]] + rest[0]] + rest[1..]
  }

  lemma {:induction false} SplitNoSep(s: string, sep: char)
    requires sep !in s
    ensures Split(s, sep) == [s]
  {
    if |s| > 0 {
      SplitNoSep(s[1..], sep);
      assert [s[0]] + s[1..] == s;
    }
  }

  lemma {:induction false} SplitAppend(a: string, sep: char, rest: string)
    requires sep !in a
    ensures Split(a + [sep] + rest, sep) == [a] + Split(rest, sep)
  {
    if |a| == 0 {
      assert a + [sep] + rest == [sep] + rest;
      assert ([sep] + rest)[1..] == rest;
    } else {
      SplitAppend(a[1..], sep, rest);
      assert (a + [sep] + rest)[1..] == a[1..] + [sep] + rest;
      assert [a[0]] + a[1..] == a;
    }
  }

  /** Splitting a join on its separator gives the parts back. */
  lemma {:induction false} SplitJoin(xs: seq<string>, sep: char)
    requires |xs| >= 1
    requires forall i :: 0 <= i < |xs| ==> sep !in xs[i]
    ensures Split(Join(xs, sep), sep) == xs
  {
    if |xs| == 1 {
      SplitNoSep(xs[0], sep);
    } else {
      SplitJoin(xs[1..], sep);
      SplitAppend(xs[0], sep, Join(xs[1..], sep));
      assert [xs[0]] + xs[1..] == xs;
    }
  }

  /** `s.replace(pat, rep)` with a string pattern: only the first occurrence is replaced. */
  function ReplaceFirst(s: string, pat: string, rep: string): string
    requires |pat| > 0
  {
    if |s| < |pat| then s
    else if s[..|pat|] == pat then rep + s[|pat|..]
    else [s[0]] + ReplaceFirst(s[1..], pat, rep)
  }

  /** When the pattern's first character does not occur before it, the replacement lands there. */
  lemma {:induction false} ReplaceFirstAt(p: string, pat: string, q: string, rep: string)
    requires |pat| > 0 && pat[0] !in p
    ensures ReplaceFirst(p + pat + q, pat, rep) == p + rep + q
  {
    var s := p + pat + q;
    if |p| == 0 {
      assert s == pat + q;
      assert s[..|pat|] == pat && s[|pat|..] == q;
    } else {
      assert |s| >= |pat|;
      assert s[..|pat|][0] == p[0] != pat[0];
      assert s[1..] == p[1..] + pat + q;
      assert pat[0] !in p[1..];
      ReplaceFirstAt(p[1..], pat, q, rep);
      assert ReplaceFirst(s, pat, rep) == [p[0]] + (p[1..] + rep + q);
      assert [p[0]] + p[1..] == p;
    }
  }

  predicate IsDigit(c: char) { '0' <= c <= '9' }

  function DigitChar(d: nat): (c: char)
    requires d < 10
    ensures IsDigit(c)
  {
    ['0', '1', '2', '3', '4', '5', '6', '7', '8', '9'][d]
  }

  function DigitValue(c: char): (d: nat)
    requires IsDigit(c)
    ensures d < 10
  {
    (c as int - '0' as int) as nat
  }

  lemma DigitRoundTrip(d: nat)
    requires d < 10
    ensures DigitValue(DigitChar(d)) == d
  {
  }

  /** Decimal numeral of a natural number, no leading zeros. */
  function NatToString(n: nat): (s: string)
    ensures |s| >= 1 && forall i :: 0 <= i < |s| ==> IsDigit(s[i])
    decreases n
  {
    if n < 10 then [DigitChar(n)] else NatToString(n / 10) + [DigitChar(n % 10)]
  }

  /** Decimal numeral of an integer, with a leading '-' when negative. */
  function IntToString(n: int): string {
    if n < 0 then "-" + NatToString(-n) else NatToString(n)
  }

  /** Value of a string of decimal digits read left to right. */
  function DigitsValue(s: string): nat
    requires forall i :: 0 <= i < |s| ==> IsDigit(s[i])
  {
    if |s| == 0 then 0 else 10 * DigitsValue(s[..|s| - 1]) + DigitValue(s[|s| - 1])
  }

  /** A non-empty string of decimal digits and its value; None otherwise. */
  function ParseDigits(s: string): (r: Option<nat>)
    ensures r.Some? <==> |s| >= 1 && forall i :: 0 <= i < |s| ==> IsDigit(s[i])
  {
    if |s| >= 1 && forall i :: 0 <= i < |s| ==> IsDigit(s[i]) then Some(DigitsValue(s)) else None
  }

  lemma {:induction false} NatToStringValue(n: nat)
    ensures DigitsValue(NatToString(n)) == n
    decreases n
  {
    var s := NatToString(n);
    if n < 10 {
      DigitRoundTrip(n);
    } else {
      NatToStringValue(n / 10);
      DigitRoundTrip(n % 10);
      assert s[..|s| - 1] == NatToString(n / 10);
    }
  }

  /** Reading back a printed natural number gives the number. */
  lemma ParsePrinted(n: nat)
    ensures ParseDigits(NatToString(n)) == Some(n)
  {
    NatToStringValue(n);
  }

  // ---------------------------------------------------------------------
  // Batching: `for (i = 0; i < xs.length; i += n) xs.slice(i, i + n)`
  // ---------------------------------------------------------------------

  function Min(a: int, b: int): int { if a <= b then a else b }
  function Max(a: int, b: int): int { if a >= b then a else b }

  function Chunks<T>(xs: seq<T>, n: nat): seq<seq<T>>
    requires n > 0
    decreases |xs|
  {
    if |xs| == 0 then [] else [xs[..Min(n, |xs|)]] + Chunks(xs[Min(n, |xs|)..], n)
  }

  function Flatten<T>(xss: seq<seq<T>>): seq<T> {
    if xss == [] then [] else xss[0] + Flatten(xss[1..])
  }

  /** There are ceil(|xs|/n) batches and they give back `xs` in order. */
  lemma {:induction false} ChunksCount<T>(xs: seq<T>, n: nat)
    requires n > 0
    ensures |xs| <= |Chunks(xs, n)| * n
    ensures |Chunks(xs, n)| > 0 ==> (|Chunks(xs, n)| - 1) * n < |xs|
    ensures Flatten(Chunks(xs, n)) == xs
    decreases |xs|
  {
    if |xs| > 0 {
      var m := Min(n, |xs|);
      var rest := xs[m..];
      ChunksCount(rest, n);
      var c, cr := Chunks(xs, n), Chunks(rest, n);
      assert c == [xs[..m]] + cr;
      MulSucc(|cr|, n);
      assert |c| * n == |cr| * n + n;
      if |cr| > 0 {
        assert m == n;
        MulSucc(|cr| - 1, n);
      }
      assert Flatten(c) == xs[..m] + Flatten(cr);
      assert xs[..m] + rest == xs;
    }
  }

  lemma MulSucc(a: nat, n: nat)
    ensures (a + 1) * n == a * n + n
  {
  }

  /** Every batch is non-empty and at most `n` long, and all but the last are exactly `n` long. */
  lemma {:induction false} ChunkSizes<T>(xs: seq<T>, n: nat)
    requires n > 0
    ensures forall k :: 0 <= k < |Chunks(xs, n)| ==> 0 < |Chunks(xs, n)[k]| <= n
    ensures forall k :: 0 <= k < |Chunks(xs, n)| - 1 ==> |Chunks(xs, n)[k]| == n
    decreases |xs|
  {
    if |xs| > 0 {
      var m := Min(n, |xs|);
      var rest := xs[m..];
      var c, cr := Chunks(xs, n), Chunks(rest, n);
      assert c == [xs[..m]] + cr;
      ChunkSizes(rest, n);
      if |cr| > 0 {
        assert |rest| > 0;
        assert m == n;
      }
      forall k | 0 <= k < |c|
        ensures 0 < |c[k]| <= n && (k < |c| - 1 ==> |c[k]| == n)
      {
        if k > 0 {
          assert c[k] == cr[k - 1];
        }
      }
    }
  }

  lemma ChunksStep<T>(xs: seq<T>, i: nat, size: nat)
    requires size > 0 && i < |xs|
    ensures Chunks(xs[i..], size) == [xs[i..Min(i + size, |xs|)]] + Chunks(xs[Min(i + size, |xs|)..], size)
  {
    var rest := xs[i..];
    assert rest[..Min(size, |rest|)] == xs[i..Min(i + size, |xs|)];
    assert rest[Min(size, |rest|)..] == xs[Min(i + size, |xs|)..];
  }

  /** One more batch taken off the front keeps `done + Chunks(rest)` equal to all the batches. */
  lemma ChunksAdvance<T>(xs: seq<T>, i: nat, size: nat, done: seq<seq<T>>)
    requires size > 0 && i < |xs|
    requires done + Chunks(xs[i..], size) == Chunks(xs, size)
    ensures (done + [xs[i..Min(i + size, |xs|)]]) + Chunks(xs[Min(i + size, |xs|)..], size) == Chunks(xs, size)
  {
    ChunksStep(xs, i, size);
    var hi := Min(i + size, |xs|);
    assert done + Chunks(xs[i..], size) == (done + [xs[i..hi]]) + Chunks(xs[hi..], size);
  }

  // ---------------------------------------------------------------------
  // `Array.prototype.filter` and `slice(0, n)`
  // ---------------------------------------------------------------------

  /** `xs.filter(p)`: the elements that satisfy `p`, in order. */
  function Filter<T>(rows: seq<T>, p: T -> bool): seq<T>
    decreases |rows|
  {
    if rows == [] then [] else (if p(rows[0]) then [rows[0]] else []) + Filter(rows[1..], p)
  }

  lemma {:induction false} FilterMembers<T>(rows: seq<T>, p: T -> bool)
    ensures forall x :: x in Filter(rows, p) <==> x in rows && p(x)
    ensures multiset(Filter(rows, p)) <= multiset(rows)
    decreases |rows|
  {
    if rows != [] {
      FilterMembers(rows[1..], p);
      assert rows == [rows[0]] + rows[1..];
    }
  }

  lemma {:induction false} FilterNone<T>(rows: seq<T>, p: T -> bool)
    requires forall x :: x in rows ==> !p(x)
    ensures Filter(rows, p) == []
    decreases |rows|
  {
    if rows != [] {
      assert rows[0] in rows;
      assert forall x :: x in rows[1..] ==> x in rows;
      FilterNone(rows[1..], p);
    }
  }

  function Take<T>(s: seq<T>, n: nat): (r: seq<T>)
    ensures |r| == Min(n, |s|) && r == s[..|r|]
  {
    s[..Min(n, |s|)]
  }

  // ---------------------------------------------------------------------
  // `entries.forEach(([k, v]) => obj[k] = v)`: assignments in order
  // ---------------------------------------------------------------------

  function PutAll<K(==,!new), V>(acc: seq<(K, V)>, es: seq<(K, V)>): seq<(K, V)>
    decreases |es|
  {
    if es == [] then acc else PutAll(Put(acc, es[0].0, es[0].1), es[1..])
  }

  lemma {:induction false} PutAllHas<K(!new), V>(acc: seq<(K, V)>, es: seq<(K, V)>, k: K)
    ensures HasKey(PutAll(acc, es), k) <==> HasKey(acc, k) || k in KeysOf(es)
    decreases |es|
  {
    if es != [] {
      var acc' := Put(acc, es[0].0, es[0].1);
      assert Lookup(acc', k).Some? <==> (k == es[0].0 || Lookup(acc, k).Some?);
      PutAllHas(acc', es[1..], k);
      assert KeysOf(es) == [es[0].0] + KeysOf(es[1..]);
    }
  }

  /** A key that no entry assigns keeps the value it had. */
  lemma {:induction false} PutAllUntouched<K(!new), V>(acc: seq<(K, V)>, es: seq<(K, V)>, k: K)
    requires k !in KeysOf(es)
    ensures Lookup(PutAll(acc, es), k) == Lookup(acc, k)
    decreases |es|
  {
    if es != [] {
      assert KeysOf(es) == [es[0].0] + KeysOf(es[1..]);
      PutAllUntouched(Put(acc, es[0].0, es[0].1), es[1..], k);
    }
  }

  /** The value under a key is the one its last assignment wrote. */
  lemma {:induction false} PutAllLast<K(!new), V>(acc: seq<(K, V)>, es: seq<(K, V)>, i: nat)
    requires i < |es| && forall j :: i < j < |es| ==> es[j].0 != es[i].0
    ensures Lookup(PutAll(acc, es), es[i].0) == Some(es[i].1)
    decreases |es|
  {
    var acc' := Put(acc, es[0].0, es[0].1);
    if i == 0 {
      assert es[i].0 !in KeysOf(es[1..]);
      PutAllUntouched(acc', es[1..], es[0].0);
    } else {
      PutAllLast(acc', es[1..], i - 1);
    }
  }

  predicate SortedKeys<K, V>(a: seq<(K, V)>, le: (K, K) -> bool) {
    forall i, j :: 0 <= i < j < |a| ==> le(a[i].0, a[j].0)
  }

  /** Keys with the same key sequence are sorted alike. */
  lemma SameKeysSorted<K, V>(a: seq<(K, V)>, b: seq<(K, V)>, le: (K, K) -> bool)
    requires KeysOf(a) == KeysOf(b) && SortedKeys(a, le)
    ensures SortedKeys(b, le)
    ensures forall i :: 0 <= i < |b| ==> b[i].0 in KeysOf(a)
  {
    var ka, kb := KeysOf(a), KeysOf(b);
    assert forall i :: 0 <= i < |b| ==> b[i].0 == kb[i] == ka[i] == a[i].0;
  }

  lemma AppendSorted<K, V>(a: seq<(K, V)>, e: (K, V), le: (K, K) -> bool)
    requires SortedKeys(a, le)
    requires forall i :: 0 <= i < |a| ==> le(a[i].0, e.0)
    ensures SortedKeys(a + [e], le)
    ensures forall i :: 0 <= i < |a + [e]| ==> (a + [e])[i].0 == e.0 || (a + [e])[i].0 in KeysOf(a)
  {
    var r, ks := a + [e], KeysOf(a);
    assert forall i :: 0 <= i < |a| ==> r[i] == a[i] && ks[i] == a[i].0;
  }

  /** Assigning a key no smaller than every present key keeps the keys sorted. */
  lemma PutSorted<K(!new), V>(acc: seq<(K, V)>, k: K, v: V, le: (K, K) -> bool)
    requires SortedKeys(acc, le)
    requires forall i :: 0 <= i < |acc| ==> le(acc[i].0, k)
    ensures SortedKeys(Put(acc, k, v), le)
    ensures forall i :: 0 <= i < |Put(acc, k, v)| ==> Put(acc, k, v)[i].0 == k || Put(acc, k, v)[i].0 in KeysOf(acc)
  {
    PutShape(acc, k, v);
    if HasKey(acc, k) {
      SameKeysSorted(acc, Put(acc, k, v), le);
    } else {
      AppendSorted(acc, (k, v), le);
    }
  }

  /** Assigning keys in sorted order leaves the object's keys in sorted order. */
  lemma {:induction false} PutAllSorted<K(!new), V>(acc: seq<(K, V)>, es: seq<(K, V)>, le: (K, K) -> bool)
    requires SortedKeys(acc, le) && SortedKeys(es, le)
    requires forall i, j :: 0 <= i < |acc| && 0 <= j < |es| ==> le(acc[i].0, es[j].0)
    ensures SortedKeys(PutAll(acc, es), le)
    decreases |es|
  {
    if es != [] {
      var acc' := Put(acc, es[0].0, es[0].1);
      PutSorted(acc, es[0].0, es[0].1, le);
      var ks := KeysOf(acc);
      forall i, j | 0 <= i < |acc'| && 0 <= j < |es[1..]|
        ensures le(acc'[i].0, es[1..][j].0)
      {
        assert es[1..][j] == es[j + 1];
        if acc'[i].0 != es[0].0 {
          var m :| 0 <= m < |ks| && ks[m] == acc'[i].0;
          assert acc[m].0 == acc'[i].0;
        }
      }
      PutAllSorted(acc', es[1..], le);
    }
  }

  lemma {:induction false} PutAllDistinct<K(!new), V>(acc: seq<(K, V)>, es: seq<(K, V)>)
    requires DistinctKeys(acc)
    ensures DistinctKeys(PutAll(acc, es))
    decreases |es|
  {
    if es != [] {
      PutDistinct(acc, es[0].0, es[0].1);
      PutAllDistinct(Put(acc, es[0].0, es[0].1), es[1..]);
    }
  }

  /** One more assignment after a run of them. */
  lemma {:induction false} PutAllSnoc<K(!new), V>(acc: seq<(K, V)>, es: seq<(K, V)>, e: (K, V))
    ensures PutAll(acc, es + [e]) == Put(PutAll(acc, es), e.0, e.1)
    decreases |es|
  {
    if es != [] {
      assert (es + [e])[0] == es[0] && (es + [e])[1..] == es[1..] + [e];
      PutAllSnoc(Put(acc, es[0].0, es[0].1), es[1..], e);
    } else {
      assert es + [e] == [e];
    }
  }

  /** Assigning pairwise distinct keys to an empty object keeps every entry, in order. */
  lemma {:induction false} PutAllOfDistinct<K(!new), V>(es: seq<(K, V)>)
    requires DistinctKeys(es)
    ensures PutAll([], es) == es
    decreases |es|
  {
    if es != [] {
      var n := |es| - 1;
      var init := es[..n];
      assert DistinctKeys(init) by {
        forall i, j | 0 <= i < j < |init|
          ensures init[i].0 != init[j].0
        {
          assert init[i] == es[i] && init[j] == es[j];
        }
      }
      PutAllOfDistinct(init);
      assert es == init + [es[n]];
      PutAllSnoc([], init, es[n]);
      assert !HasKey(init, es[n].0);
      PutShape(init, es[n].0, es[n].1);
    }
  }

  // ---------------------------------------------------------------------
  // `Math.random()` draws
  // ---------------------------------------------------------------------

  /** A value `Math.random()` can return. */
  predicate IsDraw(r: real) {
    0.0 <= r < 1.0
  }

  /** `Math.floor(r * n)` */
  function Scaled(r: real, n: nat): int {
    (r * n as real).Floor
  }

  /** A draw scaled by `n` is an index below `n`. */
  lemma ScaledRange(r: real, n: nat)
    requires IsDraw(r) && n >= 1
    ensures 0 <= Scaled(r, n) < n
  {
    assert 0.0 <= r * n as real;
    assert r * n as real < n as real by {
      assert (1.0 - r) * n as real > 0.0;
    }
  }
}
