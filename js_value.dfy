/**
 * JavaScript values as produced by `JSON.parse`, plus `undefined` for a
 * missing property.  Numbers are integers: every number this core stores
 * or compares generically is an id, a count or a timestamp.
 */
module JsValue {
  import opened Common

  datatype Js =
    | Undef
    | Null
    | Bool(b: bool)
    | Num(n: int)
    | Str(s: string)
    | Arr(elems: seq<Js>)
    | Obj(fields: seq<(string, Js)>)

  /** JavaScript truthiness. */
  predicate Truthy(j: Js) {
    match j
    case Undef => false
    case Null => false
    case Bool(b) => b
    case Num(n) => n != 0
    case Str(s) => s != ""
    case Arr(_) => true
    case Obj(_) => true
  }

  /** `a || b` */
  function Or(a: Js, b: Js): (r: Js)
    ensures Truthy(a) ==> r == a
    ensures !Truthy(a) ==> r == b
  {
    if Truthy(a) then a else b
  }

  /** `typeof j === 'object' && j !== null` (arrays included). */
  predicate IsObjectLike(j: Js) {
    j.Obj? || j.Arr?
  }

  /** `j == null` (loose equality: null or undefined). */
  predicate IsNullish(j: Js) {
    j.Undef? || j.Null?
  }

  /** `j.k` for a property name that is not an array index or `length`. */
  function Get(j: Js, k: string): (r: Js)
    ensures !j.Obj? ==> r == Undef
  {
    if j.Obj? then
      match Lookup(j.fields, k)
      case Some(v) => v
      case None => Undef
    else Undef
  }

  /** `k in j` for a property name that is not an array index or `length`. */
  predicate Has(j: Js, k: string) {
    j.Obj? && HasKey(j.fields, k)
  }

  lemma GetMissing(j: Js, k: string)
    requires !Has(j, k)
    ensures Get(j, k) == Undef
  {
  }

  /** Index entries `["0", e0], ["1", e1], ...` of an array, from position `from`. */
  function IndexEntries(elems: seq<Js>, from: nat): (r: seq<(string, Js)>)
    ensures |r| == |elems|
    ensures forall i :: 0 <= i < |elems| ==> r[i].1 == elems[i]
  {
    if elems == [] then [] else [(NatToString(from), elems[0])] + IndexEntries(elems[1..], from + 1)
  }

  /** `Object.entries(j)` for an object-like value. */
  function Entries(j: Js): (r: seq<(string, Js)>)
    requires IsObjectLike(j)
    ensures j.Obj? ==> r == j.fields
    ensures j.Arr? ==> |r| == |j.elems|
  {
    if j.Obj? then j.fields else IndexEntries(j.elems, 0)
  }

  /**
   * `Object.keys(j).length`; `None` when `Object.keys` throws (on `null`
   * and `undefined`).  A string has one key per character; numbers and
   * booleans have none.
   */
  function KeyCount(j: Js): (r: Option<nat>)
    ensures r.None? <==> IsNullish(j)
    ensures IsObjectLike(j) ==> r == Some(|Entries(j)|)
  {
    match j
    case Undef => None
    case Null => None
    case Bool(_) => Some(0)
    case Num(_) => Some(0)
    case Str(s) => Some(|s|)
    case Arr(es) => Some(|es|)
    case Obj(fs) => Some(|fs|)
  }

  /** `String(j)`, as used by `+` on strings and by `String.replace`. */
  function ToString(j: Js): string {
    match j
    case Undef => "undefined"
    case Null => "null"
    case Bool(b) => if b then "true" else "false"
    case Num(n) => IntToString(n)
    case Str(s) => s
    case Arr(es) => JoinElems(es)
    case Obj(_) => "[object Object]"
  }

  /** `Array.prototype.join(',')`: null and undefined print as empty. */
  function JoinElems(es: seq<Js>): string
    decreases es
  {
    if es == [] then ""
    else
      var head := if IsNullish(es[0]) then "" else ToString(es[0]);
      if |es| == 1 then head else head + "," + JoinElems(es[1..])
  }

  /** `obj.k = v` on an object value. */
  function Set(fields: seq<(string, Js)>, k: string, v: Js): (r: seq<(string, Js)>)
    ensures Get(Obj(r), k) == v
    ensures forall k' {:trigger Get(Obj(r), k')} :: k' != k ==> Get(Obj(r), k') == Get(Obj(fields), k')
  {
    Put(fields, k, v)
  }

  /** `delete obj.k` */
  function Remove(fields: seq<(string, Js)>, k: string): (r: seq<(string, Js)>)
    ensures !Has(Obj(r), k)
    ensures forall k' {:trigger Get(Obj(r), k')} :: k' != k ==> Get(Obj(r), k') == Get(Obj(fields), k')
  {
    Delete(fields, k)
  }

  /**
   * ECMAScript white space and line terminators: what `String.prototype.trim`
   * strips and what `parseInt` skips.
   */
  predicate IsSpace(c: char) {
    c == '\t' || c == '\n' || c == '\U{000B}' || c == '\U{000C}' || c == '\r' || c == ' '
    || c == '\U{00A0}' || c == '\U{1680}' || '\U{2000}' <= c <= '\U{200A}'
    || c == '\U{2028}' || c == '\U{2029}' || c == '\U{202F}' || c == '\U{205F}'
    || c == '\U{3000}' || c == '\U{FEFF}'
  }

  /** `s.trim() === ''` */
  predicate Blank(s: string) {
    forall i :: 0 <= i < |s| ==> IsSpace(s[i])
  }

  /** `s.trim()`: white space removed from both ends. */
  function Trim(s: string): (r: string)
    ensures r == [] || (!IsSpace(r[0]) && !IsSpace(r[|r| - 1]))
    ensures |r| <= |s|
    ensures (r == []) == Blank(s)
  {
    if s == [] then s
    else if IsSpace(s[0]) then
      var r := Trim(s[1..]);
      assert Blank(s) == Blank(s[1..]) by {
        if Blank(s[1..]) {
          forall i | 0 <= i < |s| ensures IsSpace(s[i]) {
            if i > 0 { assert s[i] == s[1..][i - 1]; }
          }
        }
      }
      r
    else if IsSpace(s[|s| - 1]) then Trim(s[..|s| - 1])
    else s
  }

  // ---------------------------------------------------------------------
  // A size measure, so that walks over nested values terminate.
  // ---------------------------------------------------------------------

  function Size(j: Js): (r: nat)
    ensures r >= 1
    decreases j
  {
    match j
    case Arr(es) => 1 + ElemsSize(es)
    case Obj(fs) => 1 + FieldsSize(fs)
    case _ => 1
  }

  function ElemsSize(es: seq<Js>): nat
    decreases es
  {
    if es == [] then 0 else Size(es[0]) + ElemsSize(es[1..])
  }

  function EntrySize(e: (string, Js)): nat
    decreases e
  {
    Size(e.1)
  }

  function FieldsSize(fs: seq<(string, Js)>): nat
    decreases fs
  {
    if fs == [] then 0 else EntrySize(fs[0]) + FieldsSize(fs[1..])
  }

  lemma FieldsSizeHead(fs: seq<(string, Js)>)
    requires fs != []
    ensures Size(fs[0].1) + FieldsSize(fs[1..]) == FieldsSize(fs)
  {
  }

  lemma {:induction false} FieldBelow(fs: seq<(string, Js)>, i: nat)
    requires i < |fs|
    ensures Size(fs[i].1) <= FieldsSize(fs)
    decreases i
  {
    if i > 0 {
      FieldBelow(fs[1..], i - 1);
    }
  }

  lemma {:induction false} IndexEntriesSize(es: seq<Js>, from: nat)
    ensures FieldsSize(IndexEntries(es, from)) == ElemsSize(es)
    decreases es
  {
    if es != [] {
      IndexEntriesSize(es[1..], from + 1);
    }
  }

  /** The entries of `j` weigh less than `j` itself. */
  lemma EntriesBelow(j: Js)
    requires IsObjectLike(j)
    ensures FieldsSize(Entries(j)) < Size(j)
  {
    if j.Arr? {
      IndexEntriesSize(j.elems, 0);
    }
  }

  /** A property value weighs less than the object holding it. */
  lemma GetBelow(j: Js, k: string)
    requires Get(j, k) != Undef
    ensures Size(Get(j, k)) < Size(j)
  {
    match Lookup(j.fields, k)
    case Some(v) =>
      var i :| 0 <= i < |j.fields| && j.fields[i] == (k, v);
      FieldBelow(j.fields, i);
    case None =>
  }
}
