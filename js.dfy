/**
 * The slice of JavaScript's value semantics that the application's rules rely on:
 * values as `JSON.parse` and the backend produce them, truthiness (which drives every
 * `||` fallback and `if (!x)` guard), property reads and `String()` coercion
 * (template literals, `localStorage.setItem`).
 */
module Js {

  import opened Wrappers
  import opened JsStrings

  /** A JavaScript value. Numbers are modelled as integers. */
  datatype JsValue =
    | Undefined
    | Null
    | Bool(b: bool)
    | Num(n: int)
    | Str(s: string)
    | Arr(elems: seq<JsValue>)
    | Obj(fields: map<string, JsValue>)

  /** A value that compares by value under `===` (no array or object). */
  type Primitive = v: JsValue | !v.Arr? && !v.Obj? witness Undefined

  /** What the backend sends in a text field: a string, `null`, or nothing at all. */
  type Text = v: JsValue | v.Undefined? || v.Null? || v.Str? witness Undefined

  /** JavaScript truthiness: `false`, `0`, `""`, `null` and `undefined` are falsy. */
  predicate Truthy(v: JsValue)
    ensures Nullish(v) ==> !Truthy(v)
  {
    match v
    case Undefined => false
    case Null => false
    case Bool(b) => b
    case Num(n) => n != 0
    case Str(s) => s != ""
    case Arr(_) => true
    case Obj(_) => true
  }

  predicate Nullish(v: JsValue) {
    v.Undefined? || v.Null?
  }

  /** `a || b`: the left operand when it is truthy, otherwise the right one. */
  function Or(a: JsValue, b: JsValue): (r: JsValue)
    ensures r == a || r == b
    ensures Truthy(r) <==> Truthy(a) || Truthy(b)
  {
    if Truthy(a) then a else b
  }

  /**
   * `v?.key`: an own property of an object, and `undefined` for a missing key and for
   * every other kind of value. Properties inherited from a prototype are not read: the
   * `sub` of a string, for one, is `String.prototype.sub` in JavaScript.
   */
  function Get(v: JsValue, key: string): (r: JsValue)
    ensures v.Obj? && key in v.fields ==> r == v.fields[key]
    ensures !(v.Obj? && key in v.fields) ==> r == Undefined
  {
    match v
    case Obj(m) => if key in m then m[key] else Undefined
    case _ => Undefined
  }

  /** `v.key` without optional chaining: `None` when the read throws a TypeError. */
  function Member(v: JsValue, key: string): (r: Option<JsValue>)
    ensures r.None? <==> Nullish(v)
    ensures r.Some? ==> r.value == Get(v, key)
  {
    if Nullish(v) then None else Some(Get(v, key))
  }

  /**
   * `candidates[i]` is the value a chain `c0 || c1 || ... || fallback` produces: the
   * first truthy candidate, or the fallback when every candidate is falsy.
   */
  ghost predicate FirstTruthy(candidates: seq<JsValue>, fallback: JsValue, r: JsValue) {
    (exists i :: 0 <= i < |candidates| && candidates[i] == r && Truthy(r) &&
       forall j :: 0 <= j < i ==> !Truthy(candidates[j]))
    || ((forall i :: 0 <= i < |candidates| ==> !Truthy(candidates[i])) && r == fallback)
  }

  /** Folds `||` over `candidates`, right-associated, ending in `fallback`. */
  function OrChain(candidates: seq<JsValue>, fallback: JsValue): JsValue {
    if |candidates| == 0 then fallback else Or(candidates[0], OrChain(candidates[1..], fallback))
  }

  /** An `||` chain yields the first truthy operand, or its last operand. */
  lemma {:induction false} OrChainIsFirstTruthy(candidates: seq<JsValue>, fallback: JsValue)
    ensures FirstTruthy(candidates, fallback, OrChain(candidates, fallback))
  {
    if |candidates| > 0 {
      var r := OrChain(candidates, fallback);
      if !Truthy(candidates[0]) {
        var rest := candidates[1..];
        OrChainIsFirstTruthy(rest, fallback);
        if i :| 0 <= i < |rest| && rest[i] == r && Truthy(r) &&
               forall j :: 0 <= j < i ==> !Truthy(rest[j]) {
          assert candidates[i + 1] == r;
          forall j | 0 <= j < i + 1 ensures !Truthy(candidates[j]) {
            if j > 0 { assert candidates[j] == rest[j - 1]; }
          }
        } else {
          forall i | 0 <= i < |candidates| ensures !Truthy(candidates[i]) {
            if i > 0 { assert candidates[i] == rest[i - 1]; }
          }
        }
      } else {
        assert candidates[0] == r;
      }
    }
  }

  /** `FirstTruthy` determines the result: no other value satisfies it. */
  lemma FirstTruthyUnique(candidates: seq<JsValue>, fallback: JsValue, r1: JsValue, r2: JsValue)
    requires FirstTruthy(candidates, fallback, r1) && FirstTruthy(candidates, fallback, r2)
    ensures r1 == r2
  {
    if i :| 0 <= i < |candidates| && candidates[i] == r1 && Truthy(r1) &&
           forall j :: 0 <= j < i ==> !Truthy(candidates[j]) {
      if k :| 0 <= k < |candidates| && candidates[k] == r2 && Truthy(r2) &&
             forall j :: 0 <= j < k ==> !Truthy(candidates[j]) {
        assert !(i < k) && !(k < i);
      }
    }
  }

  /** A non-empty run of decimal digits. */
  predicate IsDigits(r: string) {
    |r| > 0 && forall i :: 0 <= i < |r| ==> '0' <= r[i] <= '9'
  }

  /** Decimal digits of a natural number, as `String(n)` writes them. */
  function NatToString(n: nat): (r: string)
    ensures IsDigits(r)
    ensures |r| > 1 ==> r[0] != '0'
  {
    var d := ['0' + (n % 10) as char];
    if n < 10 then d else NatToString(n / 10) + d
  }

  /** The number a string of decimal digits denotes, most significant digit first. */
  function DecimalValue(r: string): nat
    requires IsDigits(r)
  {
    var last := r[|r| - 1] as int - '0' as int;
    if |r| == 1 then last else DecimalValue(r[..|r| - 1]) * 10 + last
  }

  /** The digits `String(n)` writes denote `n`. */
  lemma {:induction false} NatToStringValue(n: nat)
    ensures DecimalValue(NatToString(n)) == n
  {
    var r := NatToString(n);
    if n >= 10 {
      NatToStringValue(n / 10);
      assert r[..|r| - 1] == NatToString(n / 10);
    }
  }

  /**
   * `String(v)`, the coercion a template literal and `localStorage.setItem` apply.
   * Array elements that are `null` or `undefined` print as the empty string; objects
   * print as `[object Object]`.
   */
  function ToJsString(v: JsValue): (r: string)
    ensures v.Str? ==> r == v.s
    ensures v.Undefined? ==> r == "undefined"
    ensures v.Null? ==> r == "null"
    ensures v.Bool? ==> r == (if v.b then "true" else "false")
    ensures v.Num? && v.n >= 0 ==> IsDigits(r) && DecimalValue(r) == v.n
    ensures v.Num? && v.n < 0 ==> |r| > 1 && r[0] == '-' && IsDigits(r[1..]) && DecimalValue(r[1..]) == -v.n
    ensures v.Arr? && |v.elems| == 0 ==> r == ""
    ensures v.Arr? && |v.elems| > 0 ==> r == Join(ElementStrings(v, 0), ',')
    ensures v.Obj? ==> r == "[object Object]"
    decreases v, 1, 0, 0
  {
    match v
    case Undefined => "undefined"
    case Null => "null"
    case Bool(b) => if b then "true" else "false"
    case Num(n) =>
      NatToStringValue(if n < 0 then -n else n);
      if n < 0 then
        var digits := NatToString(-n);
        assert ("-" + digits)[1..] == digits;
        "-" + digits
      else NatToString(n)
    case Str(s) => s
    case Arr(es) => JoinElements(v, 0)
    case Obj(_) => "[object Object]"
  }

  /** How `join` writes one element: `null` and `undefined` as `""`, anything else by `String()`. */
  function ElementString(e: JsValue): string
    decreases e, 2, 0, 0
  {
    if Nullish(e) then "" else ToJsString(e)
  }

  /** The strings `join` writes for the elements of `a` from index `i` on. */
  function ElementStrings(a: JsValue, i: nat): (parts: seq<string>)
    requires a.Arr? && i <= |a.elems|
    ensures |parts| == |a.elems| - i
    decreases a, 0, |a.elems| - i, 0
  {
    if i == |a.elems| then [] else [ElementString(a.elems[i])] + ElementStrings(a, i + 1)
  }

  /**
   * `Array.prototype.join(",")` over the elements of `a` from index `i` on, written as
   * one left-to-right scan: it is the element strings joined by commas.
   */
  function JoinElements(a: JsValue, i: nat): (r: string)
    requires a.Arr? && i <= |a.elems|
    ensures i == |a.elems| ==> r == ""
    ensures i < |a.elems| ==> r == Join(ElementStrings(a, i), ',')
    decreases a, 0, |a.elems| - i, 1
  {
    if i == |a.elems| then ""
    else
      var head := ElementString(a.elems[i]);
      var parts := ElementStrings(a, i);
      assert parts[0] == head && parts[1..] == ElementStrings(a, i + 1);
      if i + 1 == |a.elems| then head else head + "," + JoinElements(a, i + 1)
  }
}
