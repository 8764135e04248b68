/**
 * The dynamically typed values the viewer passes around: cells decoded from
 * the CSV file, results of JSON.parse, and the normalised case records.
 * Only the parts of JavaScript semantics the core relies on are modelled:
 * truthiness (`||`, `filter(Boolean)`, `row.model`), the `typeof === 'object'`
 * test, property lookup and optional chaining, and `String(v)`.
 */
module JsValues {

  datatype Option<T> = None | Some(value: T) {
    function GetOr(default: T): T {
      match this
      case Some(v) => v
      case None => default
    }
  }

  /** A JavaScript value. Numbers are finite reals (NaN and the infinities are
      not modelled); objects are string-keyed dictionaries. */
  datatype Value =
    | Undefined
    | Null
    | Bool(b: bool)
    | Num(n: real)
    | Str(s: string)
    | Arr(items: seq<Value>)
    | Obj(fields: map<string, Value>)

  /** JavaScript truthiness: `undefined`, `null`, `false`, `0` and `''` are falsy. */
  predicate Truthy(v: Value) {
    match v
    case Undefined => false
    case Null => false
    case Bool(b) => b
    case Num(n) => n != 0.0
    case Str(s) => s != ""
    case Arr(_) => true
    case Obj(_) => true
  }

  /** `typeof v === 'object' && v !== null` */
  predicate IsObjectShaped(v: Value) {
    v.Obj? || v.Arr?
  }

  /** `m[k]` on a dictionary: a missing key reads as `undefined`. */
  function Get(m: map<string, Value>, k: string): (r: Value)
    ensures k !in m ==> r == Undefined
    ensures k in m ==> r == m[k]
  {
    if k in m then m[k] else Undefined
  }

  /** `v[k]` (equally `v?.k`) for a property name `k` that is neither an array
      index nor `length`: only a plain object has such an own property;
      `undefined` and `null` short-circuit the optional chain to `undefined`. */
  function Prop(v: Value, k: string): (r: Value)
    ensures !v.Obj? ==> r == Undefined
    ensures v.Obj? ==> r == Get(v.fields, k)
  {
    match v
    case Obj(m) => Get(m, k)
    case _ => Undefined
  }

  /** `a || b` */
  function Or(a: Value, b: Value): (r: Value)
    ensures Truthy(a) ==> r == a
    ensures !Truthy(a) ==> r == b
  {
    if Truthy(a) then a else b
  }

  /** `String(v)`. The decimal rendering of a number is JavaScript's own
      algorithm and is passed in as `numText`. */
  function JsString(v: Value, numText: real -> string): string
    decreases v
  {
    match v
    case Undefined => "undefined"
    case Null => "null"
    case Bool(b) => if b then "true" else "false"
    case Num(n) => numText(n)
    case Str(s) => s
    case Arr(items) => JoinItems(v, items, numText)
    case Obj(_) => "[object Object]"
  }

  /** `items.join(",")`, where `null` and `undefined` elements print as `''`. */
  function JoinItems(ghost parent: Value, items: seq<Value>, numText: real -> string): string
    requires forall i :: 0 <= i < |items| ==> items[i] < parent
    decreases parent, |items|
  {
    if items == [] then ""
    else
      var head := if items[0].Null? || items[0].Undefined? then "" else JsString(items[0], numText);
      if |items| == 1 then head else head + "," + JoinItems(parent, items[1..], numText)
  }
}
