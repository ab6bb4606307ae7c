/**
 * The JavaScript values the front end reads from the stations API, and the three
 * operators its fallback chains use: `a || b`, `a && b` and `v == null`.
 * Numbers come from JSON, so they are finite; only their truthiness is ever used.
 */
module JsValues {

  datatype JsValue =
    | Undefined
    | Null
    | Bool(b: bool)
    | Num(n: real)
    | Str(s: string)
    | Arr(items: seq<JsValue>)
    | Obj(props: map<string, JsValue>)

  /** JavaScript truthiness: `undefined`, `null`, `false`, `0` and `''` are falsy. */
  predicate Truthy(v: JsValue) {
    match v
    case Undefined => false
    case Null => false
    case Bool(b) => b
    case Num(n) => n != 0.0
    case Str(s) => s != ""
    case Arr(_) => true
    case Obj(_) => true
  }

  /** `a || b`: the first operand if it is truthy, else the second. */
  function Or(a: JsValue, b: JsValue): JsValue {
    if Truthy(a) then a else b
  }

  /** `a && b`: the first operand if it is falsy, else the second. */
  function And(a: JsValue, b: JsValue): JsValue {
    if Truthy(a) then b else a
  }

  /** `v == null` (loose equality): true of `null` and `undefined` only. */
  predicate IsNullish(v: JsValue) {
    v.Undefined? || v.Null?
  }

  /** A station object as the API returns it. */
  type JsObject = map<string, JsValue>

  /** `o.key`: a missing property reads as `undefined`. */
  function Get(o: JsObject, key: string): JsValue {
    if key in o then o[key] else Undefined
  }

  /** The decimal text of a property index, as used for `o[0]`, `o[1]` on a plain object. */
  function IndexKey(i: nat): string {
    if i < 10 then [['0', '1', '2', '3', '4', '5', '6', '7', '8', '9'][i]] else IndexKey(i / 10) + IndexKey(i % 10)
  }

  /** `v[i]` on a non-nullish value: array element, string character, object property, else `undefined`. */
  function Index(v: JsValue, i: nat): JsValue {
    match v
    case Arr(items) => if i < |items| then items[i] else Undefined
    case Str(s) => if i < |s| then Str([s[i]]) else Undefined
    case Obj(props) => Get(props, IndexKey(i))
    case _ => Undefined
  }
}
