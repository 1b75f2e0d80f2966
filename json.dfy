/**
 * The JavaScript values that reach the ingestion endpoint as parsed JSON, with
 * just the two operations the backend performs on them: a truthiness test
 * (`!x`) and a property read (`x.key`).
 */
module Json {
  import opened Wrappers

  /** A parsed JSON value. Numbers are integers: the fields read here are millisecond timestamps. */
  datatype JsValue =
    | Undefined
    | Null
    | Bool(b: bool)
    | Num(n: int)
    | Str(s: string)
    | Arr(items: seq<JsValue>)
    | Obj(fields: map<string, JsValue>)

  /** JavaScript truthiness: `false`, `0`, `""`, `null` and `undefined` are falsy, every array and object is truthy. */
  predicate Truthy(v: JsValue) {
    match v
    case Undefined => false
    case Null => false
    case Bool(b) => b
    case Num(n) => n != 0
    case Str(s) => s != ""
    case Arr(_) => true
    case Obj(_) => true
  }

  /** `null` and `undefined`, the two values on which a property read throws a TypeError. */
  predicate IsNullish(v: JsValue) {
    v.Undefined? || v.Null?
  }

  /**
   * Reading `v.key`: None when the read throws (on null or undefined), otherwise the
   * own property, or `undefined` when there is none. Arrays, strings, numbers and
   * booleans have no property under the names the backend reads.
   */
  function Property(v: JsValue, key: string): (r: Option<JsValue>)
    ensures r.None? <==> IsNullish(v)
    ensures v.Obj? && key in v.fields ==> r == Some(v.fields[key])
  {
    match v
    case Undefined => None
    case Null => None
    case Obj(fields) => Some(if key in fields then fields[key] else Undefined)
    case _ => Some(Undefined)
  }
}
