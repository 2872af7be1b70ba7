/**
 * JSON values as `JSON.parse` produces them, with JavaScript truthiness and
 * property access (`v.key`), which throws a TypeError on `null`.
 */
module Json {

  /** Numbers are exact reals: JSON has no NaN or infinity, and binary rounding is not modelled. */
  datatype Value =
    | Null
    | Bool(b: bool)
    | Number(n: real)
    | Str(s: string)
    | Array(items: seq<Value>)
    | Object(fields: map<string, Value>)

  /** JavaScript's ToBoolean on a JSON value. */
  predicate Truthy(v: Value)
  {
    match v
    case Null => false
    case Bool(b) => b
    case Number(n) => n != 0.0
    case Str(s) => s != []
    case Array(_) => true
    case Object(_) => true
  }

  /** The outcome of reading `v.key`. */
  datatype Access = Throws | Undefined | Found(value: Value)

  /**
   * `v.key` for a key that names no built-in property: `null` throws, an object
   * yields its own field, every other value yields `undefined`.
   */
  function Get(v: Value, key: string): (r: Access)
    ensures r.Throws? <==> v.Null?
    ensures r.Found? <==> v.Object? && key in v.fields
    ensures r.Found? ==> r.value == v.fields[key]
  {
    match v
    case Null => Throws
    case Object(fields) => if key in fields then Found(fields[key]) else Undefined
    case _ => Undefined
  }

  /** Truthiness of the result of a property read that did not throw. */
  predicate TruthyAccess(a: Access)
  {
    a.Found? && Truthy(a.value)
  }

  /** The V8 message of the TypeError thrown when reading `key` from `null`. */
  function NullReadMessage(key: string): string
  {
    "Cannot read properties of null (reading '" + key + "')"
  }
}
