/** The JavaScript values that `JSON.parse` yields for an inbound MQTT payload,
    with the two things the ingestion code does to them: test truthiness and
    read a property. */
module Json {

  datatype Value =
    | Undefined
    | Null
    | Bool(b: bool)
    | Num(n: real)
    | Str(s: string)
    | Arr(items: seq<Value>)
    | Obj(fields: map<string, Value>)

  /** The fields of a JSON object: what is emitted and what is stored. */
  type Object = map<string, Value>

  /** JavaScript truthiness. `NaN` cannot come out of JSON and is not modelled. */
  predicate Truthy(v: Value)
  {
    match v
    case Undefined => false
    case Null => false
    case Bool(b) => b
    case Num(n) => n != 0.0
    case Str(s) => s != ""
    case Arr(_) => true
    case Obj(_) => true
  }

  /** A property read `v.key` on a value that is neither null nor undefined.
      Only own properties of objects are modelled; the names the core reads
      (`longitude`, `latitude`, `geoposition`, `uuid`) are not built-in
      properties of strings, numbers or arrays. */
  function Get(v: Value, key: string): Value
  {
    if v.Obj? && key in v.fields then v.fields[key] else Undefined
  }
}
