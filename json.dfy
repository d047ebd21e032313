/** The JSON values a request body can carry, as Python sees them after
    parsing (`null` is `None`, arrays are lists, objects are dicts). */
module Json {

  datatype Value =
    | JNull
    | JBool(b: bool)
    | JInt(i: int)
    | JFloat(f: real)
    | JStr(s: string)
    | JArray(items: seq<Value>)
    | JObject(fields: map<string, Value>)

  /** `d.get(key)`: the value under `key`, or `None` when it is absent. */
  function Get(d: map<string, Value>, key: string): (v: Value)
    ensures key in d ==> v == d[key]
    ensures key !in d ==> v == JNull
  {
    if key in d then d[key] else JNull
  }

  /** Lists and dicts are unhashable in Python: `v in some_dict` raises
      `TypeError` for them. */
  predicate Hashable(v: Value) {
    !v.JArray? && !v.JObject?
  }
}
