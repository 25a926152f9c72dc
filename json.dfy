/**
 * The part of `serde_json::Value` the core reads: indexing an object by key and the
 * `as_str` / `as_array` / `as_u64` accessors. Numbers are integers only.
 */
module Json {
  import opened Wrappers

  datatype Json =
    | JNull
    | JBool(b: bool)
    | JNumber(n: int)
    | JString(s: string)
    | JArray(items: seq<Json>)
    | JObject(fields: map<string, Json>)

  const U64Limit: nat := 0x1_0000_0000_0000_0000

  /** `value[key]`: the member of an object, `Null` for a missing key or a non-object. */
  function Get(v: Json, key: string): (r: Json)
    ensures v.JObject? && key in v.fields ==> r == v.fields[key]
    ensures !(v.JObject? && key in v.fields) ==> r == JNull
  {
    match v
    case JObject(fields) => if key in fields then fields[key] else JNull
    case _ => JNull
  }

  function AsStr(v: Json): (r: Option<string>)
    ensures r.Some? <==> v.JString?
    ensures r.Some? ==> r.value == v.s
  {
    if v.JString? then Some(v.s) else None
  }

  function AsArray(v: Json): (r: Option<seq<Json>>)
    ensures r.Some? <==> v.JArray?
    ensures r.Some? ==> r.value == v.items
  {
    if v.JArray? then Some(v.items) else None
  }

  /** `as_u64`: a number that fits an unsigned 64-bit integer. */
  function AsU64(v: Json): (r: Option<nat>)
    ensures r.Some? <==> (v.JNumber? && 0 <= v.n < U64Limit)
    ensures r.Some? ==> r.value == v.n
  {
    if v.JNumber? && 0 <= v.n < U64Limit then Some(v.n) else None
  }
}
