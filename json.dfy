/** The JSON value model of RFC 8259, section 3, as `serde_json::Value` holds
    it: objects map each key to one value, so lookup is by key (section 4). */
module Json {
  import opened Wrappers

  datatype Json =
    | Null
    | Bool(b: bool)
    | Number(n: int)                  // integers only; floating point is not modelled
    | String(s: string)
    | Array(elems: seq<Json>)
    | Object(members: map<string, Json>)

  /** `Value::get(&str)`: a member of an object; nothing for any other value. */
  function Get(v: Json, key: string): (r: Option<Json>)
    ensures r.Some? <==> v.Object? && key in v.members
    ensures r.Some? ==> r.value == v.members[key]
  {
    if v.Object? && key in v.members then Some(v.members[key]) else None
  }
}
