/** JSON documents as the server builds them (serde_json's `Value`) and as
    the browser client reads them back. An object keeps its fields in the
    order they are serialized. */
module Json {
  import opened QueryTypes

  datatype Value =
    | JNull
    | JBool(b: bool)
    | JInt(i: int)
    | JNumber(d: Decimal)
    | JString(s: string)
    | JArray(items: seq<Value>)
    | JObject(fields: seq<(string, Value)>)

  /** JavaScript truthiness of a parsed document: `null`, `false`, `0`, `-0`,
      `NaN` and `""` are falsy, everything else (arrays and objects
      included) is truthy. */
  predicate Truthy(j: Value)
  {
    match j
    case JNull => false
    case JBool(b) => b
    case JInt(i) => i != 0
    case JNumber(d) => d.bits & 0x7FFF_FFFF_FFFF_FFFF != 0 && !(NonFinite(d) && d.bits & 0xF_FFFF_FFFF_FFFF != 0)
    case JString(s) => s != ""
    case JArray(_) => true
    case JObject(_) => true
  }

  /** The value of `key` in an object, as a JavaScript property read sees it
      (the last field with that key wins); `None` stands for `undefined`. */
  function Get(j: Value, key: string): (r: Option<Value>)
    ensures r.Some? ==> j.JObject? && exists i :: 0 <= i < |j.fields| && j.fields[i] == (key, r.value)
    ensures j.JObject? && (exists i :: 0 <= i < |j.fields| && j.fields[i].0 == key) ==> r.Some?
  {
    if j.JObject? then LastField(j.fields, key) else None
  }

  function LastField(fields: seq<(string, Value)>, key: string): (r: Option<Value>)
    ensures r.Some? ==> exists i :: 0 <= i < |fields| && fields[i] == (key, r.value)
    ensures r.None? ==> forall i :: 0 <= i < |fields| ==> fields[i].0 != key
  {
    if |fields| == 0 then None
    else if fields[|fields| - 1].0 == key then Some(fields[|fields| - 1].1)
    else
      LastField(fields[..|fields| - 1], key)
  }
}
