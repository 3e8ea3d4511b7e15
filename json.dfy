/** The value a test page writes under the storage key "testResults" and the
    results view reads back: a JSON document, as `JSON.parse` would produce it. */
module Json {

  datatype Value =
    | JNull
    | JBool(b: bool)
    | JNumber(n: real)
    | JString(s: string)
    | JArray(items: seq<Value>)
    | JObject(fields: map<string, Value>)

  function Strings(xs: seq<string>): (v: Value)
    ensures v.JArray? && |v.items| == |xs|
    ensures forall k :: 0 <= k < |xs| ==> v.items[k] == JString(xs[k])
  {
    JArray(seq(|xs|, k requires 0 <= k < |xs| => JString(xs[k])))
  }
}
