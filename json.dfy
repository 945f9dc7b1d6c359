/**
 * JSON-like values for the metadata and structured-data objects the site builds.
 * An object key maps to `JUndefined` when the property is present but set to
 * `undefined`: `JSON.stringify` leaves it out like an absent key, but a spread
 * copies it and so erases the value it lands on.
 */
module Json {
  datatype Json =
    | JUndefined
    | JNull
    | JBool(b: bool)
    | JInt(i: int)
    | JStr(s: string)
    | JArr(items: seq<Json>)
    | JObj(fields: map<string, Json>)

  /** `{...a, ...b}`: every key of both, the right operand winning. */
  function Spread(a: map<string, Json>, b: map<string, Json>): (r: map<string, Json>)
    ensures r.Keys == a.Keys + b.Keys
    ensures forall k :: k in b ==> r[k] == b[k]
    ensures forall k :: k in a && k !in b ==> r[k] == a[k]
  {
    a + b
  }

  /** An array of strings. */
  function Strings(xs: seq<string>): (r: Json)
    ensures r.JArr? && |r.items| == |xs|
    ensures forall i :: 0 <= i < |xs| ==> r.items[i] == JStr(xs[i])
  {
    JArr(seq(|xs|, i requires 0 <= i < |xs| => JStr(xs[i])))
  }
}
