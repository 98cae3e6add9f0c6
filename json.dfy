/**
 * Untyped message payloads as received from `JSON.parse`, and the few
 * JavaScript checks the validators apply to them (`data.k`, `typeof`,
 * `"k" in data`).
 */
module Json {
  import opened Common

  datatype Json =
    | JNull
    | JBool(b: bool)
    | JNum(n: real)
    | JStr(s: string)
    | JArr(items: seq<Json>)
    | JObj(fields: map<string, Json>)

  /** `data.k`: only objects carry named properties; anything else is `undefined`. */
  function Get(j: Json, k: string): (r: Option<Json>)
    ensures r.Some? <==> j.JObj? && k in j.fields
  {
    if j.JObj? && k in j.fields then Some(j.fields[k]) else None
  }

  /** `"k" in data` (for an object). */
  predicate Has(j: Json, k: string) { j.JObj? && k in j.fields }

  /** `typeof data.k === "number"` */
  predicate IsNumberAt(j: Json, k: string) { Get(j, k).Some? && Get(j, k).value.JNum? }

  /** `typeof data.k === "string"` */
  predicate IsStringAt(j: Json, k: string) { Get(j, k).Some? && Get(j, k).value.JStr? }

  /** `typeof data.k === "object"`: true for null, arrays and objects. */
  predicate IsObjectAt(j: Json, k: string)
  {
    Get(j, k).Some? && (Get(j, k).value.JNull? || Get(j, k).value.JArr? || Get(j, k).value.JObj?)
  }

  /** `data.type === tag` */
  predicate HasTag(j: Json, tag: string) { Get(j, "type") == Some(JStr(tag)) }

  function NumAt(j: Json, k: string): real
    requires IsNumberAt(j, k)
  {
    Get(j, k).value.n
  }

  function StrAt(j: Json, k: string): string
    requires IsStringAt(j, k)
  {
    Get(j, k).value.s
  }

  function At(j: Json, k: string): Json
    requires Has(j, k)
  {
    j.fields[k]
  }
}
