/**
  A small JSON value: what the serializer emits and what the decoders of the
  untagged unions read. Numbers are split into integers and non-integers, the
  two shapes the integer decoders tell apart.
 */
module Json {

  datatype Json =
    | JNull
    | JBool(b: bool)
    | JInt(i: int)
    | JFloat(f: real)
    | JString(s: string)
    | JArray(items: seq<Json>)
    | JObject(fields: map<string, Json>)

  /** No `null` anywhere inside the value. */
  predicate NullFree(j: Json)
  {
    match j
    case JNull => false
    case JArray(items) => forall i :: 0 <= i < |items| ==> NullFree(items[i])
    case JObject(fields) => forall k :: k in fields ==> NullFree(fields[k])
    case _ => true
  }
}
