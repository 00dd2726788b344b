/**
 * The values the schema store holds. A schema document is any JSON-compatible
 * tree; the store keeps it as an opaque payload and never looks inside it.
 */
module Documents {

  datatype Option<T> = None | Some(value: T)

  /**
   * A schema document as produced by a JSON parser. Numbers keep the text they
   * were written with: the store never does arithmetic on them.
   */
  datatype Json =
    | JNull
    | JBool(b: bool)
    | JNumber(literal: string)
    | JString(s: string)
    | JArray(items: seq<Json>)
    | JObject(members: seq<(string, Json)>)
}
