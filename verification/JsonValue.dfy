/**
  The untyped value tree that `JSON.parse` produces and that every component
  of the pipeline reads. An object maps its own keys to values; `undefined`
  (a missing key) is not a value of this type and is written `None` where it
  can occur, so that it stays distinct from `JNull`.
 */
module JsonValue {

  datatype Json =
    | JNull
    | JBool(b: bool)
    | JNum(n: real)
    | JStr(s: string)
    | JArr(elems: seq<Json>)
    | JObj(fields: map<string, Json>)
}
