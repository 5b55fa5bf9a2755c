/** JSON values as the front end receives them, and JavaScript truthiness. */
module JsonValues {
  import opened Wrappers

  /** A parsed JSON value. Numbers are exact reals (NaN is not modelled). */
  datatype Json =
    | JNull
    | JBool(b: bool)
    | JNum(n: real)
    | JStr(s: string)
    | JArr(items: seq<Json>)
    | JObj(fields: map<string, Json>)

  /** JavaScript truthiness: `null`, `false`, `0` and `""` are falsy. */
  predicate Truthy(j: Json) {
    match j
    case JNull => false
    case JBool(b) => b
    case JNum(n) => n != 0.0
    case JStr(s) => s != ""
    case JArr(_) => true
    case JObj(_) => true
  }

  /** `typeof j === "object"` for a value that is not `null`: objects and arrays. */
  predicate IsObject(j: Json) {
    j.JArr? || j.JObj?
  }

  /** Reading property `name` of a value: only objects have properties;
      `None` is `undefined`. */
  function Prop(j: Json, name: string): (r: Option<Json>)
    ensures r.Some? <==> j.JObj? && name in j.fields
    ensures r.Some? ==> r.value == j.fields[name]
  {
    if j.JObj? && name in j.fields then Some(j.fields[name]) else None
  }

  /** JavaScript `a ?? b` on possibly undefined or `null` values. */
  function Nullish(a: Option<Json>, b: Option<Json>): (r: Option<Json>)
    ensures a.Some? && a.value != JNull ==> r == a
    ensures a.None? || a.value == JNull ==> r == b
  {
    if a.Some? && a.value != JNull then a else b
  }
}
