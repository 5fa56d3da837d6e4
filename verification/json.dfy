/** The already-parsed JSON value the validator inspects (`JSON.parse`
    itself is not part of this model). Numbers are integers here. */
module Json {
  import opened JsText
  import opened Wrappers

  datatype Json =
    | JNull
    | JBool(b: bool)
    | JNum(n: int)
    | JStr(s: JsString)
    | JArr(items: seq<Json>)
    | JObj(members: seq<(JsString, Json)>)

  /** The value of `key` among an object's members; `JSON.parse` keeps the
      last of duplicated keys. */
  function Member(members: seq<(JsString, Json)>, key: JsString): Option<Json>
  {
    if members == [] then None
    else if members[|members| - 1].0 == key then Some(members[|members| - 1].1)
    else Member(members[..|members| - 1], key)
  }

  /** `v.key` on a value that is not null: only objects carry the book's
      property names, every other value yields `undefined` (None). */
  function Prop(v: Json, key: JsString): Option<Json>
  {
    if v.JObj? then Member(v.members, key) else None
  }

  /** `!x || typeof x !== 'string'` is false: a non-empty string. */
  predicate IsNonEmptyString(x: Option<Json>)
  {
    x.Some? && x.value.JStr? && x.value.s != []
  }

  /** `!x || !Array.isArray(x)` is false (an array is always truthy). */
  predicate IsArray(x: Option<Json>)
  {
    x.Some? && x.value.JArr?
  }
}
