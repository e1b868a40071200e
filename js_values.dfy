/** JavaScript values as they arrive in change events: a tagged JSON
    value. Numbers are kept as integers; the model never does arithmetic
    on them. */
module JsValues {
  import opened Wrappers

  datatype Json =
    | JNull
    | JBool(b: bool)
    | JNum(n: int)
    | JStr(s: string)
    | JArr(items: seq<Json>)
    | JObj(members: seq<Member>)

  /** One property of an object; an object's members are listed in
      `Object.keys` order (integer-like keys ascending, then the others in
      insertion order). */
  datatype Member = Member(key: string, value: Json)

  /** An entity record: the properties of a plain object. */
  type Entity = seq<Member>

  /** `typeof v === "object"`: objects, arrays and `null`. */
  predicate IsObjectTyped(v: Json)
  {
    v.JNull? || v.JArr? || v.JObj?
  }

  /** JavaScript truthiness. */
  predicate Truthy(v: Json)
  {
    match v
    case JNull => false
    case JBool(b) => b
    case JNum(n) => n != 0
    case JStr(s) => s != ""
    case _ => true
  }

  /** `obj[key]`: the value of the property named `key`, if any. */
  function Get(obj: Entity, key: string): (r: Option<Json>)
    ensures r.Some? <==> exists i :: 0 <= i < |obj| && obj[i].key == key
    ensures r.Some? ==> exists i :: 0 <= i < |obj| && obj[i] == Member(key, r.value)
    decreases |obj|
  {
    if |obj| == 0 then None
    else if obj[0].key == key then Some(obj[0].value)
    else
      var r := Get(obj[1..], key);
      assert forall i :: 0 < i < |obj| ==> obj[i] == obj[1..][i - 1];
      r
  }

  /** `key in obj`. */
  predicate Has(obj: Entity, key: string)
  {
    Get(obj, key).Some?
  }
}
