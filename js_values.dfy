/**
 * JavaScript values as they arrive in a request (`req.body`, `req.query`,
 * `req.params`), JavaScript truthiness, and the object spread `{...a, ...b}`.
 */
module JsValues {

  datatype JsValue =
    | Undefined
    | Null
    | Bool(b: bool)
    | Num(n: real)
    | Str(s: string)
    | Arr(items: seq<JsValue>)
    | Obj(fields: map<string, JsValue>)

  type JsObject = map<string, JsValue>

  /** `!!v`: the falsy values are undefined, null, false, 0 and the empty string. */
  predicate Truthy(v: JsValue) {
    match v
    case Undefined => false
    case Null => false
    case Bool(b) => b
    case Num(n) => n != 0.0
    case Str(s) => s != []
    case Arr(_) => true
    case Obj(_) => true
  }

  /**
   * `{...body, ...params, ...query}`: every key of the three objects, taking
   * the value from the last object that has it.
   */
  function SpreadMerge(body: JsObject, params: JsObject, query: JsObject): (r: JsObject)
    ensures r.Keys == body.Keys + params.Keys + query.Keys
    ensures forall k :: k in query ==> r[k] == query[k]
    ensures forall k :: k in params && k !in query ==> r[k] == params[k]
    ensures forall k :: k in body && k !in params && k !in query ==> r[k] == body[k]
  {
    body + params + query
  }
}
