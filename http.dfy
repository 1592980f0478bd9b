/**
 * What an Express middleware or handler can do with a request: pass it on
 * (with what it attached), answer it with a status and a JSON body, or pass
 * an error to the error handlers. Thrown errors are records of the
 * properties the handlers look at.
 */
module Http {
  import opened Wrappers
  import opened JsValues
  import opened ZodChecks

  /** An answer: the status code and the JSON body. */
  datatype Reply = Reply(status: int, body: JsValue)

  /** The properties of a thrown error that the error handlers read. */
  datatype Thrown = Thrown(
    name: string,
    message: string,
    code: Option<string>,
    statusCode: Option<int>,
    isAppError: bool,
    issues: Option<seq<Issue>>)  // a ZodError's `errors`, when it is an array

  datatype Step<T> =
    | Continue(value: T)   // `next()`, with what the middleware attached to the request
    | Respond(reply: Reply)
    | Forward(error: Thrown)  // `next(error)`

  /** `{ success: false, message }`. */
  function Failed(status: int, message: string): Reply {
    Reply(status, Obj(map["success" := Bool(false), "message" := Str(message)]))
  }

  /** `{ success: false, message, error }`. */
  function FailedWith(status: int, message: string, error: JsValue): Reply {
    Reply(status, Obj(map["success" := Bool(false), "message" := Str(message), "error" := error]))
  }

  /** `{ field, message }` for one issue. */
  function IssueEntry(i: Issue): JsValue {
    Obj(map["field" := Str(i.path), "message" := Str(i.message)])
  }

  /** `issues.map(err => ({ field: err.path.join('.'), message: err.message }))`. */
  function IssueEntries(issues: seq<Issue>): (r: seq<JsValue>)
    ensures |r| == |issues|
    ensures forall i :: 0 <= i < |issues| ==> r[i] == IssueEntry(issues[i])
  {
    seq(|issues|, i requires 0 <= i < |issues| => IssueEntry(issues[i]))
  }

  /** `{ success: false, message: 'Validation failed', errors }`. */
  function ValidationFailed(entries: seq<JsValue>): Reply {
    Reply(400, Obj(map["success" := Bool(false), "message" := Str("Validation failed"), "errors" := Arr(entries)]))
  }
}
