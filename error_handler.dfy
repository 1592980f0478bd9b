/**
 * The application-wide error handler: errors that carry a client or server
 * status are answered with it; Prisma's unique-constraint error and Joi's
 * validation error are given a status; everything else is a 500, whose
 * message is hidden outside development.
 */
module ErrorHandling {
  import opened Wrappers
  import opened JsValues
  import opened Http

  /** `err instanceof AppError || (err.statusCode && 400 <= err.statusCode < 600)`. */
  predicate CarriesStatus(e: Thrown) {
    e.isAppError || (e.statusCode.Some? && 400 <= e.statusCode.value < 600)
  }

  /** The status the local copy of the error ends with: Joi's validation error, then P2002, then its own non-zero status, then 500. */
  function SelectedStatus(e: Thrown): (s: int)
    ensures e.name == "ValidationError" ==> s == 400
    ensures e.name != "ValidationError" && e.code == Some("P2002") ==> s == 409
    ensures e.name != "ValidationError" && e.code != Some("P2002") ==>
              s == (if e.statusCode.Some? && e.statusCode.value != 0 then e.statusCode.value else 500)
  {
    var copied := e.statusCode;
    var afterPrisma := if e.code == Some("P2002") then Some(409) else copied;
    var afterJoi := if e.name == "ValidationError" then Some(400) else afterPrisma;
    if afterJoi.Some? && afterJoi.value != 0 then afterJoi.value else 500
  }

  /** The message the local copy ends with, falling back on 'Internal Server Error' when empty. */
  function SelectedMessage(e: Thrown): (m: string)
    ensures m != ""
    ensures e.name == "ValidationError" ==> m == "Invalid input data"
    ensures e.name != "ValidationError" && e.code == Some("P2002") ==> m == "Duplicate field value entered"
    ensures e.name != "ValidationError" && e.code != Some("P2002") ==>
              m == (if e.message != "" then e.message else "Internal Server Error")
  {
    var afterPrisma := if e.code == Some("P2002") then "Duplicate field value entered" else e.message;
    var afterJoi := if e.name == "ValidationError" then "Invalid input data" else afterPrisma;
    if afterJoi != "" then afterJoi else "Internal Server Error"
  }

  function ErrorReply(status: int, message: string): Reply {
    Reply(status, Obj(map["error" := Str(message)]))
  }

  /**
   * `errorHandler(err)`, with the error's `stack` and whether it runs in
   * development. An AppError is taken to carry its status code.
   */
  function GlobalErrorHandler(e: Thrown, stack: JsValue, development: bool): (r: Reply)
    requires e.isAppError ==> e.statusCode.Some?
    ensures CarriesStatus(e) ==> r == ErrorReply(e.statusCode.value, e.message)
    ensures !CarriesStatus(e) && development ==>
              r == Reply(SelectedStatus(e), Obj(map["error" := Str(SelectedMessage(e)), "stack" := stack]))
    ensures !CarriesStatus(e) && !development && 400 <= SelectedStatus(e) < 500 ==>
              r == ErrorReply(SelectedStatus(e), SelectedMessage(e))
    ensures !CarriesStatus(e) && !development && !(400 <= SelectedStatus(e) < 500) ==>
              r == ErrorReply(500, "An unexpected error occurred.")
  {
    if CarriesStatus(e) then ErrorReply(e.statusCode.value, e.message)
    else
      var status := SelectedStatus(e);
      var message := SelectedMessage(e);
      if development then Reply(status, Obj(map["error" := Str(message), "stack" := stack]))
      else if 400 <= status < 500 then ErrorReply(status, message)
      else ErrorReply(500, "An unexpected error occurred.")
  }

  /**
   * Outside development an error without its own client or server status is
   * answered with a 4xx status or exactly 500; one that carries a status in
   * [400, 600) keeps it.
   */
  lemma ProductionStatuses(e: Thrown, stack: JsValue)
    requires e.isAppError ==> e.statusCode.Some?
    ensures !CarriesStatus(e) ==>
              400 <= GlobalErrorHandler(e, stack, false).status < 500 || GlobalErrorHandler(e, stack, false).status == 500
    ensures !e.isAppError && CarriesStatus(e) ==> 400 <= GlobalErrorHandler(e, stack, false).status < 600
  {
  }

  /** A Joi validation error that also carries Prisma's P2002 code is answered 400, not 409. */
  lemma ValidationErrorWins(e: Thrown, stack: JsValue, development: bool)
    requires !CarriesStatus(e) && e.name == "ValidationError" && e.code == Some("P2002")
    ensures GlobalErrorHandler(e, stack, development).status == 400
    ensures !development ==> GlobalErrorHandler(e, stack, development) == ErrorReply(400, "Invalid input data")
  {
  }

  /**
   * A plain error with neither status nor message is a 500 'Internal Server
   * Error' in development; outside development only the generic message is sent.
   */
  lemma PlainErrorDefaults(e: Thrown, stack: JsValue)
    requires !e.isAppError && e.statusCode.None? && e.message == ""
    requires e.name != "ValidationError" && e.code != Some("P2002")
    ensures GlobalErrorHandler(e, stack, true).status == 500
    ensures GlobalErrorHandler(e, stack, true).body.fields["error"] == Str("Internal Server Error")
    ensures GlobalErrorHandler(e, stack, false) == ErrorReply(500, "An unexpected error occurred.")
  {
  }

  /** A status outside [400, 600) survives in development but becomes 500 outside it. */
  lemma StrayStatus(e: Thrown, stack: JsValue)
    requires !e.isAppError && e.statusCode == Some(302)
    requires e.name != "ValidationError" && e.code != Some("P2002")
    ensures GlobalErrorHandler(e, stack, true).status == 302
    ensures GlobalErrorHandler(e, stack, false).status == 500
  {
  }
}
