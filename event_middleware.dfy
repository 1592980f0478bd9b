/**
 * The event records the events API reads, and the guards of its routes: the
 * existence check by id, the "published" check of the public routes, the
 * "open for registration" check and the duplicate e-mail check. A failing
 * lookup is a parameter: the async wrapper passes what it throws on.
 */
module EventMiddleware {
  import opened Wrappers
  import opened JsValues
  import opened Http

  /** The columns of an event that the guards and the registration read. */
  datatype Event = Event(id: string, title: string, status: string, date: int, responseCount: nat)

  /** One registration of a visitor for an event. */
  datatype EventResponse = EventResponse(eventId: string, name: string, phone: string, email: string, status: string)

  const PUBLISHED := "PUBLISHED"

  /**
   * `eventExists`: an unknown id answers 404 naming the id; a failing lookup
   * is passed on; otherwise the event is attached.
   */
  function EventExists(id: string, events: map<string, Event>, fault: Option<Thrown>): (r: Step<Event>)
    ensures fault.Some? ==> r == Forward(fault.value)
    ensures fault.None? && id !in events ==> r == Respond(Failed(404, "Event with ID '" + id + "' not found"))
    ensures r.Continue? <==> fault.None? && id in events
    ensures r.Continue? ==> r.value == events[id]
  {
    if fault.Some? then Forward(fault.value)
    else if id !in events then Respond(Failed(404, "Event with ID '" + id + "' not found"))
    else Continue(events[id])
  }

  /** `eventIsPublished`: anything but a published event answers 404. */
  function EventIsPublished(e: Event): (r: Step<()>)
    ensures r.Continue? <==> e.status == PUBLISHED
    ensures r.Respond? ==> r.reply == Failed(404, "Event not found or not published")
  {
    if e.status != PUBLISHED then Respond(Failed(404, "Event not found or not published")) else Continue(())
  }

  /**
   * `eventIsOpenForRegistration` at `now`: an unpublished event answers 400;
   * so does a published one whose date is not after now.
   */
  function EventIsOpenForRegistration(e: Event, now: int): (r: Step<()>)
    ensures r.Continue? <==> e.status == PUBLISHED && e.date > now
    ensures e.status != PUBLISHED ==> r == Respond(Failed(400, "Event is not open for registration"))
    ensures e.status == PUBLISHED && e.date <= now ==> r == Respond(Failed(400, "Event registration is closed"))
  {
    if e.status != PUBLISHED then Respond(Failed(400, "Event is not open for registration"))
    else if e.date <= now then Respond(Failed(400, "Event registration is closed"))
    else Continue(())
  }

  /** An event dated exactly now is already closed; one dated a millisecond later is open. */
  lemma RegistrationClosesAtEventTime(e: Event)
    requires e.status == PUBLISHED
    ensures EventIsOpenForRegistration(e, e.date).Respond?
    ensures EventIsOpenForRegistration(e, e.date - 1).Continue?
  {
  }

  /** A registration for the event with exactly this e-mail address. */
  predicate RegisteredAs(r: EventResponse, eventId: string, email: string) {
    r.eventId == eventId && r.email == email
  }

  /** `findFirst({ where: { eventId, email } })`: the first matching registration, in table order. */
  function FindRegistration(responses: seq<EventResponse>, eventId: string, email: string): (r: Option<nat>)
    ensures r.None? <==> forall i :: 0 <= i < |responses| ==> !RegisteredAs(responses[i], eventId, email)
    ensures r.Some? ==> r.value < |responses| && RegisteredAs(responses[r.value], eventId, email)
    ensures r.Some? ==> forall i :: 0 <= i < r.value ==> !RegisteredAs(responses[i], eventId, email)
  {
    if |responses| == 0 then None
    else if RegisteredAs(responses[0], eventId, email) then Some(0)
    else
      match FindRegistration(responses[1..], eventId, email)
      case None => None
      case Some(i) => Some(i + 1)
  }

  /**
   * `emailNotAlreadyRegistered`: a registration of the same event under the
   * very same address answers 400; the comparison is exact.
   */
  function EmailNotAlreadyRegistered(
    eventId: string, email: string, responses: seq<EventResponse>, fault: Option<Thrown>)
    : (r: Step<()>)
    ensures fault.Some? ==> r == Forward(fault.value)
    ensures fault.None? ==>
              (r.Continue? <==> forall i :: 0 <= i < |responses| ==> !RegisteredAs(responses[i], eventId, email))
    ensures r.Respond? ==> r.reply == Failed(400, "Email is already registered for this event")
  {
    if fault.Some? then Forward(fault.value)
    else if FindRegistration(responses, eventId, email).Some? then
      Respond(Failed(400, "Email is already registered for this event"))
    else Continue(())
  }

  /**
   * The check folds no case: a stored address is no obstacle to the same
   * address written with a capital letter.
   */
  lemma CaseVariantPassesEmailCheck(eventId: string)
    ensures EmailNotAlreadyRegistered(eventId, "Ann@x.io", [EventResponse(eventId, "Ann", "1", "ann@x.io", "PENDING")], None)
            == Continue(())
  {
    var responses := [EventResponse(eventId, "Ann", "1", "ann@x.io", "PENDING")];
    assert !RegisteredAs(responses[0], eventId, "Ann@x.io") by {
      assert "Ann@x.io"[0] != "ann@x.io"[0];
    }
  }
}
