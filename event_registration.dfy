/**
 * `createEventResponse` of the memory-optimised event controller: the checks
 * that refuse a registration, the stored record, the response counter and
 * the cache entries dropped afterwards. The event and response tables are
 * fields; each database call that can fail has a fault parameter.
 */
module EventRegistration {
  import opened Wrappers
  import opened Text
  import opened JsValues
  import opened Http
  import opened EventMiddleware
  import opened EventCache

  /** The failures of the three database calls: the event lookup, the duplicate lookup and the write. */
  datatype RegistrationFaults = RegistrationFaults(lookup: Option<string>, duplicate: Option<string>, write: Option<string>)

  /** The 500 answer: the error's message is included only in development. */
  function RegistrationFailed(message: string, development: bool): Reply {
    if development then FailedWith(500, "Registration failed", Str(message))
    else Failed(500, "Registration failed")
  }

  /** The address as it is stored: lowercased, then trimmed. */
  function NormalEmail(email: string): string {
    Trim(ToLower(email))
  }

  /** The stored record: name and phone trimmed, the e-mail in its stored form, pending. */
  function Normalised(eventId: string, name: string, phone: string, email: string): EventResponse {
    EventResponse(eventId, Trim(name), Trim(phone), NormalEmail(email), "PENDING")
  }

  /** The 201 answer with the selected columns of the new record. */
  function Registered(rec: EventResponse): Reply {
    Reply(201, Obj(map[
      "success" := Bool(true),
      "message" := Str("Registration successful"),
      "response" := Obj(map["name" := Str(rec.name), "email" := Str(rec.email), "status" := Str(rec.status)])]))
  }

  datatype Decision = Refuse(reply: Reply) | Register(record: EventResponse)

  /**
   * The checks in their order: the event must exist, be published and not be
   * dated before now, and no registration of it may carry the address
   * `lookup`; a failing database call answers 500.
   */
  function DecideWith(
    events: map<string, Event>, responses: seq<EventResponse>,
    eventId: string, name: string, phone: string, email: string, lookup: string,
    now: int, development: bool, faults: RegistrationFaults)
    : (d: Decision)
    ensures d.Register? ==> NoFaults(faults) && d.record == Normalised(eventId, name, phone, email)
    ensures d.Register? ==> forall i :: 0 <= i < |responses| ==> !RegisteredAs(responses[i], eventId, lookup)
    ensures faults.lookup.None? && eventId !in events ==> d == Refuse(Failed(404, "Event not found"))
  {
    if faults.lookup.Some? then Refuse(RegistrationFailed(faults.lookup.value, development))
    else if eventId !in events then Refuse(Failed(404, "Event not found"))
    else if events[eventId].status != PUBLISHED then Refuse(Failed(400, "Event is not open for registration"))
    else if events[eventId].date < now then Refuse(Failed(400, "Event registration has closed"))
    else if faults.duplicate.Some? then Refuse(RegistrationFailed(faults.duplicate.value, development))
    else if FindRegistration(responses, eventId, lookup).Some? then
      Refuse(Failed(400, "You have already registered for this event"))
    else if faults.write.Some? then Refuse(RegistrationFailed(faults.write.value, development))
    else Register(Normalised(eventId, name, phone, email))
  }

  /** `createEventResponse` as written: the duplicate lookup uses the address as typed. */
  function Decide(
    events: map<string, Event>, responses: seq<EventResponse>,
    eventId: string, name: string, phone: string, email: string,
    now: int, development: bool, faults: RegistrationFaults)
    : (d: Decision)
    ensures NormalEmail(email) == email ==>
              d == DecideNormalised(events, responses, eventId, name, phone, email, now, development, faults)
  {
    DecideWith(events, responses, eventId, name, phone, email, email, now, development, faults)
  }

  /** `createEventResponse` with the duplicate lookup made with the stored form of the address. */
  function DecideNormalised(
    events: map<string, Event>, responses: seq<EventResponse>,
    eventId: string, name: string, phone: string, email: string,
    now: int, development: bool, faults: RegistrationFaults)
    : (d: Decision)
    ensures d.Register? ==>
              && d.record.email == NormalEmail(email)
              && forall i :: 0 <= i < |responses| ==> !RegisteredAs(responses[i], eventId, d.record.email)
  {
    DecideWith(events, responses, eventId, name, phone, email, NormalEmail(email), now, development, faults)
  }

  predicate NoFaults(faults: RegistrationFaults) {
    faults.lookup.None? && faults.duplicate.None? && faults.write.None?
  }

  /** `DecideWith` registers exactly when every check passes, and the record is the normalised one. */
  lemma DecideWithAccepted(
    events: map<string, Event>, responses: seq<EventResponse>,
    eventId: string, name: string, phone: string, email: string, lookup: string,
    now: int, development: bool, faults: RegistrationFaults)
    ensures DecideWith(events, responses, eventId, name, phone, email, lookup, now, development, faults).Register? <==>
              && NoFaults(faults) && eventId in events
              && events[eventId].status == PUBLISHED && events[eventId].date >= now
              && forall i :: 0 <= i < |responses| ==> !RegisteredAs(responses[i], eventId, lookup)
    ensures DecideWith(events, responses, eventId, name, phone, email, lookup, now, development, faults).Register? ==>
              DecideWith(events, responses, eventId, name, phone, email, lookup, now, development, faults).record
              == Normalised(eventId, name, phone, email)
  {
  }

  /**
   * A registration goes through exactly when the database works, the event
   * exists, is published, is not dated before now, and has no registration
   * under the stored form of the e-mail; the record stored is the normalised one.
   */
  lemma RegistrationAcceptedIff(
    events: map<string, Event>, responses: seq<EventResponse>,
    eventId: string, name: string, phone: string, email: string,
    now: int, development: bool, faults: RegistrationFaults)
    ensures DecideNormalised(events, responses, eventId, name, phone, email, now, development, faults).Register? <==>
              && NoFaults(faults) && eventId in events
              && events[eventId].status == PUBLISHED && events[eventId].date >= now
              && forall i :: 0 <= i < |responses| ==> !RegisteredAs(responses[i], eventId, NormalEmail(email))
    ensures DecideNormalised(events, responses, eventId, name, phone, email, now, development, faults).Register? ==>
              DecideNormalised(events, responses, eventId, name, phone, email, now, development, faults).record
              == Normalised(eventId, name, phone, email)
  {
    DecideWithAccepted(events, responses, eventId, name, phone, email, NormalEmail(email), now, development, faults);
  }

  /** Every refusal answers 400, 404 or 500. */
  lemma RefusalStatuses(
    events: map<string, Event>, responses: seq<EventResponse>,
    eventId: string, name: string, phone: string, email: string,
    now: int, development: bool, faults: RegistrationFaults)
    ensures DecideNormalised(events, responses, eventId, name, phone, email, now, development, faults).Refuse? ==>
              DecideNormalised(events, responses, eventId, name, phone, email, now, development, faults).reply.status in {400, 404, 500}
  {
  }

  /**
   * Unlike the route guard, which closes registration at the event's time,
   * this controller still registers for an event dated exactly now.
   */
  lemma OpenAtEventTime(e: Event, name: string, phone: string, email: string, development: bool)
    requires e.status == PUBLISHED
    ensures DecideNormalised(map[e.id := e], [], e.id, name, phone, email, e.date, development, RegistrationFaults(None, None, None)).Register?
    ensures EventIsOpenForRegistration(e, e.date).Respond?
  {
  }

  lemma LowerCharIsLower(c: char)
    ensures !('A' <= LowerChar(c) <= 'Z')
  {
  }

  predicate NoCapitals(s: string) {
    forall i :: 0 <= i < |s| ==> !('A' <= s[i] <= 'Z')
  }

  lemma {:induction false} TrimKeepsNoCapitals(s: string)
    requires NoCapitals(s)
    ensures NoCapitals(Trim(s))
  {
    var t := Trim(s);
    var k :| OccursAt(s, t, k);
    forall i | 0 <= i < |t| ensures !('A' <= t[i] <= 'Z') {
      assert t[i] == s[k..k + |t|][i] == s[k + i];
    }
  }

  /** A stored e-mail holds no capital ASCII letter and has no surrounding whitespace. */
  lemma StoredEmailNormalised(eventId: string, name: string, phone: string, email: string)
    ensures NoCapitals(Normalised(eventId, name, phone, email).email)
    ensures Trim(Normalised(eventId, name, phone, email).email) == Normalised(eventId, name, phone, email).email
  {
    var lower := ToLower(email);
    forall i | 0 <= i < |lower| ensures !('A' <= lower[i] <= 'Z') {
      LowerCharIsLower(email[i]);
    }
    TrimKeepsNoCapitals(lower);
    TrimIdempotent(lower);
  }

  /** No two registrations of one event carry the same e-mail. */
  predicate UniqueRegistrations(responses: seq<EventResponse>) {
    forall i, j :: 0 <= i < j < |responses| ==>
      !RegisteredAs(responses[j], responses[i].eventId, responses[i].email)
  }

  /**
   * The duplicate check compares the address as typed with the stored,
   * normalised addresses: an address with a capital letter is registered
   * again every time it is submitted.
   */
  lemma CapitalAddressRegistersTwice(e: Event, name: string, phone: string, email: string, development: bool)
    requires e.status == PUBLISHED && !NoCapitals(email)
    ensures Decide(map[e.id := e], [], e.id, name, phone, email, e.date, development, RegistrationFaults(None, None, None))
            == Register(Normalised(e.id, name, phone, email))
    ensures Decide(map[e.id := e], [Normalised(e.id, name, phone, email)], e.id, name, phone, email, e.date, development,
                   RegistrationFaults(None, None, None))
            == Register(Normalised(e.id, name, phone, email))
    ensures !UniqueRegistrations([Normalised(e.id, name, phone, email), Normalised(e.id, name, phone, email)])
  {
    var rec := Normalised(e.id, name, phone, email);
    StoredEmailNormalised(e.id, name, phone, email);
    assert rec.email != email;
    assert !RegisteredAs(rec, e.id, email);
    assert FindRegistration([rec], e.id, email).None?;
    var twice := [rec, rec];
    assert RegisteredAs(twice[1], twice[0].eventId, twice[0].email);
  }

  /** With the stored form looked up, registering never creates a second registration under one address. */
  lemma NormalisedCheckKeepsRegistrationsUnique(
    events: map<string, Event>, responses: seq<EventResponse>,
    eventId: string, name: string, phone: string, email: string,
    now: int, development: bool, faults: RegistrationFaults)
    requires UniqueRegistrations(responses)
    requires DecideNormalised(events, responses, eventId, name, phone, email, now, development, faults).Register?
    ensures UniqueRegistrations(responses +
              [DecideNormalised(events, responses, eventId, name, phone, email, now, development, faults).record])
  {
    RegistrationAcceptedIff(events, responses, eventId, name, phone, email, now, development, faults);
    var rec := Normalised(eventId, name, phone, email);
    var all := responses + [rec];
    forall i, j | 0 <= i < j < |all| ensures !RegisteredAs(all[j], all[i].eventId, all[i].email) {
      if j == |responses| {
        assert all[i] == responses[i];
        assert !RegisteredAs(responses[i], eventId, NormalEmail(email));
      } else {
        assert all[i] == responses[i] && all[j] == responses[j];
      }
    }
  }

  /**
   * `cacheHelpers.get(k) && cache.delete(k)`: the key is deleted only when
   * `get` answers a truthy value; an expired entry is deleted by `get` itself.
   */
  function DropCached(c: CacheState, k: string, now: int): CacheState {
    var l := GetState(c, k, now);
    if Truthy(l.value) then DeleteState(l.state, k) else l.state
  }

  /**
   * After the drop the key survives only as a live entry holding a falsy
   * value; every other key is untouched, and the cache stays well formed.
   */
  lemma DropCachedMeaning(c: CacheState, k: string, now: int)
    requires WellFormed(c)
    ensures WellFormed(DropCached(c, k, now))
    ensures k in DropCached(c, k, now).entries <==>
              k in c.entries && now <= c.entries[k].expires && !Truthy(c.entries[k].data)
    ensures forall x :: x != k ==> (x in DropCached(c, k, now).entries <==> x in c.entries)
    ensures forall x :: x != k && x in c.entries ==> DropCached(c, k, now).entries[x] == c.entries[x]
  {
    GetKeepsWellFormed(c, k, now);
    DeleteKeepsWellFormed(GetState(c, k, now).state, k);
  }

  /** `responseCount: { increment: 1 }` on the event `eventId`. */
  function Counted(events: map<string, Event>, eventId: string): (r: map<string, Event>)
    requires eventId in events
    ensures r.Keys == events.Keys
    ensures r[eventId] == events[eventId].(responseCount := events[eventId].responseCount + 1)
    ensures forall id :: id in events && id != eventId ==> r[id] == events[id]
  {
    events[eventId := events[eventId].(responseCount := events[eventId].responseCount + 1)]
  }

  /** The event and response tables, and the controller's cache. */
  class EventController {
    var events: map<string, Event>
    var responses: seq<EventResponse>
    const cache: TtlCache

    constructor(events: map<string, Event>, responses: seq<EventResponse>)
      ensures this.events == events && this.responses == responses
      ensures fresh(cache) && cache.Valid() && cache.entries == map[]
    {
      this.events := events;
      this.responses := responses;
      cache := new TtlCache();
    }

    /**
     * `createEventResponse` at `now`, with the duplicate lookup made with
     * the stored form of the address: a refusal changes nothing; a
     * registration appends the normalised record, adds one to the event's
     * counter and drops the event's and the upcoming list's cache entries.
     * No address is ever registered twice for one event.
     */
    method CreateEventResponse(
      eventId: string, name: string, phone: string, email: string,
      now: int, development: bool, faults: RegistrationFaults)
      returns (reply: Reply)
      requires cache.Valid()
      modifies this, cache
      ensures cache.Valid()
      ensures UniqueRegistrations(old(responses)) ==> UniqueRegistrations(responses)
      ensures DecideNormalised(old(events), old(responses), eventId, name, phone, email, now, development, faults).Refuse? ==>
                && reply == DecideNormalised(old(events), old(responses), eventId, name, phone, email, now, development, faults).reply
                && events == old(events) && responses == old(responses) && cache.State() == old(cache.State())
      ensures DecideNormalised(old(events), old(responses), eventId, name, phone, email, now, development, faults).Register? ==>
                var rec := DecideNormalised(old(events), old(responses), eventId, name, phone, email, now, development, faults).record;
                && reply == Registered(rec)
                && responses == old(responses) + [rec]
                && eventId in old(events)
                && events == Counted(old(events), eventId)
                && cache.State() == DropCached(DropCached(old(cache.State()), "event-" + eventId, now), "upcoming-events", now)
    {
      var decision := DecideNormalised(events, responses, eventId, name, phone, email, now, development, faults);
      match decision
      case Refuse(r) =>
        reply := r;
      case Register(rec) =>
        RegistrationAcceptedIff(events, responses, eventId, name, phone, email, now, development, faults);
        if UniqueRegistrations(responses) {
          NormalisedCheckKeepsRegistrationsUnique(events, responses, eventId, name, phone, email, now, development, faults);
        }
        responses := responses + [rec];
        events := Counted(events, eventId);
        DropCaches(eventId, now);
        reply := Registered(rec);
    }

    /** The two cache drops that follow a registration. */
    method DropCaches(eventId: string, now: int)
      requires cache.Valid()
      modifies cache
      ensures cache.Valid()
      ensures cache.State() == DropCached(DropCached(old(cache.State()), "event-" + eventId, now), "upcoming-events", now)
    {
      var eventKey := "event-" + eventId;
      var cached := cache.Get(eventKey, now);
      if Truthy(cached) {
        cache.Delete(eventKey);
      }
      cached := cache.Get("upcoming-events", now);
      if Truthy(cached) {
        cache.Delete("upcoming-events");
      }
    }
  }
}
