/**
 * A blog record and the status transitions written to it: the four admin
 * handlers of the blog controller (publish, save as draft, schedule,
 * unschedule) and the scheduler's own publish. Each is a whole-field
 * overwrite of a few fields and none of them looks at the current status.
 */
module BlogModel {
  import opened Wrappers

  type BlogId = string

  /** Milliseconds since the epoch. */
  type Time = int

  datatype BlogStatus = DRAFT | PUBLISHED | SCHEDULED | ARCHIVED

  datatype Blog = Blog(
    id: BlogId,
    title: string,
    slug: string,
    content: string,
    excerpt: Option<string>,
    status: BlogStatus,
    publishedAt: Option<Time>,
    scheduledPublishAt: Option<Time>)

  /** `a` and `b` agree on every field the transitions never write. */
  predicate SameContent(a: Blog, b: Blog) {
    a.id == b.id && a.title == b.title && a.slug == b.slug
    && a.content == b.content && a.excerpt == b.excerpt
  }

  /** `publishBlog`: PUBLISHED, stamped now; the scheduled time is left as it was. */
  function PublishNow(b: Blog, now: Time): (r: Blog)
    ensures r.status == PUBLISHED && r.publishedAt == Some(now)
    ensures r.scheduledPublishAt == b.scheduledPublishAt && SameContent(b, r)
  {
    b.(status := PUBLISHED, publishedAt := Some(now))
  }

  /** `saveAsDraft`: DRAFT with no publication time; the scheduled time is left as it was. */
  function SaveAsDraft(b: Blog): (r: Blog)
    ensures r.status == DRAFT && r.publishedAt == None
    ensures r.scheduledPublishAt == b.scheduledPublishAt && SameContent(b, r)
  {
    b.(status := DRAFT, publishedAt := None)
  }

  /** `schedulePublishing`: SCHEDULED at `at`; the publication time is left as it was. */
  function Schedule(b: Blog, at: Time): (r: Blog)
    ensures r.status == SCHEDULED && r.scheduledPublishAt == Some(at)
    ensures r.publishedAt == b.publishedAt && SameContent(b, r)
  {
    b.(status := SCHEDULED, scheduledPublishAt := Some(at))
  }

  /** `unschedulePublishing`: DRAFT with no scheduled time; the publication time is left as it was. */
  function Unschedule(b: Blog): (r: Blog)
    ensures r.status == DRAFT && r.scheduledPublishAt == None
    ensures r.publishedAt == b.publishedAt && SameContent(b, r)
  {
    b.(status := DRAFT, scheduledPublishAt := None)
  }

  /** The scheduler's `publishScheduledBlog`: PUBLISHED, stamped now, scheduled time cleared. */
  function ScheduledPublish(b: Blog, now: Time): (r: Blog)
    ensures r.status == PUBLISHED && r.publishedAt == Some(now)
    ensures r.scheduledPublishAt == None && SameContent(b, r)
  {
    b.(status := PUBLISHED, publishedAt := Some(now), scheduledPublishAt := None)
  }

  /** The handler a status change came from. */
  datatype Transition = Publish | Draft | ScheduleAt(at: Time) | Unscheduling | SchedulerPublish

  function Apply(b: Blog, t: Transition, now: Time): Blog {
    match t
    case Publish => PublishNow(b, now)
    case Draft => SaveAsDraft(b)
    case ScheduleAt(at) => Schedule(b, at)
    case Unscheduling => Unschedule(b)
    case SchedulerPublish => ScheduledPublish(b, now)
  }

  /** The update keeps the record's identity and its content fields. */
  lemma ApplyKeepsContent(b: Blog, t: Transition, now: Time)
    ensures SameContent(b, Apply(b, t, now)) && Apply(b, t, now).id == b.id
  {
  }

  /** `a` and `b` can differ only in their status. */
  predicate SameExceptStatus(a: Blog, b: Blog) {
    SameContent(a, b) && a.publishedAt == b.publishedAt && a.scheduledPublishAt == b.scheduledPublishAt
  }

  /** No transition reads the current status: two records that differ only in status end up equal. */
  lemma TransitionIgnoresStatus(a: Blog, b: Blog, t: Transition, now: Time)
    requires SameExceptStatus(a, b)
    ensures Apply(a, t, now) == Apply(b, t, now)
  {
  }

  /** Save-as-draft, schedule at a fixed time and unschedule are idempotent. */
  lemma TransitionsIdempotent(b: Blog, at: Time)
    ensures SaveAsDraft(SaveAsDraft(b)) == SaveAsDraft(b)
    ensures Schedule(Schedule(b, at), at) == Schedule(b, at)
    ensures Unschedule(Unschedule(b)) == Unschedule(b)
  {
  }

  /** Scheduling and then unscheduling leaves a draft with no scheduled time and the old publication time. */
  lemma ScheduleThenUnschedule(b: Blog, at: Time)
    ensures Unschedule(Schedule(b, at)).status == DRAFT
    ensures Unschedule(Schedule(b, at)).scheduledPublishAt == None
    ensures Unschedule(Schedule(b, at)) == Unschedule(b)
  {
  }

  /** The reading of the data model in which a scheduled time is present exactly for SCHEDULED records. */
  predicate ScheduleConsistent(b: Blog) {
    b.scheduledPublishAt.Some? <==> b.status == SCHEDULED
  }

  /** Schedule, unschedule and the scheduler's publish each leave a consistent record, whatever they start from. */
  lemma ConsistentTransitions(b: Blog, at: Time, now: Time)
    ensures ScheduleConsistent(Schedule(b, at))
    ensures ScheduleConsistent(Unschedule(b))
    ensures ScheduleConsistent(ScheduledPublish(b, now))
  {
  }

  /**
   * The two admin handlers that change the status without touching the
   * scheduled time break that reading: publishing or drafting a scheduled
   * record keeps its scheduled time.
   */
  lemma ManualHandlersKeepScheduledTime(b: Blog, now: Time)
    requires b.status == SCHEDULED && ScheduleConsistent(b)
    ensures !ScheduleConsistent(PublishNow(b, now))
    ensures !ScheduleConsistent(SaveAsDraft(b))
  {
  }

  /** A record the scheduler would pick up at `now`. */
  predicate IsDue(b: Blog, now: Time): (r: bool)
    ensures r ==> b.status == SCHEDULED && b.scheduledPublishAt.Some?
    ensures b.scheduledPublishAt.None? ==> !r
  {
    b.status == SCHEDULED && b.scheduledPublishAt.Some? && b.scheduledPublishAt.value <= now
  }

  /** After the scheduler's publish a record is never due again. */
  lemma ScheduledPublishNotDue(b: Blog, now: Time, later: Time)
    ensures !IsDue(ScheduledPublish(b, now), later)
  {
  }

  /** A manual publish of a due record leaves it out of the scheduler's query, though its time stays set. */
  lemma PublishNowNotDue(b: Blog, now: Time, later: Time)
    ensures !IsDue(PublishNow(b, now), later)
    ensures IsDue(b, now) ==> PublishNow(b, now).scheduledPublishAt.Some?
  {
  }
}
