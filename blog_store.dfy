/**
 * The blog table as the core sees it: a map from id to record with the
 * queries the scheduler and the admin handlers issue (find the due records,
 * count the scheduled ones, find the earliest scheduled one, update by id).
 */
module BlogStores {
  import opened Wrappers
  import opened BlogModel

  /** The ids of the records the scheduler's query returns at `now`. */
  function DueIds(blogs: map<BlogId, Blog>, now: Time): (ids: set<BlogId>)
    ensures ids <= ScheduledIds(blogs)
    ensures forall id :: id in ids <==> id in blogs && IsDue(blogs[id], now)
  {
    set id | id in blogs && IsDue(blogs[id], now)
  }

  function ScheduledIds(blogs: map<BlogId, Blog>): (ids: set<BlogId>)
    ensures forall id :: id in ids <==> id in blogs && blogs[id].status == SCHEDULED
  {
    set id | id in blogs && blogs[id].status == SCHEDULED
  }

  /**
   * `a` comes no later than `b` in `orderBy: { scheduledPublishAt: 'asc' }`,
   * with records that have no scheduled time last.
   */
  predicate NotLater(a: Blog, b: Blog) {
    match a.scheduledPublishAt
    case None => b.scheduledPublishAt.None?
    case Some(x) => b.scheduledPublishAt.None? || x <= b.scheduledPublishAt.value
  }

  /** `r` is what `findFirst` over the SCHEDULED records, earliest first, may return. */
  predicate IsEarliestScheduled(blogs: map<BlogId, Blog>, r: Option<Blog>) {
    match r
    case None => ScheduledIds(blogs) == {}
    case Some(b) =>
      && b.id in blogs && blogs[b.id] == b && b.status == SCHEDULED
      && forall id :: id in ScheduledIds(blogs) ==> NotLater(b, blogs[id])
  }

  /** The table after the records in `ids` have been published by the scheduler at `now`. */
  function PublishedAll(blogs: map<BlogId, Blog>, ids: set<BlogId>, now: Time): (r: map<BlogId, Blog>)
    ensures r.Keys == blogs.Keys
  {
    map id | id in blogs :: if id in ids then ScheduledPublish(blogs[id], now) else blogs[id]
  }

  /** Every record is stored under its own id. */
  predicate KeyedById(blogs: map<BlogId, Blog>) {
    forall id :: id in blogs ==> blogs[id].id == id
  }

  /** Errors the store raises. */
  datatype StoreError =
    | RecordNotFound   // Prisma's P2025: update of an id that is not there
    | Unavailable(message: string)

  class BlogStore {
    var blogs: map<BlogId, Blog>

    ghost predicate Valid()
      reads this
    {
      KeyedById(blogs)
    }

    constructor (initial: map<BlogId, Blog>)
      requires forall id :: id in initial ==> initial[id].id == id
      ensures Valid() && blogs == initial
    {
      blogs := initial;
    }

    /** `prisma.blog.count({ where: { status: 'SCHEDULED' } })`. */
    method CountScheduled() returns (n: nat)
      ensures n == |ScheduledIds(blogs)|
    {
      n := |ScheduledIds(blogs)|;
    }

    /** `prisma.blog.findFirst` over the SCHEDULED records ordered by scheduled time. */
    method FindFirstScheduled() returns (r: Option<Blog>)
      requires Valid()
      ensures IsEarliestScheduled(blogs, r)
    {
      var todo := ScheduledIds(blogs);
      r := None;
      while todo != {}
        invariant todo <= ScheduledIds(blogs)
        invariant r.None? ==> todo == ScheduledIds(blogs)
        invariant r.Some? ==> r.value.id in blogs && blogs[r.value.id] == r.value && r.value.status == SCHEDULED
        invariant r.Some? ==> forall id :: id in ScheduledIds(blogs) - todo ==> NotLater(r.value, blogs[id])
        decreases todo
      {
        var id :| id in todo;
        var b := blogs[id];
        if r.None? || !NotLater(r.value, b) {
          r := Some(b);
        }
        todo := todo - {id};
      }
    }

    /**
     * `prisma.blog.update({ where: { id }, data })` for one of the status
     * transitions; an unknown id is Prisma's P2025 and changes nothing.
     */
    method Update(id: BlogId, t: Transition, now: Time) returns (r: Result<Blog, StoreError>)
      requires Valid()
      modifies this
      ensures Valid()
      ensures id !in old(blogs) ==> r == Failure(RecordNotFound) && blogs == old(blogs)
      ensures id in old(blogs) ==> r == Success(Apply(old(blogs)[id], t, now))
      ensures id in old(blogs) ==> blogs == old(blogs)[id := Apply(old(blogs)[id], t, now)]
    {
      if id !in blogs {
        return Failure(RecordNotFound);
      }
      var b := Apply(blogs[id], t, now);
      ApplyKeepsContent(blogs[id], t, now);
      blogs := blogs[id := b];
      r := Success(b);
    }
  }

  /** No record is due after the scheduler has published every due one except the failures. */
  lemma {:induction false} NothingDueAfterScan(blogs: map<BlogId, Blog>, failed: set<BlogId>, now: Time)
    ensures DueIds(PublishedAll(blogs, DueIds(blogs, now) - failed, now), now) == DueIds(blogs, now) * failed
  {
    var due := DueIds(blogs, now);
    var after := PublishedAll(blogs, due - failed, now);
    forall id | id in DueIds(after, now)
      ensures id in due * failed
    {
      if id in due - failed {
        ScheduledPublishNotDue(blogs[id], now, now);
      }
    }
  }

  /** The scheduled count drops by exactly the number of records the scan published. */
  lemma {:induction false} ScheduledCountAfterScan(blogs: map<BlogId, Blog>, ids: set<BlogId>, now: Time)
    requires ids <= ScheduledIds(blogs)
    ensures ScheduledIds(PublishedAll(blogs, ids, now)) == ScheduledIds(blogs) - ids
    ensures |ScheduledIds(PublishedAll(blogs, ids, now))| == |ScheduledIds(blogs)| - |ids|
  {
    var after := PublishedAll(blogs, ids, now);
    assert ScheduledIds(after) == ScheduledIds(blogs) - ids;
    SubsetDifferenceSize(ScheduledIds(blogs), ids);
  }

  lemma {:induction false} SubsetDifferenceSize<T>(a: set<T>, b: set<T>)
    requires b <= a
    ensures |a - b| == |a| - |b|
  {
    assert a == (a - b) + b;
    assert (a - b) !! b;
  }
}
