/**
 * The scheduled-publishing engine. The engine keeps its run state in six
 * fields (`isRunning`, `interval`, `startTime`, `lastCheckTime`,
 * `totalPublished`, `lastError`) and publishes, on every scan, each SCHEDULED
 * blog whose scheduled time has come. The repeating timer is an explicit
 * `Tick`, the clock an integer parameter, and the store faults a scan runs
 * into are a parameter too, so that every scan is one sequential state update.
 */
module BlogScheduling {
  import opened Wrappers
  import opened BlogModel
  import opened BlogStores

  /** The polling period, 60 seconds. */
  const CHECK_INTERVAL_MS: nat := 60000

  /** The handle `setInterval` returned, with the period it was armed with. */
  datatype Timer = Timer(periodMs: nat)

  /** `lastError`: the most recent failure, with the blog id when one item failed. */
  datatype SchedulerError = SchedulerError(time: Time, blogId: Option<BlogId>, error: string)

  /**
   * The store failures one scan runs into: the due-items query throws with
   * `query`, and the update of blog `id` throws with `updates[id]`.
   */
  datatype StoreFaults = StoreFaults(query: Option<string>, updates: map<BlogId, string>)

  /** The message Prisma gives when an update finds no record. */
  const RECORD_NOT_FOUND := "Record to update not found."

  datatype NextBlog = NextBlog(title: string, scheduledFor: Option<Time>)

  /** What `getStatus` returns: the full report, or the reduced one when the store fails. */
  datatype SchedulerStatus =
    | Detailed(
        isRunning: bool,
        interval: Option<string>,
        lastCheck: Option<Time>,
        scheduledBlogsCount: nat,
        nextScheduledBlog: Option<NextBlog>,
        uptime: string,
        startTime: Option<Time>,
        totalPublished: nat,
        lastError: Option<SchedulerError>,
        checkInterval: string,
        nextCheck: Option<Time>)
    | Degraded(isRunning: bool, interval: Option<string>, checkedAt: Time, error: string)

  function IntervalLabel(interval: Option<Timer>): Option<string> {
    if interval.Some? then Some("60 seconds") else None
  }

  /** One polling period after the last check, when there was one. */
  function NextCheck(lastCheck: Option<Time>): (r: Option<Time>)
    ensures r.Some? <==> lastCheck.Some?
    ensures r.Some? ==> r.value - lastCheck.value == CHECK_INTERVAL_MS
  {
    if lastCheck.Some? then Some(lastCheck.value + CHECK_INTERVAL_MS) else None
  }

  /** `n` describes the earliest SCHEDULED blog, or is absent when there is none. */
  predicate DescribesEarliest(blogs: map<BlogId, Blog>, n: Option<NextBlog>) {
    match n
    case None => ScheduledIds(blogs) == {}
    case Some(next) =>
      exists id :: id in ScheduledIds(blogs)
        && next == NextBlog(blogs[id].title, blogs[id].scheduledPublishAt)
        && forall other :: other in ScheduledIds(blogs) ==> NotLater(blogs[id], blogs[other])
  }

  /**
   * The effect of one scan at `now` on the table, the publication counter and
   * the last error. A failing query changes the table and the counter not at
   * all and records an error without a blog id. Otherwise every due blog whose
   * update does not fail is published, the counter grows by their number, and
   * the last error is that of one of the failed blogs, or is kept when none failed.
   */
  predicate ScanEffect(
    before: map<BlogId, Blog>, total0: nat, error0: Option<SchedulerError>,
    faults: StoreFaults, now: Time,
    after: map<BlogId, Blog>, total1: nat, error1: Option<SchedulerError>)
  {
    match faults.query
    case Some(msg) =>
      after == before && total1 == total0 && error1 == Some(SchedulerError(now, None, msg))
    case None =>
      var due := DueIds(before, now);
      var failed := due * faults.updates.Keys;
      && after == PublishedAll(before, due - failed, now)
      && total1 == total0 + |due - failed|
      && (failed == {} ==> error1 == error0)
      && (failed != {} ==> ItemFailure(error1, failed, faults, now))
  }

  /** `e` records the failure of one of the blogs in `failed`, with that blog's own message. */
  predicate ItemFailure(e: Option<SchedulerError>, failed: set<BlogId>, faults: StoreFaults, now: Time) {
    && e.Some? && e.value.time == now && e.value.blogId.Some?
    && e.value.blogId.value in failed && e.value.blogId.value in faults.updates
    && e.value.error == faults.updates[e.value.blogId.value]
  }

  class BlogScheduler {
    const store: BlogStore
    var interval: Option<Timer>
    var isRunning: bool
    var lastCheckTime: Option<Time>
    var totalPublished: nat
    var lastError: Option<SchedulerError>
    var startTime: Option<Time>

    /** The timer is armed exactly while the engine runs. */
    ghost predicate Valid()
      reads this, store
    {
      (isRunning <==> interval.Some?) && store.Valid()
    }

    constructor (store: BlogStore)
      requires store.Valid()
      ensures Valid() && this.store == store
      ensures interval == None && !isRunning && lastCheckTime == None
      ensures totalPublished == 0 && lastError == None && startTime == None
    {
      this.store := store;
      interval := None;
      isRunning := false;
      lastCheckTime := None;
      totalPublished := 0;
      lastError := None;
      startTime := None;
    }

    /**
     * `start`: a no-op when already running; otherwise arms the timer, records
     * the start time and runs one scan straight away.
     */
    method Start(now: Time, faults: StoreFaults)
      requires Valid()
      modifies this, store
      ensures Valid()
      ensures old(isRunning) ==> unchanged(this) && unchanged(store)
      ensures !old(isRunning) ==> isRunning && interval == Some(Timer(CHECK_INTERVAL_MS))
      ensures !old(isRunning) ==> startTime == Some(now) && lastCheckTime == Some(now)
      ensures !old(isRunning) ==> ScanEffect(old(store.blogs), old(totalPublished), old(lastError), faults, now,
                                             store.blogs, totalPublished, lastError)
    {
      if isRunning {
        return;
      }
      isRunning := true;
      startTime := Some(now);
      interval := Some(Timer(CHECK_INTERVAL_MS));
      ProcessScheduledBlogs(now, faults);
    }

    /** `stop`: disarms the timer and clears `isRunning`, whatever the state before. */
    method Stop()
      requires Valid()
      modifies this
      ensures Valid()
      ensures !isRunning && interval == None
      ensures lastCheckTime == old(lastCheckTime) && totalPublished == old(totalPublished)
      ensures lastError == old(lastError) && startTime == old(startTime)
    {
      if interval.Some? {
        interval := None;
      }
      isRunning := false;
    }

    /** One firing of the repeating timer: a scan when the timer is armed, nothing otherwise. */
    method Tick(now: Time, faults: StoreFaults)
      requires Valid()
      modifies this, store
      ensures Valid()
      ensures interval.None? ==> unchanged(this) && unchanged(store)
      ensures isRunning == old(isRunning) && interval == old(interval) && startTime == old(startTime)
      ensures interval.Some? ==> lastCheckTime == Some(now)
      ensures interval.Some? ==> ScanEffect(old(store.blogs), old(totalPublished), old(lastError), faults, now,
                                            store.blogs, totalPublished, lastError)
    {
      if interval.Some? {
        ProcessScheduledBlogs(now, faults);
      }
    }

    /** `manualCheck`: one scan, whether or not the timer is armed. */
    method ManualCheck(now: Time, faults: StoreFaults)
      requires Valid()
      modifies this, store
      ensures Valid()
      ensures isRunning == old(isRunning) && interval == old(interval) && startTime == old(startTime)
      ensures lastCheckTime == Some(now)
      ensures ScanEffect(old(store.blogs), old(totalPublished), old(lastError), faults, now,
                         store.blogs, totalPublished, lastError)
    {
      ProcessScheduledBlogs(now, faults);
    }

    /**
     * `processScheduledBlogs`: records the check time, asks the store for the
     * due blogs and publishes each one; a failing item is recorded and the
     * loop goes on with the rest.
     */
    method ProcessScheduledBlogs(now: Time, faults: StoreFaults)
      requires Valid()
      modifies this, store
      ensures Valid()
      ensures isRunning == old(isRunning) && interval == old(interval) && startTime == old(startTime)
      ensures lastCheckTime == Some(now)
      ensures totalPublished >= old(totalPublished)
      ensures ScanEffect(old(store.blogs), old(totalPublished), old(lastError), faults, now,
                         store.blogs, totalPublished, lastError)
    {
      lastCheckTime := Some(now);
      if faults.query.Some? {
        lastError := Some(SchedulerError(now, None, faults.query.value));
        return;
      }
      PublishDue(now, faults);
    }

    /** The loop of a scan whose query succeeded: every due blog is handled once, in no particular order. */
    method PublishDue(now: Time, faults: StoreFaults)
      requires store.Valid() && faults.query.None?
      modifies this, store
      ensures store.Valid()
      ensures isRunning == old(isRunning) && interval == old(interval) && startTime == old(startTime)
      ensures lastCheckTime == old(lastCheckTime)
      ensures ScanEffect(old(store.blogs), old(totalPublished), old(lastError), faults, now,
                         store.blogs, totalPublished, lastError)
    {
      var blogsToPublish := DueIds(store.blogs, now);
      ghost var before := store.blogs;
      ghost var F := faults.updates.Keys;
      ghost var published: set<BlogId> := {};
      ghost var failed: set<BlogId> := {};
      var remaining := blogsToPublish;
      assert PublishedAll(before, {}, now) == before;
      while remaining != {}
        invariant remaining <= blogsToPublish
        invariant forall x :: x in published <==> x in blogsToPublish && x !in remaining && x !in F
        invariant forall x :: x in failed <==> x in blogsToPublish && x !in remaining && x in F
        invariant store.Valid() && store.blogs == PublishedAll(before, published, now)
        invariant totalPublished == old(totalPublished) + |published|
        invariant failed == {} ==> lastError == old(lastError)
        invariant failed != {} ==> ItemFailure(lastError, failed, faults, now)
        invariant isRunning == old(isRunning) && interval == old(interval) && startTime == old(startTime)
        invariant lastCheckTime == old(lastCheckTime)
        decreases remaining
      {
        var id :| id in remaining;
        PublishedAllStep(before, published, id, now);
        HandleDue(id, now, faults);
        if id in faults.updates {
          failed := failed + {id};
        } else {
          CardAddOne(published, id);
          published := published + {id};
        }
        remaining := remaining - {id};
      }
      ScanEnd(before, old(totalPublished), old(lastError), faults, now, published, failed,
              store.blogs, totalPublished, lastError);
    }

    /** The loop body of a scan for one due blog: publish it and count it, or record its failure. */
    method HandleDue(id: BlogId, now: Time, faults: StoreFaults)
      requires store.Valid() && id in store.blogs
      modifies this, store
      ensures store.Valid()
      ensures isRunning == old(isRunning) && interval == old(interval) && startTime == old(startTime)
      ensures lastCheckTime == old(lastCheckTime)
      ensures id !in faults.updates ==> store.blogs == old(store.blogs)[id := ScheduledPublish(old(store.blogs)[id], now)]
      ensures id !in faults.updates ==> totalPublished == old(totalPublished) + 1 && lastError == old(lastError)
      ensures id in faults.updates ==> store.blogs == old(store.blogs) && totalPublished == old(totalPublished)
      ensures id in faults.updates ==> lastError == Some(SchedulerError(now, Some(id), faults.updates[id]))
    {
      var fault := if id in faults.updates then Some(faults.updates[id]) else None;
      var err := PublishScheduledBlog(store.blogs[id], now, fault);
      if err.None? {
        totalPublished := totalPublished + 1;
      } else {
        lastError := Some(SchedulerError(now, Some(id), err.value));
      }
    }

    /**
     * `publishScheduledBlog`: an unconditional update by id to PUBLISHED,
     * stamped now, with the scheduled time cleared. Returns the error message
     * when the update throws.
     */
    method PublishScheduledBlog(blog: Blog, now: Time, fault: Option<string>) returns (err: Option<string>)
      requires store.Valid()
      modifies store
      ensures store.Valid()
      ensures fault.Some? ==> err == fault && store.blogs == old(store.blogs)
      ensures fault.None? && blog.id in old(store.blogs) ==>
                err.None? && store.blogs == old(store.blogs)[blog.id := ScheduledPublish(old(store.blogs)[blog.id], now)]
      ensures fault.None? && blog.id !in old(store.blogs) ==>
                err == Some(RECORD_NOT_FOUND) && store.blogs == old(store.blogs)
    {
      if fault.Some? {
        return fault;
      }
      var r := store.Update(blog.id, SchedulerPublish, now);
      err := if r.Success? then None else Some(RECORD_NOT_FOUND);
    }

    /**
     * `getStatus`: never fails. With a working store it reports the run state,
     * the number of SCHEDULED blogs and the earliest of them; when the store
     * fails it reports only the running flag, the interval and the current time.
     */
    method GetStatus(now: Time, storeFault: Option<string>) returns (s: SchedulerStatus)
      requires Valid()
      ensures storeFault.Some? ==>
                s == Degraded(isRunning, IntervalLabel(interval), now, "Failed to get detailed status")
      ensures storeFault.None? ==> s.Detailed? && s.isRunning == isRunning && s.interval == IntervalLabel(interval)
      ensures storeFault.None? ==> s.Detailed? && s.lastCheck == lastCheckTime && s.startTime == startTime
      ensures storeFault.None? ==> s.Detailed? && s.totalPublished == totalPublished && s.lastError == lastError
      ensures storeFault.None? ==> s.Detailed? && s.scheduledBlogsCount == |ScheduledIds(store.blogs)|
      ensures storeFault.None? ==> s.Detailed? && DescribesEarliest(store.blogs, s.nextScheduledBlog)
      ensures storeFault.None? ==> s.Detailed? && s.uptime == (if isRunning then "Running" else "Stopped")
      ensures storeFault.None? ==> s.Detailed? && s.nextCheck == NextCheck(lastCheckTime)
    {
      if storeFault.Some? {
        return Degraded(isRunning, IntervalLabel(interval), now, "Failed to get detailed status");
      }
      var count := store.CountScheduled();
      var first := store.FindFirstScheduled();
      var next: Option<NextBlog> := None;
      if first.Some? {
        var b := first.value;
        next := Some(NextBlog(b.title, b.scheduledPublishAt));
        assert b.id in ScheduledIds(store.blogs);
      }
      var nextCheck := if lastCheckTime.Some? then Some(lastCheckTime.value + CHECK_INTERVAL_MS) else None;
      s := Detailed(isRunning, IntervalLabel(interval), lastCheckTime, count, next,
                    if isRunning then "Running" else "Stopped", startTime, totalPublished, lastError,
                    "60 seconds", nextCheck);
    }
  }

  /** Adding a new element grows a set by one. */
  lemma CardAddOne<T>(s: set<T>, x: T)
    requires x !in s
    ensures |s + {x}| == |s| + 1
  {
  }

  /** Once every due blog has been handled, the loop's bookkeeping is the effect of the whole scan. */
  lemma ScanEnd(
    before: map<BlogId, Blog>, total0: nat, error0: Option<SchedulerError>, faults: StoreFaults, now: Time,
    published: set<BlogId>, failed: set<BlogId>,
    blogs: map<BlogId, Blog>, total: nat, error: Option<SchedulerError>)
    requires faults.query.None?
    requires forall x :: x in published <==> x in DueIds(before, now) && x !in faults.updates
    requires forall x :: x in failed <==> x in DueIds(before, now) && x in faults.updates
    requires blogs == PublishedAll(before, published, now) && total == total0 + |published|
    requires failed == {} ==> error == error0
    requires failed != {} ==> ItemFailure(error, failed, faults, now)
    ensures ScanEffect(before, total0, error0, faults, now, blogs, total, error)
  {
    var due := DueIds(before, now);
    assert published == due - due * faults.updates.Keys;
    assert failed == due * faults.updates.Keys;
  }

  /** Publishing one more id extends the published table by that one record. */
  lemma PublishedAllStep(before: map<BlogId, Blog>, published: set<BlogId>, id: BlogId, now: Time)
    requires id in before && id !in published
    ensures PublishedAll(before, published, now)[id := ScheduledPublish(PublishedAll(before, published, now)[id], now)]
              == PublishedAll(before, published + {id}, now)
  {
    var a := PublishedAll(before, published, now);
    var b := PublishedAll(before, published + {id}, now);
    assert a[id] == before[id];
    assert forall k :: k in b ==> a[id := ScheduledPublish(a[id], now)][k] == b[k];
  }

  /** Publishing the due blogs whose update does not fail leaves due only those that fail. */
  lemma {:induction false} PublishDueExceptFailing(before: map<BlogId, Blog>, failing: set<BlogId>, now: Time)
    ensures var due := DueIds(before, now);
            var after := PublishedAll(before, due - due * failing, now);
            && DueIds(after, now) == due * failing
            && |ScheduledIds(after)| == |ScheduledIds(before)| - |due - due * failing|
  {
    var due := DueIds(before, now);
    assert due - due * failing == due - failing;
    NothingDueAfterScan(before, failing, now);
    ScheduledCountAfterScan(before, due - due * failing, now);
  }

  /** A scan with a working store leaves no due blog behind except those whose update failed. */
  lemma {:induction false} ScanLeavesOnlyFailuresDue(
    before: map<BlogId, Blog>, total0: nat, error0: Option<SchedulerError>, faults: StoreFaults, now: Time,
    after: map<BlogId, Blog>, total1: nat, error1: Option<SchedulerError>)
    requires faults.query.None?
    requires ScanEffect(before, total0, error0, faults, now, after, total1, error1)
    ensures DueIds(after, now) == DueIds(before, now) * faults.updates.Keys
    ensures total1 - total0 == |ScheduledIds(before)| - |ScheduledIds(after)|
  {
    PublishDueExceptFailing(before, faults.updates.Keys, now);
  }

  /**
   * A scan publishes a blog exactly when it was due and its update did not
   * fail; every other blog is left as it was.
   */
  lemma {:induction false} ScanPublishesExactlyDue(
    before: map<BlogId, Blog>, total0: nat, error0: Option<SchedulerError>, faults: StoreFaults, now: Time,
    after: map<BlogId, Blog>, total1: nat, error1: Option<SchedulerError>, id: BlogId)
    requires faults.query.None? && id in before
    requires ScanEffect(before, total0, error0, faults, now, after, total1, error1)
    ensures id in after
    ensures IsDue(before[id], now) && id !in faults.updates ==> after[id] == ScheduledPublish(before[id], now)
    ensures !IsDue(before[id], now) || id in faults.updates ==> after[id] == before[id]
  {
  }

  /** With a working store and no failing update, a scan publishes every due blog and keeps the last error. */
  lemma {:induction false} CleanScan(
    before: map<BlogId, Blog>, total0: nat, error0: Option<SchedulerError>, now: Time,
    after: map<BlogId, Blog>, total1: nat, error1: Option<SchedulerError>)
    requires ScanEffect(before, total0, error0, StoreFaults(None, map[]), now, after, total1, error1)
    ensures after == PublishedAll(before, DueIds(before, now), now)
    ensures total1 == total0 + |DueIds(before, now)| && error1 == error0
  {
    var due := DueIds(before, now);
    var faults := StoreFaults(None, map[]);
    assert due * faults.updates.Keys == {};
    assert due - {} == due;
  }
}
