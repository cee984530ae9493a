/** How long an idle worker sleeps: the timeout it computes from the scheduled retries, and the
    wait in slices of a second. */
module Polling {
  import opened Tables
  import opened Lifecycle
  import opened Queue
  import Database

  const POLL_FALLBACK: Time := 30 * SECOND
  const WAIT_SLICE: Time := SECOND
  const MARGIN: Time := 50_000

  /** status = 'queued' AND next_attempt_at > now(). */
  predicate IsScheduled(row: Job, now: Time) {
    row.status == Queued && row.nextAttemptAt.Some? && row.nextAttemptAt.value > now
  }

  /** The retries the scheduler is waiting for. */
  function ScheduledTimes(jobs: map<JobId, Job>, now: Time): set<Time> {
    set j | j in jobs && IsScheduled(jobs[j], now) :: jobs[j].nextAttemptAt.value
  }

  predicate IsEarliest(times: set<Time>, t: Time) {
    t in times && forall u | u in times :: t <= u
  }

  lemma SomeMember(times: set<Time>)
    ensures times == {} || exists t :: t in times
  {
    if forall t :: t !in times {
      assert times == {};
    }
  }

  lemma EarliestExists(times: set<Time>)
    requires times != {}
    ensures exists t :: IsEarliest(times, t)
  {
    SomeMember(times);
    var t :| t in times;
    if times - {t} == {} {
      assert forall u | u in times :: u == t || u in times - {t};
      assert IsEarliest(times, t);
    } else {
      EarliestExists(times - {t});
      var m :| IsEarliest(times - {t}, m);
      assert forall u | u in times :: u == t || u in times - {t};
      assert IsEarliest(times, if t < m then t else m);
    }
  }

  /** seconds_until_next_attempt: min(next_attempt_at) - now() over the jobs not yet due. */
  method UntilNextAttempt(db: Database.Relay, now: Time) returns (pending: Option<Time>)
    ensures pending.None? <==> forall j | j in db.jobs :: !IsScheduled(db.jobs[j], now)
    ensures pending.Some? ==>
              && pending.value > 0
              && (exists j :: j in db.jobs && IsScheduled(db.jobs[j], now) && db.jobs[j].nextAttemptAt.value == now + pending.value)
              && forall j | j in db.jobs && IsScheduled(db.jobs[j], now) :: now + pending.value <= db.jobs[j].nextAttemptAt.value
  {
    var times := ScheduledTimes(db.jobs, now);
    assert forall j | j in db.jobs && IsScheduled(db.jobs[j], now) :: db.jobs[j].nextAttemptAt.value in times;
    if times == {} {
      return None;
    }
    EarliestExists(times);
    var earliest :| earliest in times && forall u | u in times :: earliest <= u;
    return Some(earliest - now);
  }

  /** The earliest retry and the margin, or the fallback if that is sooner. */
  method NextPollTimeout(db: Database.Relay, now: Time) returns (timeout: Time)
    ensures 0 < timeout <= POLL_FALLBACK
    ensures forall j | j in db.jobs && IsScheduled(db.jobs[j], now) :: now + timeout <= db.jobs[j].nextAttemptAt.value + MARGIN
    ensures || timeout == POLL_FALLBACK
            || exists j :: j in db.jobs && IsScheduled(db.jobs[j], now) && now + timeout == db.jobs[j].nextAttemptAt.value + MARGIN
  {
    var pending := UntilNextAttempt(db, now);
    if pending.None? {
      return POLL_FALLBACK;
    }
    timeout := if POLL_FALLBACK < pending.value + MARGIN then POLL_FALLBACK else pending.value + MARGIN;
  }

  function Later(a: Time, b: Time): Time {
    if a < b then b else a
  }

  /** A wait on the listener: it ends with a notification, or after exactly the time asked for
      without one. */
  method WaitForWakeup(clock: Time, remaining: Time, notification: Option<Time>) returns (woken: bool, later: Time)
    requires remaining > 0
    ensures woken <==> notification.Some? && notification.value <= clock + remaining
    ensures later == if woken then Later(clock, notification.value) else clock + remaining
  {
    woken := notification.Some? && notification.value <= clock + remaining;
    later := if woken then Later(clock, notification.value) else clock + remaining;
  }

  /** _wait_for_work, when the next notification and the order to shut down come at these times: it
      ends with the notification, at the deadline, or within a slice after the order. */
  method WaitForWork(start: Time, timeout: Time, notification: Option<Time>, shutdown: Option<Time>)
    returns (woken: bool, stopped: bool, end: Time)
    requires timeout > 0
    ensures start <= end <= start + timeout && !(woken && stopped)
    ensures woken ==> notification.Some? && notification.value <= end && (end == start || end == notification.value)
    ensures stopped ==> shutdown.Some? && shutdown.value <= end
    ensures !woken && !stopped ==> end == start + timeout
    ensures !woken && notification.Some? && (end > start || !stopped) ==> notification.value > end
    ensures shutdown.Some? && shutdown.value <= start ==> stopped && end == start
    ensures shutdown.Some? && shutdown.value > start ==> end <= shutdown.value + 1_000_000
  {
    var deadline := start + timeout;
    end := start;
    woken, stopped := false, false;
    while true
      invariant start <= end <= deadline
      invariant end > start && notification.Some? ==> notification.value > end
      invariant end > start && shutdown.Some? ==> start < shutdown.value && end <= shutdown.value + WAIT_SLICE
      decreases deadline - end
    {
      if shutdown.Some? && shutdown.value <= end {
        return false, true, end;
      }
      var remaining := if WAIT_SLICE < deadline - end then WAIT_SLICE else deadline - end;
      if remaining <= 0 {
        return false, false, end;
      }
      woken, end := WaitForWakeup(end, remaining, notification);
      if woken {
        return true, false, end;
      }
    }
  }

  /** One idle wait between two drains: it is over within 30 s and no later than 0.05 s after the
      earliest scheduled retry, and if nothing else ends it, a next retry scheduled at most 29.95 s
      ahead is due when the worker looks again. With nothing scheduled it lasts the whole 30 s. */
  method IdleWait(db: Database.Relay, now: Time, notification: Option<Time>, shutdown: Option<Time>)
    returns (woken: bool, stopped: bool, end: Time)
    ensures now <= end <= now + 30_000_000
    ensures forall j | j in db.jobs && db.jobs[j].status == Queued && db.jobs[j].nextAttemptAt.Some? && db.jobs[j].nextAttemptAt.value > now ::
              end <= db.jobs[j].nextAttemptAt.value + 50_000
    ensures !woken && !stopped ==>
              forall j | IsNextRetry(db.jobs, now, j) && db.jobs[j].nextAttemptAt.value <= now + 29_950_000 :: IsEligible(db.jobs[j], end)
    ensures !woken && !stopped && (forall j | j in db.jobs && db.jobs[j].status == Queued :: db.jobs[j].nextAttemptAt == None) ==>
              end == now + 30_000_000
    ensures woken ==> notification.Some? && notification.value <= end
    ensures stopped ==> shutdown.Some? && shutdown.value <= end
  {
    var timeout := NextPollTimeout(db, now);
    woken, stopped, end := WaitForWork(now, timeout, notification, shutdown);
  }

  /** j is the retry that comes due next. */
  predicate IsNextRetry(jobs: map<JobId, Job>, now: Time, j: JobId) {
    && j in jobs && jobs[j].status == Queued && jobs[j].attempts < 3
    && jobs[j].nextAttemptAt.Some? && jobs[j].nextAttemptAt.value > now
    && forall i | i in jobs && jobs[i].status == Queued && jobs[i].nextAttemptAt.Some? && jobs[i].nextAttemptAt.value > now ::
         jobs[j].nextAttemptAt.value <= jobs[i].nextAttemptAt.value
  }
}
