/** What a tenant reads about its jobs after the worker and the API have written them: the result,
    the failure, the cancellation and the history. */
module Reports {
  import opened Tables
  import opened Lifecycle
  import opened Queue
  import opened Safety
  import opened Tenancy

  // --------------------------------------------------------------- the history

  predicate TimesAscend(events: seq<Event>) {
    forall i, k | 0 <= i < k < |events| :: events[i].at <= events[k].at
  }

  lemma {:induction false} InsertKeepsEvents(events: seq<Event>, e: Event)
    ensures multiset(InsertByTime(events, e)) == multiset(events) + multiset{e}
    ensures forall x | x in InsertByTime(events, e) :: x in events || x == e
  {
    if events != [] && Last(events).at > e.at {
      InsertKeepsEvents(events[..|events| - 1], e);
      assert events == events[..|events| - 1] + [Last(events)];
    }
  }

  lemma AppendLatest(events: seq<Event>, e: Event)
    requires TimesAscend(events) && forall x | x in events :: x.at <= e.at
    ensures TimesAscend(events + [e])
  {
  }

  lemma {:induction false} InsertKeepsOrder(events: seq<Event>, e: Event)
    requires TimesAscend(events)
    ensures TimesAscend(InsertByTime(events, e))
  {
    if events != [] && Last(events).at > e.at {
      var init := events[..|events| - 1];
      InsertKeepsOrder(init, e);
      InsertKeepsEvents(init, e);
      AppendLatest(InsertByTime(init, e), Last(events));
    }
  }

  lemma {:induction false} AscendingIsKept(log: seq<Event>)
    requires TimesAscend(log)
    ensures ByTime(log) == log
    decreases |log|
  {
    if log != [] {
      var init := log[..|log| - 1];
      AscendingIsKept(init);
      assert init != [] ==> Last(init) == log[|log| - 2] && log[|log| - 2].at <= log[|log| - 1].at;
      assert ByTime(log) == InsertByTime(init, Last(log)) == init + [Last(log)];
    }
  }

  lemma {:induction false} SortingKeepsEvents(log: seq<Event>)
    ensures TimesAscend(ByTime(log)) && multiset(ByTime(log)) == multiset(log)
    decreases |log|
  {
    if log != [] {
      SortingKeepsEvents(log[..|log| - 1]);
      InsertKeepsOrder(ByTime(log[..|log| - 1]), Last(log));
      InsertKeepsEvents(ByTime(log[..|log| - 1]), Last(log));
      assert log == log[..|log| - 1] + [Last(log)];
    }
  }

  /** Sorting the history by time keeps every event, as often as it occurs, and reads like the
      order of insertion whenever that order is one of time. */
  lemma HistoryIsSorted(log: seq<Event>)
    ensures TimesAscend(ByTime(log)) && multiset(ByTime(log)) == multiset(log)
    ensures TimesAscend(log) <==> ByTime(log) == log
  {
    SortingKeepsEvents(log);
    if TimesAscend(log) {
      AscendingIsKept(log);
    }
  }

  lemma {:induction false} OwnEventsOnly(log: seq<Event>, c: CompanyId)
    requires forall e | e in log :: e.company == c
    ensures OfCompany(log, c) == log
    decreases |log|
  {
    if log != [] {
      OwnEventsOnly(log[..|log| - 1], c);
      assert log == log[..|log| - 1] + [Last(log)];
    }
  }

  lemma {:induction false} FirstIsFound(events: seq<Event>)
    ensures FirstCancellation(events).None? <==> forall e | e in events :: e.kind != EvCancelled
    ensures FirstCancellation(events).Some? ==> FirstCancellation(events).value in events && FirstCancellation(events).value.kind == EvCancelled
  {
    if events != [] && events[0].kind != EvCancelled {
      FirstIsFound(events[1..]);
    }
  }

  /** A cancellation is the last event of its job, and the only one of its kind. */
  lemma CancelledLast(log: seq<Event>)
    requires Fold(log).At?
    ensures Fold(log).phase == Stopped ==> Last(log).kind == EvCancelled && forall e | e in log && e.kind == EvCancelled :: e == Last(log)
    ensures Fold(log).phase != Stopped ==> forall e | e in log :: e.kind != EvCancelled
  {
    if Fold(log).phase == Stopped {
      NoClosingEvent(log[..|log| - 1]);
      assert log == log[..|log| - 1] + [Last(log)];
    } else {
      NoClosingEvent(log);
    }
  }

  /** A detail shows only the tenant's own events, and all of them. */
  lemma {:induction false} OwnEventsShown(log: seq<Event>, c: CompanyId, e: Event)
    ensures e in OfCompany(log, c) <==> e in log && e.company == c
    decreases |log|
  {
    if log != [] {
      OwnEventsShown(log[..|log| - 1], c, e);
      assert log == log[..|log| - 1] + [Last(log)];
    }
  }

  /** Whatever the tables hold: a detail exists for exactly the company's own jobs, repeats the row,
      and shows exactly the events of that job and company, in the order of their times. */
  lemma DetailRepeatsRow(s: State, c: CompanyId, j: JobId)
    ensures GetJob(s, c, j).Some? <==> j in s.recs && s.recs[j].row.company == c
    ensures GetJob(s, c, j).Some? ==>
              var detail, row := GetJob(s, c, j).value, s.recs[j].row;
              && detail.id == j && detail.kind == row.kind && detail.status == row.status
              && detail.attempts == row.attempts && detail.lastError == row.lastError
              && TimesAscend(detail.events)
              && (forall e :: e in detail.events <==> e in s.recs[j].log && e.company == c)
  {
    if GetJob(s, c, j).Some? {
      var own := OfCompany(s.recs[j].log, c);
      HistoryIsSorted(own);
      assert forall e :: e in ByTime(own) <==> e in multiset(ByTime(own));
      forall e ensures e in ByTime(own) <==> e in s.recs[j].log && e.company == c {
        OwnEventsShown(s.recs[j].log, c, e);
        assert e in own <==> e in multiset(own);
      }
    }
  }

  /** GET /jobs/{id} shows the whole history of the job; it names a canceller iff the job is
      cancelled, and then the one of the cancellation that took effect. */
  lemma DetailIsTrue(s: State, c: CompanyId, j: JobId)
    requires j in s.recs && s.recs[j].row.company == c && Consistent(s.recs[j])
    ensures var detail := GetJob(s, c, j);
            && detail.Some? && multiset(detail.value.events) == multiset(s.recs[j].log)
            && detail.value.cancellation == if s.recs[j].row.status == Cancelled then Some(Last(s.recs[j].log)) else None
  {
    var log := s.recs[j].log;
    OwnEventsOnly(log, c);
    HistoryIsSorted(log);
    CancelledLast(log);
    FirstIsFound(ByTime(log));
    assert forall e :: e in ByTime(log) <==> e in multiset(ByTime(log));
    assert forall e :: e in log <==> e in multiset(log);
  }

  // ----------------------------------------------------- after a write, and ever after

  /** Whoever cancels a job is shown as its canceller, with the time of the cancellation, for as
      long as the queue runs. */
  lemma CancellationIsAttributed(s0: State, steps: seq<Step>, s: State, c: CompanyId, j: JobId, actor: string, now: Time, later: seq<Step>)
    requires EmptyStart(s0) && s == Run(s0, steps) && CanCancel(s, c, j)
    ensures var detail := GetJob(Run(DoCancelJob(s, c, j, actor, now), later), c, j);
            && detail.Some? && detail.value.status == Cancelled
            && detail.value.cancellation == Some(Event(EvCancelled, c, actor, now))
  {
    RunsAreHealthy(s0, steps);
    var t := DoCancelJob(s, c, j, actor, now);
    assert t == Transact(s, CancelJob(c, j, actor, now));
    StepKeepsHealthy(s, CancelJob(c, j, actor, now));
    TerminalJobsAreFrozen(t, later, j);
    NoClosingEvent(s.recs[j].log);
    assert Last(t.recs[j].log) == Event(EvCancelled, c, actor, now);
    DetailIsTrue(Run(t, later), c, j);
  }

  /** The result of a finalize that matches can be read by its tenant, and by no other, for as
      long as the queue runs. */
  lemma ResultIsDelivered(s0: State, steps: seq<Step>, s: State, w: WorkerId, now: Time, raised: bool, later: seq<Step>, d: CompanyId)
    requires EmptyStart(s0) && s == Run(s0, steps) && IsHolding(s, w) && Owns(s, w, s.workers[w].claim.job)
    ensures var claim := s.workers[w].claim;
            var t := Run(DoFinalize(s, w, now, raised), later);
            && GetJob(t, claim.company, claim.job).Some? && GetJob(t, claim.company, claim.job).value.status == Done
            && GetResult(t, d, claim.job) == if d == claim.company then Some(Payload(d)) else None
  {
    var j := s.workers[w].claim.job;
    var step := Work(w, Finalize(now, raised));
    RunsAreHealthy(s0, steps);
    assert FencedRow(s, j, s.recs[j].row) && Consistent(s.recs[j]);
    StepKeepsHealthy(s, step);
    TerminalJobsAreFrozen(Transact(s, step), later, j);
  }

  /** A failure that matches shows its error to the tenant, the third one for good; a retry takes
      the error away. */
  lemma FailureIsReported(s0: State, steps: seq<Step>, s: State, w: WorkerId, now: Time, error: string, later: seq<Step>, actor: string, retryAt: Time)
    requires EmptyStart(s0) && s == Run(s0, steps) && IsHolding(s, w) && Owns(s, w, s.workers[w].claim.job)
    ensures var claim := s.workers[w].claim;
            var t := DoRecordFailure(s, w, now, error);
            && ShowsFailure(t, claim, error)
            && (claim.attempts >= MAX_ATTEMPTS ==> ShowsFailure(Run(t, later), claim, error))
            && (claim.attempts < MAX_ATTEMPTS ==>
                  RetryOutcome(t, claim.company, claim.job) == Accepted(Queued, claim.attempts)
                  && GetJob(DoRetryJob(t, claim.company, claim.job, actor, retryAt), claim.company, claim.job).value.lastError == None)
  {
    var claim := s.workers[w].claim;
    var t := DoRecordFailure(s, w, now, error);
    RunsAreHealthy(s0, steps);
    FailureKeepsHealthy(s, w, now, error);
    FailedRowShown(s, w, now, error);
    if claim.attempts >= MAX_ATTEMPTS {
      ShownForGood(t, claim, error, later);
    } else {
      RetryClearsError(t, claim, actor, retryAt);
    }
  }

  lemma ShownForGood(s: State, claim: Claim, error: string, later: seq<Step>)
    requires Healthy(s) && ShowsFailure(s, claim, error) && claim.attempts >= MAX_ATTEMPTS
    ensures ShowsFailure(Run(s, later), claim, error)
  {
    assert Consistent(s.recs[claim.job]);
    TerminalJobsAreFrozen(s, later, claim.job);
  }

  lemma FailureKeepsHealthy(s: State, w: WorkerId, now: Time, error: string)
    requires Healthy(s)
    ensures Healthy(DoRecordFailure(s, w, now, error))
  {
    assert DoRecordFailure(s, w, now, error) == Transact(s, Work(w, RecordFailure(now, error)));
    StepKeepsHealthy(s, Work(w, RecordFailure(now, error)));
  }

  lemma FailedRowShown(s: State, w: WorkerId, now: Time, error: string)
    requires IsHolding(s, w) && Owns(s, w, s.workers[w].claim.job) && Fenced(s)
    ensures ShowsFailure(DoRecordFailure(s, w, now, error), s.workers[w].claim, error)
  {
    assert FencedRow(s, s.workers[w].claim.job, s.recs[s.workers[w].claim.job].row);
  }

  lemma RetryClearsError(s: State, claim: Claim, actor: string, now: Time)
    requires claim.job in s.recs && s.recs[claim.job].row.company == claim.company
    requires s.recs[claim.job].row.status == Failed && s.recs[claim.job].row.attempts == claim.attempts < MAX_ATTEMPTS
    ensures RetryOutcome(s, claim.company, claim.job) == Accepted(Queued, claim.attempts)
    ensures GetJob(DoRetryJob(s, claim.company, claim.job, actor, now), claim.company, claim.job).Some?
    ensures GetJob(DoRetryJob(s, claim.company, claim.job, actor, now), claim.company, claim.job).value.lastError == None
  {
  }

  predicate ShowsFailure(s: State, claim: Claim, error: string) {
    var detail := GetJob(s, claim.company, claim.job);
    detail.Some? && detail.value.status == Failed && detail.value.attempts == claim.attempts && detail.value.lastError == Some(error)
  }

  // ------------------------------------------------------------- refusals, ever after

  /** A job that is done, cancelled or exhausted refuses every later cancel and retry, with the same
      answer for as long as the queue runs. */
  lemma RefusalIsFinal(s0: State, steps: seq<Step>, s: State, c: CompanyId, j: JobId, later: seq<Step>)
    requires EmptyStart(s0) && s == Run(s0, steps) && j in s.recs && s.recs[j].row.company == c && IsTerminal(s.recs[j].row)
    ensures var u, row := Run(s, later), s.recs[j].row;
            && CancelOutcome(u, c, j) == InvalidState(row.status)
            && RetryOutcome(u, c, j) == if row.status == Failed then RetryLimit(MAX_ATTEMPTS) else InvalidState(row.status)
  {
    RunsAreHealthy(s0, steps);
    assert Consistent(s.recs[j]);
    TerminalJobsAreFrozen(s, later, j);
  }

  /** One failure, one retry: after a retry, and whatever happens then, the next one is accepted only
      when the job has been tried and has failed again. */
  lemma RetryNeedsANewFailure(s0: State, steps: seq<Step>, s: State, c: CompanyId, j: JobId, actor: string, now: Time,
                              later: seq<Step>, u: State)
    requires EmptyStart(s0) && s == Run(s0, steps) && CanRetry(s, c, j)
    requires u == Run(DoRetryJob(s, c, j, actor, now), later) && CanRetry(u, c, j)
    ensures u.recs[j].row.attempts > s.recs[j].row.attempts
    ensures Fold(s.recs[j].log).At? && Fold(u.recs[j].log).At? && Fold(u.recs[j].log).failures > Fold(s.recs[j].log).failures
  {
    RunsAreHealthy(s0, steps);
    var t := DoRetryJob(s, c, j, actor, now);
    assert t == Transact(s, RetryJob(c, j, actor, now));
    StepKeepsHealthy(s, RetryJob(c, j, actor, now));
    HealthStays(t, later);
    LogsOnlyGrow(t, later, j);
    assert Consistent(s.recs[j]) && Consistent(t.recs[j]) && Consistent(u.recs[j]);
    FoldGrows(t.recs[j].log, u.recs[j].log);
  }
}
