/** What became of a claim whose row its worker no longer owns. */
module Claims {
  import opened Tables
  import opened Lifecycle
  import opened Queue
  import opened Safety
  import opened Worker
  import opened Leases
  import opened Sequential

  /** A worker's claim is never ahead of the row, and at the row's own attempt it is the claim the
      row names. */
  predicate Tracked(s: State) {
    forall w | w in s.workers && s.workers[w].Holding? :: TrackedClaim(s.recs, w, s.workers[w].claim)
  }

  predicate TrackedClaim(recs: map<JobId, Record>, w: WorkerId, claim: Claim) {
    && claim.job in recs
    && 1 <= claim.attempts <= recs[claim.job].row.attempts
    && (recs[claim.job].row.status == Running && recs[claim.job].row.attempts == claim.attempts ==> recs[claim.job].row.worker == Some(w))
  }

  /** A step that keeps rows or moves them along the lifecycle without claiming any. */
  predicate ClaimsNothing(a: map<JobId, Record>, b: map<JobId, Record>) {
    forall j | j in a :: j in b && NotClaimed(a[j].row, b[j].row)
  }

  predicate NotClaimed(a: Job, b: Job) {
    && a.attempts <= b.attempts
    && (b.status == Running ==> a.status == Running && b.worker == a.worker && b.attempts == a.attempts)
  }

  lemma NothingClaimedKeepsTracked(s: State, s': State)
    requires Tracked(s) && ClaimsNothing(s.recs, s'.recs)
    requires forall w | w in s'.workers && s'.workers[w].Holding? :: w in s.workers && s.workers[w] == s'.workers[w]
    ensures Tracked(s')
  {
    forall w | w in s'.workers && s'.workers[w].Holding? ensures TrackedClaim(s'.recs, w, s'.workers[w].claim) {
      assert TrackedClaim(s.recs, w, s.workers[w].claim);
    }
  }

  lemma ClaimKeepsTracked(s: State, w: WorkerId, now: Time, skip: set<JobId>)
    requires Tracked(s) && AllConsistent(s)
    ensures Tracked(DoClaimNext(s, w, now, skip))
  {
    var s' := DoClaimNext(s, w, now, skip);
    if s' != s {
      var j := Least(EligibleIds(s.recs, now, skip));
      assert Consistent(s.recs[j]);
      forall v | v in s'.workers && s'.workers[v].Holding? ensures TrackedClaim(s'.recs, v, s'.workers[v].claim) {
        if v != w { assert TrackedClaim(s.recs, v, s.workers[v].claim); }
      }
    }
  }

  lemma WorkClaimsNothing(s: State, w: WorkerId, step: WorkerStep)
    requires !step.ClaimNext?
    ensures ClaimsNothing(s.recs, DoWork(s, w, step).recs)
  {
  }

  lemma WorkHoldsNothingNew(s: State, w: WorkerId, step: WorkerStep)
    requires !step.ClaimNext?
    ensures forall v | v in DoWork(s, w, step).workers && DoWork(s, w, step).workers[v].Holding? ::
              v in s.workers && s.workers[v] == DoWork(s, w, step).workers[v]
  {
  }

  lemma RecoverClaimsNothing(s: State, now: Time, lease: Time)
    ensures ClaimsNothing(s.recs, DoRecoverStale(s, now, lease).recs)
  {
    forall j | j in s.recs ensures NotClaimed(s.recs[j].row, Recovered(s.recs[j], now, lease).row) {
    }
  }

  lemma ApiClaimsNothing(s: State, step: Step)
    requires step.CancelJob? || step.RetryJob?
    ensures ClaimsNothing(s.recs, Do(s, step).recs)
  {
  }

  lemma StepKeepsTracked(s: State, step: Step)
    requires Tracked(s) && AllConsistent(s)
    ensures Tracked(Do(s, step))
  {
    match step
    case Work(w, work) =>
      if work.ClaimNext? {
        ClaimKeepsTracked(s, w, work.now, work.skip);
      } else {
        WorkClaimsNothing(s, w, work);
        WorkHoldsNothingNew(s, w, work);
        NothingClaimedKeepsTracked(s, DoWork(s, w, work));
      }
    case RecoverStale(now, lease) => RecoverClaimsNothing(s, now, lease); NothingClaimedKeepsTracked(s, Do(s, step));
    case Create(r, create) => CreateFollows(s, r, create); NothingClaimedKeepsTracked(s, DoCreate(s, r, create));
    case _ => ApiClaimsNothing(s, step); NothingClaimedKeepsTracked(s, Do(s, step));
  }

  lemma {:induction false} RunsAreTracked(s0: State, steps: seq<Step>)
    requires EmptyStart(s0)
    ensures Tracked(Run(s0, steps))
    decreases |steps|
  {
    if steps != [] {
      RunsAreTracked(s0, steps[..|steps| - 1]);
      RunsAreHealthy(s0, steps[..|steps| - 1]);
      StepKeepsTracked(Run(s0, steps[..|steps| - 1]), Last(steps));
    }
  }

  // ------------------------------------------------ what a finalize that misses means

  /** The attempt of this claim was the job's last, and it was cancelled before it could fail. */
  predicate EndedByCancel(rec: Record, claim: Claim) {
    && rec.row.status == Cancelled && rec.row.attempts == claim.attempts
    && Fold(rec.log).At? && Fold(rec.log).failures == claim.attempts - 1
  }

  /** The failure of this claim's attempt is on record, whatever became of the job since. */
  predicate EndedByFailure(rec: Record, claim: Claim) {
    Fold(rec.log).At? && Fold(rec.log).failures >= claim.attempts
  }

  predicate IsFirstTaker(s: State, steps: seq<Step>, k: nat, w: WorkerId, claim: Claim, start: Time) {
    k < |steps| && Takes(s, steps, k, w, claim, start) && forall i | 0 <= i < k :: !Takes(s, steps, i, w, claim, start)
  }

  lemma {:induction false} SomeTakerIsFirst(s: State, steps: seq<Step>, n: nat, w: WorkerId, claim: Claim, start: Time) returns (k: nat)
    requires n <= |steps| && exists i :: 0 <= i < n && Takes(s, steps, i, w, claim, start)
    ensures IsFirstTaker(s, steps, k, w, claim, start)
  {
    if exists i :: 0 <= i < n - 1 && Takes(s, steps, i, w, claim, start) {
      k := SomeTakerIsFirst(s, steps, n - 1, w, claim, start);
    } else {
      k := n - 1;
    }
  }

  lemma CancelMarks(rec: Record, claim: Claim, actor: string, now: Time)
    requires Consistent(rec) && rec.row.status == Running && rec.row.attempts == claim.attempts
    ensures EndedByCancel(Cancel(rec, actor, now), claim)
  {
    var event := Event(EvCancelled, rec.row.company, actor, now);
    NoClosingEvent(rec.log);
    assert Cancel(rec, actor, now).log == rec.log + [event];
    FoldAppend(rec.log, event);
  }

  lemma FailureMarks(rec: Record, claim: Claim, exhausted: bool, error: string, now: Time)
    requires Consistent(rec) && rec.row.status == Running && rec.row.attempts == claim.attempts
    ensures EndedByFailure(Fail(rec, rec.row.company, exhausted, error, now), claim)
  {
    FoldAppend(rec.log, Event(EvFailed, rec.row.company, SYSTEM_ACTOR, now));
  }

  lemma TakingMoves(s: State, step: Step, w: WorkerId, claim: Claim, beat: Time)
    requires Held(s, w, claim, beat) && s.recs[claim.job].row.company == claim.company && Takes(s, [step], 0, w, claim, beat)
    ensures claim.job in Do(s, step).recs
    ensures var rec, rec' := s.recs[claim.job], Do(s, step).recs[claim.job];
            if step.CancelJob? then rec' == Cancel(rec, step.actor, step.now)
            else step.RecoverStale? && rec' == Fail(rec, rec.row.company, rec.row.attempts >= MAX_ATTEMPTS, LEASE_ERROR, step.now)
  {
    assert [step][..0] == [];
  }

  /** The step that takes a row leaves its mark on it. */
  lemma TakingLeavesMark(s: State, step: Step, w: WorkerId, claim: Claim, beat: Time)
    requires Healthy(s) && Held(s, w, claim, beat) && Takes(s, [step], 0, w, claim, beat)
    ensures claim.job in Do(s, step).recs
    ensures if step.CancelJob? then EndedByCancel(Do(s, step).recs[claim.job], claim)
            else EndedByFailure(Do(s, step).recs[claim.job], claim)
  {
    var rec := s.recs[claim.job];
    assert FencedRow(s, claim.job, rec.row) && Consistent(rec);
    TakingMoves(s, step, w, claim, beat);
    if step.CancelJob? {
      CancelMarks(rec, claim, step.actor, step.now);
    } else {
      FailureMarks(rec, claim, rec.row.attempts >= MAX_ATTEMPTS, LEASE_ERROR, step.now);
    }
  }

  /** A mark stays. */
  lemma MarksStay(s: State, steps: seq<Step>, claim: Claim)
    requires Healthy(s) && claim.job in s.recs
    ensures claim.job in Run(s, steps).recs
    ensures EndedByCancel(s.recs[claim.job], claim) ==> EndedByCancel(Run(s, steps).recs[claim.job], claim)
    ensures EndedByFailure(s.recs[claim.job], claim) ==> EndedByFailure(Run(s, steps).recs[claim.job], claim)
  {
    if IsTerminal(s.recs[claim.job].row) {
      TerminalJobsAreFrozen(s, steps, claim.job);
    } else {
      HealthStays(s, steps);
      LogsOnlyGrow(s, steps, claim.job);
      assert Consistent(Run(s, steps).recs[claim.job]);
      FoldGrows(s.recs[claim.job].log, Run(s, steps).recs[claim.job].log);
    }
  }

  /** The run up to step k, step k, and the rest. */
  lemma RunInThree(s: State, steps: seq<Step>, k: nat)
    requires k < |steps|
    ensures Run(s, steps) == Run(Do(Run(s, steps[..k]), steps[k]), steps[k + 1..])
  {
    Sequential.RunSnoc(s, steps[..k], steps[k]);
    assert steps == (steps[..k] + [steps[k]]) + steps[k + 1..];
    Sequential.RunAppends(s, steps[..k] + [steps[k]], steps[k + 1..]);
  }

  lemma TakersSoFar(s: State, steps: seq<Step>, k: nat, w: WorkerId, claim: Claim, start: Time)
    requires k < |steps|
    ensures forall i | 0 <= i < k :: Takes(s, steps[..k], i, w, claim, start) <==> Takes(s, steps, i, w, claim, start)
    ensures Takes(s, steps, k, w, claim, start) <==> Takes(Run(s, steps[..k]), [steps[k]], 0, w, claim, LastBeat(start, steps[..k], w))
  {
    assert [steps[k]][..0] == [];
    forall i | 0 <= i < k ensures steps[..k][..i] == steps[..i] && steps[..k][i] == steps[i] {
    }
  }

  /** A row its worker has lost still tells what took it: a cancellation in this very attempt, or
      a recovery of the lease. */
  lemma LostRowsTell(s: State, steps: seq<Step>, w: WorkerId, claim: Claim, start: Time, k: nat)
    requires Healthy(s) && Held(s, w, claim, start) && AllForeign(steps, w, Anyone)
    requires IsFirstTaker(s, steps, k, w, claim, start)
    ensures claim.job in Run(s, steps).recs
    ensures if Cancels(s, steps, k, claim) then EndedByCancel(Run(s, steps).recs[claim.job], claim)
            else EndedByFailure(Run(s, steps).recs[claim.job], claim)
  {
    var init, t := steps[..k], Run(s, steps[..k]);
    assert AllForeign(init, w, Anyone);
    TakersSoFar(s, steps, k, w, claim, start);
    LeaseIsHonoured(s, init, w, claim, start);
    HealthStays(s, init);
    TakingLeavesMark(t, steps[k], w, claim, LastBeat(start, init, w));
    StepKeepsHealthy(t, steps[k]);
    MarksStay(Do(t, steps[k]), steps[k + 1..], claim);
    RunInThree(s, steps, k);
  }

  /** A finalize whose guard matches no row changes nothing but the worker's memory and reports the
      job as cancelled. Exactly one of two things has happened since the claim: the first step that
      took the row cancelled the job, and then the report is true for ever and no failure of this
      attempt is on record; or it was a recovery later than the lease allows after the last
      renewal, and then the failure of this attempt is on record and the job may be anything. */
  lemma LostClaimsHaveACause(s0: State, before: seq<Step>, s: State, w: WorkerId, now: Time, skip: set<JobId>, claim: Claim,
                             t: State, steps: seq<Step>, u: State, end: Time) returns (k: nat)
    requires EmptyStart(s0) && s == Run(s0, before) && IsIdle(s, w)
    requires t == DoClaimNext(s, w, now, skip) && t.workers[w] == Holding(claim)
    requires AllForeign(steps, w, Anyone) && u == Run(t, steps) && !Owns(u, w, claim.job)
    ensures IsFirstTaker(t, steps, k, w, claim, now) && claim.job in u.recs && Fold(u.recs[claim.job].log).At?
    ensures !Cancels(t, steps, k, claim) ==> ComesLate(t, steps, k, w, now)
    ensures Cancels(t, steps, k, claim) <==> Fold(u.recs[claim.job].log).failures < claim.attempts
    ensures Cancels(t, steps, k, claim) ==> u.recs[claim.job].row.status == Cancelled && u.recs[claim.job].row.attempts == claim.attempts
    ensures w in u.workers && u.workers[w] == Holding(claim)
    ensures DoFinalize(u, w, end, false) == u.(workers := u.workers[w := Idle])
  {
    RunsAreHealthy(s0, before);
    RunsAreFit(s0, before);
    assert t == Transact(s, Work(w, ClaimNext(now, skip)));
    StepKeepsHealthy(s, Work(w, ClaimNext(now, skip)));
    ClaimStartsLease(s, w, now, skip, claim);
    LeaseIsHonoured(t, steps, w, claim, now);
    k := SomeTakerIsFirst(t, steps, |steps|, w, claim, now);
    LostRowsTell(t, steps, w, claim, now, k);
  }

  // ---------------------------------------------------- a finalize that misses, uncancelled

  /** The lease of the first claim was recovered 31 s later. */
  const RECOVER := RecoverStale(31 * SECOND, LEASE_TIMEOUT)
  const LOST: State := CLAIMED.(recs := map[0 := Fail(CLAIMED.recs[0], 0, false, LEASE_ERROR, 31 * SECOND)])

  lemma FirstLost()
    ensures Do(CLAIMED, RECOVER) == LOST
  {
    assert DoRecoverStale(CLAIMED, 31 * SECOND, LEASE_TIMEOUT).recs == LOST.recs;
  }

  /** A lease is 30 s long: to the microsecond, a recovery leaves the job until then and takes it after. */
  lemma LeaseIsThirtySeconds()
    ensures Do(CLAIMED, RecoverStale(30_000_000, LEASE_TIMEOUT)) == CLAIMED
    ensures 0 in Do(CLAIMED, RecoverStale(30_000_001, LEASE_TIMEOUT)).recs
    ensures Do(CLAIMED, RecoverStale(30_000_001, LEASE_TIMEOUT)).recs[0].row.status == Failed
  {
    assert DoRecoverStale(CLAIMED, 30_000_000, LEASE_TIMEOUT).recs == CLAIMED.recs;
  }

  /** Nobody ever cancels, and yet a finalize reports the job as cancelled: its lease was recovered,
      and it is waiting for its retry. */
  lemma FinalizeMissesUncancelled() returns (steps: seq<Step>)
    ensures EmptyStart(EMPTY) && LOST == Run(EMPTY, steps) && forall step | step in steps :: !step.CancelJob?
    ensures LOST.workers[7] == Holding(Claim(0, 0, 1)) && !Owns(LOST, 7, 0) && IsRetryable(LOST.recs[0].row)
    ensures DoFinalize(LOST, 7, 32 * SECOND, false) == LOST.(workers := map[7 := Idle])
  {
    var before := ClaimedFirst();
    FirstLost();
    RunSnoc(EMPTY, before, RECOVER);
    steps := before + [RECOVER];
  }

  const RETRY := RetryJob(0, 0, "0:user", 33 * SECOND)
  const CANCEL := CancelJob(0, 0, "0:user", 34 * SECOND)

  /** Retried and cancelled later, the row shows the attempt of the lost claim as cancelled, but it
      was not: its failure is on record. */
  lemma CancelledAfterTheLoss() returns (s: State)
    ensures s == Run(LOST, [RETRY, CANCEL]) && s.workers == LOST.workers && 0 in s.recs
    ensures s.recs[0].row.status == Cancelled && s.recs[0].row.attempts == 1
    ensures EndedByFailure(s.recs[0], Claim(0, 0, 1)) && !EndedByCancel(s.recs[0], Claim(0, 0, 1))
  {
    var claim := Claim(0, 0, 1);
    var steps := FinalizeMissesUncancelled();
    RunsAreHealthy(EMPTY, steps);
    FirstIsConsistent();
    FailureMarks(CLAIMED.recs[0], claim, false, LEASE_ERROR, 31 * SECOND);
    MarksStay(LOST, [RETRY, CANCEL], claim);
    s := RetriedAndCancelled();
  }

  lemma FirstIsConsistent()
    ensures Consistent(CLAIMED.recs[0])
  {
    NewIsConsistent(0, "report", "a", "0:user", 0);
    ClaimIsConsistent(NewRecord(FIRST_ROW, "0:user"), 7, 0);
  }

  lemma RetriedAndCancelled() returns (s: State)
    ensures s == Run(LOST, [RETRY, CANCEL]) && s.workers == LOST.workers && 0 in s.recs
    ensures s.recs[0].row.status == Cancelled && s.recs[0].row.attempts == 1
  {
    RunSnoc(LOST, [], RETRY);
    RunSnoc(LOST, [RETRY], CANCEL);
    assert [] + [RETRY] == [RETRY] && [RETRY] + [CANCEL] == [RETRY, CANCEL];
    var retried := Do(LOST, RETRY);
    assert retried.recs[0] == Retry(LOST.recs[0], "0:user", 33 * SECOND);
    s := Do(retried, CANCEL);
  }
}
