/** What a lease is worth: who can take a running job from its worker, and what becomes of a job
    whose worker is gone. */
module Leases {
  import opened Tables
  import opened Lifecycle
  import opened Queue
  import opened Safety
  import opened Worker
  import Database

  // ------------------------------------------------------------------- recovery

  /** A running job without a sign of life since. */
  predicate HasRunOut(row: Job, since: Time) {
    row.status == Running && !(row.lockedAt.Some? && row.lockedAt.value >= since)
  }

  /** A recovery fails the jobs whose lease has run out, no others, and nothing of theirs but what
      a failure changes; afterwards no lease that old is left, and doing it again does nothing. */
  lemma RecoveryIsExact(s: State, now: Time, lease: Time, j: JobId)
    requires j in s.recs
    ensures var s' := DoRecoverStale(s, now, lease);
            && j in s'.recs && !IsStale(s'.recs[j].row, now, lease)
            && (s'.recs[j] != s.recs[j] <==> HasRunOut(s.recs[j].row, now - lease))
            && (HasRunOut(s.recs[j].row, now - lease) ==>
                  s'.recs[j].row == s.recs[j].row.(status := Failed, worker := None, lockedAt := None, nextAttemptAt := None,
                                                   lastError := Some(LEASE_ERROR), updatedAt := now))
            && DoRecoverStale(s', now, lease) == s'
  {
    var s' := DoRecoverStale(s, now, lease);
    assert DoRecoverStale(s', now, lease).recs == s'.recs;
  }

  /** No job is stranded by a crash: once every lease has run out, a recovery leaves nothing
      running; each job it takes can be retried or has its dead letter. */
  lemma NoJobIsStranded(s0: State, steps: seq<Step>, s: State, now: Time, lease: Time, j: JobId)
    requires EmptyStart(s0) && s == Run(s0, steps) && j in s.recs && s.recs[j].row.status == Running
    requires s.recs[j].row.lockedAt.Some? ==> s.recs[j].row.lockedAt.value < now - lease
    ensures var rec := DoRecoverStale(s, now, lease).recs[j];
            IsRetryable(rec.row) != (rec.dead != []) && rec.row.status == Failed
  {
    RunsAreHealthy(s0, steps);
    StepKeepsHealthy(s, RecoverStale(now, lease));
    RecoveryIsExact(s, now, lease, j);
    DeadLetterRepeatsRow(DoRecoverStale(s, now, lease).recs[j]);
  }

  // ---------------------------------------------------------------------- crash

  lemma CrashedWorkDoesNothing(s: State, w: WorkerId, work: WorkerStep)
    requires w in s.workers && s.workers[w] == Crashed
    ensures DoWork(s, w, work) == s
  {
    assert s.workers[w := Crashed] == s.workers;
  }

  lemma CrashedRowStands(s: State, v: WorkerId, work: WorkerStep, w: WorkerId, j: JobId)
    requires v != w && Owns(DoWork(s, v, work), w, j)
    ensures Owns(s, w, j) && DoWork(s, v, work).recs[j] == s.recs[j]
  {
  }

  lemma CrashedStep(s: State, step: Step, w: WorkerId, j: JobId)
    requires Fit(s) && w in s.workers && s.workers[w] == Crashed
    ensures w in Do(s, step).workers && Do(s, step).workers[w] == Crashed
    ensures Owns(Do(s, step), w, j) ==> Owns(s, w, j) && Do(s, step).recs[j] == s.recs[j]
  {
    match step
    case Work(v, work) =>
      if v == w {
        CrashedWorkDoesNothing(s, w, work);
      } else {
        ForeignWorkKeepsMemory(s, v, work, w);
        if !Waits(s, step) && Owns(DoWork(s, v, work), w, j) { CrashedRowStands(s, v, work, w, j); }
      }
    case Create(r, create) =>
      CreateFollows(s, r, create);
      if Publishes(s, r, create) { assert PendingRowNew(s.requests[r]); }
    case _ =>
  }

  /** A crash changes no table: the row stays running under the worker's id. And it is for good: the
      worker renews nothing and takes nothing any more, so that the lease of the row it left runs
      out as it stands. */
  lemma {:induction false} CrashIsForGood(s: State, w: WorkerId, steps: seq<Step>, j: JobId)
    requires Fit(s) && w in s.workers
    ensures var t := DoCrash(s, w);
            && t == s.(workers := s.workers[w := Crashed])
            && Fit(Run(t, steps)) && w in Run(t, steps).workers && Run(t, steps).workers[w] == Crashed
            && (Owns(Run(t, steps), w, j) ==> Owns(s, w, j) && Run(t, steps).recs[j] == s.recs[j])
    decreases |steps|
  {
    var t := DoCrash(s, w);
    if steps == [] {
      assert t == Transact(s, Work(w, Crash));
      StepKeepsFit(s, Work(w, Crash));
    } else {
      var init := steps[..|steps| - 1];
      CrashIsForGood(s, w, init, j);
      StepKeepsFit(Run(t, init), Last(steps));
      CrashedStep(Run(t, init), Last(steps), w, j);
    }
  }

  // -------------------------------------------------------------------- renewal

  /** The lease after a run in which the worker renewed it now and then. */
  function LastBeat(start: Time, steps: seq<Step>, w: WorkerId): Time
    decreases |steps|
  {
    if steps == [] then start
    else if Last(steps).Work? && Last(steps).w == w && Last(steps).work.RenewLease? then Last(steps).work.now
    else LastBeat(start, steps[..|steps| - 1], w)
  }

  /** Step k of the run cancels the claimed job. */
  predicate Cancels(s: State, steps: seq<Step>, k: nat, claim: Claim)
    requires k < |steps|
  {
    && steps[k].CancelJob? && steps[k].job == claim.job && steps[k].company == claim.company
    && !Waits(Run(s, steps[..k]), steps[k])
  }

  /** Step k of the run is a recovery that comes when the lease has run out. */
  predicate ComesLate(s: State, steps: seq<Step>, k: nat, w: WorkerId, start: Time)
    requires k < |steps|
  {
    && steps[k].RecoverStale? && LastBeat(start, steps[..k], w) < steps[k].now - steps[k].lease
    && !Waits(Run(s, steps[..k]), steps[k])
  }

  predicate Takes(s: State, steps: seq<Step>, k: nat, w: WorkerId, claim: Claim, start: Time)
    requires k < |steps|
  {
    Cancels(s, steps, k, claim) || ComesLate(s, steps, k, w, start)
  }

  predicate NoneTakes(s: State, steps: seq<Step>, w: WorkerId, claim: Claim, start: Time) {
    forall k | 0 <= k < |steps| :: !Takes(s, steps, k, w, claim, start)
  }

  /** w has its claim and its row, with the lease of `beat`. */
  ghost predicate Held(s: State, w: WorkerId, claim: Claim, beat: Time) {
    Claiming(s, w, claim) && Owns(s, w, claim.job) && s.recs[claim.job].row.lockedAt == Some(beat)
  }

  lemma StepKeepsLease(s: State, step: Step, w: WorkerId, claim: Claim, beat: Time)
    requires Held(s, w, claim, beat) && Foreign(step, w, Anyone)
    ensures if Takes(s, [step], 0, w, claim, beat) then Claiming(Do(s, step), w, claim) && !Owns(Do(s, step), w, claim.job)
            else Held(Do(s, step), w, claim, LastBeat(beat, [step], w))
  {
    ForeignStepIsHarmless(s, step, w, Anyone);
    assert [step][..0] == [];
    match step
    case Work(v, work) => ForeignWorkKeepsRow(s, v, work, w, claim, beat);
    case Create(r, create) => CreateFollows(s, r, create);
    case _ => ApiLeavesRow(s, step, w, claim, beat);
  }

  /** Recoveries, cancels and retries leave the row alone unless they take it. */
  lemma ApiLeavesRow(s: State, step: Step, w: WorkerId, claim: Claim, beat: Time)
    requires Held(s, w, claim, beat) && (step.RecoverStale? || step.CancelJob? || step.RetryJob?)
    ensures if Takes(s, [step], 0, w, claim, beat) then !Owns(Do(s, step), w, claim.job)
            else claim.job in Do(s, step).recs && Do(s, step).recs[claim.job] == s.recs[claim.job]
  {
    assert FencedRow(s, claim.job, s.recs[claim.job].row);
    assert [step][..0] == [];
  }

  lemma ForeignWorkKeepsRow(s: State, v: WorkerId, work: WorkerStep, w: WorkerId, claim: Claim, beat: Time)
    requires Held(s, w, claim, beat) && (v != w || work.RenewLease?)
    ensures var s' := DoWork(s, v, work);
            Owns(s', w, claim.job) && s'.recs[claim.job].row.lockedAt == Some(if v == w then work.now else beat)
  {
  }

  lemma LostStaysLost(s: State, step: Step, w: WorkerId, claim: Claim)
    requires Claiming(s, w, claim) && !Owns(s, w, claim.job) && Foreign(step, w, Anyone)
    ensures Claiming(Do(s, step), w, claim) && !Owns(Do(s, step), w, claim.job)
  {
    ForeignStepIsHarmless(s, step, w, Anyone);
  }

  /** What the last step of a run does to the claim, seen from the start and from just before. */
  lemma LastStepTakes(s: State, steps: seq<Step>, w: WorkerId, claim: Claim, start: Time)
    requires steps != []
    ensures var init, t := steps[..|steps| - 1], Run(s, steps[..|steps| - 1]);
            && (forall k | 0 <= k < |init| :: Takes(s, steps, k, w, claim, start) <==> Takes(s, init, k, w, claim, start))
            && (Takes(s, steps, |init|, w, claim, start) <==> Takes(t, [Last(steps)], 0, w, claim, LastBeat(start, init, w)))
            && LastBeat(start, steps, w) == LastBeat(LastBeat(start, init, w), [Last(steps)], w)
  {
    var init := steps[..|steps| - 1];
    assert [Last(steps)][..0] == [] && steps[..|init|] == init;
    forall k | 0 <= k < |init| ensures steps[..k] == init[..k] && steps[k] == init[k] {
    }
  }

  /** While the worker works on its claim it keeps the row if and only if no step of the run
      cancels the job and no recovery comes later than the lease allows after the worker's last
      renewal, whatever every other worker, request and recovery does. A row once lost does not
      come back. */
  lemma {:induction false} LeaseIsHonoured(s: State, steps: seq<Step>, w: WorkerId, claim: Claim, start: Time)
    requires Held(s, w, claim, start) && AllForeign(steps, w, Anyone)
    ensures Claiming(Run(s, steps), w, claim)
    ensures Owns(Run(s, steps), w, claim.job) <==> NoneTakes(s, steps, w, claim, start)
    ensures NoneTakes(s, steps, w, claim, start) ==> Held(Run(s, steps), w, claim, LastBeat(start, steps, w))
    decreases |steps|
  {
    if steps != [] {
      var init, last := steps[..|steps| - 1], Last(steps);
      assert last in steps;
      LeaseIsHonoured(s, init, w, claim, start);
      LastStepTakes(s, steps, w, claim, start);
      if NoneTakes(s, init, w, claim, start) {
        StepKeepsLease(Run(s, init), last, w, claim, LastBeat(start, init, w));
      } else {
        LostStaysLost(Run(s, init), last, w, claim);
      }
    }
  }

  lemma ClaimStartsLease(s: State, w: WorkerId, now: Time, skip: set<JobId>, claim: Claim)
    requires Fit(s) && IsIdle(s, w) && DoClaimNext(s, w, now, skip).workers[w] == Holding(claim)
    ensures Held(DoClaimNext(s, w, now, skip), w, claim, now)
  {
    if EligibleIds(s.recs, now, skip) != {} {
      ClaimTakesOne(s, w, now, skip);
    }
  }

  /** A claim starts such a lease. */
  lemma ClaimIsHonoured(s: State, w: WorkerId, now: Time, skip: set<JobId>, claim: Claim, steps: seq<Step>)
    requires Fit(s) && IsIdle(s, w) && DoClaimNext(s, w, now, skip).workers[w] == Holding(claim)
    requires AllForeign(steps, w, Anyone)
    ensures var t := DoClaimNext(s, w, now, skip);
            Owns(Run(t, steps), w, claim.job) <==> NoneTakes(t, steps, w, claim, now)
  {
    ClaimStartsLease(s, w, now, skip, claim);
    LeaseIsHonoured(DoClaimNext(s, w, now, skip), steps, w, claim, now);
  }

  // ------------------------------------------------------------------ heartbeat

  const MAX_FAILURES := 3

  /** One round of the heartbeat: a renewal that reaches the database, or one that raises. */
  datatype Beat = Reaches(now: Time) | Fails

  datatype HeartbeatEnd = ToldToStop | LeaseLost | TooManyFailures

  /** Three failures in a row end with round i. */
  predicate ThirdFailure(beats: seq<Beat>, i: int) {
    2 <= i < |beats| && beats[i] == Fails && beats[i - 1] == Fails && beats[i - 2] == Fails
  }

  /** How many of the last rounds failed. */
  function Failing(beats: seq<Beat>): nat {
    if beats == [] || Last(beats) != Fails then 0 else 1 + Failing(beats[..|beats| - 1])
  }

  lemma ThirdInARow(beats: seq<Beat>)
    ensures Failing(beats) >= MAX_FAILURES <==> ThirdFailure(beats, |beats| - 1)
  {
    if |beats| >= 3 {
      var a, b := beats[..|beats| - 1], beats[..|beats| - 2];
      assert a[..|a| - 1] == b;
      assert Failing(beats) >= 1 <==> Last(beats) == Fails;
    }
  }

  /** _renew_lease. */
  method Renew(db: Database.Relay, w: WorkerId, claim: Claim, now: Time) returns (renewed: bool)
    requires Busy(db, w, claim)
    modifies db
    ensures Busy(db, w, claim) && (renewed <==> Owns(db.Abstract(), w, claim.job))
    ensures renewed <==> old(Owns(db.Abstract(), w, claim.job))
    ensures renewed ==> db.Abstract().recs[claim.job].row.lockedAt == Some(now)
  {
    ForeignStepIsHarmless(db.Abstract(), Work(w, RenewLease(now)), w, Anyone);
    renewed := db.RenewLease(w, now);
  }

  /** What a renewal that reached the database leaves behind. */
  ghost predicate IsRenewed(s: State, w: WorkerId, claim: Claim, beat: Beat) {
    beat.Reaches? && Owns(s, w, claim.job) && s.recs[claim.job].row.lockedAt == Some(beat.now)
  }

  /** The heartbeat after these rounds: the last that got through has renewed the lease, and a row
      that was lost from the start has let none through. */
  ghost predicate SoFar(s: State, w: WorkerId, claim: Claim, beats: seq<Beat>, rounds: nat, lost: bool)
    requires rounds <= |beats|
  {
    && (rounds > 0 && beats[rounds - 1].Reaches? ==> IsRenewed(s, w, claim, beats[rounds - 1]))
    && (lost ==> !Owns(s, w, claim.job) && forall i | 0 <= i < rounds :: beats[i] == Fails)
  }

  /** One round: what the others did since the last, then a renewal if it gets through. */
  method Round(db: Database.Relay, w: WorkerId, claim: Claim, beat: Beat) returns (renewed: bool)
    requires Busy(db, w, claim)
    modifies db
    ensures Busy(db, w, claim)
    ensures renewed <==> IsRenewed(db.Abstract(), w, claim, beat)
    ensures beat.Reaches? && !renewed ==> !Owns(db.Abstract(), w, claim.job)
    ensures old(!Owns(db.Abstract(), w, claim.job)) ==> !Owns(db.Abstract(), w, claim.job)
  {
    Interfere(db, w, Anyone);
    renewed := false;
    if beat.Reaches? {
      renewed := Renew(db, w, claim, beat.now);
    }
  }

  /** The heartbeat of a claim, beside everything else that runs. It goes on until it is stopped,
      however often a renewal fails, unless three fail in a row or one finds the row taken: then
      the worker's claim is void, and stays so. The first renewal that reaches the database after
      the row was taken ends it; one that does not end it has renewed the lease. */
  method Heartbeat(db: Database.Relay, w: WorkerId, claim: Claim, beats: seq<Beat>)
    returns (end: HeartbeatEnd, rounds: nat)
    requires Busy(db, w, claim)
    modifies db
    ensures Busy(db, w, claim) && rounds <= |beats|
    ensures forall i | 0 <= i < rounds - 1 :: !ThirdFailure(beats, i)
    ensures match end
            case ToldToStop => rounds == |beats| && !ThirdFailure(beats, rounds - 1)
            case TooManyFailures => ThirdFailure(beats, rounds - 1)
            case LeaseLost => rounds > 0 && beats[rounds - 1].Reaches? && !Owns(db.Abstract(), w, claim.job)
    ensures old(!Owns(db.Abstract(), w, claim.job)) ==>
              forall i | 0 <= i < rounds && beats[i].Reaches? :: end == LeaseLost && i == rounds - 1
    ensures end != LeaseLost && rounds > 0 && beats[rounds - 1].Reaches? ==> IsRenewed(db.Abstract(), w, claim, beats[rounds - 1])
  {
    var failures: nat := 0;
    rounds := 0;
    ghost var lost := !Owns(db.Abstract(), w, claim.job);
    assert beats[..0] == [];
    while rounds < |beats|
      invariant Busy(db, w, claim) && rounds <= |beats|
      invariant Counting(beats, rounds, failures)
      invariant SoFar(db.Abstract(), w, claim, beats, rounds, lost)
    {
      var renewed;
      failures, renewed := OneBeat(db, w, claim, beats, rounds, failures, lost);
      rounds := rounds + 1;
      if beats[rounds - 1].Reaches? && !renewed {
        return LeaseLost, rounds;
      }
      if failures >= MAX_FAILURES {
        return TooManyFailures, rounds;
      }
    }
    return ToldToStop, rounds;
  }

  /** failures counts the last rounds that failed, and there were never three of them. */
  predicate Counting(beats: seq<Beat>, rounds: nat, failures: nat)
    requires rounds <= |beats|
  {
    failures == Failing(beats[..rounds]) < MAX_FAILURES && forall i | 0 <= i < rounds :: !ThirdFailure(beats, i)
  }

  /** The body of the loop; transient_failures is reset by a success and raised by a failure. */
  method OneBeat(db: Database.Relay, w: WorkerId, claim: Claim, beats: seq<Beat>, rounds: nat, failures: nat, ghost lost: bool)
    returns (counted: nat, renewed: bool)
    requires Busy(db, w, claim) && rounds < |beats| && Counting(beats, rounds, failures)
    requires SoFar(db.Abstract(), w, claim, beats, rounds, lost)
    modifies db
    ensures Busy(db, w, claim)
    ensures if counted < MAX_FAILURES then Counting(beats, rounds + 1, counted) else ThirdFailure(beats, rounds)
    ensures beats[rounds].Reaches? ==> counted == 0
    ensures if beats[rounds].Reaches? && !renewed then !Owns(db.Abstract(), w, claim.job)
            else SoFar(db.Abstract(), w, claim, beats, rounds + 1, lost)
    ensures lost && beats[rounds].Reaches? ==> !renewed
  {
    renewed := Round(db, w, claim, beats[rounds]);
    counted := CountFailure(beats, rounds, failures);
  }

  method CountFailure(beats: seq<Beat>, round: nat, failures: nat) returns (counted: nat)
    requires round < |beats| && failures == Failing(beats[..round]) < MAX_FAILURES
    ensures counted == Failing(beats[..round + 1]) && (beats[round].Reaches? ==> counted == 0)
    ensures counted >= MAX_FAILURES <==> ThirdFailure(beats, round)
  {
    assert beats[..round + 1][..round] == beats[..round];
    ThirdInARow(beats[..round + 1]);
    counted := if beats[round] == Fails then failures + 1 else 0;
  }
}
