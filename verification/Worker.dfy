/** process_next and drain: the sequence of transactions one worker makes for a job, with the
    transactions of everybody else in between. */
module Worker {
  import opened Tables
  import opened Lifecycle
  import opened Queue
  import opened Safety
  import Admission
  import Database

  const LEASE_TIMEOUT := 30 * SECOND

  /** Who else is running. */
  datatype Others =
    | Anyone                    // workers, API requests, recoveries
    | Workers                   // no API request
    | Nobody(clock: Time)       // and this worker's clock stands still

  /** How the body of process_next ends before its last transactions. */
  datatype Ending =
    | Returned(raises: bool)             // _finalize runs; it may commit and still raise
    | Interrupted(cause: string)         // JobCancelledError: the token was set
    | Raised(error: string)              // any other exception, of the handler, heartbeat or monitor setup
    | MonitorStuck(error: string)        // FatalCancellationMonitorError: reported, then raised again

  datatype Outcome = Nothing | DoneJob | CancelledJob | FailedJob

  /** Holds in every state a queue can get into, whatever its tables held before. */
  predicate Fit(s: State) {
    Fenced(s) && PendingRowsNew(s) && Admission.HoldersLive(s)
  }

  lemma StepKeepsFit(s: State, step: Step)
    requires Fit(s)
    ensures Fit(Transact(s, step)) && Fit(Do(s, step))
  {
    StepKeepsFences(s, step);
    Admission.StepKeepsHolders(s, step);
  }

  lemma {:induction false} RunsAreFit(s0: State, steps: seq<Step>)
    requires ColdStart(s0)
    ensures Fit(Run(s0, steps))
    decreases |steps|
  {
    if steps != [] {
      RunsAreFit(s0, steps[..|steps| - 1]);
      StepKeepsFit(Run(s0, steps[..|steps| - 1]), Last(steps));
    }
  }

  /** A step that another process can take while w works; w's own heartbeat counts as one. */
  predicate Foreign(step: Step, w: WorkerId, others: Others) {
    match step
    case RecoverStale(_, _) => !others.Nobody?
    case Work(v, work) => !others.Nobody? && (v != w || work.RenewLease?)
    case _ => others.Anyone?
  }

  predicate AllForeign(steps: seq<Step>, w: WorkerId, others: Others) {
    forall step | step in steps :: Foreign(step, w, others)
  }

  function QueuedIds(recs: map<JobId, Record>): set<JobId> {
    set j | j in recs && recs[j].row.status == Queued
  }

  /** What a worker can rely on while others run: its claim is its own memory, it gains no row
      behind its back, and without API requests the queue does not grow. */
  ghost predicate Unharmed(s: State, s': State, w: WorkerId, others: Others) {
    && (w in s.workers ==> w in s'.workers && s'.workers[w] == s.workers[w])
    && (forall j :: Owns(s', w, j) ==> Owns(s, w, j))
    && (!others.Anyone? ==> QueuedIds(s'.recs) <= QueuedIds(s.recs))
    && (others.Nobody? ==> s' == s)
  }

  lemma ForeignWorkKeepsMemory(s: State, v: WorkerId, work: WorkerStep, w: WorkerId)
    requires v != w || work.RenewLease?
    ensures w in s.workers ==> w in DoWork(s, v, work).workers && DoWork(s, v, work).workers[w] == s.workers[w]
  {
  }

  lemma ForeignWorkGivesNoRow(s: State, v: WorkerId, work: WorkerStep, w: WorkerId, j: JobId)
    requires (v != w || work.RenewLease?) && Owns(DoWork(s, v, work), w, j)
    ensures Owns(s, w, j)
  {
  }

  lemma WorkQueuesNothing(s: State, v: WorkerId, work: WorkerStep)
    ensures QueuedIds(DoWork(s, v, work).recs) <= QueuedIds(s.recs)
  {
  }

  lemma ForeignWorkIsHarmless(s: State, v: WorkerId, work: WorkerStep, w: WorkerId)
    requires v != w || work.RenewLease?
    ensures w in s.workers ==> w in DoWork(s, v, work).workers && DoWork(s, v, work).workers[w] == s.workers[w]
    ensures forall j :: Owns(DoWork(s, v, work), w, j) ==> Owns(s, w, j)
    ensures QueuedIds(DoWork(s, v, work).recs) <= QueuedIds(s.recs)
  {
    ForeignWorkKeepsMemory(s, v, work, w);
    forall j | Owns(DoWork(s, v, work), w, j) ensures Owns(s, w, j) {
      ForeignWorkGivesNoRow(s, v, work, w, j);
    }
    WorkQueuesNothing(s, v, work);
  }

  lemma ForeignStepIsHarmless(s: State, step: Step, w: WorkerId, others: Others)
    requires Foreign(step, w, others) && Fit(s)
    ensures Unharmed(s, Do(s, step), w, others)
    ensures Fit(Do(s, step))
  {
    StepKeepsFit(s, step);
    match step
    case Work(v, work) => ForeignWorkIsHarmless(s, v, work, w);
    case Create(r, create) =>
      CreateFollows(s, r, create);
      if Publishes(s, r, create) { assert PendingRowNew(s.requests[r]); }
    case _ =>
  }

  lemma {:induction false} ForeignRunIsHarmless(s: State, steps: seq<Step>, w: WorkerId, others: Others)
    requires AllForeign(steps, w, others) && Fit(s)
    ensures Unharmed(s, Run(s, steps), w, others)
    ensures Fit(Run(s, steps))
    decreases |steps|
  {
    if steps != [] {
      var init := steps[..|steps| - 1];
      assert AllForeign(init, w, others) && Foreign(Last(steps), w, others);
      ForeignRunIsHarmless(s, init, w, others);
      ForeignStepIsHarmless(Run(s, init), Last(steps), w, others);
    }
  }

  /** Any number of transactions of the others. */
  method Interfere(db: Database.Relay, w: WorkerId, others: Others)
    requires db.Valid() && Fit(db.Abstract())
    modifies db
    ensures db.Valid() && Fit(db.Abstract())
    ensures Unharmed(old(db.Abstract()), db.Abstract(), w, others)
  {
    var steps: seq<Step> := *;
    if AllForeign(steps, w, others) {
      ForeignRunIsHarmless(db.Abstract(), steps, w, others);
      db.ExecuteAll(steps);
    }
  }

  /** Waits until the requests that hold these companies' rows have ended. The others may have
      ended them already; one that is still there is rolled back. */
  method AwaitCompanies(db: Database.Relay, needed: set<CompanyId>)
    requires db.Valid() && Fit(db.Abstract())
    modifies db
    ensures db.Valid() && Fit(db.Abstract()) && OnlyLocksFreed(old(db.Abstract()), db.Abstract())
    ensures needed !! db.Abstract().locks.Keys
  {
    while exists c | c in needed :: c in db.locks
      invariant db.Valid() && Fit(db.Abstract()) && OnlyLocksFreed(old(db.Abstract()), db.Abstract())
      decreases db.Abstract().locks.Keys
    {
      var c :| c in needed && c in db.locks;
      Admission.RollbackFrees(db.Abstract(), c);
      StepKeepsFit(db.Abstract(), Create(db.locks[c], Abort));
      db.Execute(Create(db.locks[c], Abort));
    }
  }

  predicate OnlyLocksFreed(s: State, s': State) {
    s'.recs == s.recs && s'.workers == s.workers && s'.companies == s.companies
  }

  /** now() of a transaction. */
  method Now(others: Others) returns (now: Time)
    ensures others.Nobody? ==> now == others.clock
  {
    if others.Nobody? {
      return others.clock;
    }
    now := *;
  }

  /** The rows a claim finds locked by other transactions. */
  method RowsLockedByOthers(others: Others) returns (rows: set<JobId>)
    ensures others.Nobody? ==> rows == {}
  {
    if others.Nobody? {
      return {};
    }
    rows := *;
  }

  /** A live worker between two jobs. */
  ghost predicate Rested(s: State, w: WorkerId) {
    Fit(s) && IsIdle(s, w)
  }

  /** A live worker with a claim; the row may have been taken from it since. */
  ghost predicate Claiming(s: State, w: WorkerId, claim: Claim) {
    Fit(s) && w in s.workers && s.workers[w] == Holding(claim)
  }

  ghost predicate Ready(db: Database.Relay, w: WorkerId)
    reads db
  {
    db.Valid() && Rested(db.Abstract(), w)
  }

  ghost predicate Busy(db: Database.Relay, w: WorkerId, claim: Claim)
    reads db
  {
    db.Valid() && Claiming(db.Abstract(), w, claim)
  }

  predicate HasStatus(s: State, j: JobId, status: Status) {
    j in s.recs && s.recs[j].row.status == status
  }

  /** The same jobs are queued, and eligible at every clock. */
  ghost predicate SameQueue(a: map<JobId, Record>, b: map<JobId, Record>) {
    QueuedIds(a) == QueuedIds(b) && forall clock :: EligibleIds(a, clock, {}) == EligibleIds(b, clock, {})
  }

  lemma RecoverIsHarmless(s: State, now: Time, lease: Time)
    requires Fit(s)
    ensures var s' := DoRecoverStale(s, now, lease);
            Fit(s') && SameQueue(s.recs, s'.recs)
  {
    StepKeepsFit(s, RecoverStale(now, lease));
  }

  lemma ClaimTakesOne(s: State, w: WorkerId, now: Time, skip: set<JobId>)
    requires Fit(s) && IsIdle(s, w) && EligibleIds(s.recs, now, skip) != {}
    ensures var s' := DoClaimNext(s, w, now, skip);
            var j := Least(EligibleIds(s.recs, now, skip));
            && Fit(s')
            && QueuedIds(s'.recs) == QueuedIds(s.recs) - {j} && j in QueuedIds(s.recs)
            && forall clock :: EligibleIds(s'.recs, clock, {}) == EligibleIds(s.recs, clock, {}) - {j}
  {
    StepKeepsFit(s, Work(w, ClaimNext(now, skip)));
  }

  lemma UnqueuedRowChanges(recs: map<JobId, Record>, j: JobId, rec: Record)
    requires j in recs && recs[j].row.status != Queued && rec.row.status != Queued
    ensures SameQueue(recs, recs[j := rec])
  {
  }

  /** No job but j changed. */
  predicate OnlyChanged(a: map<JobId, Record>, b: map<JobId, Record>, j: JobId) {
    forall i | i in a && i != j :: i in b && b[i] == a[i]
  }

  ghost predicate Settled(s: State, s': State, j: JobId) {
    Fit(s') && SameQueue(s.recs, s'.recs) && OnlyChanged(s.recs, s'.recs, j)
  }

  predicate ChangesAtMost(a: map<JobId, Record>, b: map<JobId, Record>, j: JobId) {
    b == a || (j in a && j in b && b == a[j := b[j]] && a[j].row.status != Queued && b[j].row.status != Queued)
  }

  lemma LastStep(s: State, s': State, j: JobId)
    requires Fit(s') && ChangesAtMost(s.recs, s'.recs, j)
    ensures Settled(s, s', j)
  {
    if s'.recs != s.recs {
      UnqueuedRowChanges(s.recs, j, s'.recs[j]);
    }
  }

  lemma FailureSettles(s: State, w: WorkerId, now: Time, error: string)
    requires Fit(s) && IsHolding(s, w)
    ensures Settled(s, DoRecordFailure(s, w, now, error), s.workers[w].claim.job)
  {
    assert DoRecordFailure(s, w, now, error).locks == s.locks && DoRecordFailure(s, w, now, error).requests == s.requests;
    LastStep(s, DoRecordFailure(s, w, now, error), s.workers[w].claim.job);
  }

  lemma AcknowledgeSettles(s: State, w: WorkerId, now: Time)
    requires Fit(s) && IsHolding(s, w)
    ensures Settled(s, DoAcknowledge(s, w, now), s.workers[w].claim.job)
  {
    assert DoAcknowledge(s, w, now).locks == s.locks && DoAcknowledge(s, w, now).requests == s.requests;
    LastStep(s, DoAcknowledge(s, w, now), s.workers[w].claim.job);
  }

  lemma FinalizeSettles(s: State, w: WorkerId, now: Time, raises: bool)
    requires Fit(s) && IsHolding(s, w)
    ensures Settled(s, DoFinalize(s, w, now, raises), s.workers[w].claim.job)
  {
    assert DoFinalize(s, w, now, raises).locks == s.locks && DoFinalize(s, w, now, raises).requests == s.requests;
    LastStep(s, DoFinalize(s, w, now, raises), s.workers[w].claim.job);
  }

  lemma FailureEffect(s: State, w: WorkerId, now: Time, error: string)
    requires IsHolding(s, w)
    ensures var j, s' := s.workers[w].claim.job, DoRecordFailure(s, w, now, error);
            IsIdle(s', w) && if Owns(s, w, j) then HasStatus(s', j, Failed) else s'.recs == s.recs
  {
  }

  lemma AcknowledgeEffect(s: State, w: WorkerId, now: Time)
    requires IsHolding(s, w)
    ensures var j, s' := s.workers[w].claim.job, DoAcknowledge(s, w, now);
            if HasStatus(s, j, Cancelled) then IsIdle(s', w) && HasStatus(s', j, Cancelled) else s' == s
  {
  }

  lemma FinalizeEffect(s: State, w: WorkerId, now: Time, raises: bool)
    requires IsHolding(s, w)
    ensures var j, s' := s.workers[w].claim.job, DoFinalize(s, w, now, raises);
            && (if raises then s'.workers == s.workers else IsIdle(s', w))
            && (Owns(s, w, j) ==> HasStatus(s', j, Done) && !Owns(s', w, j))
  {
  }

  lemma FailureEnds(s: State, w: WorkerId, claim: Claim, now: Time, error: string)
    requires Claiming(s, w, claim)
    ensures var s' := DoRecordFailure(s, w, now, error);
            && Rested(s', w) && SameQueue(s.recs, s'.recs) && OnlyChanged(s.recs, s'.recs, claim.job)
            && (if Owns(s, w, claim.job) then HasStatus(s', claim.job, Failed) else s'.recs == s.recs)
  {
    FailureSettles(s, w, now, error);
    FailureEffect(s, w, now, error);
  }

  lemma AcknowledgeEnds(s: State, w: WorkerId, claim: Claim, now: Time)
    requires Claiming(s, w, claim)
    ensures var s' := DoAcknowledge(s, w, now);
            && (if HasStatus(s, claim.job, Cancelled) then Rested(s', w) && HasStatus(s', claim.job, Cancelled) else s' == s)
            && SameQueue(s.recs, s'.recs) && OnlyChanged(s.recs, s'.recs, claim.job)
  {
    AcknowledgeSettles(s, w, now);
    AcknowledgeEffect(s, w, now);
  }

  lemma FinalizeEnds(s: State, w: WorkerId, claim: Claim, now: Time, raises: bool)
    requires Claiming(s, w, claim)
    ensures var s' := DoFinalize(s, w, now, raises);
            && (if raises then Claiming(s', w, claim) else Rested(s', w))
            && SameQueue(s.recs, s'.recs) && OnlyChanged(s.recs, s'.recs, claim.job)
            && (Owns(s, w, claim.job) ==> HasStatus(s', claim.job, Done) && !Owns(s', w, claim.job))
  {
    FinalizeSettles(s, w, now, raises);
    FinalizeEffect(s, w, now, raises);
  }

  /** _record_failure as the last thing a claim sees. */
  method GiveUp(db: Database.Relay, w: WorkerId, claim: Claim, error: string, others: Others) returns (failed: bool)
    requires Busy(db, w, claim)
    modifies db
    ensures Ready(db, w) && SameQueue(old(db.Abstract()).recs, db.Abstract().recs)
    ensures failed <==> old(Owns(db.Abstract(), w, claim.job))
    ensures if failed then HasStatus(db.Abstract(), claim.job, Failed) else db.Abstract().recs == old(db.Abstract()).recs
    ensures OnlyChanged(old(db.Abstract()).recs, db.Abstract().recs, claim.job)
  {
    var now := Now(others);
    AwaitCompanies(db, {claim.company});
    FailureEnds(db.Abstract(), w, claim, now, error);
    failed := db.RecordFailure(w, now, error);
  }

  method Acknowledged(db: Database.Relay, w: WorkerId, claim: Claim, others: Others) returns (cancelled: bool)
    requires Busy(db, w, claim)
    modifies db
    ensures cancelled <==> old(HasStatus(db.Abstract(), claim.job, Cancelled))
    ensures if cancelled then Ready(db, w) && HasStatus(db.Abstract(), claim.job, Cancelled)
            else Busy(db, w, claim) && db.Abstract() == old(db.Abstract())
    ensures SameQueue(old(db.Abstract()).recs, db.Abstract().recs) && OnlyChanged(old(db.Abstract()).recs, db.Abstract().recs, claim.job)
  {
    var now := Now(others);
    AcknowledgeEnds(db.Abstract(), w, claim, now);
    cancelled := db.AcknowledgeCancellation(w, now);
  }

  method Finalized(db: Database.Relay, w: WorkerId, claim: Claim, raises: bool, others: Others) returns (done: bool)
    requires Busy(db, w, claim)
    modifies db
    ensures if raises then Busy(db, w, claim) else Ready(db, w)
    ensures done <==> old(Owns(db.Abstract(), w, claim.job))
    ensures done ==> HasStatus(db.Abstract(), claim.job, Done) && !Owns(db.Abstract(), w, claim.job)
    ensures SameQueue(old(db.Abstract()).recs, db.Abstract().recs) && OnlyChanged(old(db.Abstract()).recs, db.Abstract().recs, claim.job)
  {
    var now := Now(others);
    AwaitCompanies(db, {claim.company});
    FinalizeEnds(db.Abstract(), w, claim, now, raises);
    done := db.Finalize(w, now, raises);
  }

  /** The queue only lost what this worker took, and nobody else touched it if nobody else ran. */
  ghost predicate QueueShrank(before: State, after: State, taken: set<JobId>, others: Others) {
    && (!others.Anyone? ==> QueuedIds(after.recs) <= QueuedIds(before.recs) - taken)
    && (others.Nobody? ==> EligibleIds(after.recs, others.clock, {}) == EligibleIds(before.recs, others.clock, {}) - taken)
  }

  /** recover_stale_jobs, and what the others do before the claim. */
  method RecoverFirst(db: Database.Relay, w: WorkerId, others: Others)
    requires Ready(db, w)
    modifies db
    ensures Ready(db, w) && QueueShrank(old(db.Abstract()), db.Abstract(), {}, others)
    ensures others.Nobody? ==> db.Abstract().recs == DoRecoverStale(old(db.Abstract()), others.clock, LEASE_TIMEOUT).recs
  {
    Interfere(db, w, others);
    var now := Now(others);
    Recover(db, w, now);
    Interfere(db, w, others);
  }

  /** recover_stale_jobs, once it has its locks. */
  method Recover(db: Database.Relay, w: WorkerId, now: Time)
    requires Ready(db, w)
    modifies db
    ensures Ready(db, w) && SameQueue(old(db.Abstract()).recs, db.Abstract().recs)
    ensures db.Abstract().recs == DoRecoverStale(old(db.Abstract()), now, LEASE_TIMEOUT).recs
  {
    var stale := set j | j in db.jobs && IsStale(db.jobs[j], now, LEASE_TIMEOUT) :: db.jobs[j].company;
    AwaitCompanies(db, stale);
    assert forall j | j in db.Abstract().recs :: db.Abstract().recs[j].row == db.jobs[j];
    RecoverIsHarmless(db.Abstract(), now, LEASE_TIMEOUT);
    var _ := db.RecoverStaleJobs(now, LEASE_TIMEOUT);
  }

  /** What TakeJob and ProcessNext say about the queue they took a job from. */
  ghost predicate Took(before: State, after: State, claim: Option<Claim>, seenAt: Time, locked: set<JobId>, others: Others) {
    && QueueShrank(before, after, if claim.Some? then {claim.value.job} else {}, others)
    && (claim.None? ==> EligibleIds(after.recs, seenAt, locked) == {})
    && (!others.Anyone? && claim.Some? ==> claim.value.job in QueuedIds(before.recs))
    && (others.Nobody? ==> seenAt == others.clock && locked == {})
    && (others.Nobody? && claim.Some? ==>
          EligibleIds(before.recs, others.clock, {}) != {}
          && claim.value.job == Least(EligibleIds(before.recs, others.clock, {})))
  }

  /** _claim_next. */
  method TakeJob(db: Database.Relay, w: WorkerId, others: Others) returns (claim: Option<Claim>, seenAt: Time, locked: set<JobId>)
    requires Ready(db, w)
    modifies db
    ensures if claim.None? then Ready(db, w) && db.Abstract() == old(db.Abstract())
            else Busy(db, w, claim.value) && Owns(db.Abstract(), w, claim.value.job)
                 && OnlyChanged(old(db.Abstract()).recs, db.Abstract().recs, claim.value.job)
    ensures claim.Some? ==> old(HasStatus(db.Abstract(), claim.value.job, Queued))
    ensures Took(old(db.Abstract()), db.Abstract(), claim, seenAt, locked, others)
  {
    seenAt := Now(others);
    locked := RowsLockedByOthers(others);
    if EligibleIds(db.Abstract().recs, seenAt, locked) != {} {
      ClaimTakesOne(db.Abstract(), w, seenAt, locked);
    }
    claim := db.ClaimNext(w, seenAt, locked);
  }

  lemma TookThrough(a: State, b: State, c: State, d: State, claim: Option<Claim>, seenAt: Time, locked: set<JobId>, others: Others)
    requires QueueShrank(a, b, {}, others) && Took(b, c, claim, seenAt, locked, others)
    requires if claim.Some? then QueueShrank(c, d, {}, others) else d == c
    ensures Took(a, d, claim, seenAt, locked, others)
  {
    if others.Nobody? {
      assert EligibleIds(b.recs, others.clock, {}) == EligibleIds(a.recs, others.clock, {});
    }
  }

  /** Where a claim ends if nobody interferes. */
  function EndStatus(ending: Ending): Status {
    if ending.Returned? then Done else Failed
  }

  function EndOutcome(ending: Ending): Outcome {
    if ending == Returned(false) then DoneJob else FailedJob
  }

  /** Undisturbed, the worker fails every stale job and brings its claim to its end. */
  ghost predicate WorkedAlone(before: State, after: State, claim: Option<Claim>, ending: Ending, clock: Time) {
    && (forall j | j in before.recs && IsStale(before.recs[j].row, clock, LEASE_TIMEOUT) :: HasStatus(after, j, Failed))
    && (claim.Some? ==> HasStatus(after, claim.value.job, EndStatus(ending)))
  }

  lemma WorkedThrough(a: State, b: State, c: State, d: State, claim: Claim, ending: Ending, clock: Time)
    requires b.recs == DoRecoverStale(a, clock, LEASE_TIMEOUT).recs && HasStatus(b, claim.job, Queued)
    requires OnlyChanged(b.recs, c.recs, claim.job) && OnlyChanged(c.recs, d.recs, claim.job)
    requires HasStatus(d, claim.job, EndStatus(ending))
    ensures WorkedAlone(a, d, Some(claim), ending, clock)
  {
  }

  /** process_next. Whatever the handler does and whatever the others do between its transactions,
      the worker comes back owning no row: the claim was finished, failed, found cancelled, or is
      somebody else's by now. Undisturbed, the claim ends as the handler did. */
  method ProcessNext(db: Database.Relay, w: WorkerId, others: Others, ending: Ending)
    returns (claim: Option<Claim>, outcome: Outcome, seenAt: Time, locked: set<JobId>)
    requires Ready(db, w)
    modifies db
    ensures Ready(db, w) && forall j :: !Owns(db.Abstract(), w, j)
    ensures claim.None? <==> outcome == Nothing
    ensures outcome == DoneJob ==> ending == Returned(false) && HasStatus(db.Abstract(), claim.value.job, Done)
    ensures outcome == CancelledJob && ending.Interrupted? ==> HasStatus(db.Abstract(), claim.value.job, Cancelled)
    ensures Took(old(db.Abstract()), db.Abstract(), claim, seenAt, locked, others)
    ensures others.Nobody? ==> WorkedAlone(old(db.Abstract()), db.Abstract(), claim, ending, others.clock)
    ensures others.Nobody? && claim.Some? ==> outcome == EndOutcome(ending)
  {
    RecoverFirst(db, w, others);
    ghost var recovered := db.Abstract();
    claim, seenAt, locked := TakeJob(db, w, others);
    ghost var taken := db.Abstract();
    outcome := Nothing;
    if claim.Some? {
      outcome := EndClaim(db, w, claim.value, others, ending);
      if others.Nobody? {
        WorkedThrough(old(db.Abstract()), recovered, taken, db.Abstract(), claim.value, ending, others.clock);
      }
    }
    TookThrough(old(db.Abstract()), recovered, taken, db.Abstract(), claim, seenAt, locked, others);
    NoRowsWhenRested(db.Abstract(), w);
  }

  lemma NoRowsWhenRested(s: State, w: WorkerId)
    requires Rested(s, w)
    ensures forall j :: !Owns(s, w, j)
  {
  }

  /** After JobCancelledError: a cancellation, or some other reason to stop. */
  method EndInterrupted(db: Database.Relay, w: WorkerId, claim: Claim, cause: string, others: Others) returns (outcome: Outcome)
    requires Busy(db, w, claim)
    modifies db
    ensures Ready(db, w) && (outcome == CancelledJob || outcome == FailedJob)
    ensures outcome == CancelledJob <==> old(HasStatus(db.Abstract(), claim.job, Cancelled))
    ensures outcome == CancelledJob ==> HasStatus(db.Abstract(), claim.job, Cancelled)
    ensures QueueShrank(old(db.Abstract()), db.Abstract(), {}, others)
    ensures others.Nobody? ==> OnlyChanged(old(db.Abstract()).recs, db.Abstract().recs, claim.job)
    ensures others.Nobody? && old(Owns(db.Abstract(), w, claim.job)) ==> outcome == FailedJob && HasStatus(db.Abstract(), claim.job, Failed)
  {
    var cancelled := Acknowledged(db, w, claim, others);
    if cancelled {
      return CancelledJob;
    }
    Interfere(db, w, others);
    var _ := GiveUp(db, w, claim, cause, others);
    return FailedJob;
  }

  /** After the handler returned: finalize, and if that raises, record a failure. */
  method EndReturned(db: Database.Relay, w: WorkerId, claim: Claim, raises: bool, others: Others) returns (outcome: Outcome)
    requires Busy(db, w, claim)
    modifies db
    ensures Ready(db, w) && outcome == if raises then FailedJob else if old(Owns(db.Abstract(), w, claim.job)) then DoneJob else CancelledJob
    ensures outcome == DoneJob ==> HasStatus(db.Abstract(), claim.job, Done)
    ensures QueueShrank(old(db.Abstract()), db.Abstract(), {}, others)
    ensures others.Nobody? ==> OnlyChanged(old(db.Abstract()).recs, db.Abstract().recs, claim.job)
    ensures others.Nobody? && old(Owns(db.Abstract(), w, claim.job)) ==> HasStatus(db.Abstract(), claim.job, Done)
  {
    var done := Finalized(db, w, claim, raises, others);
    if raises {
      Interfere(db, w, others);
      var _ := GiveUp(db, w, claim, "raised after commit", others);
      return FailedJob;
    }
    return if done then DoneJob else CancelledJob;
  }

  /** The rest of process_next: the handler, then finalize, acknowledge or record the failure. */
  method EndClaim(db: Database.Relay, w: WorkerId, claim: Claim, others: Others, ending: Ending) returns (outcome: Outcome)
    requires Busy(db, w, claim)
    modifies db
    ensures Ready(db, w) && outcome != Nothing
    ensures others.Nobody? && old(Owns(db.Abstract(), w, claim.job)) ==> outcome == EndOutcome(ending)
    ensures outcome == DoneJob ==> ending == Returned(false) && HasStatus(db.Abstract(), claim.job, Done)
    ensures outcome == CancelledJob && ending.Interrupted? ==> HasStatus(db.Abstract(), claim.job, Cancelled)
    ensures QueueShrank(old(db.Abstract()), db.Abstract(), {}, others)
    ensures others.Nobody? ==> OnlyChanged(old(db.Abstract()).recs, db.Abstract().recs, claim.job)
    ensures others.Nobody? && old(Owns(db.Abstract(), w, claim.job)) ==> HasStatus(db.Abstract(), claim.job, EndStatus(ending))
  {
    Interfere(db, w, others);
    outcome := EndNow(db, w, claim, others, ending);
  }

  /** The last transactions of a claim, by the way the handler ended. */
  method EndNow(db: Database.Relay, w: WorkerId, claim: Claim, others: Others, ending: Ending) returns (outcome: Outcome)
    requires Busy(db, w, claim)
    modifies db
    ensures Ready(db, w) && outcome != Nothing
    ensures others.Nobody? && old(Owns(db.Abstract(), w, claim.job)) ==> outcome == EndOutcome(ending)
    ensures outcome == DoneJob ==> ending == Returned(false) && HasStatus(db.Abstract(), claim.job, Done)
    ensures outcome == CancelledJob && ending.Interrupted? ==> HasStatus(db.Abstract(), claim.job, Cancelled)
    ensures QueueShrank(old(db.Abstract()), db.Abstract(), {}, others)
    ensures others.Nobody? ==> OnlyChanged(old(db.Abstract()).recs, db.Abstract().recs, claim.job)
    ensures others.Nobody? && old(Owns(db.Abstract(), w, claim.job)) ==> HasStatus(db.Abstract(), claim.job, EndStatus(ending))
  {
    outcome := FailedJob;
    match ending
    case Returned(raises) => outcome := EndReturned(db, w, claim, raises, others);
    case Interrupted(cause) => outcome := EndInterrupted(db, w, claim, cause, others);
    case Raised(error) => var _ := GiveUp(db, w, claim, error, others);
    case MonitorStuck(error) => var _ := GiveUp(db, w, claim, error, others);
  }

  // --------------------------------------------------------------------- drain

  /** `ids` are the smallest of `all`, in order, and `rest` is what is left. */
  ghost predicate IsInitialPart(ids: seq<JobId>, rest: set<JobId>, all: set<JobId>) {
    && StrictlyAscending(ids)
    && (forall j :: j in all <==> j in ids || j in rest)
    && (forall j, k | j in ids && k in rest :: j < k)
  }

  lemma TakeLeast(ids: seq<JobId>, rest: set<JobId>, all: set<JobId>)
    requires IsInitialPart(ids, rest, all) && rest != {}
    ensures IsInitialPart(ids + [Least(rest)], rest - {Least(rest)}, all)
  {
    forall i | 0 <= i < |ids| ensures ids[i] < Least(rest) {
      assert ids[i] in ids;
    }
  }

  lemma QueueGetsShorter(before: set<JobId>, after: set<JobId>, j: JobId)
    requires after <= before - {j} && j in before
    ensures |after| < |before|
  {
    assert before == (before - {j}) + {j};
    Admission.SubsetIsSmaller(after, before - {j});
  }

  /** Alone, the jobs processed are the first of those that were eligible, and the rest still is. */
  ghost predicate InOrder(start: State, s: State, processed: seq<JobId>, others: Others) {
    others.Nobody? ==>
      IsInitialPart(processed, EligibleIds(s.recs, others.clock, {}), EligibleIds(start.recs, others.clock, {}))
  }

  lemma OneMoreInOrder(start: State, before: State, after: State, processed: seq<JobId>, claim: Option<Claim>, seenAt: Time,
                       locked: set<JobId>, others: Others)
    requires InOrder(start, before, processed, others) && claim.Some? && Took(before, after, claim, seenAt, locked, others)
    ensures InOrder(start, after, processed + [claim.value.job], others)
  {
    if others.Nobody? {
      TakeLeast(processed, EligibleIds(before.recs, others.clock, {}), EligibleIds(start.recs, others.clock, {}));
    }
  }

  /** The order to shut down was not there before the first n jobs. */
  predicate NotTold(shutdown: nat -> bool, n: nat) {
    forall i | 0 <= i < n :: !shutdown(i)
  }

  /** The worker has its reason to stop: it was told to, or its monitor was stuck. */
  predicate HasReason(shutdown: nat -> bool, ending: nat -> Ending, n: nat) {
    shutdown(n) || (n > 0 && ending(n - 1).MonitorStuck?)
  }

  /** Exactly the jobs that were eligible. */
  ghost predicate IsAll(start: State, processed: seq<JobId>, clock: Time) {
    forall j :: j in processed <==> j in start.recs && IsEligible(start.recs[j].row, clock)
  }

  lemma NothingLeft(start: State, s: State, processed: seq<JobId>, others: Others)
    requires InOrder(start, s, processed, others) && (others.Nobody? ==> EligibleIds(s.recs, others.clock, {}) == {})
    ensures others.Nobody? ==> StrictlyAscending(processed) && IsAll(start, processed, others.clock)
  {
    if others.Nobody? {
      forall j ensures j in processed <==> j in EligibleIds(start.recs, others.clock, {}) {
      }
    }
  }

  lemma StartsInOrder(start: State, others: Others)
    ensures InOrder(start, start, [], others)
  {
  }

  lemma NoMoreInOrder(start: State, before: State, after: State, processed: seq<JobId>, claim: Option<Claim>, seenAt: Time,
                      locked: set<JobId>, others: Others)
    requires InOrder(start, before, processed, others) && claim.None? && Took(before, after, claim, seenAt, locked, others)
    ensures InOrder(start, after, processed, others)
  {
    if others.Nobody? {
      assert EligibleIds(after.recs, others.clock, {}) == EligibleIds(before.recs, others.clock, {});
    }
  }

  /** drain, as long as no API request comes in, when the order to shut down is seen before these jobs
      and the handler ends in these ways: it ends, because every job it processes leaves
      the queue; it ends without being told to stop only after a look at the queue that found no
      eligible row that was not locked; and alone, with the clock standing still, it processes
      the eligible jobs in the order of their ids, all of them unless it is stopped. */
  method Drain(db: Database.Relay, w: WorkerId, others: Others, shutdown: nat -> bool, ending: nat -> Ending)
    returns (processed: seq<JobId>, stopped: bool, seenAt: Time, locked: set<JobId>)
    requires Ready(db, w) && !others.Anyone?
    modifies db
    ensures Ready(db, w)
    ensures !stopped ==> EligibleIds(db.Abstract().recs, seenAt, locked) == {}
    ensures stopped ==> HasReason(shutdown, ending, |processed|)
    ensures NotTold(shutdown, |processed|)
    ensures InOrder(old(db.Abstract()), db.Abstract(), processed, others)
    ensures others.Nobody? && !stopped ==> StrictlyAscending(processed) && IsAll(old(db.Abstract()), processed, others.clock)
  {
    processed, stopped, seenAt, locked := [], false, 0, {};
    ghost var start := db.Abstract();
    StartsInOrder(start, others);
    ghost var queued := |QueuedIds(start.recs)|;
    while true
      invariant Ready(db, w) && InOrder(start, db.Abstract(), processed, others)
      invariant NotTold(shutdown, |processed|)
      invariant queued == |QueuedIds(db.Abstract().recs)|
      decreases queued
    {
      if shutdown(|processed|) {
        stopped := true;
        return;
      }
      var claim;
      claim, seenAt, locked := DrainOne(db, w, others, ending(|processed|), start, processed);
      if claim.None? {
        NothingLeft(start, db.Abstract(), processed, others);
        return;
      }
      processed := processed + [claim.value.job];
      queued := |QueuedIds(db.Abstract().recs)|;
      if ending(|processed| - 1).MonitorStuck? {
        // the exception leaves drain and ends the process
        stopped := true;
        return;
      }
    }
  }

  /** One round of the loop: the queue gets shorter, or there was nothing to take. */
  method DrainOne(db: Database.Relay, w: WorkerId, others: Others, ending: Ending, ghost start: State, ghost processed: seq<JobId>)
    returns (claim: Option<Claim>, seenAt: Time, locked: set<JobId>)
    requires Ready(db, w) && !others.Anyone? && InOrder(start, db.Abstract(), processed, others)
    modifies db
    ensures Ready(db, w)
    ensures claim.Some? ==> InOrder(start, db.Abstract(), processed + [claim.value.job], others)
    ensures claim.None? ==> InOrder(start, db.Abstract(), processed, others)
    ensures claim.Some? ==> |QueuedIds(db.Abstract().recs)| < |QueuedIds(old(db.Abstract()).recs)|
    ensures claim.None? ==> EligibleIds(db.Abstract().recs, seenAt, locked) == {}
    ensures others.Nobody? ==> seenAt == others.clock && locked == {}
  {
    ghost var before := db.Abstract();
    var outcome;
    claim, outcome, seenAt, locked := ProcessNext(db, w, others, ending);
    if claim.Some? {
      OneMoreInOrder(start, before, db.Abstract(), processed, claim, seenAt, locked, others);
      QueueGetsShorter(QueuedIds(before.recs), QueuedIds(db.Abstract().recs), claim.value.job);
    } else {
      NoMoreInOrder(start, before, db.Abstract(), processed, claim, seenAt, locked, others);
    }
  }
}
