/** What every step of the queue keeps: who owns a running row, what a job's tables say
    about each other, and what each tenant has paid. */
module Safety {
  import opened Tables
  import opened Lifecycle
  import opened Queue

  // ------------------------------------------------------------ one step, one job

  /** The only ways a step can change a job. */
  predicate Edge(a: Record, b: Record) {
    && b.row.company == a.row.company
    && b.row.kind == a.row.kind
    && b.row.key == a.row.key
    && b.row.createdAt == a.row.createdAt
    && (|| (b.row.status == a.row.status && b.row.attempts == a.row.attempts && b.log == a.log)
        || (a.row.status == Queued && b.row.status == Running && b.log == a.log
            && b.row.attempts == a.row.attempts + 1 <= MAX_ATTEMPTS)
        || (a.row.status == Running && b.row.status == Done && b.row.attempts == a.row.attempts && Grows(a, b, EvCompleted))
        || (a.row.status == Running && b.row.status == Failed && b.row.attempts == a.row.attempts && Grows(a, b, EvFailed))
        || (IsActive(a.row.status) && b.row.status == Cancelled && b.row.attempts == a.row.attempts
            && if HasCancellation(a.log) then b.log == a.log else Grows(a, b, EvCancelled))
        || (a.row.status == Failed && b.row.status == Queued && b.row.attempts == a.row.attempts < MAX_ATTEMPTS
            && Grows(a, b, EvRetryRequested)))
  }

  predicate HasCancellation(log: seq<Event>) {
    exists e | e in log :: e.kind == EvCancelled
  }

  predicate Grows(a: Record, b: Record, kind: EventKind) {
    |b.log| == |a.log| + 1 && a.log == b.log[..|a.log|] && Last(b.log).kind == kind
  }

  lemma AppendGrows(a: Record, b: Record, e: Event)
    requires b.log == a.log + [e]
    ensures Grows(a, b, e.kind)
  {
  }

  lemma FailEdge(rec: Record, company: CompanyId, exhausted: bool, error: string, now: Time)
    requires rec.row.status == Running
    ensures Edge(rec, Fail(rec, company, exhausted, error, now))
  {
    AppendGrows(rec, Fail(rec, company, exhausted, error, now), Event(EvFailed, company, SYSTEM_ACTOR, now));
  }

  lemma CompleteEdge(rec: Record, company: CompanyId, now: Time)
    requires rec.row.status == Running
    ensures Edge(rec, Complete(rec, company, now))
  {
    AppendGrows(rec, Complete(rec, company, now), Event(EvCompleted, company, SYSTEM_ACTOR, now));
  }

  lemma RetryEdge(rec: Record, actor: string, now: Time)
    requires IsRetryable(rec.row)
    ensures Edge(rec, Retry(rec, actor, now))
  {
    AppendGrows(rec, Retry(rec, actor, now), Event(EvRetryRequested, rec.row.company, actor, now));
  }

  predicate Follows(s: State, s': State) {
    forall j | j in s.recs :: j in s'.recs && Edge(s.recs[j], s'.recs[j])
  }

  lemma RecoverFollows(s: State, now: Time, lease: Time)
    ensures Follows(s, DoRecoverStale(s, now, lease))
  {
    forall j | j in s.recs ensures Edge(s.recs[j], Recovered(s.recs[j], now, lease)) {
      if IsStale(s.recs[j].row, now, lease) {
        FailEdge(s.recs[j], s.recs[j].row.company, s.recs[j].row.attempts >= MAX_ATTEMPTS, LEASE_ERROR, now);
      }
    }
  }

  lemma ClaimFollows(s: State, w: WorkerId, now: Time, skip: set<JobId>)
    ensures Follows(s, DoClaimNext(s, w, now, skip))
  {
  }

  lemma FinalizeFollows(s: State, w: WorkerId, now: Time, raised: bool)
    ensures Follows(s, DoFinalize(s, w, now, raised))
  {
    if IsHolding(s, w) && Owns(s, w, s.workers[w].claim.job) {
      CompleteEdge(s.recs[s.workers[w].claim.job], s.workers[w].claim.company, now);
    }
  }

  lemma FailureFollows(s: State, w: WorkerId, now: Time, error: string)
    ensures Follows(s, DoRecordFailure(s, w, now, error))
  {
    if IsHolding(s, w) && Owns(s, w, s.workers[w].claim.job) {
      var claim := s.workers[w].claim;
      FailEdge(s.recs[claim.job], claim.company, claim.attempts >= MAX_ATTEMPTS, error, now);
    }
  }

  lemma WorkFollows(s: State, w: WorkerId, step: WorkerStep)
    ensures Follows(s, DoWork(s, w, step))
  {
    match step
    case ClaimNext(now, skip) => ClaimFollows(s, w, now, skip);
    case Finalize(now, raised) => FinalizeFollows(s, w, now, raised);
    case RecordFailure(now, error) => FailureFollows(s, w, now, error);
    case _ =>
  }

  /** A worker's transaction adds no row and leaves the requests of the API alone. */
  lemma WorkLeavesRequests(s: State, w: WorkerId, step: WorkerStep)
    ensures var s' := DoWork(s, w, step);
            s'.recs.Keys == s.recs.Keys && s'.requests == s.requests && s'.locks == s.locks && s'.nextId == s.nextId
  {
  }

  lemma ApplyFollows(s: State, r: RequestId, effect: Effect)
    requires r in s.requests
    ensures var s' := Apply(s, r, effect);
            && s'.workers == s.workers && s'.companies == s.companies
            && s'.recs == if effect.Publish? then s.recs[effect.id := NewRecord(effect.row, s.requests[r].actor)] else s.recs
  {
  }

  lemma OnlyCommitPublishes(s: State, q: Request, step: CreateStep)
    requires Decide(s, q, step).Publish?
    ensures step.Commit? && q.stage.Inserted? && q.stage.id !in s.recs
    ensures Decide(s, q, step) == Publish(q.stage.id, q.stage.row)
  {
  }

  /** The commit of request r makes its row visible. */
  predicate Publishes(s: State, r: RequestId, step: CreateStep) {
    step.Commit? && r in s.requests && s.requests[r].stage.Inserted? && s.requests[r].stage.id !in s.recs
  }

  /** The statements of POST /jobs touch no job, worker or company; its commit adds one row. */
  lemma CreateFollows(s: State, r: RequestId, step: CreateStep)
    ensures var s' := DoCreate(s, r, step);
            && s'.workers == s.workers && s'.companies == s.companies
            && s'.recs == if Publishes(s, r, step)
                          then s.recs[s.requests[r].stage.id := NewRecord(s.requests[r].stage.row, s.requests[r].actor)]
                          else s.recs
  {
    if !step.Begin? && r in s.requests {
      ApplyFollows(s, r, Decide(s, s.requests[r], step));
      if Decide(s, s.requests[r], step).Publish? {
        OnlyCommitPublishes(s, s.requests[r], step);
      }
    }
  }

  lemma CancelEdge(rec: Record, actor: string, now: Time)
    requires IsActive(rec.row.status)
    ensures Edge(rec, Cancel(rec, actor, now))
  {
    if !HasCancellation(rec.log) {
      AppendGrows(rec, Cancel(rec, actor, now), Event(EvCancelled, rec.row.company, actor, now));
    }
  }

  lemma CancelFollows(s: State, c: CompanyId, j: JobId, actor: string, now: Time)
    ensures Follows(s, DoCancelJob(s, c, j, actor, now))
  {
    if CanCancel(s, c, j) {
      CancelEdge(s.recs[j], actor, now);
    }
  }

  lemma RetryFollows(s: State, c: CompanyId, j: JobId, actor: string, now: Time)
    ensures Follows(s, DoRetryJob(s, c, j, actor, now))
  {
    if CanRetry(s, c, j) {
      RetryEdge(s.recs[j], actor, now);
    }
  }

  /** Statuses only move along the lifecycle, identity columns never change and no row
      disappears. */
  lemma StepsFollowLifecycle(s: State, step: Step)
    ensures Follows(s, Transact(s, step)) && Follows(s, Do(s, step))
  {
    match step
    case RecoverStale(now, lease) => RecoverFollows(s, now, lease);
    case Work(w, work) => WorkFollows(s, w, work);
    case CancelJob(c, j, actor, now) => CancelFollows(s, c, j, actor, now);
    case RetryJob(c, j, actor, now) => RetryFollows(s, c, j, actor, now);
    case Create(r, create) => CreateFollows(s, r, create);
  }

  /** The audit log of a job is append-only over every run. */
  lemma {:induction false} LogsOnlyGrow(s: State, steps: seq<Step>, j: JobId)
    requires j in s.recs
    ensures j in Run(s, steps).recs && s.recs[j].log <= Run(s, steps).recs[j].log
    decreases |steps|
  {
    if steps != [] {
      var t := Run(s, steps[..|steps| - 1]);
      LogsOnlyGrow(s, steps[..|steps| - 1], j);
      StepsFollowLifecycle(t, Last(steps));
      assert Edge(t.recs[j], Do(t, Last(steps)).recs[j]);
    }
  }

  /** POST /jobs is the only source of rows. */
  lemma RowsComeFromCommits(s: State, step: Step, j: JobId)
    requires j in Do(s, step).recs && j !in s.recs
    ensures step.Create? && Publishes(s, step.r, step.create) && s.requests[step.r].stage.id == j
  {
    match step
    case Work(w, work) => WorkLeavesRequests(s, w, work);
    case Create(r, create) => CreateFollows(s, r, create);
    case _ =>
  }

  // ------------------------------------------------------------------- fencing

  /** A running row names a live worker only if it is the very claim that worker holds:
      same job, same company, same attempt. */
  predicate Fenced(s: State) {
    forall j | j in s.recs && s.recs[j].row.status == Running && s.recs[j].row.worker.Some? ::
      FencedRow(s, j, s.recs[j].row)
  }

  predicate FencedRow(s: State, j: JobId, row: Job)
    requires row.worker.Some?
  {
    row.worker.value in s.workers ==>
      || s.workers[row.worker.value] == Crashed
      || s.workers[row.worker.value] == Holding(Claim(j, row.company, row.attempts))
  }

  lemma RecoverKeepsFences(s: State, now: Time, lease: Time)
    requires Fenced(s)
    ensures Fenced(DoRecoverStale(s, now, lease))
  {
    var s' := DoRecoverStale(s, now, lease);
    forall j | j in s'.recs && s'.recs[j].row.status == Running && s'.recs[j].row.worker.Some?
      ensures FencedRow(s', j, s'.recs[j].row)
    {
      assert s'.recs[j] == s.recs[j];
    }
  }

  lemma WorkKeepsFences(s: State, w: WorkerId, step: WorkerStep)
    requires Fenced(s)
    ensures Fenced(DoWork(s, w, step))
  {
  }

  /** The row of an uncommitted insert is what the statement wrote. */
  predicate PendingRowsNew(s: State) {
    forall r | r in s.requests && s.requests[r].stage.Inserted? :: PendingRowNew(s.requests[r])
  }

  predicate PendingRowNew(q: Request)
    requires q.stage.Inserted?
  {
    q.stage.row == NewRow(q.company, q.kind, q.key, q.stage.row.createdAt)
  }

  lemma ApplyKeepsPendingRows(s: State, r: RequestId, effect: Effect)
    requires r in s.requests && PendingRowsNew(s)
    requires effect.Move? ==> !effect.stage.Inserted?
    requires effect.DrawId? && effect.stage.Inserted? ==> PendingRowNew(s.requests[r].(stage := effect.stage))
    ensures PendingRowsNew(Apply(s, r, effect))
  {
  }

  lemma CreateKeepsPendingRows(s: State, r: RequestId, step: CreateStep)
    requires PendingRowsNew(s)
    ensures PendingRowsNew(DoCreate(s, r, step))
  {
    if !step.Begin? && r in s.requests {
      ApplyKeepsPendingRows(s, r, Decide(s, s.requests[r], step));
    }
  }

  lemma CreateKeepsFences(s: State, r: RequestId, step: CreateStep)
    requires Fenced(s) && PendingRowsNew(s)
    ensures Fenced(DoCreate(s, r, step))
  {
    CreateFollows(s, r, step);
    if Publishes(s, r, step) {
      assert PendingRowNew(s.requests[r]);
    }
  }

  lemma StepKeepsFences(s: State, step: Step)
    requires Fenced(s) && PendingRowsNew(s)
    ensures Fenced(Transact(s, step)) && PendingRowsNew(Transact(s, step))
    ensures Fenced(Do(s, step)) && PendingRowsNew(Do(s, step))
  {
    match step
    case RecoverStale(now, lease) => RecoverKeepsFences(s, now, lease);
    case Work(w, work) => WorkKeepsFences(s, w, work); WorkLeavesRequests(s, w, work);
    case CancelJob(_, _, _, _) =>
    case RetryJob(_, _, _, _) =>
    case Create(r, create) =>
      CreateKeepsPendingRows(s, r, create);
      CreateKeepsFences(s, r, create);
  }

  /** Whenever the guard `status = 'running' AND worker_id = mine` matches, the row is at the
      attempt the worker claimed: a stale worker can neither finish, fail nor renew a later
      claim, whatever was recovered, retried and claimed in between, and whatever the clocks
      said. An idle worker owns no row. Holds from any contents of the tables. */
  lemma {:induction false} GuardMatchesOwnClaim(s0: State, steps: seq<Step>, w: WorkerId)
    requires ColdStart(s0)
    ensures Fenced(Run(s0, steps)) && PendingRowsNew(Run(s0, steps))
    ensures var s := Run(s0, steps);
            && (IsHolding(s, w) && Owns(s, w, s.workers[w].claim.job) ==>
                  var claim := s.workers[w].claim;
                  s.recs[claim.job].row.attempts == claim.attempts && s.recs[claim.job].row.company == claim.company)
            && (IsIdle(s, w) ==> forall j :: !Owns(s, w, j))
    decreases |steps|
  {
    if steps != [] {
      var init := steps[..|steps| - 1];
      GuardMatchesOwnClaim(s0, init, w);
      StepKeepsFences(Run(s0, init), Last(steps));
    }
  }

  // -------------------------------------------------- one job across its tables

  predicate AllConsistent(s: State) {
    forall j | j in s.recs :: Consistent(s.recs[j])
  }

  predicate Healthy(s: State) {
    Fenced(s) && PendingRowsNew(s) && AllConsistent(s)
  }

  lemma RecoverKeepsConsistent(s: State, now: Time, lease: Time)
    requires AllConsistent(s)
    ensures AllConsistent(DoRecoverStale(s, now, lease))
  {
    forall j | j in s.recs ensures Consistent(Recovered(s.recs[j], now, lease)) {
      if IsStale(s.recs[j].row, now, lease) {
        FailIsConsistent(s.recs[j], LEASE_ERROR, now);
      }
    }
  }

  lemma OneConsistent(s: State, s': State, j: JobId, rec: Record)
    requires AllConsistent(s) && Consistent(rec) && s'.recs == s.recs[j := rec]
    ensures AllConsistent(s')
  {
  }

  lemma FinalizedRecs(s: State, w: WorkerId, now: Time, raised: bool)
    requires IsHolding(s, w) && Owns(s, w, s.workers[w].claim.job)
    ensures var claim := s.workers[w].claim;
            DoFinalize(s, w, now, raised).recs == s.recs[claim.job := Complete(s.recs[claim.job], claim.company, now)]
  {
  }

  lemma FinalizeKeepsConsistent(s: State, w: WorkerId, now: Time, raised: bool)
    requires Fenced(s) && AllConsistent(s)
    ensures AllConsistent(DoFinalize(s, w, now, raised))
  {
    if IsHolding(s, w) && Owns(s, w, s.workers[w].claim.job) {
      var j := s.workers[w].claim.job;
      assert FencedRow(s, j, s.recs[j].row);
      CompleteIsConsistent(s.recs[j], now);
      FinalizedRecs(s, w, now, raised);
      OneConsistent(s, DoFinalize(s, w, now, raised), j, Complete(s.recs[j], s.recs[j].row.company, now));
    }
  }

  lemma FailureKeepsConsistent(s: State, w: WorkerId, now: Time, error: string)
    requires Fenced(s) && AllConsistent(s)
    ensures AllConsistent(DoRecordFailure(s, w, now, error))
  {
    if IsHolding(s, w) && Owns(s, w, s.workers[w].claim.job) {
      var j := s.workers[w].claim.job;
      assert FencedRow(s, j, s.recs[j].row);
      FailIsConsistent(s.recs[j], error, now);
      OneConsistent(s, DoRecordFailure(s, w, now, error), j,
                    Fail(s.recs[j], s.recs[j].row.company, s.recs[j].row.attempts >= MAX_ATTEMPTS, error, now));
    }
  }

  lemma ClaimKeepsConsistent(s: State, w: WorkerId, now: Time, skip: set<JobId>)
    requires AllConsistent(s)
    ensures AllConsistent(DoClaimNext(s, w, now, skip))
  {
    if IsIdle(s, w) && EligibleIds(s.recs, now, skip) != {} {
      ClaimIsConsistent(s.recs[Least(EligibleIds(s.recs, now, skip))], w, now);
    }
  }

  lemma RenewKeepsConsistent(s: State, w: WorkerId, now: Time)
    requires AllConsistent(s)
    ensures AllConsistent(DoRenewLease(s, w, now))
  {
  }

  lemma AcknowledgeKeepsConsistent(s: State, w: WorkerId, now: Time)
    requires AllConsistent(s)
    ensures AllConsistent(DoAcknowledge(s, w, now))
  {
    AcknowledgeLeavesRows(s, w, now);
  }

  lemma WorkKeepsConsistent(s: State, w: WorkerId, step: WorkerStep)
    requires Fenced(s) && AllConsistent(s)
    ensures AllConsistent(DoWork(s, w, step))
  {
    match step
    case ClaimNext(now, skip) => ClaimKeepsConsistent(s, w, now, skip);
    case Finalize(now, raised) => FinalizeKeepsConsistent(s, w, now, raised);
    case RecordFailure(now, error) => FailureKeepsConsistent(s, w, now, error);
    case RenewLease(now) => RenewKeepsConsistent(s, w, now);
    case Acknowledge(now) => AcknowledgeKeepsConsistent(s, w, now);
    case _ =>
  }

  lemma ApiKeepsConsistent(s: State, step: Step)
    requires AllConsistent(s) && (step.CancelJob? || step.RetryJob?)
    ensures AllConsistent(Transact(s, step))
  {
    match step
    case CancelJob(c, j, actor, now) => CancelKeepsConsistent(s, c, j, actor, now);
    case RetryJob(c, j, actor, now) => RetryKeepsConsistent(s, c, j, actor, now);
  }

  lemma CancelKeepsConsistent(s: State, c: CompanyId, j: JobId, actor: string, now: Time)
    requires AllConsistent(s)
    ensures AllConsistent(DoCancelJob(s, c, j, actor, now))
  {
    if CanCancel(s, c, j) {
      CancelIsConsistent(s.recs[j], actor, now);
    }
  }

  lemma RetryKeepsConsistent(s: State, c: CompanyId, j: JobId, actor: string, now: Time)
    requires AllConsistent(s)
    ensures AllConsistent(DoRetryJob(s, c, j, actor, now))
  {
    if CanRetry(s, c, j) {
      RetryIsConsistent(s.recs[j], actor, now);
    }
  }

  lemma CreateKeepsConsistent(s: State, r: RequestId, step: CreateStep)
    requires PendingRowsNew(s) && AllConsistent(s)
    ensures AllConsistent(DoCreate(s, r, step))
  {
    CreateFollows(s, r, step);
    if Publishes(s, r, step) {
      var q := s.requests[r];
      assert PendingRowNew(q);
      NewIsConsistent(q.company, q.kind, q.key, q.actor, q.stage.row.createdAt);
    }
  }

  lemma StepKeepsHealthy(s: State, step: Step)
    requires Healthy(s)
    ensures Healthy(Transact(s, step)) && Healthy(Do(s, step))
  {
    StepKeepsFences(s, step);
    match step
    case RecoverStale(now, lease) => RecoverKeepsConsistent(s, now, lease);
    case Work(w, work) => WorkKeepsConsistent(s, w, work);
    case CancelJob(_, _, _, _) => ApiKeepsConsistent(s, step);
    case RetryJob(_, _, _, _) => ApiKeepsConsistent(s, step);
    case Create(r, create) => CreateKeepsConsistent(s, r, create);
  }

  lemma {:induction false} RunsAreHealthy(s0: State, steps: seq<Step>)
    requires EmptyStart(s0)
    ensures Healthy(Run(s0, steps))
    decreases |steps|
  {
    if steps != [] {
      RunsAreHealthy(s0, steps[..|steps| - 1]);
      StepKeepsHealthy(Run(s0, steps[..|steps| - 1]), Last(steps));
    }
  }

  lemma {:induction false} HealthStays(s: State, steps: seq<Step>)
    requires Healthy(s)
    ensures Healthy(Run(s, steps))
    decreases |steps|
  {
    if steps != [] {
      HealthStays(s, steps[..|steps| - 1]);
      StepKeepsHealthy(Run(s, steps[..|steps| - 1]), Last(steps));
    }
  }

  /** From an empty jobs table, a job's audit events in insertion order spell
      submitted (failed retry_requested)^n and at most one closing event, the closing event
      names the row's status, and n, the failures and the attempts determine each other. */
  lemma AuditLogReplaysToRow(s0: State, steps: seq<Step>, s: State, j: JobId)
    requires EmptyStart(s0) && s == Run(s0, steps) && j in s.recs
    ensures var row := s.recs[j].row;
            var r := Fold(s.recs[j].log);
            && r.At? && r.phase == PhaseOf(row.status)
            && Kinds(s.recs[j].log) == Word(r.phase, r.retries)
            && match row.status
               case Queued => row.attempts == r.failures == r.retries < MAX_ATTEMPTS
               case Running => row.attempts == r.failures + 1 == r.retries + 1 <= MAX_ATTEMPTS
               case Failed => row.attempts == r.failures == r.retries + 1 <= MAX_ATTEMPTS
               case Done => row.attempts == r.failures + 1 == r.retries + 1 <= MAX_ATTEMPTS
               case Cancelled => r.failures == r.retries <= row.attempts <= r.failures + 1
  {
    RunsAreHealthy(s0, steps);
    assert Consistent(s.recs[j]);
    LogIsWord(s.recs[j].log);
  }

  /** From an empty jobs table, the status decides which columns of a row are null: nobody owns a
      row that is not running, exactly the failed rows say why, and a failed or untried row waits
      for no back-off. Row and log carry the same times, and only the worker fails or completes. */
  lemma RowsMatchTheirStatus(s0: State, steps: seq<Step>, s: State, j: JobId)
    requires EmptyStart(s0) && s == Run(s0, steps) && j in s.recs
    ensures ColumnsFollowStatus(s.recs[j].row) && Stamped(s.recs[j])
  {
    RunsAreHealthy(s0, steps);
    assert Consistent(s.recs[j]);
  }

  /** The dead letter repeats the row it was copied from. */
  predicate Repeats(d: DeadLetter, row: Job) {
    && d.company == row.company
    && d.kind == row.kind
    && d.attempts == row.attempts
    && d.jobCreatedAt == row.createdAt
    && d.failedAt == row.updatedAt
    && row.lastError == Some(d.lastError)
  }

  lemma DeadLetterRepeatsRow(rec: Record)
    requires Consistent(rec)
    ensures rec.dead != [] <==> rec.row.status == Failed && rec.row.attempts == MAX_ATTEMPTS
    ensures |rec.dead| <= 1 && forall d | d in rec.dead :: Repeats(d, rec.row)
  {
    assert DeadLetterExact(rec);
  }

  /** From an empty jobs table, a job has a dead letter iff it failed its third attempt, and
      then exactly one, which repeats the row, whether a worker wrote it from its own count of
      attempts or the recovery of stale leases from the row. */
  lemma DeadLettersAreExact(s0: State, steps: seq<Step>, s: State, j: JobId)
    requires EmptyStart(s0) && s == Run(s0, steps) && j in s.recs
    ensures s.recs[j].dead != [] <==> s.recs[j].row.status == Failed && s.recs[j].row.attempts == MAX_ATTEMPTS
    ensures |s.recs[j].dead| <= 1 && forall d | d in s.recs[j].dead :: Repeats(d, s.recs[j].row)
  {
    RunsAreHealthy(s0, steps);
    DeadLetterRepeatsRow(s.recs[j]);
  }

  predicate IsTerminal(row: Job) {
    row.status == Done || row.status == Cancelled || IsExhausted(row)
  }

  lemma AcknowledgeLeavesRows(s: State, w: WorkerId, now: Time)
    requires AllConsistent(s)
    ensures DoAcknowledge(s, w, now).recs == s.recs
  {
    if IsHolding(s, w) && s.workers[w].claim.job in s.recs {
      assert Consistent(s.recs[s.workers[w].claim.job]);
    }
  }

  lemma WorkLeavesSettled(s: State, w: WorkerId, step: WorkerStep, j: JobId)
    requires !step.Acknowledge? && j in s.recs && !IsActive(s.recs[j].row.status)
    ensures j in DoWork(s, w, step).recs && DoWork(s, w, step).recs[j] == s.recs[j]
  {
  }

  lemma WorkLeavesTerminal(s: State, w: WorkerId, step: WorkerStep, j: JobId)
    requires AllConsistent(s) && j in s.recs && IsTerminal(s.recs[j].row)
    ensures j in DoWork(s, w, step).recs && DoWork(s, w, step).recs[j] == s.recs[j]
  {
    if step.Acknowledge? {
      AcknowledgeLeavesRows(s, w, step.now);
    } else {
      WorkLeavesSettled(s, w, step, j);
    }
  }

  lemma ApiLeavesTerminal(s: State, step: Step, j: JobId)
    requires step.RecoverStale? || step.CancelJob? || step.RetryJob?
    requires j in s.recs && IsTerminal(s.recs[j].row)
    ensures j in Transact(s, step).recs && Transact(s, step).recs[j] == s.recs[j]
  {
  }

  lemma StepLeavesTerminal(s: State, step: Step, j: JobId)
    requires AllConsistent(s) && j in s.recs && IsTerminal(s.recs[j].row)
    ensures j in Do(s, step).recs && Do(s, step).recs[j] == s.recs[j]
  {
    if !Waits(s, step) {
      TransactLeavesTerminal(s, step, j);
    }
  }

  lemma TransactLeavesTerminal(s: State, step: Step, j: JobId)
    requires AllConsistent(s) && j in s.recs && IsTerminal(s.recs[j].row)
    ensures j in Transact(s, step).recs && Transact(s, step).recs[j] == s.recs[j]
  {
    match step
    case Work(w, work) => WorkLeavesTerminal(s, w, work, j);
    case Create(r, create) => CreateFollows(s, r, create);
    case _ => ApiLeavesTerminal(s, step, j);
  }

  /** Nothing ever happens again to a job that is done, cancelled or exhausted. */
  lemma {:induction false} TerminalJobsAreFrozen(s: State, steps: seq<Step>, j: JobId)
    requires Healthy(s) && j in s.recs && IsTerminal(s.recs[j].row)
    ensures Healthy(Run(s, steps)) && j in Run(s, steps).recs && Run(s, steps).recs[j] == s.recs[j]
    decreases |steps|
  {
    if steps != [] {
      var t := Run(s, steps[..|steps| - 1]);
      TerminalJobsAreFrozen(s, steps[..|steps| - 1], j);
      StepKeepsHealthy(t, Last(steps));
      StepLeavesTerminal(t, Last(steps), j);
    }
  }

  /** A claim takes the least eligible row that no other transaction has locked, for an idle
      worker, and no other row. */
  lemma ClaimTakesOldestFree(s: State, w: WorkerId, now: Time, skip: set<JobId>, j: JobId)
    requires j in s.recs
    ensures DoClaimNext(s, w, now, skip).recs[j] != s.recs[j] <==>
              && IsIdle(s, w) && j !in skip && IsEligible(s.recs[j].row, now)
              && forall i | i in s.recs && i < j :: i in skip || !IsEligible(s.recs[i].row, now)
  {
    var ids := EligibleIds(s.recs, now, skip);
    assert forall i | i in s.recs :: i in ids <==> i !in skip && IsEligible(s.recs[i].row, now);
    if IsIdle(s, w) && ids != {} {
      assert j == Least(ids) <==> j in ids && forall i | i in s.recs && i < j :: i !in ids;
      assert Least(ids) in ids && ClaimedRow(s.recs[Least(ids)].row, w, now).status != Queued;
    }
  }

  lemma ClaimIsLate(s: State, w: WorkerId, now: Time, skip: set<JobId>, j: JobId)
    requires j in s.recs && s.recs[j].row.status == Queued && DoClaimNext(s, w, now, skip).recs[j].row.status == Running
    ensures IsEligible(s.recs[j].row, now)
    ensures DoClaimNext(s, w, now, skip).recs[j].row.attempts == s.recs[j].row.attempts + 1
  {
  }

  lemma EligibleHasWaited(rec: Record, now: Time)
    requires Consistent(rec) && IsEligible(rec.row, now) && rec.row.attempts >= 1
    ensures rec.log != [] && Last(rec.log).kind == EvRetryRequested && rec.row.attempts <= 2
    ensures now - Last(rec.log).at >= if rec.row.attempts == 1 then 5_000_000 else 10_000_000
  {
    BackoffDoubles(1);
  }

  /** The second claim of a job comes at least 5 s after the retry that queued it, the third at least
      10 s, measured between the two transactions' own now(). */
  lemma ClaimWaitsForBackoff(s0: State, steps: seq<Step>, s: State, w: WorkerId, now: Time, skip: set<JobId>, j: JobId, k: nat)
    requires EmptyStart(s0) && s == Run(s0, steps)
    requires j in s.recs && s.recs[j].row.status == Queued && DoClaimNext(s, w, now, skip).recs[j].row.status == Running
    requires k == DoClaimNext(s, w, now, skip).recs[j].row.attempts >= 2
    ensures s.recs[j].log != [] && Last(s.recs[j].log).kind == EvRetryRequested
    ensures k <= 3 && now - Last(s.recs[j].log).at >= if k == 2 then 5_000_000 else 10_000_000
  {
    RunsAreHealthy(s0, steps);
    ClaimHasWaited(s, w, now, skip, j);
  }

  lemma ClaimHasWaited(s: State, w: WorkerId, now: Time, skip: set<JobId>, j: JobId)
    requires AllConsistent(s)
    requires j in s.recs && s.recs[j].row.status == Queued && DoClaimNext(s, w, now, skip).recs[j].row.status == Running
    ensures var k := DoClaimNext(s, w, now, skip).recs[j].row.attempts;
            k >= 2 ==>
              && s.recs[j].log != [] && Last(s.recs[j].log).kind == EvRetryRequested
              && k <= 3 && now - Last(s.recs[j].log).at >= if k == 2 then 5_000_000 else 10_000_000
  {
    ClaimIsLate(s, w, now, skip, j);
    if s.recs[j].row.attempts >= 1 {
      EligibleHasWaited(s.recs[j], now);
    }
  }

  /** A queued job can be claimed at once if nobody has retried it yet, and else exactly from the
      end of its back-off on, as its audit log tells. */
  lemma EligibleExactlyWhenDue(s0: State, steps: seq<Step>, s: State, now: Time, j: JobId)
    requires EmptyStart(s0) && s == Run(s0, steps) && j in s.recs
    ensures s.recs[j].log != []
    ensures j in EligibleIds(s.recs, now, {}) <==>
              && s.recs[j].row.status == Queued
              && (|| |s.recs[j].log| == 1
                  || (s.recs[j].row.attempts == 1 && now >= Last(s.recs[j].log).at + 5_000_000)
                  || (s.recs[j].row.attempts == 2 && now >= Last(s.recs[j].log).at + 10_000_000))
  {
    RunsAreHealthy(s0, steps);
    var rec := s.recs[j];
    assert Consistent(rec);
    BackoffDoubles(1);
    if rec.row.status == Queued {
      LogIsWord(rec.log);
      assert |Kinds(rec.log)| == |rec.log|;
      RoundsAreTwo(rec.row.attempts);
    }
  }

  lemma {:induction false} RoundsAreTwo(n: nat)
    ensures |Rounds(n)| == 2 * n
  {
    if n > 0 {
      RoundsAreTwo(n - 1);
    }
  }

  // ------------------------------------------------------------------- billing

  function ResultIds(recs: map<JobId, Record>, c: CompanyId): set<JobId> {
    set j | j in recs && recs[j].row.company == c && recs[j].result.Some?
  }

  function DoneIds(recs: map<JobId, Record>, c: CompanyId): set<JobId> {
    set j | j in recs && recs[j].row.company == c && recs[j].row.status == Done
  }

  /** What a tenant has left plus what it was given. */
  function Assets(s: State, c: CompanyId): int
    requires c in s.companies
  {
    s.companies[c].jobQuota + |ResultIds(s.recs, c)|
  }

  /** A finalize that matches gives the job a result and takes one from the quota of the job's
      own company, unless a result was already there. */
  lemma CompletedResult(s: State, w: WorkerId, now: Time, raised: bool, c: CompanyId, j: JobId)
    requires c in s.companies
    requires IsHolding(s, w) && Owns(s, w, j) && s.workers[w].claim.job == j && s.workers[w].claim.company == s.recs[j].row.company
    ensures var s' := DoFinalize(s, w, now, raised);
            var paid := s.recs[j].row.company == c && s.recs[j].result == None;
            && ResultIds(s'.recs, c) == ResultIds(s.recs, c) + (if paid then {j} else {})
            && c in s'.companies
            && s'.companies[c].jobQuota == s.companies[c].jobQuota - (if paid then 1 else 0)
  {
    assert DoFinalize(s, w, now, raised).recs == s.recs[j := Complete(s.recs[j], s.recs[j].row.company, now)];
  }

  lemma FinalizeKeepsAssets(s: State, w: WorkerId, now: Time, raised: bool, c: CompanyId)
    requires Fenced(s) && c in s.companies
    ensures var s' := DoFinalize(s, w, now, raised);
            c in s'.companies && Assets(s', c) == Assets(s, c)
  {
    if IsHolding(s, w) && Owns(s, w, s.workers[w].claim.job) {
      var j := s.workers[w].claim.job;
      assert FencedRow(s, j, s.recs[j].row);
      CompletedResult(s, w, now, raised, c, j);
    }
  }

  lemma WorkKeepsAssets(s: State, w: WorkerId, step: WorkerStep, c: CompanyId)
    requires !step.Finalize?
    ensures ResultIds(DoWork(s, w, step).recs, c) == ResultIds(s.recs, c) && DoWork(s, w, step).companies == s.companies
  {
  }

  lemma RecoverKeepsAssets(s: State, now: Time, lease: Time, c: CompanyId)
    ensures ResultIds(DoRecoverStale(s, now, lease).recs, c) == ResultIds(s.recs, c)
  {
  }

  lemma CreateKeepsAssets(s: State, r: RequestId, step: CreateStep, c: CompanyId)
    ensures ResultIds(DoCreate(s, r, step).recs, c) == ResultIds(s.recs, c) && DoCreate(s, r, step).companies == s.companies
  {
    CreateFollows(s, r, step);
  }

  lemma ApiKeepsAssets(s: State, step: Step, c: CompanyId)
    requires step.CancelJob? || step.RetryJob?
    ensures ResultIds(Transact(s, step).recs, c) == ResultIds(s.recs, c) && Transact(s, step).companies == s.companies
  {
  }

  lemma StepKeepsAssets(s: State, step: Step, c: CompanyId)
    requires Fenced(s) && c in s.companies
    ensures c in Do(s, step).companies && Assets(Do(s, step), c) == Assets(s, c)
  {
    match step
    case RecoverStale(now, lease) => RecoverKeepsAssets(s, now, lease, c);
    case Work(w, work) =>
      if work.Finalize? { FinalizeKeepsAssets(s, w, work.now, work.raised, c); } else { WorkKeepsAssets(s, w, work, c); }
    case CancelJob(_, _, _, _) => ApiKeepsAssets(s, step, c);
    case RetryJob(_, _, _, _) => ApiKeepsAssets(s, step, c);
    case Create(r, create) => CreateKeepsAssets(s, r, create, c);
  }

  /** Conservation, from any contents of the tables: over any interleaving with crashes, stalls
      and arbitrary lease expiry, a tenant's quota and the number of its results sum to a constant. */
  lemma {:induction false} QuotaPlusResultsIsConstant(s0: State, steps: seq<Step>, c: CompanyId)
    requires ColdStart(s0) && c in s0.companies
    ensures c in Run(s0, steps).companies && Assets(Run(s0, steps), c) == Assets(s0, c)
    decreases |steps|
  {
    if steps != [] {
      var init := steps[..|steps| - 1];
      QuotaPlusResultsIsConstant(s0, init, c);
      GuardMatchesOwnClaim(s0, init, 0);
      StepKeepsAssets(Run(s0, init), Last(steps), c);
    }
  }

  /** From an empty jobs table the tenant has paid exactly once for each job that is done,
      every done job has its result, made out to its own tenant, and no other job has one. */
  lemma BillingIsExactlyOnce(s0: State, steps: seq<Step>, s: State, c: CompanyId)
    requires EmptyStart(s0) && s == Run(s0, steps) && c in s0.companies
    ensures c in s.companies && s0.companies[c].jobQuota - s.companies[c].jobQuota == |DoneIds(s.recs, c)|
    ensures forall j | j in s.recs ::
              s.recs[j].result == if s.recs[j].row.status == Done then Some(Payload(s.recs[j].row.company)) else None
  {
    RunsAreHealthy(s0, steps);
    QuotaPlusResultsIsConstant(s0, steps, c);
    assert forall j | j in s.recs :: Consistent(s.recs[j]);
    assert ResultIds(s.recs, c) == DoneIds(s.recs, c);
    assert ResultIds(s0.recs, c) == {};
  }
}
