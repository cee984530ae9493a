/** The queue protocol as a state machine. Each step is one database transaction of a
    worker or of an API request, except that POST /jobs is split at every statement
    another session can get in between. A step whose guard fails changes nothing, as an
    UPDATE that matches no row; neither does one that waits for a lock. Every transaction brings its own now(): the clocks of
    different steps are unrelated. */
module Queue {
  import opened Tables
  import opened Lifecycle

  /** What a worker process remembers of the job it claimed. */
  datatype Claim = Claim(job: JobId, company: CompanyId, attempts: int)

  datatype Local = Idle | Holding(claim: Claim) | Crashed

  datatype Response =
    | Created(id: JobId)
    | Replayed(id: JobId, status: Status)
    | KeyConflict(existingKind: string)
    | UnknownCompany
    | LimitReached(limit: int, running: nat)
    | Aborted

  /** How far a POST /jobs request has come. From Locked to Conflicted it holds the row
      lock of its company; Inserted keeps the row no other session can see yet. */
  datatype Stage =
    | Started
    | WantsLock
    | Locked(limit: int)
    | Checked(limit: int)
    | Counted
    | Inserted(id: JobId, row: Job)
    | Conflicted
    | Replied(response: Response)

  datatype Request = Request(company: CompanyId, kind: string, key: string, actor: string, stage: Stage)

  datatype State = State(
    recs: map<JobId, Record>,
    companies: map<CompanyId, Company>,
    nextId: JobId,
    workers: map<WorkerId, Local>,
    requests: map<RequestId, Request>,
    locks: map<CompanyId, RequestId>)

  /** The transactions of one worker process. */
  datatype WorkerStep =
    | StartWorker
    | Crash
    | ClaimNext(now: Time, skip: set<JobId>)
    | RenewLease(now: Time)
    | Finalize(now: Time, raised: bool)
    | Acknowledge(now: Time)
    | RecordFailure(now: Time, error: string)

  /** The statements of one POST /jobs request. */
  datatype CreateStep =
    | Begin(company: CompanyId, kind: string, key: string, actor: string)
    | Lookup
    | LockCompany
    | Relookup
    | CountActive
    | Insert(now: Time)
    | ResolveConflict
    | Commit
    | Abort

  datatype Step =
    | RecoverStale(now: Time, lease: Time)
    | Work(w: WorkerId, work: WorkerStep)
    | CancelJob(company: CompanyId, job: JobId, actor: string, now: Time)
    | RetryJob(company: CompanyId, job: JobId, actor: string, now: Time)
    | Create(r: RequestId, create: CreateStep)

  const LEASE_ERROR := "WorkerLeaseExpired: worker parou antes de finalizar o job"

  // ----------------------------------------------------------------- helpers

  predicate IsIdle(s: State, w: WorkerId) {
    w in s.workers && s.workers[w] == Idle
  }

  predicate IsHolding(s: State, w: WorkerId) {
    w in s.workers && s.workers[w].Holding?
  }

  /** WHERE id = job AND status = 'running' AND worker_id = w. */
  predicate Owns(s: State, w: WorkerId, j: JobId) {
    j in s.recs && IsOwnedBy(s.recs[j].row, w)
  }

  function EligibleIds(recs: map<JobId, Record>, now: Time, skip: set<JobId>): set<JobId> {
    set j | j in recs && j !in skip && IsEligible(recs[j].row, now)
  }

  function ActiveIds(recs: map<JobId, Record>, c: CompanyId): set<JobId> {
    set j | j in recs && recs[j].row.company == c && IsActive(recs[j].row.status)
  }

  function KeyedIds(recs: map<JobId, Record>, c: CompanyId, key: string): set<JobId> {
    set j | j in recs && recs[j].row.company == c && recs[j].row.key == Some(key)
  }

  function FindByKey(recs: map<JobId, Record>, c: CompanyId, key: string): Option<JobId> {
    if KeyedIds(recs, c, key) == {} then None else Some(Least(KeyedIds(recs, c, key)))
  }

  function ReplayOf(recs: map<JobId, Record>, j: JobId, kind: string): Response
    requires j in recs
  {
    if recs[j].row.kind != kind then KeyConflict(recs[j].row.kind) else Replayed(j, recs[j].row.status)
  }

  function Charge(companies: map<CompanyId, Company>, c: CompanyId): map<CompanyId, Company> {
    if c in companies then companies[c := companies[c].(jobQuota := companies[c].jobQuota - 1)] else companies
  }

  // ---------------------------------------------------------- worker transactions

  function DoStartWorker(s: State, w: WorkerId): State {
    if w in s.workers || exists j | j in s.recs :: s.recs[j].row.worker == Some(w) then s
    else s.(workers := s.workers[w := Idle])
  }

  function DoCrash(s: State, w: WorkerId): State {
    if w in s.workers then s.(workers := s.workers[w := Crashed]) else s
  }

  function Recovered(rec: Record, now: Time, lease: Time): Record {
    if IsStale(rec.row, now, lease)
    then Fail(rec, rec.row.company, rec.row.attempts >= MAX_ATTEMPTS, LEASE_ERROR, now)
    else rec
  }

  function DoRecoverStale(s: State, now: Time, lease: Time): State {
    s.(recs := map j | j in s.recs :: Recovered(s.recs[j], now, lease))
  }

  /** `skip` holds the rows other transactions have locked: SKIP LOCKED passes over them. */
  function DoClaimNext(s: State, w: WorkerId, now: Time, skip: set<JobId>): State {
    var ids := EligibleIds(s.recs, now, skip);
    if !IsIdle(s, w) || ids == {} then s
    else
      var j := Least(ids);
      var row := ClaimedRow(s.recs[j].row, w, now);
      s.(recs := s.recs[j := s.recs[j].(row := row)],
         workers := s.workers[w := Holding(Claim(j, row.company, row.attempts))])
  }

  function DoRenewLease(s: State, w: WorkerId, now: Time): State {
    if IsHolding(s, w) && Owns(s, w, s.workers[w].claim.job) then
      var rec := s.recs[s.workers[w].claim.job];
      s.(recs := s.recs[s.workers[w].claim.job := rec.(row := rec.row.(lockedAt := Some(now)))])
    else s
  }

  /** `raised`: the commit went through but the worker saw an exception, so it still holds
      its claim and goes on to record a failure. */
  function DoFinalize(s: State, w: WorkerId, now: Time, raised: bool): State {
    if !IsHolding(s, w) then s
    else
      var claim := s.workers[w].claim;
      var t :=
        if !Owns(s, w, claim.job) then s
        else
          var rec := s.recs[claim.job];
          s.(recs := s.recs[claim.job := Complete(rec, claim.company, now)],
             companies := if rec.result == None then Charge(s.companies, claim.company) else s.companies);
      if raised then t else t.(workers := t.workers[w := Idle])
  }

  /** The worker stops only if the row it reads is cancelled. */
  function DoAcknowledge(s: State, w: WorkerId, now: Time): State {
    if !IsHolding(s, w) then s
    else
      var j := s.workers[w].claim.job;
      if j in s.recs && s.recs[j].row.status == Cancelled then
        var rec := s.recs[j];
        s.(recs := if rec.row.worker == Some(w) then s.recs[j := rec.(row := Release(rec.row, Cancelled, now))] else s.recs,
           workers := s.workers[w := Idle])
      else s
  }

  function DoRecordFailure(s: State, w: WorkerId, now: Time, error: string): State {
    if !IsHolding(s, w) then s
    else
      var claim := s.workers[w].claim;
      var t :=
        if !Owns(s, w, claim.job) then s
        else s.(recs := s.recs[claim.job :=
                 Fail(s.recs[claim.job], claim.company, claim.attempts >= MAX_ATTEMPTS, error, now)]);
      t.(workers := t.workers[w := Idle])
  }

  // ------------------------------------------------------------- API transactions

  predicate CanCancel(s: State, c: CompanyId, j: JobId) {
    j in s.recs && s.recs[j].row.company == c && IsActive(s.recs[j].row.status)
  }

  function DoCancelJob(s: State, c: CompanyId, j: JobId, actor: string, now: Time): State {
    if CanCancel(s, c, j) then s.(recs := s.recs[j := Cancel(s.recs[j], actor, now)]) else s
  }

  predicate CanRetry(s: State, c: CompanyId, j: JobId) {
    j in s.recs && s.recs[j].row.company == c && IsRetryable(s.recs[j].row)
  }

  function DoRetryJob(s: State, c: CompanyId, j: JobId, actor: string, now: Time): State {
    if CanRetry(s, c, j) then s.(recs := s.recs[j := Retry(s.recs[j], actor, now)]) else s
  }


  // ------------------------------------------------------------------ POST /jobs

  /** What a statement of a request does to the request and to the database. */
  datatype Effect =
    | Stay
    | Move(stage: Stage)
    | TakeLock(limit: int)
    | DrawId(stage: Stage)
    | Answer(response: Response)
    | Publish(id: JobId, row: Job)

  predicate IsPending(s: State, r: RequestId, c: CompanyId, key: string) {
    r in s.requests && s.requests[r].stage.Inserted? && s.requests[r].company == c && s.requests[r].key == key
  }

  function LookupOr(s: State, q: Request, otherwise: Effect): Effect {
    match FindByKey(s.recs, q.company, q.key)
    case Some(j) => Answer(ReplayOf(s.recs, j, q.kind))
    case None => otherwise
  }

  /** The statements in their order; one that comes out of turn stays. Abort is a rollback: the
      client went away, the process died or a statement raised. */
  function Decide(s: State, q: Request, step: CreateStep): Effect {
    match (step, q.stage)
    case (Lookup, Started) => LookupOr(s, q, Move(WantsLock))
    case (LockCompany, WantsLock) =>
      if q.company !in s.companies then Answer(UnknownCompany)
      else if q.company in s.locks then Stay
      else TakeLock(s.companies[q.company].maxConcurrentJobs)
    case (Relookup, Locked(limit)) => LookupOr(s, q, Move(Checked(limit)))
    case (CountActive, Checked(limit)) =>
      var running := |ActiveIds(s.recs, q.company)|;
      if running >= limit then Answer(LimitReached(limit, running)) else Move(Counted)
    case (Insert(now), Counted) =>
      // the sequence advances even when ON CONFLICT DO NOTHING drops the row; a key that another
      // open transaction has inserted makes the statement wait
      if KeyedIds(s.recs, q.company, q.key) != {} then DrawId(Conflicted)
      else if exists o | o in s.requests :: IsPending(s, o, q.company, q.key) then Stay
      else DrawId(Inserted(s.nextId, NewRow(q.company, q.kind, q.key, now)))
    case (ResolveConflict, Conflicted) => LookupOr(s, q, Answer(Aborted))
    case (Commit, Inserted(id, row)) => if id in s.recs then Answer(Aborted) else Publish(id, row)
    case (Abort, stage) => if stage.Replied? then Stay else Answer(Aborted)
    case _ => Stay
  }

  function Goto(s: State, r: RequestId, stage: Stage): State
    requires r in s.requests
  {
    s.(requests := s.requests[r := s.requests[r].(stage := stage)])
  }

  /** The response ends the transaction, which releases the company row. */
  function Reply(s: State, r: RequestId, response: Response): State
    requires r in s.requests
  {
    Goto(s, r, Replied(response)).(locks := map c | c in s.locks && s.locks[c] != r :: s.locks[c])
  }

  function Apply(s: State, r: RequestId, effect: Effect): State
    requires r in s.requests
  {
    match effect
    case Stay => s
    case Move(stage) => Goto(s, r, stage)
    case TakeLock(limit) => Goto(s, r, Locked(limit)).(locks := s.locks[s.requests[r].company := r])
    case DrawId(stage) => Goto(s, r, stage).(nextId := s.nextId + 1)
    case Answer(response) => Reply(s, r, response)
    case Publish(id, row) => Reply(s.(recs := s.recs[id := NewRecord(row, s.requests[r].actor)]), r, Created(id))
  }

  function DoCreate(s: State, r: RequestId, step: CreateStep): State {
    if step.Begin? then
      if r in s.requests then s
      else s.(requests := s.requests[r := Request(step.company, step.kind, step.key, step.actor, Started)])
    else if r !in s.requests then s
    else Apply(s, r, Decide(s, s.requests[r], step))
  }

  // -------------------------------------------------------------------- runs

  function DoWork(s: State, w: WorkerId, step: WorkerStep): State {
    match step
    case StartWorker => DoStartWorker(s, w)
    case Crash => DoCrash(s, w)
    case ClaimNext(now, skip) => DoClaimNext(s, w, now, skip)
    case RenewLease(now) => DoRenewLease(s, w, now)
    case Finalize(now, raised) => DoFinalize(s, w, now, raised)
    case Acknowledge(now) => DoAcknowledge(s, w, now)
    case RecordFailure(now, error) => DoRecordFailure(s, w, now, error)
  }

  /** A transaction that has matched its rows inserts their audit events, and the foreign key of
      an event share-locks the company's row: it cannot go on while a request holds that row. */
  predicate Waits(s: State, step: Step) {
    match step
    case RecoverStale(now, lease) => exists j | j in s.recs :: IsStale(s.recs[j].row, now, lease) && s.recs[j].row.company in s.locks
    case Work(w, work) =>
      && (work.Finalize? || work.RecordFailure?)
      && IsHolding(s, w) && Owns(s, w, s.workers[w].claim.job) && s.workers[w].claim.company in s.locks
    case CancelJob(c, j, _, _) => CanCancel(s, c, j) && c in s.locks
    case RetryJob(c, j, _, _) => CanRetry(s, c, j) && c in s.locks
    case Create(_, _) => false
  }

  /** A transaction that waits has done nothing yet that others can see. */
  function Do(s: State, step: Step): State {
    if Waits(s, step) then s else Transact(s, step)
  }

  function Transact(s: State, step: Step): State {
    match step
    case RecoverStale(now, lease) => DoRecoverStale(s, now, lease)
    case Work(w, work) => DoWork(s, w, work)
    case CancelJob(c, j, actor, now) => DoCancelJob(s, c, j, actor, now)
    case RetryJob(c, j, actor, now) => DoRetryJob(s, c, j, actor, now)
    case Create(r, create) => DoCreate(s, r, create)
  }

  /** Any interleaving of any number of workers and requests. */
  function Run(s: State, steps: seq<Step>): State
    decreases |steps|
  {
    if steps == [] then s else Do(Run(s, steps[..|steps| - 1]), Last(steps))
  }

  /** No process is alive yet; the tables may hold anything. */
  predicate ColdStart(s: State) {
    s.workers == map[] && s.requests == map[] && s.locks == map[]
  }

  /** A cold start with an empty jobs table. */
  predicate EmptyStart(s: State) {
    && ColdStart(s)
    && s.recs == map[]
    && forall c | c in s.companies :: s.companies[c].maxConcurrentJobs > 0
  }
}
