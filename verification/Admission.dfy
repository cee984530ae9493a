/** POST /jobs under any interleaving of its statements with every other transaction:
    idempotency keys and the concurrency limit. */
module Admission {
  import opened Tables
  import opened Lifecycle
  import opened Queue
  import opened Safety

  /** What every transaction other than a POST /jobs leaves as it is. */
  predicate Quiet(s: State, s': State) {
    && Follows(s, s')
    && s'.recs.Keys == s.recs.Keys
    && s'.requests == s.requests
    && s'.locks == s.locks
    && s'.nextId == s.nextId
    && SameLimits(s, s')
  }

  predicate SameLimits(s: State, s': State) {
    && s'.companies.Keys == s.companies.Keys
    && forall c | c in s.companies :: s'.companies[c].maxConcurrentJobs == s.companies[c].maxConcurrentJobs
  }

  lemma WorkKeepsLimits(s: State, w: WorkerId, step: WorkerStep)
    ensures SameLimits(s, DoWork(s, w, step))
  {
  }

  lemma WorkIsQuiet(s: State, w: WorkerId, step: WorkerStep)
    ensures Quiet(s, DoWork(s, w, step))
  {
    WorkFollows(s, w, step);
    WorkLeavesRequests(s, w, step);
    WorkKeepsLimits(s, w, step);
  }

  lemma ApiLeavesRequests(s: State, step: Step)
    requires !step.Create? && !step.Work?
    ensures var s' := Transact(s, step);
            && s'.recs.Keys == s.recs.Keys && s'.requests == s.requests && s'.locks == s.locks
            && s'.nextId == s.nextId && s'.companies == s.companies
  {
  }

  lemma OthersAreQuiet(s: State, step: Step)
    requires !step.Create?
    ensures Quiet(s, Do(s, step))
  {
    if step.Work? {
      WorkIsQuiet(s, step.w, step.work);
    } else {
      StepsFollowLifecycle(s, step);
      ApiLeavesRequests(s, step);
    }
  }

  // ------------------------------------------------------------ company lock

  predicate HoldsLock(stage: Stage) {
    stage.Locked? || stage.Checked? || stage.Counted? || stage.Inserted? || stage.Conflicted?
  }

  /** A request past the lock statement is the one holder of its company's row. */
  predicate LocksHeld(s: State) {
    forall r | r in s.requests && HoldsLock(s.requests[r].stage) ::
      var c := s.requests[r].company;
      && c in s.locks && s.locks[c] == r
      && c in s.companies
      && (s.requests[r].stage.Locked? ==> s.requests[r].stage.limit == s.companies[c].maxConcurrentJobs)
      && (s.requests[r].stage.Checked? ==> s.requests[r].stage.limit == s.companies[c].maxConcurrentJobs)
  }

  lemma QuietKeepsLocks(s: State, s': State)
    requires LocksHeld(s) && Quiet(s, s')
    ensures LocksHeld(s')
  {
  }

  /** Which stages a statement can lead to. */
  predicate InOrder(s: State, q: Request, effect: Effect) {
    match effect
    case Move(WantsLock) => q.stage.Started?
    case Move(Checked(limit)) => q.stage == Locked(limit)
    case Move(Counted) => q.stage.Checked?
    case Move(_) => false
    case DrawId(Conflicted) => q.stage.Counted? && KeyedIds(s.recs, q.company, q.key) != {}
    case DrawId(Inserted(id, row)) => q.stage.Counted? && id == s.nextId && row == NewRow(q.company, q.kind, q.key, row.createdAt)
    case DrawId(_) => false
    case TakeLock(limit) => q.company in s.companies && q.company !in s.locks && limit == s.companies[q.company].maxConcurrentJobs
    case Publish(id, row) => q.stage == Inserted(id, row) && id !in s.recs
    case Answer(response) => !response.Created? && ReplyTrue(s.recs, q, response)
    case Stay => true
  }

  lemma StatementsAreInOrder(s: State, q: Request, step: CreateStep)
    ensures InOrder(s, q, Decide(s, q, step))
  {
    if FindByKey(s.recs, q.company, q.key).Some? {
      FoundReplyIsTrue(s.recs, q);
    }
  }

  lemma ApplyKeepsLocks(s: State, r: RequestId, effect: Effect)
    requires LocksHeld(s) && r in s.requests && InOrder(s, s.requests[r], effect)
    ensures LocksHeld(Apply(s, r, effect))
  {
  }

  /** The converse: a company's row is locked only by a request of that company still on its way. */
  predicate HoldersLive(s: State) {
    forall c | c in s.locks :: HolderLives(s, c)
  }

  predicate HolderLives(s: State, c: CompanyId)
    requires c in s.locks
  {
    s.locks[c] in s.requests && s.requests[s.locks[c]].company == c && HoldsLock(s.requests[s.locks[c]].stage)
  }

  lemma ApplyKeepsHolders(s: State, r: RequestId, effect: Effect)
    requires HoldersLive(s) && r in s.requests && InOrder(s, s.requests[r], effect)
    ensures HoldersLive(Apply(s, r, effect))
  {
    var s' := Apply(s, r, effect);
    forall c | c in s'.locks ensures HolderLives(s', c) {
      assert c in s.locks ==> HolderLives(s, c);
    }
  }

  lemma StepKeepsHolders(s: State, step: Step)
    requires HoldersLive(s)
    ensures HoldersLive(Transact(s, step)) && HoldersLive(Do(s, step))
  {
    match step
    case Work(w, work) => WorkLeavesRequests(s, w, work);
    case Create(r, create) =>
      if !create.Begin? && r in s.requests {
        StatementsAreInOrder(s, s.requests[r], create);
        ApplyKeepsHolders(s, r, Decide(s, s.requests[r], create));
      } else {
        forall c | c in s.locks ensures HolderLives(DoCreate(s, r, create), c) {
          assert HolderLives(s, c);
        }
      }
    case _ => ApiLeavesRequests(s, step);
  }

  /** A request that is rolled back lets go of its company and changes nothing else anybody sees. */
  lemma RollbackFrees(s: State, c: CompanyId)
    requires HoldersLive(s) && c in s.locks
    ensures var s' := Do(s, Create(s.locks[c], Abort));
            && s'.recs == s.recs && s'.workers == s.workers && s'.companies == s.companies && s'.nextId == s.nextId
            && c !in s'.locks && s'.locks.Keys < s.locks.Keys
  {
    assert HolderLives(s, c);
  }

  // ---------------------------------------------------------------- job ids

  /** Ids come from a sequence: an uncommitted row's id is nobody else's. */
  predicate IdsFresh(s: State) {
    && (forall j | j in s.recs :: j < s.nextId)
    && (forall r | r in s.requests && s.requests[r].stage.Inserted? ::
          s.requests[r].stage.id < s.nextId && s.requests[r].stage.id !in s.recs)
    && (forall r, o | r in s.requests && o in s.requests && s.requests[r].stage.Inserted? && s.requests[o].stage.Inserted? ::
          s.requests[r].stage.id == s.requests[o].stage.id ==> r == o)
  }

  lemma ApplyKeepsIds(s: State, r: RequestId, effect: Effect)
    requires IdsFresh(s) && r in s.requests && InOrder(s, s.requests[r], effect)
    ensures IdsFresh(Apply(s, r, effect))
  {
  }

  // ----------------------------------------------------------- idempotency keys

  /** No two rows share a company and a key. */
  predicate KeysUnique(recs: map<JobId, Record>) {
    forall i, j | i in recs && j in recs && recs[i].row.key.Some? ::
      recs[i].row.company == recs[j].row.company && recs[i].row.key == recs[j].row.key ==> i == j
  }

  /** A request past its second lookup is still alone with its key, and nobody is in the
      ON CONFLICT branch. */
  predicate KeysFree(s: State) {
    forall r | r in s.requests :: KeyFree(s.recs, s.requests[r])
  }

  predicate KeyFree(recs: map<JobId, Record>, q: Request) {
    && !q.stage.Conflicted?
    && (q.stage.Checked? || q.stage.Counted? || q.stage.Inserted? ==> KeyedIds(recs, q.company, q.key) == {})
  }

  lemma QuietKeepsKeyed(s: State, s': State, c: CompanyId, key: string)
    requires Quiet(s, s')
    ensures KeyedIds(s'.recs, c, key) == KeyedIds(s.recs, c, key)
  {
  }

  lemma QuietKeepsKeys(s: State, s': State)
    requires Quiet(s, s') && KeysUnique(s.recs) && KeysFree(s)
    ensures KeysUnique(s'.recs) && KeysFree(s')
  {
    forall r | r in s'.requests ensures KeyFree(s'.recs, s'.requests[r]) {
      assert KeyFree(s.recs, s.requests[r]);
      QuietKeepsKeyed(s, s', s.requests[r].company, s.requests[r].key);
    }
  }

  lemma ApplyKeepsKeys(s: State, r: RequestId, effect: Effect)
    requires KeysFree(s) && r in s.requests && InOrder(s, s.requests[r], effect) && !effect.Publish?
    requires effect.Move? && effect.stage.Checked? ==> KeyedIds(s.recs, s.requests[r].company, s.requests[r].key) == {}
    ensures KeysFree(Apply(s, r, effect))
  {
    assert KeyFree(s.recs, s.requests[r]);
  }

  lemma PublishKeepsKeys(s: State, r: RequestId, id: JobId, row: Job)
    requires r in s.requests && InOrder(s, s.requests[r], Publish(id, row))
    requires LocksHeld(s) && PendingRowsNew(s) && KeysUnique(s.recs) && KeysFree(s)
    ensures var s' := Apply(s, r, Publish(id, row));
            KeysUnique(s'.recs) && KeysFree(s')
  {
    var q := s.requests[r];
    var s' := Apply(s, r, Publish(id, row));
    assert PendingRowNew(q) && KeyFree(s.recs, q);
    forall j | j in s.recs ensures s.recs[j].row.company != q.company || s.recs[j].row.key != Some(q.key) {
      assert j !in KeyedIds(s.recs, q.company, q.key);
    }
    forall o | o in s'.requests && o != r ensures KeyFree(s'.recs, s'.requests[o]) {
      var p := s.requests[o];
      assert KeyFree(s.recs, p);
      if p.stage.Checked? || p.stage.Counted? || p.stage.Inserted? {
        assert p.company != q.company;
        assert KeyedIds(s'.recs, p.company, p.key) == KeyedIds(s.recs, p.company, p.key);
      }
    }
  }

  // ------------------------------------------------------------------- replies

  /** A reply never becomes a lie: the job it names keeps the request's company, key and kind,
      and a conflict is with a job of another kind under the same key. */
  predicate RepliesTrue(s: State) {
    forall r | r in s.requests && s.requests[r].stage.Replied? :: ReplyTrue(s.recs, s.requests[r], s.requests[r].stage.response)
  }

  predicate Serves(recs: map<JobId, Record>, id: JobId, q: Request) {
    && id in recs
    && recs[id].row.company == q.company
    && recs[id].row.key == Some(q.key)
    && recs[id].row.kind == q.kind
  }

  predicate ReplyTrue(recs: map<JobId, Record>, q: Request, response: Response) {
    match response
    case Created(id) => Serves(recs, id, q)
    case Replayed(id, _) => Serves(recs, id, q)
    case KeyConflict(kind) => kind != q.kind && exists j :: j in KeyedIds(recs, q.company, q.key) && recs[j].row.kind == kind
    case _ => true
  }

  lemma FollowsKeepsReply(s: State, s': State, q: Request, response: Response)
    requires Follows(s, s') && ReplyTrue(s.recs, q, response)
    ensures ReplyTrue(s'.recs, q, response)
  {
    if response.KeyConflict? {
      var j :| j in KeyedIds(s.recs, q.company, q.key) && s.recs[j].row.kind == response.existingKind;
      assert j in KeyedIds(s'.recs, q.company, q.key);
    }
  }

  lemma FoundReplyIsTrue(recs: map<JobId, Record>, q: Request)
    requires FindByKey(recs, q.company, q.key).Some?
    ensures ReplyTrue(recs, q, ReplayOf(recs, FindByKey(recs, q.company, q.key).value, q.kind))
  {
    var j := FindByKey(recs, q.company, q.key).value;
    assert j in KeyedIds(recs, q.company, q.key);
  }

  lemma QuietKeepsReplies(s: State, s': State)
    requires RepliesTrue(s) && Quiet(s, s')
    ensures RepliesTrue(s')
  {
    forall r | r in s'.requests && s'.requests[r].stage.Replied?
      ensures ReplyTrue(s'.recs, s'.requests[r], s'.requests[r].stage.response)
    {
      FollowsKeepsReply(s, s', s.requests[r], s.requests[r].stage.response);
    }
  }

  lemma ApplyKeepsReplies(s: State, r: RequestId, effect: Effect)
    requires RepliesTrue(s) && PendingRowsNew(s) && r in s.requests && InOrder(s, s.requests[r], effect)
    ensures RepliesTrue(Apply(s, r, effect))
  {
    var s' := Apply(s, r, effect);
    ApplyFollows(s, r, effect);
    if effect.Publish? {
      assert PendingRowNew(s.requests[r]);
    }
    forall o | o in s'.requests && o != r && s'.requests[o].stage.Replied?
      ensures ReplyTrue(s'.recs, s'.requests[o], s'.requests[o].stage.response)
    {
      FollowsKeepsReply(s, s', s.requests[o], s.requests[o].stage.response);
    }
    if effect.Stay? && s.requests[r].stage.Replied? {
      FollowsKeepsReply(s, s', s.requests[r], s.requests[r].stage.response);
    }
  }

  /** Each job is reported as created to one request only. */
  predicate CreatedOnce(s: State) {
    && (forall r | r in s.requests && s.requests[r].stage.Replied? && s.requests[r].stage.response.Created? ::
          s.requests[r].stage.response.id in s.recs)
    && (forall r, o | r in s.requests && o in s.requests
          && s.requests[r].stage.Replied? && s.requests[r].stage.response.Created?
          && s.requests[o].stage == s.requests[r].stage :: r == o)
  }

  lemma QuietKeepsCreatedOnce(s: State, s': State)
    requires CreatedOnce(s) && Quiet(s, s')
    ensures CreatedOnce(s')
  {
  }

  lemma ApplyKeepsCreatedOnce(s: State, r: RequestId, effect: Effect)
    requires CreatedOnce(s) && r in s.requests && InOrder(s, s.requests[r], effect)
    ensures CreatedOnce(Apply(s, r, effect))
  {
  }

  // --------------------------------------------------------------- room for one more

  /** What a request has counted stays true until it commits: there is room for its job. */
  predicate RoomKept(s: State) {
    forall r | r in s.requests :: HasRoom(s, s.requests[r])
  }

  predicate HasRoom(s: State, q: Request) {
    q.stage.Counted? || q.stage.Inserted? ==>
      q.company in s.companies && |ActiveIds(s.recs, q.company)| < s.companies[q.company].maxConcurrentJobs
  }

  lemma SubsetIsSmaller(a: set<JobId>, b: set<JobId>)
    requires a <= b
    ensures |a| <= |b|
  {
    assert b == a + (b - a);
  }

  lemma WorkActivatesNothing(s: State, w: WorkerId, step: WorkerStep, c: CompanyId)
    ensures ActiveIds(DoWork(s, w, step).recs, c) <= ActiveIds(s.recs, c)
  {
  }

  lemma RecoveryActivatesNothing(s: State, now: Time, lease: Time, c: CompanyId)
    ensures ActiveIds(DoRecoverStale(s, now, lease).recs, c) <= ActiveIds(s.recs, c)
  {
  }

  /** While a request holds a company's row, no other transaction adds to the company's active
      jobs: a retry, the only one that could, waits. */
  lemma LockStopsActivation(s: State, step: Step, c: CompanyId)
    requires !step.Create? && c in s.locks
    ensures |ActiveIds(Do(s, step).recs, c)| <= |ActiveIds(s.recs, c)|
  {
    assert ActiveIds(Do(s, step).recs, c) <= ActiveIds(s.recs, c) by {
      match step
      case Work(w, work) => WorkActivatesNothing(s, w, work, c);
      case RecoverStale(now, lease) => RecoveryActivatesNothing(s, now, lease, c);
      case _ =>
    }
    SubsetIsSmaller(ActiveIds(Do(s, step).recs, c), ActiveIds(s.recs, c));
  }

  /** What other transactions can still do to a job under the lock: claim it and renew its lease. */
  predicate HistoryStands(a: Record, b: Record) {
    && b.log == a.log && b.result == a.result && b.dead == a.dead
    && (b.row.status == a.row.status || (a.row.status == Queued && b.row.status == Running))
  }

  lemma WorkUnderLock(s: State, w: WorkerId, work: WorkerStep, c: CompanyId, j: JobId)
    requires Fenced(s) && c in s.locks && !Waits(s, Work(w, work)) && j in s.recs && s.recs[j].row.company == c
    ensures HistoryStands(s.recs[j], DoWork(s, w, work).recs[j])
  {
    if IsHolding(s, w) && Owns(s, w, s.workers[w].claim.job) {
      assert FencedRow(s, s.workers[w].claim.job, s.recs[s.workers[w].claim.job].row);
    }
  }

  lemma WorkUnderLockIsFree(s: State, w: WorkerId, work: WorkerStep, c: CompanyId)
    requires c in s.locks && c in s.companies && !Waits(s, Work(w, work))
    ensures c in DoWork(s, w, work).companies && DoWork(s, w, work).companies[c] == s.companies[c]
  {
  }

  /** While a request holds a company's row, the history of the company stands still: no event, no
      result, no dead letter and no charge, and its jobs change only by being claimed. */
  lemma LockFreezesCompany(s: State, step: Step, c: CompanyId, j: JobId)
    requires Fenced(s) && !step.Create? && c in s.locks && j in s.recs && s.recs[j].row.company == c
    ensures j in Do(s, step).recs && HistoryStands(s.recs[j], Do(s, step).recs[j])
    ensures c in s.companies ==> c in Do(s, step).companies && Do(s, step).companies[c] == s.companies[c]
  {
    if !Waits(s, step) {
      match step
      case Work(w, work) =>
        WorkUnderLock(s, w, work, c, j);
        if c in s.companies { WorkUnderLockIsFree(s, w, work, c); }
      case _ =>
    }
  }

  lemma OthersKeepRoom(s: State, step: Step)
    requires !step.Create? && LocksHeld(s) && RoomKept(s)
    ensures RoomKept(Do(s, step))
  {
    var s' := Do(s, step);
    OthersAreQuiet(s, step);
    forall r | r in s'.requests ensures HasRoom(s', s'.requests[r]) {
      var q := s.requests[r];
      assert HasRoom(s, q);
      if q.stage.Counted? || q.stage.Inserted? {
        LockStopsActivation(s, step, q.company);
      }
    }
  }

  lemma CountLeavesRoom(s: State, q: Request, step: CreateStep)
    requires Decide(s, q, step) == Move(Counted)
    ensures q.stage.Checked? && |ActiveIds(s.recs, q.company)| < q.stage.limit
  {
  }

  lemma ApplyKeepsRoom(s: State, r: RequestId, effect: Effect)
    requires RoomKept(s) && LocksHeld(s) && r in s.requests && InOrder(s, s.requests[r], effect) && !effect.Publish?
    requires effect == Move(Counted) ==>
               s.requests[r].stage.Checked? && |ActiveIds(s.recs, s.requests[r].company)| < s.requests[r].stage.limit
    ensures RoomKept(Apply(s, r, effect))
  {
    assert HasRoom(s, s.requests[r]);
    ApplyFollows(s, r, effect);
  }

  lemma PublishKeepsRoom(s: State, r: RequestId, id: JobId, row: Job)
    requires RoomKept(s) && LocksHeld(s) && PendingRowsNew(s)
    requires r in s.requests && InOrder(s, s.requests[r], Publish(id, row))
    ensures RoomKept(Apply(s, r, Publish(id, row)))
  {
    var q := s.requests[r];
    var s' := Apply(s, r, Publish(id, row));
    assert PendingRowNew(q);
    forall o | o in s'.requests && o != r ensures HasRoom(s', s'.requests[o]) {
      var p := s.requests[o];
      assert HasRoom(s, p);
      if p.stage.Counted? || p.stage.Inserted? {
        assert p.company != q.company;
        assert ActiveIds(s'.recs, p.company) == ActiveIds(s.recs, p.company);
      }
    }
  }

  // ------------------------------------------------------------- every interleaving

  /** Any contents of the tables that satisfy the unique index and the id sequence. */
  predicate KeyedStart(s: State) {
    ColdStart(s) && KeysUnique(s.recs) && CompaniesKnown(s) && forall j | j in s.recs :: j < s.nextId
  }

  /** The foreign key from jobs to companies. */
  predicate CompaniesKnown(s: State) {
    forall j | j in s.recs :: s.recs[j].row.company in s.companies
  }

  predicate Admitted(s: State) {
    && PendingRowsNew(s)
    && LocksHeld(s)
    && IdsFresh(s)
    && CompaniesKnown(s)
    && KeysUnique(s.recs)
    && KeysFree(s)
    && RepliesTrue(s)
    && CreatedOnce(s)
    && RoomKept(s)
  }

  lemma ApplyKeepsAdmitted(s: State, r: RequestId, step: CreateStep)
    requires Admitted(s) && r in s.requests
    ensures Admitted(Apply(s, r, Decide(s, s.requests[r], step)))
  {
    var effect := Decide(s, s.requests[r], step);
    StatementsAreInOrder(s, s.requests[r], step);
    ApplyFollows(s, r, effect);
    ApplyKeepsPendingRows(s, r, effect);
    ApplyKeepsLocks(s, r, effect);
    ApplyKeepsIds(s, r, effect);
    ApplyKeepsReplies(s, r, effect);
    ApplyKeepsCreatedOnce(s, r, effect);
    if effect.Publish? {
      assert PendingRowNew(s.requests[r]);
      PublishKeepsKeys(s, r, effect.id, effect.row);
      PublishKeepsRoom(s, r, effect.id, effect.row);
    } else {
      ApplyKeepsKeys(s, r, effect);
      if effect == Move(Counted) {
        CountLeavesRoom(s, s.requests[r], step);
      }
      ApplyKeepsRoom(s, r, effect);
    }
  }

  lemma BeginKeepsLocks(s: State, r: RequestId, step: CreateStep)
    requires PendingRowsNew(s) && LocksHeld(s) && IdsFresh(s) && r !in s.requests
    ensures PendingRowsNew(DoCreate(s, r, step)) && LocksHeld(DoCreate(s, r, step)) && IdsFresh(DoCreate(s, r, step))
  {
  }

  lemma BeginKeepsReplies(s: State, r: RequestId, step: CreateStep)
    requires KeysFree(s) && RepliesTrue(s) && CreatedOnce(s) && RoomKept(s) && r !in s.requests
    ensures var s' := DoCreate(s, r, step);
            KeysFree(s') && RepliesTrue(s') && CreatedOnce(s') && RoomKept(s')
  {
  }

  lemma BeginKeepsAdmitted(s: State, r: RequestId, step: CreateStep)
    requires Admitted(s) && r !in s.requests
    ensures Admitted(DoCreate(s, r, step))
  {
    BeginKeepsLocks(s, r, step);
    BeginKeepsReplies(s, r, step);
  }

  lemma StepKeepsAdmitted(s: State, step: Step)
    requires Admitted(s)
    ensures Admitted(Do(s, step))
  {
    if !step.Create? {
      OthersAreQuiet(s, step);
      var s' := Do(s, step);
      QuietKeepsLocks(s, s');
      QuietKeepsKeys(s, s');
      QuietKeepsReplies(s, s');
      QuietKeepsCreatedOnce(s, s');
      OthersKeepRoom(s, step);
    } else if step.r !in s.requests {
      BeginKeepsAdmitted(s, step.r, step.create);
    } else if !step.create.Begin? {
      ApplyKeepsAdmitted(s, step.r, step.create);
    }
  }

  lemma {:induction false} RunsAreAdmitted(s0: State, steps: seq<Step>)
    requires KeyedStart(s0)
    ensures Admitted(Run(s0, steps))
    decreases |steps|
  {
    if steps != [] {
      RunsAreAdmitted(s0, steps[..|steps| - 1]);
      StepKeepsAdmitted(Run(s0, steps[..|steps| - 1]), Last(steps));
    }
  }

  predicate Succeeded(q: Request, id: JobId) {
    && q.stage.Replied?
    && (q.stage.response == Created(id) || (q.stage.response.Replayed? && q.stage.response.id == id))
  }

  /** With any number of requests interleaved statement by statement: at most one job exists per
      company and key; requests with the same company, key and kind are all answered with that
      job, and only one of them created it; a request of another kind is answered with a
      conflict and never with a job. */
  lemma CreateIsIdempotent(s0: State, steps: seq<Step>, s: State, a: RequestId, b: RequestId, i: JobId)
    requires KeyedStart(s0) && s == Run(s0, steps)
    requires a in s.requests && b in s.requests && Succeeded(s.requests[a], i)
    requires s.requests[a].company == s.requests[b].company && s.requests[a].key == s.requests[b].key
    ensures KeyedIds(s.recs, s.requests[a].company, s.requests[a].key) == {i}
    ensures forall j | Succeeded(s.requests[b], j) :: i == j && s.requests[b].kind == s.requests[a].kind
    ensures s.requests[b].stage.Replied? && s.requests[b].stage.response.KeyConflict? ==>
              s.requests[b].kind != s.requests[a].kind && s.requests[b].stage.response.existingKind == s.requests[a].kind
    ensures s.requests[a].stage == Replied(Created(i)) && s.requests[b].stage == Replied(Created(i)) ==> a == b
  {
    RunsAreAdmitted(s0, steps);
    assert ReplyTrue(s.recs, s.requests[a], s.requests[a].stage.response);
    if s.requests[b].stage.Replied? {
      assert ReplyTrue(s.recs, s.requests[b], s.requests[b].stage.response);
    }
  }

  lemma InsertIsAlone(s: State, r: RequestId, now: Time)
    requires Admitted(s) && r in s.requests && s.requests[r].stage.Counted?
    ensures var q := s.requests[r];
            Decide(s, q, Insert(now)) == DrawId(Inserted(s.nextId, NewRow(q.company, q.kind, q.key, now)))
  {
    assert KeyFree(s.recs, s.requests[r]);
    forall o | o in s.requests ensures !IsPending(s, o, s.requests[r].company, s.requests[r].key) {
    }
  }

  /** The ON CONFLICT branch is dead code, and no insert ever waits for another. */
  lemma InsertNeverConflicts(s0: State, steps: seq<Step>, s: State, r: RequestId, now: Time)
    requires KeyedStart(s0) && s == Run(s0, steps)
    requires r in s.requests && s.requests[r].stage.Counted?
    ensures var q := s.requests[r];
            Decide(s, q, Insert(now)) == DrawId(Inserted(s.nextId, NewRow(q.company, q.kind, q.key, now)))
  {
    RunsAreAdmitted(s0, steps);
    InsertIsAlone(s, r, now);
  }

  /** A key committed before the second lookup is never answered with 429: whenever the limit
      turns a request away, no job has its key. */
  lemma LimitNeverHidesReplay(s0: State, steps: seq<Step>, s: State, r: RequestId)
    requires KeyedStart(s0) && s == Run(s0, steps)
    requires r in s.requests && s.requests[r].stage.Checked?
    requires DoCreate(s, r, CountActive).requests[r].stage.Replied?
    ensures KeyedIds(s.recs, s.requests[r].company, s.requests[r].key) == {}
    ensures var c := s.requests[r].company;
            c in s.companies && |ActiveIds(s.recs, c)| >= s.companies[c].maxConcurrentJobs
    ensures DoCreate(s, r, CountActive).requests[r].stage.response
         == LimitReached(s.companies[s.requests[r].company].maxConcurrentJobs, |ActiveIds(s.recs, s.requests[r].company)|)
  {
    RunsAreAdmitted(s0, steps);
    assert KeyFree(s.recs, s.requests[r]);
  }

  // --------------------------------------------------- against an atomic POST /jobs

  /** What POST /jobs answers when nothing runs beside it. */
  function Verdict(s: State, q: Request): Response {
    if KeyedIds(s.recs, q.company, q.key) != {} then ReplayOf(s.recs, Least(KeyedIds(s.recs, q.company, q.key)), q.kind)
    else if q.company !in s.companies then UnknownCompany
    else if |ActiveIds(s.recs, q.company)| >= s.companies[q.company].maxConcurrentJobs then
      LimitReached(s.companies[q.company].maxConcurrentJobs, |ActiveIds(s.recs, q.company)|)
    else Created(s.nextId)
  }

  /** Split at every statement and interleaved with everything else, a request that is not rolled
      back answers as the atomic POST /jobs would at the instant it answers. A job that is created
      gets the number the atomic request would have given it when its row was inserted, and from
      the count to the commit the atomic request would have created one. */
  lemma RepliesAreAtomic(s0: State, steps: seq<Step>, s: State, r: RequestId, step: CreateStep)
    requires KeyedStart(s0) && s == Run(s0, steps)
    requires r in s.requests && !step.Abort? && !step.Begin?
    ensures var q := s.requests[r];
            var effect := Decide(s, q, step);
            && (effect.Answer? ==> effect.response == Verdict(s, q))
            && (effect.DrawId? ==> effect.stage.Inserted? && Created(effect.stage.id) == Verdict(s, q))
            && (q.stage.Counted? || q.stage.Inserted? ==> Verdict(s, q) == Created(s.nextId))
            && (effect.Publish? ==> Verdict(s, q).Created?)
  {
    RunsAreAdmitted(s0, steps);
    var q := s.requests[r];
    assert KeyFree(s.recs, q) && HasRoom(s, q);
    if q.company !in s.companies {
      assert KeyedIds(s.recs, q.company, q.key) == {};
    }
  }

  /** What a request is told, in plain terms: the status is the one the job has at that moment, a
      conflict names the kind that is there, an unknown company is unknown, and a limit is the
      company's own, reached by the jobs that are queued or running, with no job under the key. */
  predicate AnswerIsExact(s: State, q: Request, response: Response) {
    match response
    case Created(id) => false
    case Replayed(id, status) =>
      && id in s.recs && s.recs[id].row.company == q.company && s.recs[id].row.key == Some(q.key)
      && s.recs[id].row.kind == q.kind && s.recs[id].row.status == status
    case KeyConflict(kind) =>
      exists id :: id in s.recs && s.recs[id].row.company == q.company && s.recs[id].row.key == Some(q.key)
                   && s.recs[id].row.kind == kind != q.kind
    case UnknownCompany => q.company !in s.companies
    case LimitReached(limit, running) =>
      && q.company in s.companies && limit == s.companies[q.company].maxConcurrentJobs <= running
      && running == |set j | j in s.recs && s.recs[j].row.company == q.company && s.recs[j].row.status in {Queued, Running}|
      && forall j | j in s.recs && s.recs[j].row.company == q.company :: s.recs[j].row.key != Some(q.key)
    case Aborted => false
  }

  lemma FoundAnswerIsExact(s: State, q: Request)
    requires FindByKey(s.recs, q.company, q.key).Some?
    ensures AnswerIsExact(s, q, ReplayOf(s.recs, FindByKey(s.recs, q.company, q.key).value, q.kind))
  {
    var j := FindByKey(s.recs, q.company, q.key).value;
    assert j in KeyedIds(s.recs, q.company, q.key);
  }

  lemma LimitAnswerIsExact(s: State, q: Request)
    requires q.company in s.companies && KeyedIds(s.recs, q.company, q.key) == {}
    requires |ActiveIds(s.recs, q.company)| >= s.companies[q.company].maxConcurrentJobs
    ensures AnswerIsExact(s, q, LimitReached(s.companies[q.company].maxConcurrentJobs, |ActiveIds(s.recs, q.company)|))
  {
    assert ActiveIds(s.recs, q.company)
        == set j | j in s.recs && s.recs[j].row.company == q.company && s.recs[j].row.status in {Queued, Running};
    forall j | j in s.recs && s.recs[j].row.company == q.company ensures s.recs[j].row.key != Some(q.key) {
      assert j !in KeyedIds(s.recs, q.company, q.key);
    }
  }

  lemma DecidedAnswerIsExact(s: State, q: Request, step: CreateStep)
    requires LocksHeld(s) && KeyFree(s.recs, q) && !step.Abort?
    requires q.stage.Checked? ==> q.company in s.companies && q.stage.limit == s.companies[q.company].maxConcurrentJobs
    requires q.stage.Inserted? ==> q.stage.id !in s.recs
    requires Decide(s, q, step).Answer?
    ensures AnswerIsExact(s, q, Decide(s, q, step).response)
  {
    if step.CountActive? {
      LimitAnswerIsExact(s, q);
    } else if step.Lookup? || step.Relookup? {
      FoundAnswerIsExact(s, q);
    }
  }

  /** In every interleaving the answer of a request is true of the tables at the instant it is given;
      a created job has the row of the request, under a company that is known and has room. */
  lemma AnswersAreExact(s0: State, steps: seq<Step>, s: State, r: RequestId, step: CreateStep)
    requires KeyedStart(s0) && s == Run(s0, steps)
    requires r in s.requests && !step.Abort? && !step.Begin?
    ensures var q := s.requests[r];
            var effect := Decide(s, q, step);
            && (effect.Answer? ==> AnswerIsExact(s, q, effect.response))
            && (effect.Publish? ==>
                  && effect.id !in s.recs && effect.row.company == q.company && effect.row.kind == q.kind
                  && effect.row.key == Some(q.key) && effect.row.status == Queued && effect.row.attempts == 0)
  {
    RunsAreAdmitted(s0, steps);
    var q := s.requests[r];
    assert KeyFree(s.recs, q);
    if Decide(s, q, step).Answer? {
      DecidedAnswerIsExact(s, q, step);
    }
    if q.stage.Inserted? {
      assert PendingRowNew(q);
    }
  }

  // -------------------------------------------------------------- concurrency limit

  predicate Retried(log: seq<Event>) {
    exists e | e in log :: e.kind == EvRetryRequested
  }

  /** The active jobs of a company that nobody has retried. */
  function NeverRetriedIds(recs: map<JobId, Record>, c: CompanyId): set<JobId> {
    set j | j in recs && recs[j].row.company == c && IsActive(recs[j].row.status) && !Retried(recs[j].log)
  }

  function RetriedIds(recs: map<JobId, Record>, c: CompanyId): set<JobId> {
    set j | j in recs && recs[j].row.company == c && IsActive(recs[j].row.status) && Retried(recs[j].log)
  }

  /** The limit binds the jobs nobody has retried. */
  predicate Limited(s: State) {
    forall c | c in s.companies :: |NeverRetriedIds(s.recs, c)| <= s.companies[c].maxConcurrentJobs
  }

  lemma EdgeKeepsNeverRetried(a: Record, b: Record)
    requires Edge(a, b) && IsActive(b.row.status) && !Retried(b.log)
    ensures IsActive(a.row.status) && !Retried(a.log)
  {
    forall e | e in a.log ensures e in b.log {
    }
  }

  /** Only a commit adds to the active jobs nobody has retried. */
  lemma QuietShrinksNeverRetried(s: State, s': State, c: CompanyId)
    requires Quiet(s, s')
    ensures |NeverRetriedIds(s'.recs, c)| <= |NeverRetriedIds(s.recs, c)|
  {
    forall j | j in NeverRetriedIds(s'.recs, c) ensures j in NeverRetriedIds(s.recs, c) {
      EdgeKeepsNeverRetried(s.recs[j], s'.recs[j]);
    }
    SubsetIsSmaller(NeverRetriedIds(s'.recs, c), NeverRetriedIds(s.recs, c));
  }

  lemma QuietKeepsLimited(s: State, s': State)
    requires Quiet(s, s') && Limited(s)
    ensures Limited(s')
  {
    forall c | c in s.companies ensures |NeverRetriedIds(s'.recs, c)| <= |NeverRetriedIds(s.recs, c)| {
      QuietShrinksNeverRetried(s, s', c);
    }
  }

  lemma PublishedNeverRetried(recs: map<JobId, Record>, id: JobId, row: Job, actor: string, c: CompanyId)
    requires id !in recs && row.status == Queued
    ensures NeverRetriedIds(recs[id := NewRecord(row, actor)], c)
         == NeverRetriedIds(recs, c) + (if c == row.company then {id} else {})
  {
    assert !Retried(NewRecord(row, actor).log);
  }

  lemma PublishKeepsLimited(s: State, r: RequestId, id: JobId, row: Job)
    requires Limited(s) && RoomKept(s) && LocksHeld(s) && PendingRowsNew(s)
    requires r in s.requests && InOrder(s, s.requests[r], Publish(id, row))
    ensures Limited(Apply(s, r, Publish(id, row)))
  {
    var q := s.requests[r];
    var s' := Apply(s, r, Publish(id, row));
    assert PendingRowNew(q) && HasRoom(s, q);
    SubsetIsSmaller(NeverRetriedIds(s.recs, q.company), ActiveIds(s.recs, q.company));
    forall c ensures |NeverRetriedIds(s'.recs, c)| == |NeverRetriedIds(s.recs, c)| + (if c == q.company then 1 else 0) {
      PublishedNeverRetried(s.recs, id, row, q.actor, c);
    }
  }

  lemma CreateKeepsLimited(s: State, r: RequestId, step: CreateStep)
    requires Admitted(s) && Limited(s) && r in s.requests
    ensures Limited(Apply(s, r, Decide(s, s.requests[r], step)))
  {
    var effect := Decide(s, s.requests[r], step);
    StatementsAreInOrder(s, s.requests[r], step);
    ApplyFollows(s, r, effect);
    if effect.Publish? {
      PublishKeepsLimited(s, r, effect.id, effect.row);
    }
  }

  lemma StepKeepsLimited(s: State, step: Step)
    requires Admitted(s) && Limited(s)
    ensures Limited(Do(s, step))
  {
    if !step.Create? {
      OthersAreQuiet(s, step);
      QuietKeepsLimited(s, Do(s, step));
    } else if step.r in s.requests && !step.create.Begin? {
      CreateKeepsLimited(s, step.r, step.create);
    }
  }

  lemma {:induction false} RunsAreLimited(s0: State, steps: seq<Step>)
    requires KeyedStart(s0) && Limited(s0)
    ensures Admitted(Run(s0, steps)) && Limited(Run(s0, steps))
    decreases |steps|
  {
    RunsAreAdmitted(s0, steps);
    if steps != [] {
      RunsAreLimited(s0, steps[..|steps| - 1]);
      StepKeepsLimited(Run(s0, steps[..|steps| - 1]), Last(steps));
    }
  }

  lemma ActiveIsRetriedOrNot(recs: map<JobId, Record>, c: CompanyId)
    ensures |ActiveIds(recs, c)| == |NeverRetriedIds(recs, c)| + |RetriedIds(recs, c)|
  {
    assert ActiveIds(recs, c) == NeverRetriedIds(recs, c) + RetriedIds(recs, c);
  }

  /** In every interleaving a company exceeds its limit by no more than the jobs it has retried
      that are active again. */
  lemma ActiveJobsAreLimited(s0: State, steps: seq<Step>, s: State, c: CompanyId)
    requires KeyedStart(s0) && Limited(s0) && s == Run(s0, steps) && c in s.companies
    ensures |NeverRetriedIds(s.recs, c)| <= s.companies[c].maxConcurrentJobs
    ensures |ActiveIds(s.recs, c)| <= s.companies[c].maxConcurrentJobs + |RetriedIds(s.recs, c)|
  {
    RunsAreLimited(s0, steps);
    ActiveIsRetriedOrNot(s.recs, c);
  }

  /** A retry does not look at the limit: it leaves the company within it iff there was room
      for one more before. */
  lemma RetryIgnoresLimit(s: State, c: CompanyId, j: JobId, actor: string, now: Time)
    requires CanRetry(s, c, j) && c in s.companies
    ensures var s' := DoRetryJob(s, c, j, actor, now);
            && |ActiveIds(s'.recs, c)| == |ActiveIds(s.recs, c)| + 1
            && (|ActiveIds(s'.recs, c)| <= s'.companies[c].maxConcurrentJobs
                <==> |ActiveIds(s.recs, c)| < s.companies[c].maxConcurrentJobs)
  {
    assert ActiveIds(DoRetryJob(s, c, j, actor, now).recs, c) == ActiveIds(s.recs, c) + {j};
  }
}
