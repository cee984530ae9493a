/** The statements of the worker and of the API on mutable tables. Each method is one
    transaction (for POST /jobs, one statement) and takes the abstract state of the queue
    exactly where the protocol's step takes it. */
module Database {
  import opened Tables
  import opened Lifecycle
  import opened Queue
  import opened Store
  import Tenancy
  import Admission
  import Sequential

  class Relay {
    // tables
    var jobs: map<JobId, Job>
    var results: map<JobId, string>
    var deadLetters: seq<DeadRow>
    var audit: seq<AuditRow>
    var companies: map<CompanyId, Company>
    var nextId: JobId
    // memory of the processes and open transactions
    var workers: map<WorkerId, Local>
    var requests: map<RequestId, Request>
    var locks: map<CompanyId, RequestId>

    ghost function Stored(): Contents
      reads this
    {
      Contents(jobs, results, deadLetters, audit)
    }

    ghost predicate Valid()
      reads this
    {
      ReferencesHold(Stored())
    }

    ghost function Abstract(): State
      reads this
    {
      State(Recs(Stored()), companies, nextId, workers, requests, locks)
    }

    constructor (companies: map<CompanyId, Company>)
      ensures Valid()
      ensures Abstract() == State(map[], companies, 0, map[], map[], map[])
    {
      this.companies := companies;
      jobs, results, deadLetters, audit, nextId := map[], map[], [], [], 0;
      workers, requests, locks := map[], map[], map[];
    }

    // ----------------------------------------------------------- shared inserts

    method RecordAuditEvent(j: JobId, event: Event)
      modifies this`audit
      ensures audit == old(audit) + [AuditRow(j, event)]
    {
      audit := audit + [AuditRow(j, event)];
    }

    /** INSERT ... SELECT FROM jobs ... ON CONFLICT (job_id) DO NOTHING. */
    method SendToDlq(j: JobId, error: string, now: Time)
      requires j in jobs
      modifies this`deadLetters
      ensures deadLetters == if LettersOf(old(deadLetters), j) == []
                             then old(deadLetters) + [DeadRow(j, Letter(jobs[j], error, now))] else old(deadLetters)
    {
      LettersAreRows(deadLetters, j);
      if !exists d | d in deadLetters :: d.job == j {
        deadLetters := deadLetters + [DeadRow(j, Letter(jobs[j], error, now))];
      }
    }

    /** The API's insert with ON CONFLICT DO NOTHING. */
    method RecordAuditEventOnce(j: JobId, event: Event)
      modifies this`audit
      ensures audit == if AddEvent(EventsOf(old(audit), j), event) == EventsOf(old(audit), j)
                       then old(audit) else old(audit) + [AuditRow(j, event)]
    {
      ghost var log := EventsOf(audit, j);
      var taken := event.kind in {EvSubmitted, EvCancelled} && exists a | a in audit :: a.job == j && a.event.kind == event.kind;
      assert taken <==> event.kind in {EvSubmitted, EvCancelled} && exists o | o in log :: o.kind == event.kind by {
        if exists a | a in audit :: a.job == j && a.event.kind == event.kind {
          var a :| a in audit && a.job == j && a.event.kind == event.kind;
          EventsAreRows(audit, j, a.event);
        }
        if exists o | o in log :: o.kind == event.kind {
          var o :| o in log && o.kind == event.kind;
          EventsAreRows(audit, j, o);
        }
      }
      if !taken {
        assert |AddEvent(log, event)| == |log| + 1;
        audit := audit + [AuditRow(j, event)];
      }
    }

    // --------------------------------------------------------- worker transactions

    // A method is its transaction up to the commit. Those that write audit events get there only
    // while nobody holds the company's row, see MustWait.

    method StartWorker(w: WorkerId)
      requires Valid()
      modifies this`workers
      ensures Abstract() == DoStartWorker(old(Abstract()), w)
    {
      assert forall j | j in jobs :: j in Abstract().recs && Abstract().recs[j].row == jobs[j];
      if w !in workers && !exists j | j in jobs :: jobs[j].worker == Some(w) {
        workers := workers[w := Idle];
      }
    }

    method Crash(w: WorkerId)
      requires Valid()
      modifies this`workers
      ensures Abstract() == DoCrash(old(Abstract()), w)
    {
      if w in workers {
        workers := workers[w := Crashed];
      }
    }

    method ClaimNext(w: WorkerId, now: Time, skip: set<JobId>) returns (claimed: Option<Claim>)
      requires Valid()
      modifies this`jobs, this`workers
      ensures Valid() && Abstract() == DoClaimNext(old(Abstract()), w, now, skip)
      ensures claimed.Some? <==> old(IsIdle(Abstract(), w)) && EligibleIds(old(Abstract()).recs, now, skip) != {}
      ensures claimed.Some? ==> workers == old(workers)[w := Holding(claimed.value)]
      ensures claimed.Some? ==> claimed.value.job == Least(EligibleIds(old(Abstract()).recs, now, skip))
    {
      var ids := set j | j in jobs && j !in skip && IsEligible(jobs[j], now);
      assert ids == EligibleIds(Abstract().recs, now, skip);
      if w !in workers || workers[w] != Idle || ids == {} {
        return None;
      }
      var j := Least(ids);
      WrittenRecord(Stored(), j, ClaimedRow(jobs[j], w, now), None, None, None);
      jobs := jobs[j := ClaimedRow(jobs[j], w, now)];
      var claim := Claim(j, jobs[j].company, jobs[j].attempts);
      workers := workers[w := Holding(claim)];
      return Some(claim);
    }

    /** False when the lease is lost. */
    method RenewLease(w: WorkerId, now: Time) returns (renewed: bool)
      requires Valid()
      modifies this`jobs
      ensures Valid() && Abstract() == DoRenewLease(old(Abstract()), w, now)
      ensures renewed <==> old(IsHolding(Abstract(), w) && Owns(Abstract(), w, workers[w].claim.job))
    {
      renewed := false;
      if w in workers && workers[w].Holding? {
        var j := workers[w].claim.job;
        if j in jobs && IsOwnedBy(jobs[j], w) {
          WrittenRecord(Stored(), j, jobs[j].(lockedAt := Some(now)), None, None, None);
          jobs := jobs[j := jobs[j].(lockedAt := Some(now))];
          renewed := true;
        }
      }
    }

    /** True for 'done'; false, reported as 'cancelled', when the guard matches no row. */
    method Finalize(w: WorkerId, now: Time, raised: bool) returns (done: bool)
      requires Valid() && IsHolding(Abstract(), w) && !Waits(Abstract(), Work(w, Queue.Finalize(now, raised)))
      modifies this
      ensures Valid() && Abstract() == DoFinalize(old(Abstract()), w, now, raised)
      ensures done <==> old(Owns(Abstract(), w, workers[w].claim.job))
    {
      var claim := workers[w].claim;
      var j := claim.job;
      done := j in jobs && IsOwnedBy(jobs[j], w);
      if done {
        CompleteJob(j, claim.company, now);
      }
      if !raised {
        workers := workers[w := Idle];
      }
    }

    /** The writes of a finalize whose UPDATE matched. */
    method CompleteJob(j: JobId, company: CompanyId, now: Time)
      requires Valid() && j in jobs
      modifies this`jobs, this`results, this`audit, this`companies
      ensures Valid() && Recs(Stored()) == Recs(old(Stored()))[j := Complete(Recs(old(Stored()))[j], company, now)]
      ensures companies == if j in old(results) then old(companies) else Charge(old(companies), company)
    {
      CompletedRecord(Stored(), j, company, now);
      ghost var after := CompletedTables(Stored(), j, company, now);
      jobs := jobs[j := Release(jobs[j], Done, now)];
      var inserted := j !in results;
      if inserted {
        results := results[j := Payload(company)];
      }
      RecordAuditEvent(j, Event(EvCompleted, company, SYSTEM_ACTOR, now));
      if inserted {
        companies := Charge(companies, company);
      }
      assert Stored() == after;
    }

    /** True when the row is cancelled: the worker lets go of its claim. */
    method AcknowledgeCancellation(w: WorkerId, now: Time) returns (cancelled: bool)
      requires Valid() && IsHolding(Abstract(), w)
      modifies this`jobs, this`workers
      ensures Valid() && Abstract() == DoAcknowledge(old(Abstract()), w, now)
      ensures cancelled <==> old(workers[w].claim.job in jobs && jobs[workers[w].claim.job].status == Cancelled)
    {
      var j := workers[w].claim.job;
      cancelled := j in jobs && jobs[j].status == Cancelled;
      if cancelled {
        if jobs[j].worker == Some(w) {
          WrittenRecord(Stored(), j, Release(jobs[j], Cancelled, now), None, None, None);
          jobs := jobs[j := Release(jobs[j], Cancelled, now)];
        }
        workers := workers[w := Idle];
      }
    }

    /** True for 'failed'; false when the guard matches no row. */
    method RecordFailure(w: WorkerId, now: Time, error: string) returns (failed: bool)
      requires Valid() && IsHolding(Abstract(), w) && !Waits(Abstract(), Work(w, Queue.RecordFailure(now, error)))
      modifies this
      ensures Valid() && Abstract() == DoRecordFailure(old(Abstract()), w, now, error)
      ensures failed <==> old(Owns(Abstract(), w, workers[w].claim.job))
    {
      var claim := workers[w].claim;
      failed := claim.job in jobs && IsOwnedBy(jobs[claim.job], w);
      if failed {
        FailJob(claim.job, claim.company, claim.attempts >= MAX_ATTEMPTS, error, now);
      }
      workers := workers[w := Idle];
    }

    /** The writes of a recorded failure whose UPDATE matched. */
    method FailJob(j: JobId, company: CompanyId, exhausted: bool, error: string, now: Time)
      requires Valid() && j in jobs
      modifies this`jobs, this`audit, this`deadLetters
      ensures Valid() && Recs(Stored()) == Recs(old(Stored()))[j := Fail(Recs(old(Stored()))[j], company, exhausted, error, now)]
    {
      FailedRecord(Stored(), j, company, exhausted, error, now);
      ghost var after := FailedTables(Stored(), j, company, exhausted, error, now);
      jobs := jobs[j := FailedRow(jobs[j], error, now)];
      RecordAuditEvent(j, Event(EvFailed, company, SYSTEM_ACTOR, now));
      if exhausted {
        SendToDlq(j, error, now);
      }
      assert Stored() == after;
    }

    // ------------------------------------------------------------ lease recovery

    /** The UPDATE of the recovery; returns the ids of its rows. */
    method FailStale(now: Time, lease: Time) returns (stale: set<JobId>)
      requires Valid()
      modifies this`jobs
      ensures Valid() && stale == set j | j in old(jobs) && IsStale(old(jobs)[j], now, lease)
      ensures jobs == map j | j in old(jobs) :: if j in stale then FailedRow(old(jobs)[j], LEASE_ERROR, now) else old(jobs)[j]
    {
      stale := set j | j in jobs && IsStale(jobs[j], now, lease);
      jobs := map j | j in jobs :: if j in stale then FailedRow(jobs[j], LEASE_ERROR, now) else jobs[j];
    }

    /** One UPDATE turns every stale claim into a failure; then each row it returned, in any
        order, gets its audit event and, if it was the third attempt, its dead letter. */
    method RecoverStaleJobs(now: Time, lease: Time) returns (count: nat)
      requires Valid() && !Waits(Abstract(), RecoverStale(now, lease))
      modifies this`jobs, this`audit, this`deadLetters
      ensures Valid() && Abstract() == DoRecoverStale(old(Abstract()), now, lease)
      ensures count == |set j | j in old(jobs) && IsStale(old(jobs)[j], now, lease)|
    {
      ghost var before := Stored();
      var stale := FailStale(now, lease);
      RecordRecoveries(before, stale, now);
      count := |stale|;
      RecoveredTables(before, Stored(), stale, now, lease);
    }

    /** The loop over the rows the UPDATE returned. */
    method RecordRecoveries(ghost before: Contents, stale: set<JobId>, now: Time)
      requires ReferencesHold(Stored()) && before.jobs.Keys == jobs.Keys && stale <= jobs.Keys
      requires audit == before.audit && deadLetters == before.deadLetters
      requires forall j | j in stale :: jobs[j] == FailedRow(before.jobs[j], LEASE_ERROR, now)
      modifies this`audit, this`deadLetters
      ensures ReferencesHold(Stored())
      ensures forall j | j in before.jobs :: RowRecovered(before, audit, deadLetters, j, now, j in stale)
    {
      var rest := stale;
      while rest != {}
        invariant rest <= stale && ReferencesHold(Stored())
        invariant forall j | j in before.jobs :: RowRecovered(before, audit, deadLetters, j, now, j in stale && j !in rest)
        decreases rest
      {
        var j :| j in rest;
        ghost var audit0, dead0 := audit, deadLetters;
        assert RowRecovered(before, audit, deadLetters, j, now, false);
        RecoverOne(j, now);
        forall i | i in before.jobs ensures RowRecovered(before, audit, deadLetters, i, now, i in stale && i !in rest - {j}) {
          if i != j {
            assert RowRecovered(before, audit0, dead0, i, now, i in stale && i !in rest);
          }
        }
        rest := rest - {j};
      }
    }

    /** The loop body of the recovery: one event, and a letter unless the job has one. */
    method RecoverOne(j: JobId, now: Time)
      requires ReferencesHold(Stored()) && j in jobs
      modifies this`audit, this`deadLetters
      ensures ReferencesHold(Stored())
      ensures forall i :: EventsOf(audit, i) == EventsOf(old(audit), i)
                + if i == j then [Event(EvFailed, jobs[j].company, SYSTEM_ACTOR, now)] else []
      ensures forall i :: LettersOf(deadLetters, i) ==
                if i == j && jobs[j].attempts >= MAX_ATTEMPTS
                then AddLetter(LettersOf(old(deadLetters), j), Letter(jobs[j], LEASE_ERROR, now)) else LettersOf(old(deadLetters), i)
    {
      var row := AuditRow(j, Event(EvFailed, jobs[j].company, SYSTEM_ACTOR, now));
      var letter := DeadRow(j, Letter(jobs[j], LEASE_ERROR, now));
      forall i ensures EventsOf(audit + [row], i) == EventsOf(audit, i) + if i == j then [row.event] else [] {
        EventAppended(audit, row, i);
      }
      forall i ensures LettersOf(deadLetters + [letter], i) == LettersOf(deadLetters, i) + if i == j then [letter.letter] else [] {
        LetterAppended(deadLetters, letter, i);
      }
      RecordAuditEvent(j, row.event);
      if jobs[j].attempts >= MAX_ATTEMPTS {
        SendToDlq(j, LEASE_ERROR, now);
      }
    }

    // ------------------------------------------------------------------- API

    /** The writes of a cancel whose UPDATE matched. */
    method MarkCancelled(j: JobId, actor: string, now: Time)
      requires Valid() && j in jobs
      modifies this`jobs, this`audit
      ensures Valid() && Recs(Stored()) == Recs(old(Stored()))[j := Cancel(Recs(old(Stored()))[j], actor, now)]
      ensures j in jobs && jobs[j].attempts == old(jobs)[j].attempts
    {
      CancelledRecord(Stored(), j, actor, now);
      ghost var after := CancelledTables(Stored(), j, actor, now);
      var event := Event(EvCancelled, jobs[j].company, actor, now);
      jobs := jobs[j := Release(jobs[j], Cancelled, now)];
      RecordAuditEventOnce(j, event);
      assert Stored() == after;
    }

    /** The writes of a retry whose UPDATE matched. */
    method Requeue(j: JobId, actor: string, now: Time)
      requires Valid() && j in jobs
      modifies this`jobs, this`audit
      ensures Valid() && Recs(Stored()) == Recs(old(Stored()))[j := Retry(Recs(old(Stored()))[j], actor, now)]
      ensures j in jobs && jobs[j].attempts == old(jobs)[j].attempts
      ensures jobs[j].nextAttemptAt == RetriedRow(old(jobs)[j], now).nextAttemptAt
    {
      RetriedRecord(Stored(), j, actor, now);
      ghost var after := RetriedTables(Stored(), j, actor, now);
      var event := Event(EvRetryRequested, jobs[j].company, actor, now);
      jobs := jobs[j := RetriedRow(jobs[j], now)];
      RecordAuditEventOnce(j, event);
      assert audit == after.audit by {
        assert |AddEvent(EventsOf(old(audit), j), event)| == |EventsOf(old(audit), j)| + 1;
      }
      assert Stored() == after;
    }

    method CancelJob(c: CompanyId, j: JobId, actor: string, now: Time) returns (outcome: Tenancy.Outcome)
      requires Valid() && !Waits(Abstract(), Queue.CancelJob(c, j, actor, now))
      modifies this`jobs, this`audit
      ensures Valid() && Abstract() == DoCancelJob(old(Abstract()), c, j, actor, now)
      ensures outcome == Tenancy.CancelOutcome(old(Abstract()), c, j)
    {
      if j in jobs && jobs[j].company == c && IsActive(jobs[j].status) {
        MarkCancelled(j, actor, now);
        return Tenancy.Accepted(Cancelled, jobs[j].attempts);
      }
      if j !in jobs || jobs[j].company != c {
        return Tenancy.NotFound;
      }
      return Tenancy.InvalidState(jobs[j].status);
    }

    method RetryJob(c: CompanyId, j: JobId, actor: string, now: Time) returns (outcome: Tenancy.Outcome)
      requires Valid() && !Waits(Abstract(), Queue.RetryJob(c, j, actor, now))
      modifies this`jobs, this`audit
      ensures Valid() && Abstract() == DoRetryJob(old(Abstract()), c, j, actor, now)
      ensures outcome == Tenancy.RetryOutcome(old(Abstract()), c, j)
      ensures outcome.Accepted? ==>
                j in old(jobs) && j in jobs
                && jobs[j].nextAttemptAt == Some(now + if old(jobs)[j].attempts <= 1 then 5_000_000 else 10_000_000)
    {
      if j in jobs && jobs[j].company == c && IsRetryable(jobs[j]) {
        RetryWaits(jobs[j], now);
        Requeue(j, actor, now);
        return Tenancy.Accepted(Queued, jobs[j].attempts);
      }
      if j !in jobs || jobs[j].company != c {
        return Tenancy.NotFound;
      }
      if jobs[j].status == Failed {
        return Tenancy.RetryLimit(jobs[j].attempts);
      }
      return Tenancy.InvalidState(jobs[j].status);
    }

    method FindByIdempotencyKey(c: CompanyId, key: string) returns (found: Option<JobId>)
      requires Valid()
      ensures found == FindByKey(Abstract().recs, c, key)
      ensures found.Some? ==> found.value in jobs
    {
      var ids := set j | j in jobs && jobs[j].company == c && jobs[j].key == Some(key);
      assert ids == KeyedIds(Abstract().recs, c, key);
      found := if ids == {} then None else Some(Least(ids));
    }

    method CountActive(c: CompanyId) returns (running: nat)
      requires Valid()
      ensures running == |ActiveIds(Abstract().recs, c)|
    {
      var ids := set j | j in jobs && jobs[j].company == c && IsActive(jobs[j].status);
      assert ids == ActiveIds(Abstract().recs, c);
      running := |ids|;
    }

    method Replay(j: JobId, kind: string) returns (response: Response)
      requires Valid() && j in jobs
      ensures response == ReplayOf(Abstract().recs, j, kind)
    {
      response := if jobs[j].kind != kind then KeyConflict(jobs[j].kind) else Replayed(j, jobs[j].status);
    }

    method InsertJob(id: JobId, row: Job, actor: string)
      requires Valid() && id !in jobs
      modifies this`jobs, this`audit
      ensures Valid() && Recs(Stored()) == Recs(old(Stored()))[id := NewRecord(row, actor)]
      ensures jobs == old(jobs)[id := row]
    {
      var event := Event(EvSubmitted, row.company, actor, row.createdAt);
      NewRecordWritten(Stored(), id, row, event);
      ghost var after := Written(Stored(), id, row, None, Some(event), None);
      jobs := jobs[id := row];
      RecordAuditEvent(id, event);
      assert Stored() == after;
    }

    /** POST /jobs from its first statement to its commit, for a company whose row nobody has
        locked: what the split request does when nothing comes between its statements. */
    method CreateJob(r: RequestId, q: Request, now: Time) returns (response: Response)
      requires Valid() && Sequential.Uncontended(Abstract(), r, q.company, q.key)
      modifies this`jobs, this`audit, this`nextId, this`requests
      ensures Valid() && response == Admission.Verdict(old(Abstract()), q)
      ensures Abstract() == Sequential.Posted(old(Abstract()), r, q, now)
      ensures response.Created? ==> response.id == old(nextId) && jobs == old(jobs)[response.id := NewRow(q.company, q.kind, q.key, now)]
      ensures !response.Created? ==> jobs == old(jobs) && Admission.AnswerIsExact(old(Abstract()), q, response)
      ensures response.Replayed? ==>
                response.id in old(jobs) && old(jobs)[response.id].status == response.status
                && old(jobs)[response.id].company == q.company && old(jobs)[response.id].kind == q.kind
    {
      var existing := FindByIdempotencyKey(q.company, q.key);
      if existing.Some? {
        response := Replay(existing.value, q.kind);
        Admission.FoundAnswerIsExact(Abstract(), q);
      } else if q.company !in companies {
        response := UnknownCompany;
      } else {
        var running := CountActive(q.company);
        if running >= companies[q.company].maxConcurrentJobs {
          response := LimitReached(companies[q.company].maxConcurrentJobs, running);
          Admission.LimitAnswerIsExact(Abstract(), q);
        } else {
          assert nextId !in Abstract().recs;
          response := Created(nextId);
          InsertJob(nextId, NewRow(q.company, q.kind, q.key, now), q.actor);
          nextId := nextId + 1;
        }
      }
      requests := requests[r := q.(stage := Replied(response))];
    }

    // ------------------------------------------- POST /jobs, statement by statement

    method LookupElse(q: Request, otherwise: Effect) returns (effect: Effect)
      requires Valid()
      ensures effect == LookupOr(Abstract(), q, otherwise)
    {
      var found := FindByIdempotencyKey(q.company, q.key);
      if found.Some? {
        var response := Replay(found.value, q.kind);
        return Answer(response);
      }
      return otherwise;
    }

    method Statement(q: Request, step: CreateStep) returns (effect: Effect)
      requires Valid()
      ensures effect == Decide(Abstract(), q, step)
    {
      effect := Stay;
      match (step, q.stage)
      case (Lookup, Started) => effect := LookupElse(q, Move(WantsLock));
      case (LockCompany, WantsLock) =>
        if q.company !in companies {
          effect := Answer(UnknownCompany);
        } else if q.company !in locks {
          effect := TakeLock(companies[q.company].maxConcurrentJobs);
        }
      case (Relookup, Locked(limit)) => effect := LookupElse(q, Move(Checked(limit)));
      case (CountActive, Checked(limit)) =>
        var running := CountActive(q.company);
        effect := if running >= limit then Answer(LimitReached(limit, running)) else Move(Counted);
      case (Insert(now), Counted) => effect := InsertStatement(q, now);
      case (ResolveConflict, Conflicted) => effect := LookupElse(q, Answer(Aborted));
      case (Commit, Inserted(id, row)) => effect := if id in jobs then Answer(Aborted) else Publish(id, row);
      case (Abort, stage) => effect := if stage.Replied? then Stay else Answer(Aborted);
      case _ =>
    }

    method InsertStatement(q: Request, now: Time) returns (effect: Effect)
      requires Valid() && q.stage.Counted?
      ensures effect == Decide(Abstract(), q, Insert(now))
    {
      var found := FindByIdempotencyKey(q.company, q.key);
      if found.Some? {
        return DrawId(Conflicted);
      }
      if exists o | o in requests :: requests[o].stage.Inserted? && requests[o].company == q.company && requests[o].key == q.key {
        var o :| o in requests && requests[o].stage.Inserted? && requests[o].company == q.company && requests[o].key == q.key;
        assert IsPending(Abstract(), o, q.company, q.key);
        return Stay;
      }
      return DrawId(Inserted(nextId, NewRow(q.company, q.kind, q.key, now)));
    }

    method SetStage(r: RequestId, stage: Stage)
      requires r in requests
      modifies this`requests
      ensures requests == old(requests)[r := old(requests)[r].(stage := stage)]
    {
      requests := requests[r := requests[r].(stage := stage)];
    }

    method ApplyEffect(r: RequestId, effect: Effect)
      requires Valid() && r in requests && (effect.Publish? ==> effect.id !in jobs)
      modifies this`jobs, this`audit, this`nextId, this`requests, this`locks
      ensures Valid() && Abstract() == Apply(old(Abstract()), r, effect)
    {
      match effect
      case Stay =>
      case Move(stage) => SetStage(r, stage);
      case TakeLock(limit) =>
        locks := locks[requests[r].company := r];
        SetStage(r, Locked(limit));
      case DrawId(stage) =>
        SetStage(r, stage);
        nextId := nextId + 1;
      case Answer(response) =>
        SetStage(r, Replied(response));
        locks := map c | c in locks && locks[c] != r :: locks[c];
      case Publish(id, row) =>
        InsertJob(id, row, requests[r].actor);
        SetStage(r, Replied(Created(id)));
        locks := map c | c in locks && locks[c] != r :: locks[c];
    }

    method CreateStatement(r: RequestId, step: CreateStep)
      requires Valid()
      modifies this`jobs, this`audit, this`nextId, this`requests, this`locks
      ensures Valid() && Abstract() == DoCreate(old(Abstract()), r, step)
    {
      if step.Begin? {
        if r !in requests {
          requests := requests[r := Request(step.company, step.kind, step.key, step.actor, Started)];
        }
      } else if r in requests {
        var effect := Statement(requests[r], step);
        ApplyEffect(r, effect);
      }
    }

    // ------------------------------------------------------------------ any step

    method WorkerStep(w: WorkerId, step: WorkerStep)
      requires Valid() && !Waits(Abstract(), Work(w, step))
      modifies this
      ensures Valid() && Abstract() == DoWork(old(Abstract()), w, step)
    {
      match step
      case StartWorker => StartWorker(w);
      case Crash => Crash(w);
      case ClaimNext(now, skip) => var _ := ClaimNext(w, now, skip);
      case RenewLease(now) => var _ := RenewLease(w, now);
      case Finalize(now, raised) => if w in workers && workers[w].Holding? { var _ := Finalize(w, now, raised); }
      case Acknowledge(now) => if w in workers && workers[w].Holding? { var _ := AcknowledgeCancellation(w, now); }
      case RecordFailure(now, error) => if w in workers && workers[w].Holding? { var _ := RecordFailure(w, now, error); }
    }

    /** Whether a transaction would stop at the share lock of its audit events. */
    method MustWait(step: Step) returns (waits: bool)
      requires Valid()
      ensures waits == Waits(Abstract(), step)
    {
      assert forall j | j in jobs :: j in Abstract().recs && Abstract().recs[j].row == jobs[j];
      match step
      case RecoverStale(now, lease) =>
        return exists j | j in jobs :: IsStale(jobs[j], now, lease) && jobs[j].company in locks;
      case Work(w, work) =>
        if (work.Finalize? || work.RecordFailure?) && w in workers && workers[w].Holding? {
          var claim := workers[w].claim;
          return claim.job in jobs && IsOwnedBy(jobs[claim.job], w) && claim.company in locks;
        }
        return false;
      case CancelJob(c, j, _, _) => return c in locks && j in jobs && jobs[j].company == c && IsActive(jobs[j].status);
      case RetryJob(c, j, _, _) => return c in locks && j in jobs && jobs[j].company == c && IsRetryable(jobs[j]);
      case Create(_, _) => return false;
    }

    method Execute(step: Step)
      requires Valid()
      modifies this
      ensures Valid() && Abstract() == Do(old(Abstract()), step)
    {
      var waits := MustWait(step);
      if waits {
        return;
      }
      match step
      case RecoverStale(now, lease) => var _ := RecoverStaleJobs(now, lease);
      case Work(w, work) => WorkerStep(w, work);
      case CancelJob(c, j, actor, now) => var _ := CancelJob(c, j, actor, now);
      case RetryJob(c, j, actor, now) => var _ := RetryJob(c, j, actor, now);
      case Create(r, create) => CreateStatement(r, create);
    }

    /** The tables under any interleaving of transactions follow the state machine. */
    method ExecuteAll(steps: seq<Step>)
      requires Valid()
      modifies this
      ensures Valid() && Abstract() == Run(old(Abstract()), steps)
    {
      for i := 0 to |steps|
        invariant Valid() && Abstract() == Run(old(Abstract()), steps[..i])
      {
        Execute(steps[i]);
        assert steps[..i + 1][..i] == steps[..i];
      }
      assert steps[..|steps|] == steps;
    }
  }

  ghost function RecoveredLog(before: Contents, j: JobId, now: Time, recovered: bool): seq<Event>
    requires j in before.jobs
  {
    EventsOf(before.audit, j) + if recovered then [Event(EvFailed, before.jobs[j].company, SYSTEM_ACTOR, now)] else []
  }

  ghost function RecoveredLetters(before: Contents, j: JobId, now: Time, recovered: bool): seq<DeadLetter>
    requires j in before.jobs
  {
    var dead := LettersOf(before.deadLetters, j);
    var row := FailedRow(before.jobs[j], LEASE_ERROR, now);
    if recovered && row.attempts >= MAX_ATTEMPTS then AddLetter(dead, Letter(row, LEASE_ERROR, now)) else dead
  }

  ghost predicate RowRecovered(before: Contents, audit: seq<AuditRow>, dead: seq<DeadRow>, j: JobId, now: Time, recovered: bool)
    requires j in before.jobs
  {
    EventsOf(audit, j) == RecoveredLog(before, j, now, recovered) && LettersOf(dead, j) == RecoveredLetters(before, j, now, recovered)
  }

  lemma RecoveredRow(before: Contents, after: Contents, j: JobId, now: Time, lease: Time)
    requires j in before.jobs && j in after.jobs
    requires after.jobs[j] == if IsStale(before.jobs[j], now, lease) then FailedRow(before.jobs[j], LEASE_ERROR, now) else before.jobs[j]
    requires after.results == before.results
    requires RowRecovered(before, after.audit, after.deadLetters, j, now, IsStale(before.jobs[j], now, lease))
    ensures RecordAt(after, j) == Recovered(RecordAt(before, j), now, lease)
  {
  }

  lemma RecoveredTables(before: Contents, after: Contents, stale: set<JobId>, now: Time, lease: Time)
    requires stale == set j | j in before.jobs && IsStale(before.jobs[j], now, lease)
    requires after.jobs == map j | j in before.jobs :: if j in stale then FailedRow(before.jobs[j], LEASE_ERROR, now) else before.jobs[j]
    requires after.results == before.results
    requires forall j | j in before.jobs :: RowRecovered(before, after.audit, after.deadLetters, j, now, j in stale)
    ensures Recs(after) == map j | j in Recs(before) :: Recovered(Recs(before)[j], now, lease)
  {
    forall j | j in before.jobs ensures RecordAt(after, j) == Recovered(RecordAt(before, j), now, lease) {
      assert RowRecovered(before, after.audit, after.deadLetters, j, now, j in stale);
      RecoveredRow(before, after, j, now, lease);
    }
  }
}
