/** POST /jobs with nothing running beside it, and a run that takes a company over its limit. */
module Sequential {
  import opened Tables
  import opened Lifecycle
  import opened Queue
  import opened Admission

  /** Nobody else holds the company's row or has the key in an open transaction. */
  predicate Uncontended(s: State, r: RequestId, c: CompanyId, key: string) {
    && r !in s.requests
    && c !in s.locks
    && (forall d | d in s.locks :: s.locks[d] != r)
    && (forall o | o in s.requests :: !IsPending(s, o, c, key))
    && s.nextId !in s.recs
  }

  /** The state a whole request leaves behind: its answer, and the new job if it created one. */
  function Posted(s: State, r: RequestId, q: Request, now: Time): State {
    var verdict := Verdict(s, q);
    var t := s.(requests := s.requests[r := q.(stage := Replied(verdict))]);
    if verdict.Created? then
      t.(recs := t.recs[s.nextId := NewRecord(NewRow(q.company, q.kind, q.key, now), q.actor)], nextId := s.nextId + 1)
    else t
  }

  function PostSteps(r: RequestId, q: Request, now: Time): seq<Step> {
    [Create(r, Begin(q.company, q.kind, q.key, q.actor)), Create(r, Lookup), Create(r, LockCompany), Create(r, Relookup),
     Create(r, CountActive), Create(r, Insert(now)), Create(r, Commit)]
  }

  /** r at a stage, without and with the lock on its company. */
  function Outside(s: State, r: RequestId, q: Request, stage: Stage): State {
    s.(requests := s.requests[r := q.(stage := stage)])
  }

  function Inside(s: State, r: RequestId, q: Request, stage: Stage): State {
    Outside(s, r, q, stage).(locks := s.locks[q.company := r])
  }

  lemma Unlocks(s: State, r: RequestId, q: Request, stage: Stage)
    requires Uncontended(s, r, q.company, q.key)
    ensures (map c | c in s.locks && s.locks[c] != r :: s.locks[c]) == s.locks
    ensures (map c | c in Inside(s, r, q, stage).locks && Inside(s, r, q, stage).locks[c] != r :: Inside(s, r, q, stage).locks[c]) == s.locks
  {
  }

  lemma AnswerAlone(s: State, r: RequestId, q: Request, stage: Stage, response: Response)
    requires Uncontended(s, r, q.company, q.key)
    ensures Apply(Outside(s, r, q, stage), r, Answer(response)) == Outside(s, r, q, Replied(response))
    ensures Apply(Inside(s, r, q, stage), r, Answer(response)) == Outside(s, r, q, Replied(response))
  {
    Unlocks(s, r, q, stage);
  }

  lemma LookupAlone(s: State, r: RequestId, q: Request)
    requires Uncontended(s, r, q.company, q.key)
    ensures DoCreate(Outside(s, r, q, Started), r, Lookup)
         == Outside(s, r, q, if KeyedIds(s.recs, q.company, q.key) == {} then WantsLock else Replied(Verdict(s, q)))
  {
    AnswerAlone(s, r, q, Started, Verdict(s, q));
  }

  lemma LockAlone(s: State, r: RequestId, q: Request)
    requires Uncontended(s, r, q.company, q.key)
    ensures DoCreate(Outside(s, r, q, WantsLock), r, LockCompany)
         == if q.company in s.companies then Inside(s, r, q, Locked(s.companies[q.company].maxConcurrentJobs))
            else Outside(s, r, q, Replied(UnknownCompany))
  {
    Unlocks(s, r, q, WantsLock);
  }

  lemma RelookupAlone(s: State, r: RequestId, q: Request, limit: int)
    requires KeyedIds(s.recs, q.company, q.key) == {}
    ensures DoCreate(Inside(s, r, q, Locked(limit)), r, Relookup) == Inside(s, r, q, Checked(limit))
  {
  }

  lemma CountAlone(s: State, r: RequestId, q: Request, limit: int, running: nat)
    requires Uncontended(s, r, q.company, q.key) && running == |ActiveIds(s.recs, q.company)|
    ensures DoCreate(Inside(s, r, q, Checked(limit)), r, CountActive)
         == if running >= limit then Outside(s, r, q, Replied(LimitReached(limit, running))) else Inside(s, r, q, Counted)
  {
    if running >= limit {
      AnswerAlone(s, r, q, Checked(limit), LimitReached(limit, running));
    }
  }

  lemma InsertAlone(s: State, r: RequestId, q: Request, now: Time)
    requires Uncontended(s, r, q.company, q.key) && KeyedIds(s.recs, q.company, q.key) == {}
    ensures DoCreate(Inside(s, r, q, Counted), r, Insert(now))
         == Inside(s, r, q, Inserted(s.nextId, NewRow(q.company, q.kind, q.key, now))).(nextId := s.nextId + 1)
  {
    var t := Inside(s, r, q, Counted);
    forall o | o in t.requests ensures !IsPending(t, o, q.company, q.key) {
      assert o != r ==> !IsPending(s, o, q.company, q.key);
    }
  }

  lemma CommitAlone(s: State, r: RequestId, q: Request, now: Time)
    requires Uncontended(s, r, q.company, q.key) && Verdict(s, q).Created?
    ensures DoCreate(Inside(s, r, q, Inserted(s.nextId, NewRow(q.company, q.kind, q.key, now))).(nextId := s.nextId + 1), r, Commit)
         == Posted(s, r, q, now)
  {
    Unlocks(s, r, q, Inserted(s.nextId, NewRow(q.company, q.kind, q.key, now)));
  }

  lemma RepliedStays(s: State, r: RequestId, step: CreateStep)
    requires r in s.requests && s.requests[r].stage.Replied?
    ensures DoCreate(s, r, step) == s
  {
  }

  /** The statements of a request up to its count, ending early with an answer. */
  function Front(s: State, r: RequestId): State {
    DoCreate(DoCreate(DoCreate(DoCreate(s, r, Lookup), r, LockCompany), r, Relookup), r, CountActive)
  }

  lemma FrontAlone(s: State, r: RequestId, q: Request)
    requires Uncontended(s, r, q.company, q.key)
    ensures Front(Outside(s, r, q, Started), r)
         == if Verdict(s, q).Created? then Inside(s, r, q, Counted) else Outside(s, r, q, Replied(Verdict(s, q)))
  {
    LookupAlone(s, r, q);
    if KeyedIds(s.recs, q.company, q.key) != {} {
      var t := Outside(s, r, q, Replied(Verdict(s, q)));
      RepliedStays(t, r, LockCompany);
      RepliedStays(t, r, Relookup);
      RepliedStays(t, r, CountActive);
    } else {
      LockAlone(s, r, q);
      if q.company in s.companies {
        var limit := s.companies[q.company].maxConcurrentJobs;
        RelookupAlone(s, r, q, limit);
        CountAlone(s, r, q, limit, |ActiveIds(s.recs, q.company)|);
      } else {
        var t := Outside(s, r, q, Replied(UnknownCompany));
        RepliedStays(t, r, Relookup);
        RepliedStays(t, r, CountActive);
      }
    }
  }

  lemma BackAlone(s: State, r: RequestId, q: Request, now: Time)
    requires Uncontended(s, r, q.company, q.key)
    ensures DoCreate(DoCreate(Front(Outside(s, r, q, Started), r), r, Insert(now)), r, Commit) == Posted(s, r, q, now)
  {
    FrontAlone(s, r, q);
    if Verdict(s, q).Created? {
      InsertAlone(s, r, q, now);
      CommitAlone(s, r, q, now);
    } else {
      RepliedStays(Outside(s, r, q, Replied(Verdict(s, q))), r, Insert(now));
      RepliedStays(Outside(s, r, q, Replied(Verdict(s, q))), r, Commit);
    }
  }

  lemma {:induction false} RunAppends(s: State, a: seq<Step>, b: seq<Step>)
    ensures Run(s, a + b) == Run(Run(s, a), b)
    decreases |b|
  {
    if b == [] {
      assert a + b == a;
    } else {
      RunAppends(s, a, b[..|b| - 1]);
      assert (a + b)[..|a + b| - 1] == a + b[..|b| - 1];
    }
  }

  lemma RunSnoc(s: State, a: seq<Step>, step: Step)
    ensures Run(s, a + [step]) == Do(Run(s, a), step)
  {
    assert (a + [step])[..|a|] == a;
  }

  lemma FrontIsRun(s: State, r: RequestId)
    ensures Run(s, [Create(r, Lookup), Create(r, LockCompany), Create(r, Relookup), Create(r, CountActive)]) == Front(s, r)
  {
    RunSnoc(s, [], Create(r, Lookup));
    RunSnoc(s, [Create(r, Lookup)], Create(r, LockCompany));
    RunSnoc(s, [Create(r, Lookup), Create(r, LockCompany)], Create(r, Relookup));
    RunSnoc(s, [Create(r, Lookup), Create(r, LockCompany), Create(r, Relookup)], Create(r, CountActive));
    assert [] + [Create(r, Lookup)] == [Create(r, Lookup)];
    assert [Create(r, Lookup)] + [Create(r, LockCompany)] == [Create(r, Lookup), Create(r, LockCompany)];
    assert [Create(r, Lookup), Create(r, LockCompany)] + [Create(r, Relookup)]
        == [Create(r, Lookup), Create(r, LockCompany), Create(r, Relookup)];
    assert [Create(r, Lookup), Create(r, LockCompany), Create(r, Relookup)] + [Create(r, CountActive)]
        == [Create(r, Lookup), Create(r, LockCompany), Create(r, Relookup), Create(r, CountActive)];
  }

  /** With nothing running beside it, the split request is one atomic POST /jobs. */
  lemma PostAlone(s: State, r: RequestId, q: Request, now: Time)
    requires Uncontended(s, r, q.company, q.key) && q.stage.Started?
    ensures Run(s, PostSteps(r, q, now)) == Posted(s, r, q, now)
  {
    var begin := Create(r, Begin(q.company, q.kind, q.key, q.actor));
    var front := [Create(r, Lookup), Create(r, LockCompany), Create(r, Relookup), Create(r, CountActive)];
    RunSnoc(s, [], begin);
    assert [] + [begin] == [begin];
    assert Run(s, [begin]) == Outside(s, r, q, Started);
    RunAppends(s, [begin], front);
    FrontIsRun(Outside(s, r, q, Started), r);
    RunSnoc(s, [begin] + front, Create(r, Insert(now)));
    RunSnoc(s, [begin] + front + [Create(r, Insert(now))], Create(r, Commit));
    assert PostSteps(r, q, now) == [begin] + front + [Create(r, Insert(now))] + [Create(r, Commit)];
    BackAlone(s, r, q, now);
  }

  // ------------------------------------------------- the limit is not an invariant

  /** One company that may run one job at a time. */
  const EMPTY := State(map[], map[0 := Company(1, 100)], 0, map[], map[], map[])

  const FIRST := Request(0, "report", "a", "0:user", Started)
  const SECOND_REQUEST := Request(0, "report", "b", "0:user", Started)

  /** The first request's job, on its first attempt by worker 7. */
  const FIRST_ROW := NewRow(0, "report", "a", 0)
  const CLAIMED := State(
    map[0 := NewRecord(FIRST_ROW, "0:user").(row := ClaimedRow(FIRST_ROW, 7, 0))],
    EMPTY.companies, 1, map[7 := Holding(Claim(0, 0, 1))], map[0 := FIRST.(stage := Replied(Created(0)))], map[])

  lemma FirstPosted()
    ensures Run(EMPTY, PostSteps(0, FIRST, 0)) == CLAIMED.(recs := map[0 := NewRecord(FIRST_ROW, "0:user")], workers := map[])
  {
    assert KeyedIds(EMPTY.recs, 0, "a") == {} && ActiveIds(EMPTY.recs, 0) == {};
    PostAlone(EMPTY, 0, FIRST, 0);
  }

  lemma FirstStarted()
    ensures Do(CLAIMED.(recs := map[0 := NewRecord(FIRST_ROW, "0:user")], workers := map[]), Work(7, StartWorker))
         == CLAIMED.(recs := map[0 := NewRecord(FIRST_ROW, "0:user")], workers := map[7 := Idle])
  {
  }

  lemma FirstTaken()
    ensures Do(CLAIMED.(recs := map[0 := NewRecord(FIRST_ROW, "0:user")], workers := map[7 := Idle]), Work(7, ClaimNext(0, {}))) == CLAIMED
  {
    assert EligibleIds(map[0 := NewRecord(FIRST_ROW, "0:user")], 0, {}) == {0};
  }

  lemma ClaimedFirst() returns (steps: seq<Step>)
    ensures Run(EMPTY, steps) == CLAIMED
    ensures forall step | step in steps :: !step.CancelJob?
  {
    FirstPosted();
    FirstStarted();
    FirstTaken();
    var post := PostSteps(0, FIRST, 0);
    RunSnoc(EMPTY, post, Work(7, StartWorker));
    RunSnoc(EMPTY, post + [Work(7, StartWorker)], Work(7, ClaimNext(0, {})));
    steps := post + [Work(7, StartWorker)] + [Work(7, ClaimNext(0, {}))];
  }

  lemma FailedFirst() returns (steps: seq<Step>, s: State)
    ensures s == Run(EMPTY, steps)
    ensures s.companies == EMPTY.companies && s.nextId == 1 && s.locks == map[] && s.requests.Keys == {0} && !s.requests[0].stage.Inserted?
    ensures s.recs.Keys == {0} && s.recs[0].row.company == 0 && s.recs[0].row.key == Some("a")
    ensures s.recs[0].row.status == Failed && s.recs[0].row.attempts == 1
  {
    var before := ClaimedFirst();
    steps := before + [Work(7, RecordFailure(0, "boom"))];
    RunSnoc(EMPTY, before, Work(7, RecordFailure(0, "boom")));
    s := Do(CLAIMED, Work(7, RecordFailure(0, "boom")));
  }

  /** The first job has failed and the second has its slot. */
  lemma SlotTaken() returns (steps: seq<Step>, s: State)
    ensures s == Run(EMPTY, steps) && s.companies == EMPTY.companies && s.locks == map[]
    ensures ActiveIds(s.recs, 0) == {1} && CanRetry(s, 0, 0)
  {
    var before, failed := FailedFirst();
    assert KeyedIds(failed.recs, 0, "b") == {} && ActiveIds(failed.recs, 0) == {};
    PostAlone(failed, 1, SECOND_REQUEST, 0);
    RunAppends(EMPTY, before, PostSteps(1, SECOND_REQUEST, 0));
    steps := before + PostSteps(1, SECOND_REQUEST, 0);
    s := Posted(failed, 1, SECOND_REQUEST, 0);
  }

  /** With a limit of one: a job fails, another takes the slot, the first is retried, and two are
      active. */
  lemma LimitCanBeExceeded() returns (steps: seq<Step>, s: State)
    ensures EmptyStart(EMPTY) && s == Run(EMPTY, steps)
    ensures 0 in s.companies && |ActiveIds(s.recs, 0)| == 2 > s.companies[0].maxConcurrentJobs
  {
    var before, full := SlotTaken();
    steps := before + [RetryJob(0, 0, "0:user", 0)];
    RunSnoc(EMPTY, before, RetryJob(0, 0, "0:user", 0));
    s := Do(full, RetryJob(0, 0, "0:user", 0));
    RetryIgnoresLimit(full, 0, 0, "0:user", 0);
  }
}
