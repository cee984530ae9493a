/** One job seen across the tables: its row, its audit events in insertion order,
    its result and its dead letters. Every transaction of the protocol changes a
    job through one of the transitions below. */
module Lifecycle {
  import opened Tables
  import opened Decimal

  datatype Record = Record(row: Job, log: seq<Event>, result: Option<string>, dead: seq<DeadLetter>)

  // ---------------------------------------------------------------- transitions

  function Release(row: Job, status: Status, now: Time): Job {
    row.(status := status, lockedAt := None, worker := None, updatedAt := now)
  }

  function NewRow(company: CompanyId, kind: string, key: string, now: Time): Job {
    Job(company, kind, Queued, 0, Some(key), None, None, None, None, now, now)
  }

  function NewRecord(row: Job, actor: string): Record {
    Record(row, [Event(EvSubmitted, row.company, actor, row.createdAt)], None, [])
  }

  predicate IsStale(row: Job, now: Time, lease: Time) {
    row.status == Running && (row.lockedAt == None || row.lockedAt.value < now - lease)
  }

  predicate IsOwnedBy(row: Job, w: WorkerId) {
    row.status == Running && row.worker == Some(w)
  }

  predicate IsEligible(row: Job, now: Time) {
    && row.status == Queued
    && row.attempts < MAX_ATTEMPTS
    && (row.nextAttemptAt == None || row.nextAttemptAt.value <= now)
  }

  function FailedRow(row: Job, error: string, now: Time): Job {
    Release(row, Failed, now).(lastError := Some(error), nextAttemptAt := None)
  }

  /** The row copied by INSERT ... SELECT FROM jobs. */
  function Letter(row: Job, error: string, now: Time): DeadLetter {
    DeadLetter(row.company, row.kind, row.attempts, error, row.createdAt, now)
  }

  /** ON CONFLICT (job_id) DO NOTHING. */
  function AddLetter(dead: seq<DeadLetter>, letter: DeadLetter): seq<DeadLetter> {
    if dead == [] then [letter] else dead
  }

  function Fail(rec: Record, company: CompanyId, exhausted: bool, error: string, now: Time): Record {
    var row := FailedRow(rec.row, error, now);
    Record(row,
           rec.log + [Event(EvFailed, company, SYSTEM_ACTOR, now)],
           rec.result,
           if exhausted then AddLetter(rec.dead, Letter(row, error, now)) else rec.dead)
  }

  function ClaimedRow(row: Job, w: WorkerId, now: Time): Job {
    row.(status := Running, attempts := row.attempts + 1, lockedAt := Some(now), worker := Some(w), updatedAt := now)
  }

  /** The payload written by the shipped handler names the tenant it belongs to. */
  function Payload(company: CompanyId): string {
    "resultado sensível da empresa " + Digits(company)
  }

  /** Two tenants never get the same payload. */
  lemma PayloadNamesTenant(c: CompanyId, d: CompanyId)
    ensures Payload(c) == Payload(d) ==> c == d
    ensures Payload(42) == "resultado sensível da empresa 42"
  {
    assert Digits(42) == Digits(4) + ['2'];
    var prefix := "resultado sensível da empresa ";
    if Payload(c) == Payload(d) {
      assert Payload(c)[|prefix|..] == Digits(c) && Payload(d)[|prefix|..] == Digits(d);
      DigitsAreInjective(c, d);
    }
  }

  function Complete(rec: Record, company: CompanyId, now: Time): Record {
    Record(Release(rec.row, Done, now),
           rec.log + [Event(EvCompleted, company, SYSTEM_ACTOR, now)],
           if rec.result == None then Some(Payload(company)) else rec.result,
           rec.dead)
  }

  /** The API's audit insert: the partial unique indexes allow one 'submitted' and one
      'cancelled' event a job, and ON CONFLICT DO NOTHING skips a second one. */
  function AddEvent(log: seq<Event>, e: Event): seq<Event> {
    if e.kind in {EvSubmitted, EvCancelled} && exists o | o in log :: o.kind == e.kind then log else log + [e]
  }

  predicate AtMostOne(log: seq<Event>, kind: EventKind) {
    forall i, k | 0 <= i < k < |log| :: !(log[i].kind == kind && log[k].kind == kind)
  }

  /** The insert never breaks the two unique indexes, loses no event, and drops the new one only if
      an index already holds its kind. */
  lemma AddEventKeepsIndexes(log: seq<Event>, e: Event)
    ensures AtMostOne(log, EvSubmitted) ==> AtMostOne(AddEvent(log, e), EvSubmitted)
    ensures AtMostOne(log, EvCancelled) ==> AtMostOne(AddEvent(log, e), EvCancelled)
    ensures if (e.kind == EvSubmitted || e.kind == EvCancelled) && exists o | o in log :: o.kind == e.kind
            then AddEvent(log, e) == log else AddEvent(log, e) == log + [e]
  {
  }

  function Cancel(rec: Record, actor: string, now: Time): Record {
    rec.(row := Release(rec.row, Cancelled, now),
         log := AddEvent(rec.log, Event(EvCancelled, rec.row.company, actor, now)))
  }

  predicate IsRetryable(row: Job) {
    row.status == Failed && row.attempts < MAX_ATTEMPTS
  }

  function RetriedRow(row: Job, now: Time): Job {
    Release(row, Queued, now).(lastError := None, nextAttemptAt := Some(now + Backoff(row.attempts)))
  }

  /** 5 s after the first attempt, 10 s after the second; there is no retry after the third. */
  lemma RetryWaits(row: Job, now: Time)
    requires IsRetryable(row)
    ensures RetriedRow(row, now).nextAttemptAt == Some(now + if row.attempts <= 1 then 5_000_000 else 10_000_000)
  {
    BackoffDoubles(row.attempts);
    BackoffDoubles(1);
  }

  function Retry(rec: Record, actor: string, now: Time): Record {
    rec.(row := RetriedRow(rec.row, now),
         log := AddEvent(rec.log, Event(EvRetryRequested, rec.row.company, actor, now)))
  }

  // ------------------------------------------------- replaying the audit log

  datatype Phase = Missing | Alive | Broken | Finished | Stopped

  datatype Replay = Illegal | At(phase: Phase, failures: nat, retries: nat)

  function Advance(r: Replay, kind: EventKind): Replay {
    match (r, kind)
    case (At(Missing, f, n), EvSubmitted) => At(Alive, f, n)
    case (At(Alive, f, n), EvFailed) => At(Broken, f + 1, n)
    case (At(Alive, f, n), EvCompleted) => At(Finished, f, n)
    case (At(Alive, f, n), EvCancelled) => At(Stopped, f, n)
    case (At(Broken, f, n), EvRetryRequested) => At(Alive, f, n + 1)
    case _ => Illegal
  }

  /** Folds the events of one job in insertion order. */
  function Fold(log: seq<Event>): Replay {
    if log == [] then At(Missing, 0, 0) else Advance(Fold(log[..|log| - 1]), Last(log).kind)
  }

  function PhaseOf(status: Status): Phase {
    match status
    case Queued => Alive
    case Running => Alive
    case Failed => Broken
    case Done => Finished
    case Cancelled => Stopped
  }

  /** The log replays to the row's status, and the number of failures, of retries and
      of attempts determine each other. */
  predicate LogExplainsRow(log: seq<Event>, row: Job) {
    var r := Fold(log);
    && r.At?
    && r.phase == PhaseOf(row.status)
    && match row.status
       case Queued => row.attempts == r.failures == r.retries
       case Running => row.attempts == r.failures + 1 == r.retries + 1
       case Failed => row.attempts == r.failures == r.retries + 1
       case Done => row.attempts == r.failures + 1 == r.retries + 1
       case Cancelled => r.failures == r.retries <= row.attempts <= r.failures + 1
  }

  lemma FoldAppend(log: seq<Event>, e: Event)
    ensures Fold(log + [e]) == Advance(Fold(log), e.kind)
  {
    assert (log + [e])[..|log|] == log;
  }

  /** A longer log counts no fewer failures and retries. */
  lemma {:induction false} FoldGrows(log: seq<Event>, longer: seq<Event>)
    requires log <= longer && Fold(longer).At?
    ensures Fold(log).At? && Fold(log).failures <= Fold(longer).failures && Fold(log).retries <= Fold(longer).retries
    decreases |longer|
  {
    if |log| < |longer| {
      FoldGrows(log, longer[..|longer| - 1]);
    } else {
      assert log == longer;
    }
  }

  function Kinds(log: seq<Event>): seq<EventKind> {
    seq(|log|, i requires 0 <= i < |log| => log[i].kind)
  }

  function Rounds(n: nat): seq<EventKind> {
    if n == 0 then [] else Rounds(n - 1) + [EvFailed, EvRetryRequested]
  }

  /** submitted (failed retry_requested)^n followed by at most one closing event. */
  function Word(phase: Phase, n: nat): seq<EventKind> {
    match phase
    case Missing => []
    case Alive => [EvSubmitted] + Rounds(n)
    case Broken => [EvSubmitted] + Rounds(n) + [EvFailed]
    case Finished => [EvSubmitted] + Rounds(n) + [EvCompleted]
    case Stopped => [EvSubmitted] + Rounds(n) + [EvCancelled]
  }

  /** An event that the automaton takes makes the word one longer. */
  lemma WordGrows(r: Replay, kind: EventKind)
    requires r.At? && Advance(r, kind).At? && (r.phase == Missing ==> r.retries == 0)
    ensures Word(Advance(r, kind).phase, Advance(r, kind).retries) == Word(r.phase, r.retries) + [kind]
  {
    if kind == EvRetryRequested {
      assert Rounds(r.retries + 1) == Rounds(r.retries) + [EvFailed, EvRetryRequested];
    }
  }

  lemma KindsAppend(log: seq<Event>)
    requires log != []
    ensures Kinds(log) == Kinds(log[..|log| - 1]) + [Last(log).kind]
  {
  }

  lemma {:induction false} LogIsWord(log: seq<Event>)
    requires Fold(log).At?
    ensures Kinds(log) == Word(Fold(log).phase, Fold(log).retries)
    ensures Fold(log).failures == Fold(log).retries + (if Fold(log).phase == Broken then 1 else 0)
    ensures Fold(log).phase == Missing ==> Fold(log).retries == 0
  {
    if log != [] {
      LogIsWord(log[..|log| - 1]);
      WordGrows(Fold(log[..|log| - 1]), Last(log).kind);
      KindsAppend(log);
    }
  }

  /** Where the automaton is after a word. */
  function Reached(phase: Phase, n: nat): Replay {
    At(phase, if phase == Broken then n + 1 else n, n)
  }

  /** The word one event shorter leads to the phase before. */
  lemma WordInit(phase: Phase, n: nat) returns (before: Phase, m: nat)
    requires phase != Missing
    ensures before == Missing ==> m == 0
    ensures Word(phase, n) != [] && Word(before, m) == Word(phase, n)[..|Word(phase, n)| - 1]
    ensures Advance(Reached(before, m), Last(Word(phase, n))) == Reached(phase, n)
  {
    before := if phase != Alive then Alive else if n == 0 then Missing else Broken;
    m := if phase == Alive && n > 0 then n - 1 else n;
    if phase == Alive && n > 0 {
      assert Word(Alive, n) == [EvSubmitted] + Rounds(n - 1) + [EvFailed] + [EvRetryRequested];
    }
  }

  lemma {:induction false} WordIsLog(log: seq<Event>, phase: Phase, n: nat)
    requires Kinds(log) == Word(phase, n)
    requires phase == Missing ==> n == 0
    ensures Fold(log) == Reached(phase, n)
    decreases |log|
  {
    if log != [] {
      KindsAppend(log);
      var before, m := WordInit(phase, n);
      WordIsLog(log[..|log| - 1], before, m);
    }
  }

  // ------------------------------------------------------ invariant of one job

  /** Holds of every job created by the API, in every reachable state. */
  predicate Consistent(rec: Record) {
    var row := rec.row;
    && 0 <= row.attempts <= MAX_ATTEMPTS
    && LogExplainsRow(rec.log, row)
    && rec.result == (if row.status == Done then Some(Payload(row.company)) else None)
    && ColumnsFollowStatus(row)
    && (row.status == Queued ==> row.attempts < MAX_ATTEMPTS)
    && DeadLetterExact(rec)
    && BackoffKept(rec)
    && Stamped(rec)
  }

  /** Which columns are null is decided by the status. */
  predicate ColumnsFollowStatus(row: Job) {
    && (row.worker.Some? <==> row.status == Running)
    && (row.lockedAt.Some? <==> row.status == Running)
    && (row.lastError.Some? <==> row.status == Failed)
    && (row.status == Failed || row.attempts == 0 ==> row.nextAttemptAt == None)
  }

  /** Row and log were written at the same times, by the same tenant's requests or the worker. */
  predicate Stamped(rec: Record) {
    && rec.log != []
    && rec.row.createdAt == rec.log[0].at
    && (rec.row.status != Running ==> rec.row.updatedAt == Last(rec.log).at)
    && (forall e | e in rec.log :: e.company == rec.row.company)
    && (forall e | e in rec.log && e.kind in {EvFailed, EvCompleted} :: e.actor == SYSTEM_ACTOR)
  }

  predicate IsExhausted(row: Job) {
    row.status == Failed && row.attempts == MAX_ATTEMPTS
  }

  /** One dead letter for an exhausted job, none for any other. */
  predicate DeadLetterExact(rec: Record) {
    if IsExhausted(rec.row) then
      && |rec.dead| == 1
      && var d := rec.dead[0];
         d == DeadLetter(rec.row.company, rec.row.kind, MAX_ATTEMPTS, d.lastError, rec.row.createdAt, rec.row.updatedAt)
         && rec.row.lastError == Some(d.lastError)
    else
      rec.dead == []
  }

  /** A queued job that has been tried before waits for the back-off counted from the retry that
      queued it; while it runs, the row still shows that it did wait. */
  predicate BackoffKept(rec: Record) {
    && (rec.row.status == Queued && rec.row.attempts > 0 ==> WaitsFrom(rec, rec.row.attempts))
    && (rec.row.status == Running && rec.row.attempts > 1 ==>
          WaitsFrom(rec, rec.row.attempts - 1) && rec.row.updatedAt >= rec.row.nextAttemptAt.value)
  }

  predicate WaitsFrom(rec: Record, tried: int) {
    && rec.log != []
    && Last(rec.log).kind == EvRetryRequested
    && rec.row.nextAttemptAt == Some(Last(rec.log).at + Backoff(tried))
  }

  lemma NewIsConsistent(company: CompanyId, kind: string, key: string, actor: string, now: Time)
    ensures Consistent(NewRecord(NewRow(company, kind, key, now), actor))
  {
    FoldAppend([], Event(EvSubmitted, company, actor, now));
    assert [] + [Event(EvSubmitted, company, actor, now)] == [Event(EvSubmitted, company, actor, now)];
  }

  lemma FailIsConsistent(rec: Record, error: string, now: Time)
    requires Consistent(rec) && rec.row.status == Running
    ensures Consistent(Fail(rec, rec.row.company, rec.row.attempts >= MAX_ATTEMPTS, error, now))
  {
    FoldAppend(rec.log, Event(EvFailed, rec.row.company, SYSTEM_ACTOR, now));
  }

  lemma ClaimIsConsistent(rec: Record, w: WorkerId, now: Time)
    requires Consistent(rec) && IsEligible(rec.row, now)
    ensures Consistent(rec.(row := ClaimedRow(rec.row, w, now)))
  {
  }

  lemma CompleteIsConsistent(rec: Record, now: Time)
    requires Consistent(rec) && rec.row.status == Running
    ensures Consistent(Complete(rec, rec.row.company, now))
  {
    FoldAppend(rec.log, Event(EvCompleted, rec.row.company, SYSTEM_ACTOR, now));
  }

  lemma {:induction false} NoClosingEvent(log: seq<Event>)
    requires Fold(log).At? && Fold(log).phase != Stopped
    ensures forall e | e in log :: e.kind != EvCancelled
  {
    if log != [] {
      NoClosingEvent(log[..|log| - 1]);
    }
  }

  lemma CancelIsConsistent(rec: Record, actor: string, now: Time)
    requires Consistent(rec) && IsActive(rec.row.status)
    ensures Consistent(Cancel(rec, actor, now))
  {
    NoClosingEvent(rec.log);
    var event := Event(EvCancelled, rec.row.company, actor, now);
    assert Cancel(rec, actor, now).log == rec.log + [event];
    FoldAppend(rec.log, event);
  }

  lemma RetryIsConsistent(rec: Record, actor: string, now: Time)
    requires Consistent(rec) && IsRetryable(rec.row)
    ensures Consistent(Retry(rec, actor, now))
  {
    FoldAppend(rec.log, Event(EvRetryRequested, rec.row.company, actor, now));
  }
}
