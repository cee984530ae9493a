/** How long the queue can go on: every lifecycle transition of a job, whichever process makes
    it, uses up part of a budget that only POST /jobs refills. */
module Progress {
  import opened Tables
  import opened Lifecycle
  import opened Queue
  import opened Safety

  /** The transitions a job has left, if it fails and is retried as often as it can. */
  function Remaining(row: Job): int {
    match row.status
    case Queued => 3 * (MAX_ATTEMPTS - row.attempts) - 1
    case Running => 3 * (MAX_ATTEMPTS - row.attempts) + 1
    case Failed => 3 * (MAX_ATTEMPTS - row.attempts)
    case Done => 0
    case Cancelled => 0
  }

  predicate Moved(a: Record, b: Record) {
    a.row.status != b.row.status || a.row.attempts != b.row.attempts
  }

  lemma MoveSpends(a: Record, b: Record)
    requires Consistent(a) && Edge(a, b)
    ensures (if Moved(a, b) then 1 else 0) + Remaining(b.row) <= Remaining(a.row)
    ensures Remaining(a.row) >= 0
  {
  }

  function RemainingAt(s: State, j: JobId): int {
    if j in s.recs then Remaining(s.recs[j].row) else 0
  }

  function MovedAt(s: State, s': State, j: JobId): int {
    if j in s.recs && j in s'.recs && Moved(s.recs[j], s'.recs[j]) then 1 else 0
  }

  /** The transitions left to the jobs with ids below n. */
  function Budget(s: State, n: nat): int {
    if n == 0 then 0 else Budget(s, n - 1) + RemainingAt(s, n - 1)
  }

  /** The jobs with ids below n that a step moved: a recovery can move many. */
  function Moves(s: State, s': State, n: nat): int {
    if n == 0 then 0 else Moves(s, s', n - 1) + MovedAt(s, s', n - 1)
  }

  function Refill(s: State, step: Step): int {
    if step.Create? && Publishes(s, step.r, step.create) then 8 else 0
  }

  lemma StepSpendsAt(s: State, step: Step, j: JobId)
    requires Healthy(s)
    ensures MovedAt(s, Do(s, step), j) + RemainingAt(Do(s, step), j)
         <= RemainingAt(s, j)
            + (if step.Create? && Publishes(s, step.r, step.create) && s.requests[step.r].stage.id == j then 8 else 0)
  {
    StepsFollowLifecycle(s, step);
    if j in s.recs {
      MoveSpends(s.recs[j], Do(s, step).recs[j]);
    } else if j in Do(s, step).recs {
      RowsComeFromCommits(s, step, j);
      CreateFollows(s, step.r, step.create);
      assert PendingRowNew(s.requests[step.r]);
    }
  }

  lemma {:induction false} StepSpends(s: State, step: Step, n: nat)
    requires Healthy(s)
    ensures Moves(s, Do(s, step), n) + Budget(Do(s, step), n)
         <= Budget(s, n)
            + (if step.Create? && Publishes(s, step.r, step.create) && s.requests[step.r].stage.id < n then 8 else 0)
  {
    if n > 0 {
      StepSpends(s, step, n - 1);
      StepSpendsAt(s, step, n - 1);
    }
  }

  function RunMoves(s: State, steps: seq<Step>, n: nat): int
    decreases |steps|
  {
    if steps == [] then 0
    else
      var init := steps[..|steps| - 1];
      RunMoves(s, init, n) + Moves(Run(s, init), Do(Run(s, init), Last(steps)), n)
  }

  /** The jobs a run created. */
  function Creations(s: State, steps: seq<Step>): nat
    decreases |steps|
  {
    if steps == [] then 0
    else
      var init := steps[..|steps| - 1];
      Creations(s, init) + if Refill(Run(s, init), Last(steps)) > 0 then 1 else 0
  }

  lemma BudgetIsNatural(s: State, n: nat)
    requires AllConsistent(s)
    ensures Budget(s, n) >= 0
  {
    if n > 0 {
      BudgetIsNatural(s, n - 1);
      if n - 1 in s.recs {
        assert Consistent(s.recs[n - 1]);
      }
    }
  }

  lemma {:induction false} RunSpends(s0: State, steps: seq<Step>, n: nat)
    requires Healthy(s0)
    ensures Healthy(Run(s0, steps))
    ensures RunMoves(s0, steps, n) + Budget(Run(s0, steps), n) <= Budget(s0, n) + 8 * Creations(s0, steps)
    decreases |steps|
  {
    if steps != [] {
      var init := steps[..|steps| - 1];
      RunSpends(s0, init, n);
      StepSpends(Run(s0, init), Last(steps), n);
      StepKeepsHealthy(Run(s0, init), Last(steps));
    }
  }

  // ---------------------------------------------- every transition is on record

  /** What a job's row and log say about its transitions: one for each attempt, and one for each
      event but the submission. */
  function Recorded(s: State, n: nat): int {
    if n == 0 then 0 else Recorded(s, n - 1) + RecordedAt(s, n - 1)
  }

  function RecordedAt(s: State, j: JobId): int {
    if j in s.recs then s.recs[j].row.attempts + |s.recs[j].log| - 1 else 0
  }

  lemma MoveIsRecorded(a: Record, b: Record)
    requires Consistent(a) && Edge(a, b)
    ensures b.row.attempts + |b.log| == a.row.attempts + |a.log| + if Moved(a, b) then 1 else 0
  {
    if IsActive(a.row.status) {
      NoClosingEvent(a.log);
    }
  }

  lemma StepRecordsAt(s: State, step: Step, j: JobId)
    requires Healthy(s)
    ensures MovedAt(s, Do(s, step), j) == RecordedAt(Do(s, step), j) - RecordedAt(s, j)
  {
    StepsFollowLifecycle(s, step);
    if j in s.recs {
      MoveIsRecorded(s.recs[j], Do(s, step).recs[j]);
    } else if j in Do(s, step).recs {
      RowsComeFromCommits(s, step, j);
      CreateFollows(s, step.r, step.create);
      assert PendingRowNew(s.requests[step.r]);
    }
  }

  lemma {:induction false} StepRecords(s: State, s': State, n: nat)
    requires forall j: nat :: MovedAt(s, s', j) == RecordedAt(s', j) - RecordedAt(s, j)
    ensures Moves(s, s', n) == Recorded(s', n) - Recorded(s, n)
  {
    if n > 0 {
      StepRecords(s, s', n - 1);
    }
  }

  lemma EmptyRecord(s: State, n: nat)
    requires s.recs == map[]
    ensures Recorded(s, n) == 0
  {
  }

  /** Over every run from an empty jobs table, the transitions are exactly the claims the attempts
      column counts and the events the audit log holds: none goes unrecorded, none is made up. */
  lemma {:induction false} MovesAreOnRecord(s0: State, steps: seq<Step>, n: nat)
    requires EmptyStart(s0)
    ensures RunMoves(s0, steps, n) == Recorded(Run(s0, steps), n)
    decreases |steps|
  {
    if steps == [] {
      EmptyRecord(s0, n);
    } else {
      MovesAreOnRecord(s0, steps[..|steps| - 1], n);
      RunsAreHealthy(s0, steps[..|steps| - 1]);
      var t := Run(s0, steps[..|steps| - 1]);
      forall j: nat ensures MovedAt(t, Do(t, Last(steps)), j) == RecordedAt(Do(t, Last(steps)), j) - RecordedAt(t, j) {
        StepRecordsAt(t, Last(steps), j);
      }
      StepRecords(t, Do(t, Last(steps)), n);
    }
  }

  lemma StepAddsJobs(s: State, step: Step)
    ensures |Do(s, step).recs| == |s.recs| + if Refill(s, step) > 0 then 1 else 0
  {
    StepsFollowLifecycle(s, step);
    forall j | j in Do(s, step).recs && j !in s.recs ensures step.Create? && Publishes(s, step.r, step.create) {
      RowsComeFromCommits(s, step, j);
    }
    if step.Create? {
      CreateFollows(s, step.r, step.create);
    } else {
      assert Do(s, step).recs.Keys == s.recs.Keys;
    }
    assert |Do(s, step).recs| == |Do(s, step).recs.Keys| && |s.recs| == |s.recs.Keys|;
  }

  /** The creations of a run are the jobs in the table. */
  lemma {:induction false} CreationsAreJobs(s0: State, steps: seq<Step>)
    requires EmptyStart(s0)
    ensures Creations(s0, steps) == |Run(s0, steps).recs|
    decreases |steps|
  {
    if steps != [] {
      CreationsAreJobs(s0, steps[..|steps| - 1]);
      StepAddsJobs(Run(s0, steps[..|steps| - 1]), Last(steps));
    }
  }

  lemma EmptyBudget(s: State, n: nat)
    requires s.recs == map[]
    ensures Budget(s, n) == 0
  {
  }

  /** A run that creates k jobs makes at most 8k lifecycle transitions after the creations, over
      all workers, requests and recoveries together; the number of jobs is no bound on n. */
  lemma TransitionsAreBounded(s0: State, steps: seq<Step>, n: nat)
    requires EmptyStart(s0)
    ensures RunMoves(s0, steps, n) <= 8 * Creations(s0, steps)
    ensures RunMoves(s0, steps, n) == Recorded(Run(s0, steps), n) && Creations(s0, steps) == |Run(s0, steps).recs|
  {
    RunSpends(s0, steps, n);
    MovesAreOnRecord(s0, steps, n);
    CreationsAreJobs(s0, steps);
    EmptyBudget(s0, n);
    BudgetIsNatural(Run(s0, steps), n);
  }

  // ------------------------------------------------------------------ claims

  predicate ClaimedNow(s: State, step: Step, j: JobId) {
    && j in s.recs && j in Do(s, step).recs
    && s.recs[j].row.status == Queued
    && Do(s, step).recs[j].row.status == Running
  }

  function Claims(s: State, steps: seq<Step>, j: JobId): nat
    decreases |steps|
  {
    if steps == [] then 0
    else
      var init := steps[..|steps| - 1];
      Claims(s, init, j) + if ClaimedNow(Run(s, init), Last(steps), j) then 1 else 0
  }

  lemma {:induction false} ClaimsCountAttempts(s0: State, steps: seq<Step>, j: JobId)
    requires EmptyStart(s0)
    ensures j in Run(s0, steps).recs ==> Claims(s0, steps, j) == Run(s0, steps).recs[j].row.attempts
    ensures j !in Run(s0, steps).recs ==> Claims(s0, steps, j) == 0
    decreases |steps|
  {
    if steps != [] {
      var init := steps[..|steps| - 1];
      var s := Run(s0, init);
      ClaimsCountAttempts(s0, init, j);
      RunsAreHealthy(s0, init);
      StepsFollowLifecycle(s, Last(steps));
      if j in s.recs {
        assert Edge(s.recs[j], Do(s, Last(steps)).recs[j]);
      } else if j in Do(s, Last(steps)).recs {
        RowsComeFromCommits(s, Last(steps), j);
        CreateFollows(s, Last(steps).r, Last(steps).create);
        assert PendingRowNew(s.requests[Last(steps).r]);
      }
    }
  }

  /** No job is claimed more than three times, by however many workers. */
  lemma ThreeClaimsAtMost(s0: State, steps: seq<Step>, j: JobId)
    requires EmptyStart(s0)
    ensures Claims(s0, steps, j) <= MAX_ATTEMPTS
  {
    ClaimsCountAttempts(s0, steps, j);
    RunsAreHealthy(s0, steps);
    if j in Run(s0, steps).recs {
      assert Consistent(Run(s0, steps).recs[j]);
    }
  }
}
