/** The idle worker and its notifications: LISTEN first, then drain, then wait. No job that comes in
    meanwhile is missed. */
module Listener {
  import opened Tables
  import opened Lifecycle
  import opened Queue
  import Safety

  /** Draining, or waiting after a last look at the queue that found nothing: at that time, and but
      for the rows other transactions had locked. */
  datatype Mode = Draining | Waiting(seenAt: Time, locked: set<JobId>)

  datatype State = State(
    queue: Queue.State,
    mode: Mode,
    connected: bool,         // the listener's session, seen from the database
    pending: seq<JobId>)     // notifications of jobs_queued not read yet

  datatype Step =
    | Transaction(step: Queue.Step)             // of anybody, this worker included
    | FindNothing(now: Time, locked: set<JobId>)
    | Wake(read: nat)                           // the packet read may hold several notifications
    | TimeOut
    | LoseConnection
    | Reconnect

  /** The jobs a transaction announces at its commit. */
  function Announced(q: Queue.State, step: Queue.Step): seq<JobId> {
    match step
    case RetryJob(c, j, _, _) => if CanRetry(q, c, j) && !Waits(q, step) then [j] else []
    case Create(r, create) => if Safety.Publishes(q, r, create) then [q.requests[r].stage.id] else []
    case _ => []
  }

  function Do(s: State, step: Step): State {
    match step
    case Transaction(t) =>
      s.(queue := Queue.Do(s.queue, t), pending := if s.connected then s.pending + Announced(s.queue, t) else s.pending)
    case FindNothing(now, locked) =>
      if s.mode == Draining && EligibleIds(s.queue.recs, now, locked) == {} then s.(mode := Waiting(now, locked)) else s
    case Wake(read) =>
      if s.mode.Waiting? && s.connected && 0 < read <= |s.pending| then s.(mode := Draining, pending := s.pending[read..]) else s
    case TimeOut => s.(mode := Draining)
    case LoseConnection => s.(connected := false, pending := [])
    case Reconnect => if s.connected then s else s.(connected := true, mode := Draining)
  }

  function Run(s: State, steps: seq<Step>): State
    decreases |steps|
  {
    if steps == [] then s else Do(Run(s, steps[..|steps| - 1]), Last(steps))
  }

  /** The worker listens before it drains for the first time. */
  predicate Begun(s: State) {
    s.mode == Draining && s.connected
  }

  predicate IsScheduledAfter(row: Job, t: Time) {
    row.nextAttemptAt.Some? && row.nextAttemptAt.value > t
  }

  /** Why a claimable job may be left alone by a worker that waits. */
  predicate IsExcused(s: State, j: JobId)
    requires s.mode.Waiting? && j in s.queue.recs
  {
    j in s.pending || j in s.mode.locked || IsScheduledAfter(s.queue.recs[j].row, s.mode.seenAt)
  }

  predicate Attentive(s: State) {
    s.mode.Waiting? && s.connected ==>
      forall j | j in s.queue.recs && s.queue.recs[j].row.status == Queued && s.queue.recs[j].row.attempts < MAX_ATTEMPTS :: IsExcused(s, j)
  }

  lemma WorkQueuesNone(q: Queue.State, w: WorkerId, work: WorkerStep, j: JobId)
    requires j in DoWork(q, w, work).recs && DoWork(q, w, work).recs[j].row.status == Queued
    ensures j in q.recs && DoWork(q, w, work).recs[j].row == q.recs[j].row
  {
  }

  /** A job gets into the queue only with an announcement. */
  lemma QueuedIsAnnounced(q: Queue.State, step: Queue.Step, j: JobId)
    requires j in Queue.Do(q, step).recs && Queue.Do(q, step).recs[j].row.status == Queued
    ensures j in Announced(q, step) || (j in q.recs && Queue.Do(q, step).recs[j].row == q.recs[j].row)
  {
    match step
    case Work(w, work) => if !Waits(q, step) { WorkQueuesNone(q, w, work, j); }
    case Create(r, create) => Safety.CreateFollows(q, r, create);
    case _ =>
  }

  lemma StepKeepsAttention(s: State, step: Step)
    requires Attentive(s)
    ensures Attentive(Do(s, step))
  {
    var s' := Do(s, step);
    if step.FindNothing? && s'.mode.Waiting? && s.mode == Draining {
      forall j | j in s'.queue.recs && s'.queue.recs[j].row.status == Queued && s'.queue.recs[j].row.attempts < MAX_ATTEMPTS
        ensures IsExcused(s', j)
      {
        assert j !in EligibleIds(s.queue.recs, step.now, step.locked);
      }
    }
    if step.Transaction? && s.mode.Waiting? && s.connected {
      forall j | j in s'.queue.recs && s'.queue.recs[j].row.status == Queued && s'.queue.recs[j].row.attempts < MAX_ATTEMPTS
        ensures IsExcused(s', j)
      {
        QueuedIsAnnounced(s.queue, step.step, j);
        assert j in s.queue.recs && s'.queue.recs[j].row == s.queue.recs[j].row ==> IsExcused(s, j);
      }
    }
  }

  lemma {:induction false} AlwaysAttentive(s0: State, steps: seq<Step>)
    requires Begun(s0)
    ensures Attentive(Run(s0, steps))
    decreases |steps|
  {
    if steps != [] {
      AlwaysAttentive(s0, steps[..|steps| - 1]);
      StepKeepsAttention(Run(s0, steps[..|steps| - 1]), Last(steps));
    }
  }

  /** The transactions of a run. */
  function Transactions(steps: seq<Step>): seq<Queue.Step> {
    if steps == [] then []
    else Transactions(steps[..|steps| - 1]) + if Last(steps).Transaction? then [Last(steps).step] else []
  }

  lemma RunSnoc(q: Queue.State, steps: seq<Queue.Step>, step: Queue.Step)
    ensures Queue.Run(q, steps + [step]) == Queue.Do(Queue.Run(q, steps), step)
  {
    assert (steps + [step])[..|steps|] == steps;
  }

  /** The queue the listener watches is the one the transactions make. */
  lemma {:induction false} QueueFollows(s0: State, steps: seq<Step>)
    ensures Run(s0, steps).queue == Queue.Run(s0.queue, Transactions(steps))
    decreases |steps|
  {
    if steps != [] {
      QueueFollows(s0, steps[..|steps| - 1]);
      if Last(steps).Transaction? {
        RunSnoc(s0.queue, Transactions(steps[..|steps| - 1]), Last(steps).step);
      } else {
        assert Transactions(steps) == Transactions(steps[..|steps| - 1]);
        assert Do(Run(s0, steps[..|steps| - 1]), Last(steps)).queue == Run(s0, steps[..|steps| - 1]).queue;
      }
    }
  }

  /** The worker waits exactly after a look that found nothing, and drains again after a
      notification, at the end of its wait, or once it has its connection back. */
  lemma LooksAndWakes(s: State, now: Time, locked: set<JobId>, read: nat)
    ensures s.mode == Draining ==>
              (Do(s, FindNothing(now, locked)).mode == Waiting(now, locked) <==>
                 forall j | j in s.queue.recs && IsEligible(s.queue.recs[j].row, now) :: j in locked)
    ensures s.mode.Waiting? && s.connected && 0 < read <= |s.pending| ==>
              Do(s, Wake(read)).mode == Draining && Do(s, Wake(read)).pending == s.pending[read..]
    ensures Do(s, TimeOut).mode == Draining && Do(s, TimeOut).pending == s.pending
    ensures !Do(s, LoseConnection).connected && Do(s, LoseConnection).pending == []
    ensures !s.connected ==> Do(s, Reconnect).connected && Do(s, Reconnect).mode == Draining
  {
    assert forall j | j in s.queue.recs && IsEligible(s.queue.recs[j].row, now) && j !in locked :: j in EligibleIds(s.queue.recs, now, locked);
  }

  /** In every interleaving of the worker's looks, its listener and everybody's transactions: while
      the worker waits on a live session, a job that can be claimed has its notification pending, so
      the wait ends, or it had its row locked at the last look, or it was scheduled for later than
      that look, as the poll timeout knows. In particular a new job is announced or was locked. */
  lemma NoJobIsMissed(s0: State, steps: seq<Step>, s: State, now: Time, j: JobId)
    requires Begun(s0) && s == Run(s0, steps) && s.mode.Waiting? && s.connected
    requires j in EligibleIds(s.queue.recs, now, {}) && j !in s.mode.locked
    ensures j in s.pending || IsScheduledAfter(s.queue.recs[j].row, s.mode.seenAt)
    ensures s.queue.recs[j].row.nextAttemptAt == None ==> s.pending != [] && Do(s, Wake(1)).mode == Draining
  {
    AlwaysAttentive(s0, steps);
    assert IsExcused(s, j);
  }
}
