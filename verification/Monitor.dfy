/** The cancellation monitor and the heartbeat of one claim: three threads that share the job's
    error fields, a few events and a listener connection, against a row anybody may change. */
module Monitor {
  import opened Tables
  import opened Lifecycle
  import opened Queue
  import opened Safety

  /** Where the monitor thread is. LISTEN takes effect at its commit. */
  datatype Place = Connecting | Listening | Polling | Ended

  datatype Error = SetupFailed | Timeout | ConnectionLost | Stuck

  datatype State = State(
    row: Status,                        // of the claimed job
    monitor: Place,
    selected: bool,                     // the SELECT after LISTEN has run
    pending: seq<JobId>,                // notifications the listener has not read
    token: bool,
    monitorError: Option<Error>,
    heartbeatError: Option<string>,
    ready: bool,
    setupSucceeded: bool,
    stopped: bool)

  datatype Step =
    // the database
    | RowMoves(status: Status)
    | OtherJobCancelled(other: JobId)
    // the monitor thread
    | Listen
    | Select
    | Read                              // takes the oldest notification
    | SeeStopped
    | MonitorFails(error: Error)
    // the heartbeat thread
    | HeartbeatGivesUp(cause: string)
    // the worker's thread
    | StartupTimesOut
    | Stop
    | StopTimesOut

  /** The row of a job can only move along the lifecycle, see StatusesFollowQueue. */
  predicate CanMove(a: Status, b: Status) {
    || a == b
    || (a == Queued && b == Running)
    || (a == Running && b in {Done, Failed})
    || (IsActive(a) && b == Cancelled)
    || (a == Failed && b == Queued)
  }

  /** The queue never moves a status in any other way. */
  lemma StatusesFollowQueue(s: Queue.State, step: Queue.Step, j: JobId)
    requires j in s.recs
    ensures j in Queue.Do(s, step).recs && CanMove(s.recs[j].row.status, Queue.Do(s, step).recs[j].row.status)
  {
    StepsFollowLifecycle(s, step);
    assert Edge(s.recs[j], Queue.Do(s, step).recs[j]);
  }

  function Record(s: State, error: Error): State {
    s.(monitorError := if s.monitorError.Some? then s.monitorError else Some(error), token := true)
  }

  /** pg_notify reaches every session that is listening when the cancel commits. */
  function DoRowMoves(s: State, job: JobId, status: Status): State {
    if !CanMove(s.row, status) then s
    else
      s.(row := status,
         pending := if status == Cancelled && s.row != Cancelled && s.monitor in {Listening, Polling} then s.pending + [job] else s.pending)
  }

  function DoSelect(s: State): State {
    if s.monitor != Listening then s
    else
      var cancelled := s.token || s.row == Cancelled;
      s.(selected := true, setupSucceeded := true, ready := true, token := cancelled,
         monitor := if cancelled then Ended else Polling)
  }

  function DoRead(s: State, job: JobId): State {
    if s.monitor != Polling || s.pending == [] then s
    else if s.pending[0] == job then s.(pending := s.pending[1..], token := true, monitor := Ended)
    else s.(pending := s.pending[1..])
  }

  function Do(s: State, job: JobId, step: Step): State {
    match step
    case RowMoves(status) => DoRowMoves(s, job, status)
    case OtherJobCancelled(other) =>
      if other != job && s.monitor in {Listening, Polling} then s.(pending := s.pending + [other]) else s
    case Listen => if s.monitor == Connecting then s.(monitor := Listening) else s
    case Select => DoSelect(s)
    case Read => DoRead(s, job)
    case SeeStopped => if s.monitor == Polling && s.stopped then s.(monitor := Ended) else s
    case MonitorFails(error) => Record(s, error).(monitor := Ended, ready := true)
    case HeartbeatGivesUp(cause) => s.(heartbeatError := Some(cause), token := true)
    case StartupTimesOut => if s.ready then s else Record(s, Timeout)
    case Stop => s.(stopped := true)
    case StopTimesOut => if s.stopped && s.monitor != Ended then Record(s, Stuck) else s
  }

  function Run(s: State, job: JobId, steps: seq<Step>): State
    decreases |steps|
  {
    if steps == [] then s else Do(Run(s, job, steps[..|steps| - 1]), job, Last(steps))
  }

  /** Just after the claim. The pooled connection may bring notifications of earlier listeners,
      but none of a job that is not cancelled. */
  predicate Begun(s: State, job: JobId) {
    && s.monitor == Connecting && !s.selected && !s.token && !s.ready && !s.setupSucceeded && !s.stopped
    && s.monitorError == None && s.heartbeatError == None
    && (job in s.pending ==> s.row == Cancelled)
  }

  /** No cancellation is lost and none is made up. */
  predicate Watched(s: State, job: JobId) {
    // while the monitor runs, a cancelled row is on its way to the token
    && (s.row == Cancelled && s.monitor != Ended ==> s.token || !s.selected || job in s.pending)
    && (s.monitor == Connecting || s.monitor == Listening ==> !s.selected)
    && (s.monitor == Polling ==> s.selected)
    // a token that is set has a cause on record
    && (s.token && s.monitorError == None && s.heartbeatError == None ==> s.row == Cancelled)
    && (job in s.pending ==> s.row == Cancelled)
    // the monitor ends on its own account only with the token set or when told to stop
    && (s.monitor == Ended ==> s.token || s.stopped)
    && (s.monitorError.Some? || s.heartbeatError.Some? ==> s.token)
    && (s.setupSucceeded <==> s.selected) && (s.setupSucceeded ==> s.ready)
  }

  lemma ReadKeepsWatch(s: State, job: JobId)
    requires Watched(s, job)
    ensures Watched(DoRead(s, job), job)
  {
    if s.monitor == Polling && s.pending != [] {
      assert s.pending == [s.pending[0]] + s.pending[1..];
    }
  }

  lemma RowMoveKeepsWatch(s: State, job: JobId, status: Status)
    requires Watched(s, job)
    ensures Watched(DoRowMoves(s, job, status), job)
  {
  }

  lemma OtherKeepsWatch(s: State, job: JobId, other: JobId)
    requires Watched(s, job)
    ensures Watched(Do(s, job, OtherJobCancelled(other)), job)
  {
  }

  lemma SelectKeepsWatch(s: State, job: JobId)
    requires Watched(s, job)
    ensures Watched(DoSelect(s), job)
  {
  }

  lemma StepKeepsWatch(s: State, job: JobId, step: Step)
    requires Watched(s, job)
    ensures Watched(Do(s, job, step), job)
  {
    match step
    case RowMoves(status) => RowMoveKeepsWatch(s, job, status);
    case OtherJobCancelled(other) => OtherKeepsWatch(s, job, other);
    case Select => SelectKeepsWatch(s, job);
    case Read => ReadKeepsWatch(s, job);
    case _ =>
  }

  lemma {:induction false} AlwaysWatched(s0: State, job: JobId, steps: seq<Step>)
    requires Begun(s0, job)
    ensures Watched(Run(s0, job, steps), job)
    decreases |steps|
  {
    if steps != [] {
      AlwaysWatched(s0, job, steps[..|steps| - 1]);
      StepKeepsWatch(Run(s0, job, steps[..|steps| - 1]), job, Last(steps));
    }
  }

  /** In every interleaving of the three threads with the database: if the job is cancelled while
      its monitor runs, the token is set, or the SELECT that will see it is still to come, or its
      notification waits to be read. If the monitor has ended without being told to stop, the
      token is set. */
  lemma NoCancellationIsLost(s0: State, job: JobId, steps: seq<Step>, s: State)
    requires Begun(s0, job) && s == Run(s0, job, steps)
    ensures s.row == Cancelled && s.monitor != Ended ==> s.token || !s.selected || job in s.pending
    ensures s.monitor == Ended && !s.stopped ==> s.token
  {
    AlwaysWatched(s0, job, steps);
  }

  /** A token set with no error of the monitor or of the heartbeat on record means that the row is
      cancelled. Read later, it still is: cancelled is for good. So when process_next comes to
      look for a cause after a signal that was not a cancellation, it finds one. */
  lemma SignalHasACause(s0: State, job: JobId, steps: seq<Step>, later: seq<Step>, s: State, t: State)
    requires Begun(s0, job) && s == Run(s0, job, steps) && t == Run(s, job, later) && s.token
    ensures t.row == Cancelled || t.monitorError.Some? || t.heartbeatError.Some?
  {
    AlwaysWatched(s0, job, steps);
    CausesStay(s, job, later);
  }

  /** What each step does to the threads that wait for it. */
  lemma SelectLooksAtTheRow(s: State, job: JobId)
    requires s.monitor == Listening
    ensures var t := Do(s, job, Select);
            && t.selected && t.setupSucceeded && t.ready && t.row == s.row && t.pending == s.pending
            && (s.token || s.row == Cancelled ==> t.token && t.monitor == Ended)
            && (!s.token && s.row != Cancelled ==> !t.token && t.monitor == Polling)
  {
  }

  /** A listening session gets every cancellation, its own job's and the others', behind what waits
      already; a session that does not listen gets none. */
  lemma NotificationsQueueUp(s: State, job: JobId, other: JobId)
    ensures other != job ==>
              Do(s, job, OtherJobCancelled(other)) == s.(pending := s.pending + if s.monitor in {Listening, Polling} then [other] else [])
    ensures var pending := s.pending + if s.monitor in {Listening, Polling} then [job] else [];
            IsActive(s.row) ==> Do(s, job, RowMoves(Cancelled)) == s.(row := Cancelled, pending := pending)
  {
  }

  lemma ErrorsAreRecorded(s: State, job: JobId, error: Error, cause: string)
    ensures var t := Do(s, job, MonitorFails(error));
            t.token && t.ready && t.monitor == Ended && t.monitorError == if s.monitorError == None then Some(error) else s.monitorError
    ensures var t := Do(s, job, HeartbeatGivesUp(cause));
            t.token && t.heartbeatError == Some(cause) && t.monitor == s.monitor
    ensures !s.ready ==>
              var t := Do(s, job, StartupTimesOut);
              t.token && t.monitorError == if s.monitorError == None then Some(Timeout) else s.monitorError
    ensures s.stopped && s.monitor != Ended ==>
              var t := Do(s, job, StopTimesOut);
              t.token && t.monitorError == if s.monitorError == None then Some(Stuck) else s.monitorError
  {
  }

  /** A monitor that polls and is told to stop ends at its next look, without touching the token. */
  lemma StopEndsTheMonitor(s: State, job: JobId)
    requires s.monitor == Polling
    ensures var t := Run(s, job, [Stop, SeeStopped]);
            t.stopped && t.monitor == Ended && t.token == s.token && t.monitorError == s.monitorError
  {
    RunFirst(s, job, Stop, [SeeStopped]);
    assert [Stop] + [SeeStopped] == [Stop, SeeStopped];
    RunFirst(Do(s, job, Stop), job, SeeStopped, []);
    assert [SeeStopped] + [] == [SeeStopped];
  }

  /** A cancellation reaches the token wherever the monitor is: if it goes on with what it has to do,
      it listens, looks at the row, and reads no more than the notifications that were waiting and
      this one. */
  lemma CancellationArrives(s0: State, job: JobId, steps: seq<Step>, s: State)
    requires Begun(s0, job) && s == Run(s0, job, steps) && IsActive(s.row) && s.monitor != Ended
    ensures Run(s, job, [RowMoves(Cancelled), Listen, Select] + Reads(|s.pending| + 1)).token
    ensures Do(s, job, RowMoves(Cancelled)).row == Cancelled
  {
    var t := Do(s, job, RowMoves(Cancelled));
    var u := Do(Do(t, job, Listen), job, Select);
    AlwaysWatched(s0, job, steps);
    StepKeepsWatch(s, job, RowMoves(Cancelled));
    StepKeepsWatch(t, job, Listen);
    StepKeepsWatch(Do(t, job, Listen), job, Select);
    var looks := Reads(|s.pending| + 1);
    RunThree(s, job, RowMoves(Cancelled), Listen, Select, looks);
    if u.token {
      CausesStay(u, job, looks);
    } else {
      PollsOn(s, job);
      PendingCancellationArrives(u, job);
    }
  }

  lemma RunTwo(s: State, job: JobId, a: Step, b: Step, rest: seq<Step>)
    ensures Run(s, job, [a, b] + rest) == Run(Do(Do(s, job, a), job, b), job, rest)
  {
    RunFirst(s, job, a, [b] + rest);
    RunFirst(Do(s, job, a), job, b, rest);
    assert [a, b] + rest == [a] + ([b] + rest);
  }

  lemma RunThree(s: State, job: JobId, a: Step, b: Step, c: Step, rest: seq<Step>)
    ensures Run(s, job, [a, b, c] + rest) == Run(Do(Do(Do(s, job, a), job, b), job, c), job, rest)
  {
    var t := Do(s, job, a);
    RunFirst(s, job, a, [b, c] + rest);
    assert [a, b, c] + rest == [a] + ([b, c] + rest);
    RunTwo(t, job, b, c, rest);
  }

  /** Only a monitor that already polls can leave the token unset. */
  lemma PollsOn(s: State, job: JobId)
    requires IsActive(s.row) && s.monitor != Ended
    ensures var u := Do(Do(Do(s, job, RowMoves(Cancelled)), job, Listen), job, Select);
            !u.token ==> u.monitor == Polling && u.row == Cancelled && |u.pending| == |s.pending| + 1
  {
  }

  function Reads(n: nat): seq<Step> {
    seq(n, _ => Read)
  }

  predicate CausesKept(s: State, t: State) {
    && (s.row == Cancelled ==> t.row == Cancelled)
    && (s.monitorError.Some? ==> t.monitorError == s.monitorError)
    && (s.heartbeatError.Some? ==> t.heartbeatError.Some?)
    && (s.token ==> t.token)
  }

  lemma StepKeepsCauses(s: State, job: JobId, step: Step)
    ensures CausesKept(s, Do(s, job, step))
  {
  }

  lemma {:induction false} CausesStay(s: State, job: JobId, steps: seq<Step>)
    ensures CausesKept(s, Run(s, job, steps))
    decreases |steps|
  {
    if steps != [] {
      CausesStay(s, job, steps[..|steps| - 1]);
      StepKeepsCauses(Run(s, job, steps[..|steps| - 1]), job, Last(steps));
    }
  }

  /** Reading on delivers: a polling monitor that reads its notifications one after the other sets
      the token of a cancelled job within as many reads as notifications are waiting. */
  lemma {:induction false} PendingCancellationArrives(s: State, job: JobId)
    requires Watched(s, job) && s.monitor == Polling && s.row == Cancelled
    ensures Run(s, job, Reads(|s.pending|)).token
    decreases |s.pending|
  {
    if s.pending != [] && !s.token {
      var t := Do(s, job, Read);
      RunFirst(s, job, Read, Reads(|s.pending| - 1));
      assert Reads(|s.pending|) == [Read] + Reads(|s.pending| - 1);
      StepKeepsWatch(s, job, Read);
      if t.token {
        CausesStay(t, job, Reads(|s.pending| - 1));
      } else {
        PendingCancellationArrives(t, job);
      }
    } else if s.token {
      CausesStay(s, job, Reads(|s.pending|));
    }
  }

  lemma {:induction false} RunFirst(s: State, job: JobId, step: Step, steps: seq<Step>)
    ensures Run(s, job, [step] + steps) == Run(Do(s, job, step), job, steps)
    decreases |steps|
  {
    if steps == [] {
      assert [step] + steps == [step] && [step][..0] == [];
      assert Run(s, job, [step]) == Do(Run(s, job, []), job, step);
    } else {
      RunFirst(s, job, step, steps[..|steps| - 1]);
      assert ([step] + steps)[..|[step] + steps| - 1] == [step] + steps[..|steps| - 1];
    }
  }
}
