/** The API's shutdown gate. The event loop runs one coroutine at a time, and no method here
    awaits anything between its reads and its writes, so each is one atomic step; a drain that
    waits looks at the event in later steps. */
module GracefulShutdown {

  type Ticket = nat

  datatype State = State(
    shuttingDown: bool,
    inFlight: int,
    drained: bool,
    alive: set<Ticket>,      // admitted and not finished
    admitted: set<Ticket>)   // every request that was ever let in

  datatype Step = Start(r: Ticket) | Finish(r: Ticket) | BeginDrain

  const INITIAL := State(false, 0, true, {}, {})

  /** A refused request answers 503 and never calls request_finished. */
  function DoStart(s: State, r: Ticket): State {
    if s.shuttingDown || r in s.admitted then s
    else s.(inFlight := s.inFlight + 1, drained := false, alive := s.alive + {r}, admitted := s.admitted + {r})
  }

  function DoFinish(s: State, r: Ticket): State {
    if r !in s.alive then s
    else s.(inFlight := s.inFlight - 1, drained := s.drained || s.inFlight - 1 <= 0, alive := s.alive - {r})
  }

  function Do(s: State, step: Step): State {
    match step
    case Start(r) => DoStart(s, r)
    case Finish(r) => DoFinish(s, r)
    case BeginDrain => s.(shuttingDown := true)
  }

  function Run(s: State, steps: seq<Step>): State
    decreases |steps|
  {
    if steps == [] then s else Do(Run(s, steps[..|steps| - 1]), steps[|steps| - 1])
  }

  /** What drain checks: the counter before it waits, the event while it waits. */
  predicate DrainSatisfied(s: State) {
    s.inFlight <= 0 || s.drained
  }

  /** The counter counts the requests alive, and the event is set exactly when there are none. */
  predicate Sound(s: State) {
    s.inFlight == |s.alive| && (s.drained <==> s.alive == {}) && s.alive <= s.admitted
  }

  lemma StepIsSound(s: State, step: Step)
    requires Sound(s)
    ensures Sound(Do(s, step))
    ensures s.shuttingDown ==>
              Do(s, step).shuttingDown && Do(s, step).alive <= s.alive && Do(s, step).admitted == s.admitted
  {
    if step.Finish? && step.r in s.alive {
      assert s.alive == (s.alive - {step.r}) + {step.r};
    }
  }

  // ------------------------------------------------ who is admitted, told by the steps alone

  predicate HasBegun(steps: seq<Step>) {
    BeginDrain in steps
  }

  /** Step k lets request r in: its first start, before any drain. */
  predicate IsAdmission(steps: seq<Step>, k: nat, r: Ticket) {
    k < |steps| && steps[k] == Start(r) && forall i | 0 <= i < k :: steps[i] != BeginDrain && steps[i] != Start(r)
  }

  predicate IsUnfinished(steps: seq<Step>, k: nat, r: Ticket) {
    forall i | k < i < |steps| :: steps[i] != Finish(r)
  }

  /** One step later: what it adds to the admissions and takes from the requests alive. */
  lemma AdmissionsOneLater(steps: seq<Step>, step: Step, r: Ticket)
    ensures HasBegun(steps + [step]) <==> HasBegun(steps) || step == BeginDrain
    ensures (exists k :: IsAdmission(steps + [step], k, r)) <==>
              (exists k :: IsAdmission(steps, k, r)) || (step == Start(r) && !HasBegun(steps))
    ensures (exists k :: IsAdmission(steps + [step], k, r) && IsUnfinished(steps + [step], k, r)) <==>
              || (step != Finish(r) && exists k :: IsAdmission(steps, k, r) && IsUnfinished(steps, k, r))
              || (step == Start(r) && !HasBegun(steps) && !exists k :: IsAdmission(steps, k, r))
  {
    var more := steps + [step];
    forall k | 0 <= k < |steps| ensures IsAdmission(more, k, r) <==> IsAdmission(steps, k, r) {
      assert forall i | 0 <= i <= k :: more[i] == steps[i];
    }
    if step == Start(r) && !HasBegun(steps) && !exists k :: IsAdmission(steps, k, r) {
      NoStartYet(steps, r);
      assert IsAdmission(more, |steps|, r) && IsUnfinished(more, |steps|, r);
    }
    forall k | 0 <= k < |steps|
      ensures IsUnfinished(more, k, r) <==> IsUnfinished(steps, k, r) && step != Finish(r)
    {
      assert more[|steps|] == step && forall i | k < i < |steps| :: more[i] == steps[i];
    }
  }

  lemma NoStartYet(steps: seq<Step>, r: Ticket)
    requires !HasBegun(steps) && !exists k :: IsAdmission(steps, k, r)
    ensures Start(r) !in steps
    decreases |steps|
  {
    if steps != [] {
      var init := steps[..|steps| - 1];
      assert steps == init + [steps[|steps| - 1]];
      if exists k :: IsAdmission(init, k, r) {
        var k :| IsAdmission(init, k, r);
        assert IsAdmission(steps, k, r);
      }
      NoStartYet(init, r);
      assert steps[|steps| - 1] == Start(r) ==> IsAdmission(steps, |steps| - 1, r);
    }
  }

  /** A request is admitted iff it started before any drain began, and alive iff it has not finished
      since. */
  lemma {:induction false} AdmittedExactly(steps: seq<Step>, r: Ticket)
    ensures Run(INITIAL, steps).shuttingDown <==> HasBegun(steps)
    ensures r in Run(INITIAL, steps).admitted <==> exists k :: IsAdmission(steps, k, r)
    ensures r in Run(INITIAL, steps).alive <==> exists k :: IsAdmission(steps, k, r) && IsUnfinished(steps, k, r)
    decreases |steps|
  {
    if steps != [] {
      var init, last := steps[..|steps| - 1], steps[|steps| - 1];
      AdmittedExactly(init, r);
      CounterIsExact(init);
      AdmissionsOneLater(init, last, r);
      assert steps == init + [last];
    }
  }

  /** Over any interleaving of requests and drains the counter equals the number of requests
      admitted and not finished, and the event is set iff that number is zero. */
  lemma {:induction false} CounterIsExact(steps: seq<Step>)
    ensures Sound(Run(INITIAL, steps))
    decreases |steps|
  {
    if steps != [] {
      CounterIsExact(steps[..|steps| - 1]);
      StepIsSound(Run(INITIAL, steps[..|steps| - 1]), steps[|steps| - 1]);
    }
  }

  lemma {:induction false} NothingAdmittedAfter(s: State, steps: seq<Step>)
    requires Sound(s) && s.shuttingDown
    ensures Sound(Run(s, steps)) && Run(s, steps).shuttingDown
    ensures Run(s, steps).admitted == s.admitted && Run(s, steps).alive <= s.alive
    decreases |steps|
  {
    if steps != [] {
      NothingAdmittedAfter(s, steps[..|steps| - 1]);
      StepIsSound(Run(s, steps[..|steps| - 1]), steps[|steps| - 1]);
    }
  }

  /** Once shutdown has begun no request is admitted any more, and when a drain returns without
      timing out no admitted request is alive, then or ever after. */
  lemma DrainedForGood(before: seq<Step>, waiting: seq<Step>, after: seq<Step>)
    ensures var begun := Do(Run(INITIAL, before), BeginDrain);
            var returned := Run(begun, waiting);
            && Run(returned, after).admitted == begun.admitted
            && (DrainSatisfied(returned) <==> returned.alive == {})
            && (DrainSatisfied(returned) ==> Run(returned, after).alive == {} && Run(returned, after).inFlight == 0)
  {
    CounterIsExact(before);
    var begun := Do(Run(INITIAL, before), BeginDrain);
    NothingAdmittedAfter(begun, waiting);
    NothingAdmittedAfter(Run(begun, waiting), after);
  }

  /** The object the middleware and the lifespan share. */
  class Gate {
    var shuttingDown: bool
    var inFlight: int
    var drained: bool
    ghost var alive: set<Ticket>
    ghost var admitted: set<Ticket>

    ghost function Abstract(): State
      reads this
    {
      State(shuttingDown, inFlight, drained, alive, admitted)
    }

    constructor ()
      ensures Abstract() == INITIAL
    {
      shuttingDown, inFlight, drained, alive, admitted := false, 0, true, {}, {};
    }

    method RequestStarted(ghost r: Ticket) returns (ok: bool)
      requires r !in admitted
      modifies this
      ensures Abstract() == DoStart(old(Abstract()), r) && ok == !old(shuttingDown)
      ensures ok ==> inFlight == old(inFlight) + 1 && !drained && alive == old(alive) + {r} && admitted == old(admitted) + {r}
      ensures !ok ==> Abstract() == old(Abstract())
    {
      if shuttingDown {
        return false;
      }
      inFlight := inFlight + 1;
      drained := false;
      alive, admitted := alive + {r}, admitted + {r};
      return true;
    }

    method RequestFinished(ghost r: Ticket)
      requires r in alive
      modifies this
      ensures Abstract() == DoFinish(old(Abstract()), r)
      ensures inFlight == old(inFlight) - 1 && alive == old(alive) - {r} && admitted == old(admitted)
      ensures drained == (old(drained) || inFlight <= 0)
    {
      inFlight := inFlight - 1;
      alive := alive - {r};
      if inFlight <= 0 {
        drained := true;
      }
    }

    /** drain up to its wait: true when it returns at once. */
    method Drain() returns (done: bool)
      modifies this`shuttingDown
      ensures Abstract() == Do(old(Abstract()), BeginDrain) && shuttingDown
      ensures done <==> inFlight <= 0
      ensures Sound(Abstract()) ==> (done <==> DrainSatisfied(Abstract()))
    {
      shuttingDown := true;
      return inFlight <= 0;
    }
  }
}
