/** The rows of the queue's tables and the values they are made of. */
module Tables {

  type JobId = nat
  type CompanyId = nat
  type WorkerId = nat
  type RequestId = nat

  /** A timestamptz, in the microseconds PostgreSQL stores. */
  type Time = int

  const SECOND: Time := 1_000_000
  const MAX_ATTEMPTS := 3
  const SYSTEM_ACTOR := "system:worker"

  datatype Option<+T> = None | Some(value: T)

  datatype Status = Queued | Running | Done | Failed | Cancelled

  datatype Job = Job(
    company: CompanyId,
    kind: string,
    status: Status,
    attempts: int,
    key: Option<string>,
    worker: Option<WorkerId>,
    lockedAt: Option<Time>,
    nextAttemptAt: Option<Time>,
    lastError: Option<string>,
    createdAt: Time,
    updatedAt: Time)

  datatype EventKind = EvSubmitted | EvRetryRequested | EvFailed | EvCompleted | EvCancelled

  datatype Event = Event(kind: EventKind, company: CompanyId, actor: string, at: Time)

  datatype DeadLetter = DeadLetter(
    company: CompanyId,
    kind: string,
    attempts: int,
    lastError: string,
    jobCreatedAt: Time,
    failedAt: Time)

  datatype Company = Company(maxConcurrentJobs: int, jobQuota: int)

  predicate IsActive(status: Status) {
    status == Queued || status == Running
  }

  function Last<T>(s: seq<T>): T
    requires s != []
  {
    s[|s| - 1]
  }

  function Pow2(n: nat): nat {
    if n == 0 then 1 else 2 * Pow2(n - 1)
  }

  /** 5 * power(2, greatest(attempts, 1) - 1) seconds. */
  function Backoff(attempts: int): Time {
    5 * Pow2(if attempts < 1 then 0 else attempts - 1) * SECOND
  }

  /** The back-off doubles with each attempt after the first. */
  lemma BackoffDoubles(n: int)
    ensures Backoff(n + 1) == if n >= 1 then 2 * Backoff(n) else Backoff(n)
    ensures n <= 1 ==> Backoff(n) == 5_000_000
  {
    if n <= 1 {
      assert Pow2(0) == 1;
    }
  }

  lemma LeastExists(ids: set<nat>)
    requires ids != {}
    ensures exists j :: j in ids && forall k | k in ids :: j <= k
  {
    var j :| j in ids;
    if ids - {j} == {} {
      assert ids == {j};
    } else {
      LeastExists(ids - {j});
      var m :| m in ids - {j} && forall k | k in ids - {j} :: m <= k;
      var least := if j < m then j else m;
      assert forall k | k in ids :: k == j || k in ids - {j};
      assert least in ids && forall k | k in ids :: least <= k;
    }
  }

  function Least(ids: set<nat>): (j: nat)
    requires ids != {}
    ensures j in ids && forall k | k in ids :: j <= k
  {
    LeastExists(ids);
    var j :| j in ids && forall k | k in ids :: j <= k;
    j
  }

  /** ORDER BY id. */
  function Sorted(ids: set<nat>): seq<nat>
    decreases |ids|
  {
    if ids == {} then [] else [Least(ids)] + Sorted(ids - {Least(ids)})
  }

  predicate StrictlyAscending(xs: seq<nat>) {
    forall i, k | 0 <= i < k < |xs| :: xs[i] < xs[k]
  }

  lemma PrependLeast(x: nat, rest: seq<nat>)
    requires StrictlyAscending(rest) && forall y | y in rest :: x < y
    ensures StrictlyAscending([x] + rest)
  {
    forall i | 0 <= i < |rest| ensures x < rest[i] {
      assert rest[i] in rest;
    }
  }

  lemma {:induction false} SortedIsExact(ids: set<nat>)
    ensures StrictlyAscending(Sorted(ids)) && |Sorted(ids)| == |ids|
    ensures forall x :: x in Sorted(ids) <==> x in ids
    decreases |ids|
  {
    if ids != {} {
      var x := Least(ids);
      SortedIsExact(ids - {x});
      PrependLeast(x, Sorted(ids - {x}));
      assert ids == {x} + (ids - {x});
    }
  }

  function ToSet(xs: seq<nat>): set<nat> {
    set x | x in xs
  }

  lemma OnlyEmptyIsEmpty(xs: seq<nat>)
    ensures ToSet(xs) == {} <==> xs == []
  {
    if xs != [] {
      assert xs[0] in ToSet(xs);
    }
  }

  lemma {:induction false} AscendingIsUnique(xs: seq<nat>, ys: seq<nat>)
    requires StrictlyAscending(xs) && StrictlyAscending(ys) && ToSet(xs) == ToSet(ys)
    ensures xs == ys
    decreases |xs|
  {
    if xs == [] || ys == [] {
      OnlyEmptyIsEmpty(xs);
      OnlyEmptyIsEmpty(ys);
    } else {
      var x, y := xs[|xs| - 1], ys[|ys| - 1];
      assert x in ToSet(ys) && y in ToSet(xs);
      assert x == y;
      var a, b := xs[..|xs| - 1], ys[..|ys| - 1];
      assert ToSet(a) == ToSet(xs) - {x} && ToSet(b) == ToSet(ys) - {x};
      AscendingIsUnique(a, b);
      assert xs == a + [x] && ys == b + [y];
    }
  }

  lemma SortedIsUnique(xs: seq<nat>)
    requires StrictlyAscending(xs)
    ensures Sorted(ToSet(xs)) == xs
  {
    SortedIsExact(ToSet(xs));
    AscendingIsUnique(Sorted(ToSet(xs)), xs);
  }
}
