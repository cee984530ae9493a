/** The migration runner: a ledger of versions beside a schema, changed together, one migration a
    transaction, by any number of runners behind one advisory lock. */
module Migrations {
  import opened Tables

  /** A transactional migration of the directory. None is an SQL error, which the runner rolls
      back; `down` is absent when there is no reversal file. */
  datatype Migration<!S> = Migration(version: nat, up: S -> Option<S>, down: Option<S -> Option<S>>)

  /** The table schema_migrations and everything else. */
  datatype Db<S> = Db(ledger: set<nat>, schema: S)

  // ------------------------------------------------------------- the directory

  /** sorted(directory.glob(...)): one file a version. */
  predicate IsSorted<S(!new)>(dir: seq<Migration<S>>) {
    forall i, k | 0 <= i < k < |dir| :: dir[i].version < dir[k].version
  }

  /** Each down file undoes its up file. */
  ghost predicate DownsUndoUps<S(!new)>(dir: seq<Migration<S>>) {
    forall i, s | 0 <= i < |dir| && dir[i].down.Some? && dir[i].up(s).Some? :: dir[i].down.value(dir[i].up(s).value) == Some(s)
  }

  function Versions<S>(dir: seq<Migration<S>>): seq<nat> {
    seq(|dir|, i requires 0 <= i < |dir| => dir[i].version)
  }

  /** The schema the up files make, one after the other. */
  function Fold<S>(dir: seq<Migration<S>>, base: S): Option<S>
    decreases |dir|
  {
    if dir == [] then Some(base)
    else
      match Fold(dir[..|dir| - 1], base)
      case None => None
      case Some(s) => dir[|dir| - 1].up(s)
  }

  /** The ledger holds the first n versions and the schema is what they make. */
  predicate Agrees<S(==)>(dir: seq<Migration<S>>, base: S, db: Db<S>, n: nat) {
    && n <= |dir|
    && db.ledger == ToSet(Versions(dir[..n]))
    && Fold(dir[..n], base) == Some(db.schema)
  }

  function Pending<S>(dir: seq<Migration<S>>, ledger: set<nat>): seq<Migration<S>>
    decreases |dir|
  {
    if dir == [] then []
    else Pending(dir[..|dir| - 1], ledger) + if dir[|dir| - 1].version in ledger then [] else [dir[|dir| - 1]]
  }

  lemma VersionsOfPrefix<S(!new)>(dir: seq<Migration<S>>, n: nat, i: nat)
    requires IsSorted(dir) && n <= |dir| && i < |dir|
    ensures dir[i].version in ToSet(Versions(dir[..n])) <==> i < n
  {
    if i < n {
      assert Versions(dir[..n])[i] == dir[i].version;
    }
  }

  lemma {:induction false} PendingIsRest<S(!new)>(dir: seq<Migration<S>>, n: nat, m: nat)
    requires IsSorted(dir) && n <= m <= |dir|
    ensures Pending(dir[..m], ToSet(Versions(dir[..n]))) == dir[n..m]
    decreases m
  {
    if m == 0 {
    } else {
      assert dir[..m][..m - 1] == dir[..m - 1];
      VersionsOfPrefix(dir, n, m - 1);
      if n < m {
        PendingIsRest(dir, n, m - 1);
      } else {
        PendingIsNone(dir, n, m - 1);
      }
    }
  }

  lemma {:induction false} PendingIsNone<S(!new)>(dir: seq<Migration<S>>, n: nat, m: nat)
    requires IsSorted(dir) && m <= n <= |dir|
    ensures Pending(dir[..m], ToSet(Versions(dir[..n]))) == []
    decreases m
  {
    if m > 0 {
      assert dir[..m][..m - 1] == dir[..m - 1];
      VersionsOfPrefix(dir, n, m - 1);
      PendingIsNone(dir, n, m - 1);
    }
  }

  // ------------------------------------------------------------- one transaction

  /** Up file and ledger row, committed together, or nothing. */
  function UpOne<S>(db: Db<S>, m: Migration<S>): Option<Db<S>> {
    match m.up(db.schema)
    case None => None
    case Some(s) => Some(Db(db.ledger + {m.version}, s))
  }

  /** Down file and ledger row, committed together, or nothing. */
  function DownOne<S>(db: Db<S>, m: Migration<S>): Option<Db<S>> {
    if m.down == None then None
    else
      match m.down.value(db.schema)
      case None => None
      case Some(s) => Some(Db(db.ledger - {m.version}, s))
  }

  lemma UpExtends<S(!new)>(dir: seq<Migration<S>>, base: S, db: Db<S>, n: nat)
    requires IsSorted(dir) && Agrees(dir, base, db, n) && n < |dir|
    ensures UpOne(db, dir[n]).Some? ==> Agrees(dir, base, UpOne(db, dir[n]).value, n + 1)
  {
    assert dir[..n + 1][..n] == dir[..n];
    assert Versions(dir[..n + 1]) == Versions(dir[..n]) + [dir[n].version];
  }

  lemma DownRetracts<S(!new)>(dir: seq<Migration<S>>, base: S, db: Db<S>, n: nat)
    requires IsSorted(dir) && DownsUndoUps(dir) && Agrees(dir, base, db, n) && 0 < n
    ensures DownOne(db, dir[n - 1]).Some? ==> Agrees(dir, base, DownOne(db, dir[n - 1]).value, n - 1)
  {
    assert dir[..n][..n - 1] == dir[..n - 1];
    assert Versions(dir[..n]) == Versions(dir[..n - 1]) + [dir[n - 1].version];
    VersionsOfPrefix(dir, n - 1, n - 1);
    assert ToSet(Versions(dir[..n])) == ToSet(Versions(dir[..n - 1])) + {dir[n - 1].version};
    var s := Fold(dir[..n - 1], base).value;
    assert dir[n - 1].up(s) == Some(db.schema);
  }

  // -------------------------------------------------------------- the ledger, sorted

  lemma AppliedIsPrefix<S(!new)>(dir: seq<Migration<S>>, n: nat)
    requires IsSorted(dir) && n <= |dir|
    ensures Sorted(ToSet(Versions(dir[..n]))) == Versions(dir[..n])
  {
    SortedIsUnique(Versions(dir[..n]));
  }

  function Reversed(xs: seq<nat>): seq<nat> {
    seq(|xs|, i requires 0 <= i < |xs| => xs[|xs| - 1 - i])
  }

  /** reversed(applied[-steps:] if steps > 0 else []). */
  function ToRevert(ledger: set<nat>, steps: int): seq<nat> {
    var applied := Sorted(ledger); // SELECT version ... ORDER BY version
    if steps <= 0 then [] else Reversed(if steps >= |applied| then applied else applied[|applied| - steps..])
  }

  /** What a rollback of so many steps leaves applied. */
  function Target(n: nat, steps: int): nat {
    if steps <= 0 then n else if steps >= n then 0 else n - steps
  }

  lemma ToRevertIsSuffix<S(!new)>(dir: seq<Migration<S>>, n: nat, steps: int)
    requires IsSorted(dir) && n <= |dir|
    ensures ToRevert(ToSet(Versions(dir[..n])), steps) == Reversed(Versions(dir[Target(n, steps)..n]))
  {
    AppliedIsPrefix(dir, n);
    SuffixOfVersions(dir, n, Target(n, steps));
  }

  lemma SuffixOfVersions<S(!new)>(dir: seq<Migration<S>>, n: nat, t: nat)
    requires t <= n <= |dir|
    ensures Versions(dir[..n])[t..] == Versions(dir[t..n]) && (t == n ==> Reversed(Versions(dir[t..n])) == [])
  {
  }

  function FindFile<S>(dir: seq<Migration<S>>, version: nat): Option<Migration<S>> {
    if dir == [] then None
    else if dir[0].version == version then Some(dir[0])
    else FindFile(dir[1..], version)
  }

  lemma FileIsFound<S(!new)>(dir: seq<Migration<S>>, i: nat)
    requires IsSorted(dir) && i < |dir|
    ensures FindFile(dir, dir[i].version) == Some(dir[i])
  {
    if i > 0 {
      FileIsFound(dir[1..], i - 1);
    }
  }

  /** There is a reversal file, and it goes through. */
  predicate CanRevert<S>(m: Migration<S>, schema: S, broken: set<nat>) {
    m.version !in broken && m.down.Some? && m.down.value(schema).Some?
  }

  // --------------------------------------------------------- one runner, start to end

  class Database<S(!new)> {
    var ledger: set<nat>
    var schema: S

    function Stored(): Db<S>
      reads this
    {
      Db(ledger, schema)
    }

    constructor (base: S)
      ensures Stored() == Db({}, base)
    {
      ledger, schema := {}, base;
    }

    /** run_migrations under the lock. The transactions of some versions may break for reasons
        besides their files; what was committed before stays, and ledger and schema still agree. */
    method RunMigrations(dir: seq<Migration<S>>, broken: set<nat>, ghost base: S, ghost n: nat)
      returns (applied: seq<nat>, failed: bool, ghost m: nat)
      requires IsSorted(dir) && Agrees(dir, base, Stored(), n)
      modifies this
      ensures n <= m && Agrees(dir, base, Stored(), m)
      ensures applied == Versions(dir[n..m])
      ensures if failed then m < |dir| && (dir[m].version in broken || dir[m].up(schema) == None) else m == |dir|
      ensures forall k | n <= k < m :: dir[k].version !in broken
    {
      var pending := Pending(dir, ledger);
      PendingIsRest(dir, n, |dir|);
      assert dir[..|dir|] == dir;
      applied, failed, m := [], false, n;
      for i := 0 to |pending|
        invariant m == n + i && Agrees(dir, base, Stored(), m)
        invariant applied == Versions(dir[n..m])
        invariant forall k | n <= k < m :: dir[k].version !in broken
      {
        assert pending[i] == dir[m];
        var ok := ApplyOne(dir, pending[i], broken, base, m);
        if !ok {
          return applied, true, m;
        }
        assert Versions(dir[n..m + 1]) == Versions(dir[n..m]) + [dir[m].version];
        applied := applied + [pending[i].version];
        m := m + 1;
      }
    }

    /** One round of the loop: the next version is applied, or nothing changes. */
    method ApplyOne(dir: seq<Migration<S>>, next: Migration<S>, broken: set<nat>, ghost base: S, ghost n: nat) returns (ok: bool)
      requires IsSorted(dir) && Agrees(dir, base, Stored(), n) && n < |dir| && next == dir[n]
      modifies this
      ensures ok <==> next.version !in broken && next.up(old(schema)).Some?
      ensures ok ==> Agrees(dir, base, Stored(), n + 1)
      ensures !ok ==> Stored() == old(Stored())
    {
      UpExtends(dir, base, Stored(), n);
      var after := next.up(schema);
      if next.version in broken || after == None {
        return false;
      }
      schema, ledger := after.value, ledger + {next.version};
      return true;
    }

    /** rollback_migrations under the lock. */
    method RollbackMigrations(dir: seq<Migration<S>>, steps: int, broken: set<nat>, ghost base: S, ghost n: nat)
      returns (reverted: seq<nat>, failed: bool, ghost m: nat)
      requires IsSorted(dir) && DownsUndoUps(dir) && Agrees(dir, base, Stored(), n)
      modifies this
      ensures m <= n && Agrees(dir, base, Stored(), m)
      ensures reverted == Reversed(Versions(dir[m..n]))
      ensures if failed then m > Target(n, steps) && !CanRevert(dir[m - 1], schema, broken) else m == Target(n, steps)
    {
      var versions := ToRevert(ledger, steps);
      ToRevertIsSuffix(dir, n, steps);
      reverted, failed, m := [], false, n;
      for i := 0 to |versions|
        invariant m == n - i && Agrees(dir, base, Stored(), m)
        invariant reverted == Reversed(Versions(dir[m..n]))
      {
        var ok := RevertOne(dir, versions[i], broken, base, m);
        if !ok {
          return reverted, true, m;
        }
        m := m - 1;
        assert Versions(dir[m..n]) == [dir[m].version] + Versions(dir[m + 1..n]);
        reverted := reverted + [versions[i]];
      }
    }

    /** One round of the loop: the last applied version goes, or nothing changes. */
    method RevertOne(dir: seq<Migration<S>>, version: nat, broken: set<nat>, ghost base: S, ghost n: nat) returns (ok: bool)
      requires IsSorted(dir) && DownsUndoUps(dir) && Agrees(dir, base, Stored(), n) && 0 < n && version == dir[n - 1].version
      modifies this
      ensures ok <==> old(CanRevert(dir[n - 1], schema, broken))
      ensures ok ==> Agrees(dir, base, Stored(), n - 1)
      ensures !ok ==> Stored() == old(Stored())
    {
      FileIsFound(dir, n - 1);
      DownRetracts(dir, base, Stored(), n);
      var file := FindFile(dir, version);
      if version in broken || file == None || file.value.down == None {
        return false;
      }
      var next := file.value.down.value(schema);
      if next == None {
        return false;
      }
      schema, ledger := next.value, ledger - {version};
      return true;
    }
  }

  // ----------------------------------------------------- many runners, one lock

  datatype Command = Up | Down(steps: int)

  /** A runner waits for pg_try_advisory_lock, lists its work once under the lock, and goes through
      the list a transaction at a time. */
  datatype Runner = Wants(command: Command) | Locked(command: Command) | Working(up: bool, todo: seq<nat>) | Over

  datatype Entry = Entry(runner: nat, version: nat, up: bool)

  datatype System<S> = System(db: Db<S>, lock: Option<nat>, runners: map<nat, Runner>, history: seq<Entry>)

  datatype Step =
    | Arrive(r: nat, command: Command)
    | TryLock(r: nat)
    | ListWork(r: nat)
    | Next(r: nat, broken: bool)    // the next file of the list, or the end of the run
    | Die(r: nat)                   // the session ends: rollback, and the lock is released

  function Leave<S>(s: System<S>, r: nat): System<S> {
    s.(runners := s.runners[r := Over], lock := if s.lock == Some(r) then None else s.lock)
  }

  function DoNext<S>(dir: seq<Migration<S>>, s: System<S>, r: nat, broken: bool): System<S> {
    if r !in s.runners || !s.runners[r].Working? then s
    else if broken || s.runners[r].todo == [] then Leave(s, r)
    else
      var Working(up, todo) := s.runners[r];
      match FindFile(dir, todo[0])
      case None => Leave(s, r)
      case Some(m) =>
        match (if up then UpOne(s.db, m) else DownOne(s.db, m))
        case None => Leave(s, r)
        case Some(db) =>
          s.(db := db, runners := s.runners[r := Working(up, todo[1..])], history := s.history + [Entry(r, todo[0], up)])
  }

  function Do<S>(dir: seq<Migration<S>>, s: System<S>, step: Step): System<S> {
    match step
    case Arrive(r, command) => if r in s.runners then s else s.(runners := s.runners[r := Wants(command)])
    case TryLock(r) =>
      if r in s.runners && s.runners[r].Wants? && s.lock == None
      then s.(lock := Some(r), runners := s.runners[r := Locked(s.runners[r].command)]) else s
    case ListWork(r) =>
      if r in s.runners && s.runners[r].Locked? then
        s.(runners := s.runners[r := WorkList(dir, s.db.ledger, s.runners[r].command)])
      else s
    case Next(r, broken) => DoNext(dir, s, r, broken)
    case Die(r) => if r in s.runners then Leave(s, r) else s
  }

  function Run<S>(dir: seq<Migration<S>>, s: System<S>, steps: seq<Step>): System<S>
    decreases |steps|
  {
    if steps == [] then s else Do(dir, Run(dir, s, steps[..|steps| - 1]), Last(steps))
  }

  /** A list of work is still what is left to do. */
  predicate TodoFits<S>(dir: seq<Migration<S>>, runner: Runner, n: nat)
    requires n <= |dir|
  {
    runner.Working? ==>
      if runner.up then runner.todo == Versions(dir[n..])
      else |runner.todo| <= n && runner.todo == Reversed(Versions(dir[n - |runner.todo|..n]))
  }

  predicate Orderly<S(==)>(dir: seq<Migration<S>>, base: S, s: System<S>, n: nat) {
    && Agrees(dir, base, s.db, n)
    && (forall r | r in s.runners && (s.runners[r].Locked? || s.runners[r].Working?) :: s.lock == Some(r))
    && (forall r | r in s.runners :: TodoFits(dir, s.runners[r], n))
    && Replays(s.history, s.db.ledger)
  }

  /** The history of committed transactions leads to the ledger: a version goes up only when it is
      not applied and down only when it is. */
  predicate Replays(history: seq<Entry>, ledger: set<nat>)
    decreases |history|
  {
    if history == [] then ledger == {}
    else
      var e := Last(history);
      if e.up then e.version in ledger && Replays(history[..|history| - 1], ledger - {e.version})
      else e.version !in ledger && Replays(history[..|history| - 1], ledger + {e.version})
  }

  lemma LeaveIsOrderly<S(!new)>(dir: seq<Migration<S>>, base: S, s: System<S>, n: nat, r: nat)
    requires Orderly(dir, base, s, n)
    ensures Orderly(dir, base, Leave(s, r), n)
  {
    var s' := Leave(s, r);
    forall o | o in s'.runners ensures TodoFits(dir, s'.runners[o], n) {
      if o != r { assert TodoFits(dir, s.runners[o], n); }
    }
  }

  function WorkList<S>(dir: seq<Migration<S>>, ledger: set<nat>, command: Command): Runner {
    match command
    case Up => Working(true, Versions(Pending(dir, ledger)))
    case Down(steps) => Working(false, ToRevert(ledger, steps))
  }

  lemma ListFits<S(!new)>(dir: seq<Migration<S>>, base: S, db: Db<S>, n: nat, command: Command)
    requires IsSorted(dir) && Agrees(dir, base, db, n)
    ensures TodoFits(dir, WorkList(dir, db.ledger, command), n)
  {
    match command
    case Up =>
      PendingIsRest(dir, n, |dir|);
      assert dir[..|dir|] == dir && dir[n..|dir|] == dir[n..];
    case Down(steps) =>
      ToRevertIsSuffix(dir, n, steps);
      assert |ToRevert(db.ledger, steps)| == n - Target(n, steps);
  }

  lemma ListIsOrderly<S(!new)>(dir: seq<Migration<S>>, base: S, s: System<S>, n: nat, r: nat)
    requires IsSorted(dir) && Orderly(dir, base, s, n)
    ensures Orderly(dir, base, Do(dir, s, ListWork(r)), n)
  {
    var s' := Do(dir, s, ListWork(r));
    if r in s.runners && s.runners[r].Locked? {
      ListFits(dir, base, s.db, n, s.runners[r].command);
    }
    forall o | o in s'.runners ensures TodoFits(dir, s'.runners[o], n) {
      if o != r { assert TodoFits(dir, s.runners[o], n); }
    }
  }

  /** The database after the lock holder's next file. */
  predicate Advances<S(==)>(dir: seq<Migration<S>>, base: S, s: System<S>, n: nat, r: nat, db: Db<S>, m: nat, up: bool, version: nat)
    requires r in s.runners && s.runners[r].Working? && s.runners[r].todo != [] && n <= |dir|
  {
    && Agrees(dir, base, db, m)
    && TodoFits(dir, Working(up, s.runners[r].todo[1..]), m)
    && (if up then version in db.ledger && db.ledger - {version} == s.db.ledger
        else version !in db.ledger && db.ledger + {version} == s.db.ledger)
  }

  /** The lock holder's list begins with file n, which the directory has. */
  lemma NextUp<S(!new)>(dir: seq<Migration<S>>, runner: Runner, n: nat)
    requires IsSorted(dir) && n <= |dir| && runner.Working? && runner.up && runner.todo != [] && TodoFits(dir, runner, n)
    ensures n < |dir| && runner.todo[0] == dir[n].version && FindFile(dir, dir[n].version) == Some(dir[n])
  {
    assert |Versions(dir[n..])| == |dir| - n;
    FileIsFound(dir, n);
  }

  /** Its tail begins behind that file. */
  lemma RestUp<S(!new)>(dir: seq<Migration<S>>, runner: Runner, n: nat)
    requires n < |dir| && runner.Working? && runner.up && TodoFits(dir, runner, n)
    ensures runner.todo != [] && TodoFits(dir, Working(true, runner.todo[1..]), n + 1)
  {
    assert Versions(dir[n..])[1..] == Versions(dir[n + 1..]);
  }

  lemma UpAdvances<S(!new)>(dir: seq<Migration<S>>, base: S, s: System<S>, n: nat, r: nat)
    requires IsSorted(dir) && Agrees(dir, base, s.db, n)
    requires r in s.runners && s.runners[r].Working? && s.runners[r].todo != [] && TodoFits(dir, s.runners[r], n) && s.runners[r].up
    ensures n < |dir| && s.runners[r].todo[0] == dir[n].version && FindFile(dir, dir[n].version) == Some(dir[n])
    ensures UpOne(s.db, dir[n]).Some? ==> Advances(dir, base, s, n, r, UpOne(s.db, dir[n]).value, n + 1, true, dir[n].version)
  {
    NextUp(dir, s.runners[r], n);
    RestUp(dir, s.runners[r], n);
    UpExtends(dir, base, s.db, n);
    VersionsOfPrefix(dir, n, n);
  }

  /** A rollback's list begins with the last applied file, which the directory has. */
  lemma NextDown<S(!new)>(dir: seq<Migration<S>>, runner: Runner, n: nat)
    requires IsSorted(dir) && n <= |dir| && runner.Working? && !runner.up && runner.todo != [] && TodoFits(dir, runner, n)
    ensures 0 < n && runner.todo[0] == dir[n - 1].version && FindFile(dir, dir[n - 1].version) == Some(dir[n - 1])
  {
    assert runner.todo[0] == Versions(dir[n - |runner.todo|..n])[|runner.todo| - 1];
    FileIsFound(dir, n - 1);
  }

  /** Its tail goes on with the file before. */
  lemma RestDown<S(!new)>(dir: seq<Migration<S>>, runner: Runner, n: nat)
    requires 0 < n <= |dir| && runner.Working? && !runner.up && runner.todo != [] && TodoFits(dir, runner, n)
    ensures TodoFits(dir, Working(false, runner.todo[1..]), n - 1)
  {
    var k := n - |runner.todo|;
    assert Reversed(Versions(dir[k..n]))[1..] == Reversed(Versions(dir[k..n - 1]));
  }

  lemma DownAdvances<S(!new)>(dir: seq<Migration<S>>, base: S, s: System<S>, n: nat, r: nat)
    requires IsSorted(dir) && DownsUndoUps(dir) && Agrees(dir, base, s.db, n)
    requires r in s.runners && s.runners[r].Working? && s.runners[r].todo != [] && TodoFits(dir, s.runners[r], n) && !s.runners[r].up
    ensures 0 < n && s.runners[r].todo[0] == dir[n - 1].version && FindFile(dir, dir[n - 1].version) == Some(dir[n - 1])
    ensures DownOne(s.db, dir[n - 1]).Some? ==>
              Advances(dir, base, s, n, r, DownOne(s.db, dir[n - 1]).value, n - 1, false, dir[n - 1].version)
  {
    NextDown(dir, s.runners[r], n);
    RestDown(dir, s.runners[r], n);
    DownRetracts(dir, base, s.db, n);
    VersionsOfPrefix(dir, n, n - 1);
  }

  lemma AdvanceIsOrderly<S(!new)>(dir: seq<Migration<S>>, base: S, s: System<S>, s': System<S>, n: nat, r: nat, m: nat, up: bool, version: nat)
    requires Orderly(dir, base, s, n)
    requires r in s.runners && s.runners[r].Working? && s.runners[r].todo != []
    requires Advances(dir, base, s, n, r, s'.db, m, up, version)
    requires s' == s.(db := s'.db, runners := s.runners[r := Working(up, s.runners[r].todo[1..])], history := s.history + [Entry(r, version, up)])
    ensures Orderly(dir, base, s', m)
  {
    assert s'.history[..|s'.history| - 1] == s.history;
  }

  /** The system after the lock holder has committed its next file. */
  function Moved<S>(s: System<S>, r: nat, db: Db<S>): System<S>
    requires r in s.runners && s.runners[r].Working? && s.runners[r].todo != []
  {
    var Working(up, todo) := s.runners[r];
    s.(db := db, runners := s.runners[r := Working(up, todo[1..])], history := s.history + [Entry(r, todo[0], up)])
  }

  lemma NextMoves<S(!new)>(dir: seq<Migration<S>>, s: System<S>, r: nat, m: Migration<S>, db: Option<Db<S>>)
    requires r in s.runners && s.runners[r].Working? && s.runners[r].todo != [] && FindFile(dir, s.runners[r].todo[0]) == Some(m)
    requires db == if s.runners[r].up then UpOne(s.db, m) else DownOne(s.db, m)
    ensures Do(dir, s, Next(r, false)) == if db == None then Leave(s, r) else Moved(s, r, db.value)
  {
  }

  /** What one committed transaction of the lock holder does to n. */
  lemma NextIsOrderly<S(!new)>(dir: seq<Migration<S>>, base: S, s: System<S>, n: nat, r: nat) returns (m: nat)
    requires IsSorted(dir) && DownsUndoUps(dir) && Orderly(dir, base, s, n)
    requires r in s.runners && s.runners[r].Working? && s.runners[r].todo != []
    ensures Orderly(dir, base, Do(dir, s, Next(r, false)), m)
  {
    m := n;
    var up := s.runners[r].up;
    assert TodoFits(dir, s.runners[r], n);
    if up { UpAdvances(dir, base, s, n, r); } else { DownAdvances(dir, base, s, n, r); }
    var i := if up then n else n - 1;
    var db := if up then UpOne(s.db, dir[i]) else DownOne(s.db, dir[i]);
    NextMoves(dir, s, r, dir[i], db);
    if db == None {
      LeaveIsOrderly(dir, base, s, n, r);
    } else {
      m := if up then n + 1 else n - 1;
      AdvanceIsOrderly(dir, base, s, Moved(s, r, db.value), n, r, m, up, dir[i].version);
    }
  }

  lemma StepIsOrderly<S(!new)>(dir: seq<Migration<S>>, base: S, s: System<S>, n: nat, step: Step) returns (m: nat)
    requires IsSorted(dir) && DownsUndoUps(dir) && Orderly(dir, base, s, n)
    ensures Orderly(dir, base, Do(dir, s, step), m)
  {
    m := n;
    match step
    case Next(r, broken) =>
      if r in s.runners && s.runners[r].Working? {
        if broken || s.runners[r].todo == [] { LeaveIsOrderly(dir, base, s, n, r); } else { m := NextIsOrderly(dir, base, s, n, r); }
      }
    case ListWork(r) => ListIsOrderly(dir, base, s, n, r);
    case Die(r) => LeaveIsOrderly(dir, base, s, n, r);
    case _ =>
      var s' := Do(dir, s, step);
      forall o | o in s'.runners ensures TodoFits(dir, s'.runners[o], n) {
        if o in s.runners { assert TodoFits(dir, s.runners[o], n); }
      }
  }

  function Start<S>(base: S): System<S> {
    System(Db({}, base), None, map[], [])
  }

  /** Any number of upgrades and rollbacks at once, failing or dying anywhere: the ledger is a
      prefix of the directory's versions, the schema is what their up files make, and the
      transactions that were committed replay to that ledger. */
  lemma {:induction false} LedgerAndSchemaAgree<S(!new)>(dir: seq<Migration<S>>, base: S, steps: seq<Step>) returns (n: nat)
    requires IsSorted(dir) && DownsUndoUps(dir)
    ensures Orderly(dir, base, Run(dir, Start(base), steps), n)
    decreases |steps|
  {
    if steps == [] {
      n := 0;
    } else {
      var k := LedgerAndSchemaAgree(dir, base, steps[..|steps| - 1]);
      n := StepIsOrderly(dir, base, Run(dir, Start(base), steps[..|steps| - 1]), k, Last(steps));
    }
  }

  function Count(history: seq<Entry>, version: nat, up: bool): nat {
    if history == [] then 0
    else Count(history[..|history| - 1], version, up) + if Last(history).version == version && Last(history).up == up then 1 else 0
  }

  lemma {:induction false} UpsAndDownsAlternate(history: seq<Entry>, ledger: set<nat>, version: nat)
    requires Replays(history, ledger)
    ensures Count(history, version, true) == Count(history, version, false) + if version in ledger then 1 else 0
    decreases |history|
  {
    if history != [] {
      var e := Last(history);
      UpsAndDownsAlternate(history[..|history| - 1], if e.up then ledger - {e.version} else ledger + {e.version}, version);
    }
  }

  /** However many runners race, each version is applied once more than it is reverted if it is in
      the ledger, and as often if it is not: without rollbacks, by exactly one runner. */
  lemma EachVersionAppliedOnce<S(!new)>(dir: seq<Migration<S>>, base: S, steps: seq<Step>, s: System<S>, version: nat)
    requires IsSorted(dir) && DownsUndoUps(dir) && s == Run(dir, Start(base), steps)
    ensures Count(s.history, version, true) == Count(s.history, version, false) + if version in s.db.ledger then 1 else 0
    ensures Count(s.history, version, false) == 0 ==> Count(s.history, version, true) <= 1
  {
    var n := LedgerAndSchemaAgree(dir, base, steps);
    UpsAndDownsAlternate(s.history, s.db.ledger, version);
  }

  // ------------------------------------------------------------ a runner that gets through

  function Nexts(r: nat, k: nat): seq<Step> {
    seq(k, _ => Next(r, false))
  }

  lemma RunSnoc<S(!new)>(dir: seq<Migration<S>>, s: System<S>, steps: seq<Step>, step: Step)
    ensures Run(dir, s, steps + [step]) == Do(dir, Run(dir, s, steps), step)
  {
    assert (steps + [step])[..|steps|] == steps;
  }

  /** r holds the lock and has this much left to do. */
  predicate IsAt<S(==)>(dir: seq<Migration<S>>, base: S, s: System<S>, r: nat, n: nat, runner: Runner) {
    Agrees(dir, base, s.db, n) && s.lock == Some(r) && r in s.runners && s.runners[r] == runner
  }

  lemma {:induction false} UpsGoThrough<S(!new)>(dir: seq<Migration<S>>, base: S, s: System<S>, r: nat, n: nat, k: nat)
    requires IsSorted(dir) && n + k <= |dir| && IsAt(dir, base, s, r, n, Working(true, Versions(dir[n..])))
    requires forall i | n < i <= |dir| :: Fold(dir[..i], base).Some?
    ensures IsAt(dir, base, Run(dir, s, Nexts(r, k)), r, n + k, Working(true, Versions(dir[n + k..])))
    decreases k
  {
    if k > 0 {
      UpsGoThrough(dir, base, s, r, n, k - 1);
      assert Nexts(r, k) == Nexts(r, k - 1) + [Next(r, false)];
      RunSnoc(dir, s, Nexts(r, k - 1), Next(r, false));
      OneUp(dir, base, Run(dir, s, Nexts(r, k - 1)), r, n + k - 1);
    }
  }

  lemma OneUp<S(!new)>(dir: seq<Migration<S>>, base: S, s: System<S>, r: nat, n: nat)
    requires IsSorted(dir) && n < |dir| && IsAt(dir, base, s, r, n, Working(true, Versions(dir[n..]))) && Fold(dir[..n + 1], base).Some?
    ensures IsAt(dir, base, Do(dir, s, Next(r, false)), r, n + 1, Working(true, Versions(dir[n + 1..])))
  {
    NextUp(dir, s.runners[r], n);
    assert Versions(dir[n..])[1..] == Versions(dir[n + 1..]);
    assert dir[..n + 1][..n] == dir[..n];
    NextMoves(dir, s, r, dir[n], UpOne(s.db, dir[n]));
    UpExtends(dir, base, s.db, n);
  }

  lemma {:induction false} DownsGoThrough<S(!new)>(dir: seq<Migration<S>>, base: S, s: System<S>, r: nat, n: nat, low: nat, k: nat)
    requires IsSorted(dir) && DownsUndoUps(dir) && low + k <= n <= |dir|
    requires IsAt(dir, base, s, r, n, Working(false, Reversed(Versions(dir[low..n]))))
    requires forall i | low <= i < n :: dir[i].down.Some?
    ensures IsAt(dir, base, Run(dir, s, Nexts(r, k)), r, n - k, Working(false, Reversed(Versions(dir[low..n - k]))))
    decreases k
  {
    if k > 0 {
      DownsGoThrough(dir, base, s, r, n, low, k - 1);
      assert Nexts(r, k) == Nexts(r, k - 1) + [Next(r, false)];
      RunSnoc(dir, s, Nexts(r, k - 1), Next(r, false));
      OneDown(dir, base, Run(dir, s, Nexts(r, k - 1)), r, n - (k - 1), low);
    }
  }

  lemma OneDown<S(!new)>(dir: seq<Migration<S>>, base: S, s: System<S>, r: nat, n: nat, low: nat)
    requires IsSorted(dir) && DownsUndoUps(dir) && low < n <= |dir| && dir[n - 1].down.Some?
    requires IsAt(dir, base, s, r, n, Working(false, Reversed(Versions(dir[low..n]))))
    ensures IsAt(dir, base, Do(dir, s, Next(r, false)), r, n - 1, Working(false, Reversed(Versions(dir[low..n - 1]))))
  {
    NextDown(dir, s.runners[r], n);
    assert Reversed(Versions(dir[low..n]))[1..] == Reversed(Versions(dir[low..n - 1]));
    DownIsPossible(dir, base, s.db, n);
    NextMoves(dir, s, r, dir[n - 1], DownOne(s.db, dir[n - 1]));
    DownRetracts(dir, base, s.db, n);
  }

  lemma DownIsPossible<S(!new)>(dir: seq<Migration<S>>, base: S, db: Db<S>, n: nat)
    requires DownsUndoUps(dir) && Agrees(dir, base, db, n) && 0 < n && dir[n - 1].down.Some?
    ensures DownOne(db, dir[n - 1]).Some?
  {
    assert dir[..n][..n - 1] == dir[..n - 1];
    var s := Fold(dir[..n - 1], base).value;
    assert dir[n - 1].up(s) == Some(db.schema);
  }

  /** The steps of a runner from its arrival to its list of work. */
  function Begin(r: nat, command: Command): seq<Step> {
    [Arrive(r, command), TryLock(r), ListWork(r)]
  }

  lemma BeginsWithItsList<S(!new)>(dir: seq<Migration<S>>, s: System<S>, r: nat, command: Command)
    requires s.lock == None && r !in s.runners
    ensures Run(dir, s, Begin(r, command)) == s.(lock := Some(r), runners := s.runners[r := WorkList(dir, s.db.ledger, command)])
  {
    RunSnoc(dir, s, [], Arrive(r, command));
    RunSnoc(dir, s, [Arrive(r, command)], TryLock(r));
    RunSnoc(dir, s, [Arrive(r, command), TryLock(r)], ListWork(r));
    assert [] + [Arrive(r, command)] == [Arrive(r, command)];
    assert [Arrive(r, command)] + [TryLock(r)] == [Arrive(r, command), TryLock(r)];
    assert [Arrive(r, command), TryLock(r)] + [ListWork(r)] == Begin(r, command);
  }

  lemma {:induction false} RunAppends<S(!new)>(dir: seq<Migration<S>>, s: System<S>, a: seq<Step>, b: seq<Step>)
    ensures Run(dir, s, a + b) == Run(dir, Run(dir, s, a), b)
    decreases |b|
  {
    if b == [] {
      assert a + b == a;
    } else {
      RunAppends(dir, s, a, b[..|b| - 1]);
      assert (a + b)[..|a + b| - 1] == a + b[..|b| - 1];
    }
  }

  /** A run that is not disturbed: one step to its list, one for each file, one to the end. */
  function WholeRun(r: nat, command: Command, files: nat): seq<Step> {
    Begin(r, command) + Nexts(r, files) + [Next(r, false)]
  }

  lemma WholeRunInParts<S(!new)>(dir: seq<Migration<S>>, s: System<S>, r: nat, command: Command, files: nat)
    ensures Run(dir, s, WholeRun(r, command, files))
         == Do(dir, Run(dir, Run(dir, s, Begin(r, command)), Nexts(r, files)), Next(r, false))
  {
    RunAppends(dir, s, Begin(r, command), Nexts(r, files));
    RunSnoc(dir, s, Begin(r, command) + Nexts(r, files), Next(r, false));
  }

  lemma EndsWhenDone<S(!new)>(dir: seq<Migration<S>>, base: S, s: System<S>, r: nat, n: nat, up: bool)
    requires IsAt(dir, base, s, r, n, Working(up, []))
    ensures var t := Do(dir, s, Next(r, false));
            Agrees(dir, base, t.db, n) && t.lock == None && r in t.runners && t.runners[r] == Over
  {
  }

  lemma UpList<S(!new)>(dir: seq<Migration<S>>, base: S, db: Db<S>, n: nat)
    requires IsSorted(dir) && Agrees(dir, base, db, n)
    ensures WorkList(dir, db.ledger, Up) == Working(true, Versions(dir[n..])) && Versions(dir[|dir|..]) == []
  {
    PendingIsRest(dir, n, |dir|);
    assert dir[..|dir|] == dir && dir[n..|dir|] == dir[n..];
  }

  /** From any orderly state with the lock free, an upgrade whose files go through applies every
      pending version, and a rollback takes off exactly as many as it was asked to; both give the
      lock back. */
  lemma UpgradeCompletes<S(!new)>(dir: seq<Migration<S>>, base: S, s: System<S>, n: nat, r: nat)
    requires IsSorted(dir) && Agrees(dir, base, s.db, n) && s.lock == None && r !in s.runners
    requires forall i | n < i <= |dir| :: Fold(dir[..i], base).Some?
    ensures var t := Run(dir, s, WholeRun(r, Up, |dir| - n));
            Agrees(dir, base, t.db, |dir|) && t.lock == None && r in t.runners && t.runners[r] == Over
  {
    var listed := Run(dir, s, Begin(r, Up));
    BeginsWithItsList(dir, s, r, Up);
    UpList(dir, base, s.db, n);
    UpsGoThrough(dir, base, listed, r, n, |dir| - n);
    WholeRunInParts(dir, s, r, Up, |dir| - n);
    EndsWhenDone(dir, base, Run(dir, listed, Nexts(r, |dir| - n)), r, |dir|, true);
  }

  lemma RollbackCompletes<S(!new)>(dir: seq<Migration<S>>, base: S, s: System<S>, n: nat, r: nat, steps: int)
    requires IsSorted(dir) && DownsUndoUps(dir) && Agrees(dir, base, s.db, n) && s.lock == None && r !in s.runners
    requires forall i | 0 <= i < n :: dir[i].down.Some?
    ensures var left := if steps <= 0 then n else if steps >= n then 0 else n - steps;
            var t := Run(dir, s, WholeRun(r, Down(steps), n - left));
            Agrees(dir, base, t.db, left) && t.lock == None && r in t.runners && t.runners[r] == Over
  {
    var left := Target(n, steps);
    var listed := Run(dir, s, Begin(r, Down(steps)));
    BeginsWithItsList(dir, s, r, Down(steps));
    ToRevertIsSuffix(dir, n, steps);
    DownsGoThrough(dir, base, listed, r, n, left, n - left);
    WholeRunInParts(dir, s, r, Down(steps), n - left);
    assert Reversed(Versions(dir[left..left])) == [];
    EndsWhenDone(dir, base, Run(dir, listed, Nexts(r, n - left)), r, left, false);
  }

  /** A runner that breaks or dies leaves the database as it is and the lock to the others. */
  lemma LeavingFreesTheLock<S(!new)>(dir: seq<Migration<S>>, s: System<S>, r: nat)
    requires r in s.runners && s.runners[r].Working? && s.lock == Some(r)
    ensures var t, u := Do(dir, s, Next(r, true)), Do(dir, s, Die(r));
            t == u && t.db == s.db && t.lock == None && t.history == s.history && t.runners == s.runners[r := Over]
  {
  }
}
