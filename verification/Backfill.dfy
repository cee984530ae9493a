/** Migration 0007: statements that rewrite whatever the tables hold so that the constraints added
    after them hold, and the one table where that can fail. */
module Backfill {
  import opened Tables
  import opened Decimal

  /** The regular-expression classes of the database's locale. */
  datatype Locale = Locale(cntrl: set<char>, space: set<char>)

  /** The characters of the texts the migration writes are what they look like. */
  predicate IsPlain(loc: Locale) {
    forall c | c in "desconhecido empresa user@invalido.local 0123456789" :: c !in loc.cntrl && (c in loc.space <==> c == ' ')
  }

  // ---------------------------------------------------------------- text functions

  /** text ~ '[^[:space:]]' */
  predicate HasContent(loc: Locale, s: string) {
    exists c | c in s :: c !in loc.space
  }

  /** text !~ '[[:cntrl:]]' */
  predicate IsPrintable(loc: Locale, s: string) {
    forall c | c in s :: c !in loc.cntrl
  }

  /** regexp_replace(text, '[[:cntrl:]]', '', 'g') */
  function Strip(loc: Locale, s: string): string {
    if s == [] then [] else (if s[0] in loc.cntrl then [] else [s[0]]) + Strip(loc, s[1..])
  }

  function TrimLeft(s: string): string {
    if s != [] && s[0] == ' ' then TrimLeft(s[1..]) else s
  }

  function TrimRight(s: string): string {
    if s != [] && Last(s) == ' ' then TrimRight(s[..|s| - 1]) else s
  }

  /** btrim(text): spaces only. */
  function Trim(s: string): string {
    TrimRight(TrimLeft(s))
  }

  function Left(s: string, n: nat): string {
    if |s| <= n then s else s[..n]
  }

  function Clean(loc: Locale, s: string): string {
    Trim(Strip(loc, s))
  }

  lemma {:induction false} StripIsPrintable(loc: Locale, s: string)
    ensures IsPrintable(loc, Strip(loc, s))
    ensures IsPrintable(loc, s) ==> Strip(loc, s) == s
  {
    if s != [] {
      StripIsPrintable(loc, s[1..]);
      assert s == [s[0]] + s[1..];
    }
  }

  lemma {:induction false} TrimLeftKeeps(s: string)
    ensures forall c | c in TrimLeft(s) :: c in s
    ensures TrimLeft(s) != [] ==> TrimLeft(s)[0] != ' '
  {
    if s != [] && s[0] == ' ' {
      TrimLeftKeeps(s[1..]);
    }
  }

  lemma {:induction false} TrimRightKeeps(s: string)
    ensures TrimRight(s) <= s
    ensures TrimRight(s) != [] ==> Last(TrimRight(s)) != ' '
    decreases |s|
  {
    if s != [] && Last(s) == ' ' {
      TrimRightKeeps(s[..|s| - 1]);
    }
  }

  lemma TrimIsIdempotent(s: string)
    ensures Trim(Trim(s)) == Trim(s)
    ensures forall c | c in Trim(s) :: c in s
  {
    TrimLeftKeeps(s);
    TrimRightKeeps(TrimLeft(s));
    forall c | c in Trim(s) ensures c in s {
      assert c in TrimLeft(s);
    }
    if Trim(s) != [] {
      assert Trim(s)[0] == TrimLeft(s)[0];
    }
  }

  lemma {:induction false} StripSplits(loc: Locale, s: string, t: string)
    ensures Strip(loc, s + t) == Strip(loc, s) + Strip(loc, t)
  {
    if s == [] {
      assert s + t == t;
    } else {
      StripSplits(loc, s[1..], t);
      assert (s + t)[1..] == s[1..] + t;
    }
  }

  /** Stripping takes out the control characters and leaves the others where they are. */
  lemma StripIsExact(loc: Locale, s: string, c: char, t: string)
    ensures Strip(loc, s + [c] + t) == Strip(loc, s) + (if c in loc.cntrl then [] else [c]) + Strip(loc, t)
  {
    StripSplits(loc, s + [c], t);
    StripSplits(loc, s, [c]);
    assert [c][1..] == [] && Strip(loc, []) == [];
  }

  function Blanks(n: nat): string {
    seq(n, _ => ' ')
  }

  lemma {:induction false} TrimLeftIsExact(s: string) returns (n: nat)
    ensures s == Blanks(n) + TrimLeft(s)
    ensures TrimLeft(s) != [] ==> TrimLeft(s)[0] != ' '
  {
    n := 0;
    if s != [] && s[0] == ' ' {
      n := TrimLeftIsExact(s[1..]);
      n := n + 1;
      assert s == [' '] + s[1..];
      assert Blanks(n) == [' '] + Blanks(n - 1);
    }
  }

  lemma {:induction false} TrimRightIsExact(s: string) returns (n: nat)
    ensures s == TrimRight(s) + Blanks(n)
    ensures TrimRight(s) != [] ==> Last(TrimRight(s)) != ' '
    decreases |s|
  {
    n := 0;
    if s != [] && Last(s) == ' ' {
      n := TrimRightIsExact(s[..|s| - 1]);
      n := n + 1;
      assert s == s[..|s| - 1] + [' '];
      assert Blanks(n) == Blanks(n - 1) + [' '];
    }
  }

  /** Trimming takes the blanks off both ends, all of them and nothing else. */
  lemma TrimIsExact(s: string) returns (m: nat, n: nat)
    ensures s == Blanks(m) + Trim(s) + Blanks(n)
    ensures Trim(s) != [] ==> Trim(s)[0] != ' ' && Last(Trim(s)) != ' '
  {
    m := TrimLeftIsExact(s);
    n := TrimRightIsExact(TrimLeft(s));
    assert Trim(s) != [] ==> Trim(s)[0] == TrimLeft(s)[0];
  }

  lemma CleanIsPrintable(loc: Locale, s: string)
    ensures IsPrintable(loc, Clean(loc, s))
    ensures Clean(loc, Clean(loc, s)) == Clean(loc, s)
  {
    StripIsPrintable(loc, s);
    TrimIsIdempotent(Strip(loc, s));
    StripIsPrintable(loc, Clean(loc, s));
  }

  // ---------------------------------------------------------------------- rows

  datatype CompanyRow = CompanyRow(name: string, maxConcurrentJobs: int)
  datatype UserRow = UserRow(company: nat, email: string, role: string)
  datatype JobRow = JobRow(company: nat, createdBy: Option<nat>, kind: string, attempts: int, key: Option<string>)
  datatype ResultRow = ResultRow(job: nat, payload: string)
  datatype LetterRow = LetterRow(job: Option<nat>, kind: string, attempts: int, failedAt: Time)

  function Clamp(x: int, lo: int, hi: int): int {
    if x < lo then lo else if x > hi then hi else x
  }

  function FixName(loc: Locale, id: nat, name: string): string {
    var clean := Clean(loc, name);
    if HasContent(loc, clean) then clean else "empresa " + Digits(id)
  }

  function FixKind(loc: Locale, kind: string): string {
    var clean := Left(Clean(loc, kind), 100);
    if HasContent(loc, clean) then clean else "desconhecido"
  }

  predicate IsKeyValid(loc: Locale, key: string) {
    1 <= |key| <= 200 && HasContent(loc, key) && IsPrintable(loc, key)
  }

  /** The WHERE clause of the UPDATE that drops a key. */
  predicate IsKeyDropped(loc: Locale, key: string) {
    !HasContent(loc, key) || !IsPrintable(loc, key) || |key| > 200
  }

  function FixKey(loc: Locale, key: Option<string>): Option<string> {
    if key.Some? && IsKeyDropped(loc, key.value) then None else key
  }

  function PlaceholderEmail(id: nat): string {
    "user" + Digits(id) + "@invalido.local"
  }

  // --------------------------------------------------------------- constraints

  predicate KindOk(loc: Locale, kind: string) {
    1 <= |kind| <= 100 && HasContent(loc, kind) && IsPrintable(loc, kind)
  }

  predicate CompaniesOk(loc: Locale, companies: map<nat, CompanyRow>) {
    forall i | i in companies ::
      HasContent(loc, companies[i].name) && IsPrintable(loc, companies[i].name) && companies[i].maxConcurrentJobs > 0
  }

  predicate UsersOk(loc: Locale, users: map<nat, UserRow>) {
    forall i | i in users ::
      HasContent(loc, users[i].email) && IsPrintable(loc, users[i].email) && users[i].role in {"user", "admin"}
  }

  /** The foreign key (created_by, company_id). */
  predicate CreatorOk(users: map<nat, UserRow>, row: JobRow) {
    row.createdBy.Some? ==> row.createdBy.value in users && users[row.createdBy.value].company == row.company
  }

  predicate JobOk(loc: Locale, users: map<nat, UserRow>, row: JobRow) {
    && KindOk(loc, row.kind)
    && 0 <= row.attempts <= 3
    && (row.key.Some? ==> IsKeyValid(loc, row.key.value))
    && CreatorOk(users, row)
  }

  predicate JobsOk(loc: Locale, users: map<nat, UserRow>, jobs: map<nat, JobRow>) {
    forall i | i in jobs :: JobOk(loc, users, jobs[i])
  }

  predicate ResultsOk(loc: Locale, results: map<nat, ResultRow>) {
    forall i | i in results :: HasContent(loc, results[i].payload) && IsPrintable(loc, results[i].payload)
  }

  predicate LettersOk(loc: Locale, letters: map<nat, LetterRow>) {
    && (forall i | i in letters :: KindOk(loc, letters[i].kind) && 1 <= letters[i].attempts <= 3)
    && (forall i, k | i in letters && k in letters && letters[i].job.Some? && letters[i].job == letters[k].job :: i == k)
  }

  lemma FixNameIsOk(loc: Locale, id: nat, name: string)
    requires IsPlain(loc)
    ensures HasContent(loc, FixName(loc, id, name)) && IsPrintable(loc, FixName(loc, id, name))
  {
    CleanIsPrintable(loc, name);
    DigitsArePlain(id);
    var text := "empresa " + Digits(id);
    assert text[0] == 'e' && 'e' in text;
    forall c | c in text ensures c in "desconhecido empresa user@invalido.local 0123456789" {
    }
  }

  lemma FixKindIsOk(loc: Locale, kind: string)
    requires IsPlain(loc)
    ensures KindOk(loc, FixKind(loc, kind))
  {
    CleanIsPrintable(loc, kind);
    var clean := Left(Clean(loc, kind), 100);
    forall c | c in clean ensures c !in loc.cntrl {
      assert c in Clean(loc, kind);
    }
    assert "desconhecido"[0] == 'd' && 'd' in "desconhecido";
    forall c | c in "desconhecido" ensures c in "desconhecido empresa user@invalido.local 0123456789" {
    }
  }

  /** What already meets the constraint and is trimmed is left as it is. */
  lemma FixKindKeepsGood(loc: Locale, kind: string)
    requires KindOk(loc, kind) && Trim(kind) == kind
    ensures FixKind(loc, kind) == kind
  {
    StripIsPrintable(loc, kind);
  }

  lemma FixKeyIsOk(loc: Locale, key: Option<string>)
    ensures FixKey(loc, key).Some? ==> IsKeyValid(loc, FixKey(loc, key).value)
    ensures key.Some? ==> (IsKeyValid(loc, key.value) <==> FixKey(loc, key) == key)
  {
  }

  lemma PlaceholderIsOk(loc: Locale, id: nat)
    requires IsPlain(loc)
    ensures HasContent(loc, PlaceholderEmail(id)) && IsPrintable(loc, PlaceholderEmail(id))
  {
    DigitsArePlain(id);
    var text := PlaceholderEmail(id);
    assert text[0] == 'u' && 'u' in text;
    forall c | c in text ensures c in "desconhecido empresa user@invalido.local 0123456789" {
      if c in Digits(id) { assert c in "0123456789"; }
    }
  }

  // ------------------------------------------------------- emails and their UNIQUE

  /** The constraint users.email carries since migration 0002. */
  predicate EmailsUnique(users: map<nat, UserRow>) {
    forall i, k | i in users && k in users && users[i].email == users[k].email :: i == k
  }

  function CleanEmails(loc: Locale, users: map<nat, UserRow>): map<nat, UserRow> {
    map i | i in users :: users[i].(email := Clean(loc, users[i].email))
  }

  function FillEmails(loc: Locale, users: map<nat, UserRow>): map<nat, UserRow> {
    map i | i in users :: if HasContent(loc, users[i].email) then users[i] else users[i].(email := PlaceholderEmail(i))
  }

  lemma OneMoreUpdated(current: map<nat, UserRow>, i: nat, row: UserRow)
    requires EmailsUnique(current) && i in current && forall k | k in current && k != i :: current[k].email != row.email
    ensures EmailsUnique(current[i := row])
  {
  }

  /** An UPDATE of users.email is checked row by row, in whatever order the rows come. It goes
      through iff the new emails are distinct, provided no new email is one that another row is
      still to lose. */
  method UpdateEmails(users: map<nat, UserRow>, target: map<nat, UserRow>) returns (ok: bool, current: map<nat, UserRow>)
    requires target.Keys == users.Keys && EmailsUnique(users)
    requires forall i, k | i in users && k in users && i != k && target[i].email == users[k].email :: target[k].email == users[k].email
    ensures ok <==> EmailsUnique(target)
    ensures ok ==> current == target
  {
    current := users;
    var rest := users.Keys;
    while rest != {}
      invariant rest <= users.Keys && current.Keys == users.Keys
      invariant forall i | i in users :: current[i] == if i in rest then users[i] else target[i]
      invariant EmailsUnique(current)
      decreases rest
    {
      var i :| i in rest;
      if exists k | k in current :: k != i && current[k].email == target[i].email {
        var k :| k in current && k != i && current[k].email == target[i].email;
        assert target[k].email == target[i].email;
        return false, users;
      }
      OneMoreUpdated(current, i, target[i]);
      current := current[i := target[i]];
      rest := rest - {i};
    }
    ok := true;
    assert current == target;
  }

  lemma CleanNeverMeetsLeaving(loc: Locale, users: map<nat, UserRow>, i: nat, k: nat)
    requires i in users && k in users && Clean(loc, users[i].email) == users[k].email
    ensures Clean(loc, users[k].email) == users[k].email
  {
    CleanIsPrintable(loc, users[i].email);
  }

  lemma FillNeverMeetsLeaving(loc: Locale, users: map<nat, UserRow>, i: nat, k: nat)
    requires IsPlain(loc) && EmailsUnique(users) && i in users && k in users && i != k
    requires FillEmails(loc, users)[i].email == users[k].email
    ensures FillEmails(loc, users)[k].email == users[k].email
  {
    PlaceholderIsOk(loc, i);
  }

  /** When the two rewrites of users.email go through: no two cleaned emails are equal, and no
      cleaned email is the placeholder of a user left without one. */
  predicate EmailsSurvive(loc: Locale, users: map<nat, UserRow>) {
    && EmailsUnique(CleanEmails(loc, users))
    && forall i, k | i in users && k in users && !HasContent(loc, Clean(loc, users[i].email)) ::
         Clean(loc, users[k].email) != PlaceholderEmail(i)
  }

  lemma PlaceholdersDiffer(i: nat, k: nat)
    requires PlaceholderEmail(i) == PlaceholderEmail(k)
    ensures i == k
  {
    var a, b := Digits(i), Digits(k);
    assert PlaceholderEmail(i)[4..|PlaceholderEmail(i)| - 15] == a;
    assert PlaceholderEmail(k)[4..|PlaceholderEmail(k)| - 15] == b;
    DigitsAreInjective(i, k);
  }

  lemma SurvivorsAreUnique(loc: Locale, users: map<nat, UserRow>)
    requires EmailsSurvive(loc, users)
    ensures EmailsUnique(FillEmails(loc, CleanEmails(loc, users)))
  {
    var clean := CleanEmails(loc, users);
    var filled := FillEmails(loc, clean);
    forall i, k | i in filled && k in filled && filled[i].email == filled[k].email ensures i == k {
      var a, b := HasContent(loc, clean[i].email), HasContent(loc, clean[k].email);
      if !a && !b {
        PlaceholdersDiffer(i, k);
      } else if a && b {
        assert clean[i].email == clean[k].email;
      }
    }
  }

  lemma CollisionIsVisible(loc: Locale, users: map<nat, UserRow>, i: nat, k: nat)
    requires IsPlain(loc) && i in users && k in users && !HasContent(loc, Clean(loc, users[i].email))
    requires Clean(loc, users[k].email) == PlaceholderEmail(i)
    ensures !EmailsUnique(FillEmails(loc, CleanEmails(loc, users)))
  {
    PlaceholderIsOk(loc, i);
    var filled := FillEmails(loc, CleanEmails(loc, users));
    assert filled[i].email == filled[k].email;
    assert i != k;
  }

  lemma FilledAreUnique(loc: Locale, users: map<nat, UserRow>)
    requires IsPlain(loc) && EmailsUnique(CleanEmails(loc, users))
    ensures EmailsSurvive(loc, users) <==> EmailsUnique(FillEmails(loc, CleanEmails(loc, users)))
  {
    if EmailsSurvive(loc, users) {
      SurvivorsAreUnique(loc, users);
    } else {
      var i, k :| i in users && k in users && !HasContent(loc, Clean(loc, users[i].email)) && Clean(loc, users[k].email) == PlaceholderEmail(i);
      CollisionIsVisible(loc, users, i, k);
    }
  }

  /** The migration's promise to clean any database up fails on this one: two emails that differ
      by a space. */
  lemma TrimmingCanCollide(loc: Locale)
    requires IsPlain(loc) && 'a' !in loc.cntrl && ' ' !in loc.cntrl
    ensures var users := map[1 := UserRow(1, "a", "user"), 2 := UserRow(1, " a", "user")];
            EmailsUnique(users) && !EmailsSurvive(loc, users)
  {
    var users := map[1 := UserRow(1, "a", "user"), 2 := UserRow(1, " a", "user")];
    StripIsPrintable(loc, "a");
    StripIsPrintable(loc, " a");
    assert " a"[1..] == "a" && TrimLeft(" a") == TrimLeft("a") == "a" && TrimRight("a") == "a";
    var clean := CleanEmails(loc, users);
    assert clean[1].email == clean[2].email;
    assert " a"[0] != "a"[0];
  }

  // ------------------------------------------------------------- dead letters

  /** (o.failed_at, o.id) > (d.failed_at, d.id) */
  predicate IsLater(letters: map<nat, LetterRow>, o: nat, d: nat)
    requires o in letters && d in letters
  {
    letters[o].failedAt > letters[d].failedAt || (letters[o].failedAt == letters[d].failedAt && o > d)
  }

  predicate IsDuplicate(letters: map<nat, LetterRow>, d: nat)
    requires d in letters
  {
    letters[d].job.Some? && exists o | o in letters :: letters[o].job == letters[d].job && IsLater(letters, o, d)
  }

  function Deduplicate(letters: map<nat, LetterRow>): map<nat, LetterRow> {
    map d | d in letters && !IsDuplicate(letters, d) :: letters[d]
  }

  lemma LatestExists(letters: map<nat, LetterRow>, ids: set<nat>)
    requires ids <= letters.Keys && ids != {}
    ensures exists m :: m in ids && forall d | d in ids && d != m :: IsLater(letters, m, d)
  {
    var d := Least(ids);
    if ids - {d} == {} {
      assert forall k | k in ids :: k == d || k in ids - {d};
    } else {
      LatestExists(letters, ids - {d});
      var m :| m in ids - {d} && forall k | k in ids - {d} && k != m :: IsLater(letters, m, k);
      var best := if IsLater(letters, m, d) then m else d;
      forall k | k in ids && k != best ensures IsLater(letters, best, k) {
        assert k == d || k in ids - {d};
      }
    }
  }

  /** d is the latest letter of its job. */
  predicate IsLatest(letters: map<nat, LetterRow>, d: nat)
    requires d in letters
  {
    forall o | o in letters && letters[o].job == letters[d].job && o != d :: IsLater(letters, d, o)
  }

  lemma LaterIsTotal(letters: map<nat, LetterRow>, d: nat, e: nat)
    requires d in letters && e in letters && d != e
    ensures IsLater(letters, d, e) <==> !IsLater(letters, e, d)
  {
  }

  lemma DuplicateIsNotLatest(letters: map<nat, LetterRow>, d: nat)
    requires d in letters && letters[d].job.Some?
    ensures IsDuplicate(letters, d) <==> !IsLatest(letters, d)
  {
    forall o | o in letters && o != d ensures IsLater(letters, d, o) <==> !IsLater(letters, o, d) {
      LaterIsTotal(letters, d, o);
    }
  }

  lemma LatestIsOnlyOne(letters: map<nat, LetterRow>, d: nat, e: nat)
    requires d in letters && e in letters && letters[d].job == letters[e].job && IsLatest(letters, d) && IsLatest(letters, e)
    ensures d == e
  {
    if d != e {
      LaterIsTotal(letters, d, e);
    }
  }

  /** The deduplication keeps, for each job that has letters, exactly its latest one, keeps every
      letter without a job, and changes none. */
  lemma DeduplicationIsExact(letters: map<nat, LetterRow>, d: nat)
    requires d in letters
    ensures d in Deduplicate(letters) <==> letters[d].job == None || IsLatest(letters, d)
    ensures d in Deduplicate(letters) ==> Deduplicate(letters)[d] == letters[d]
    ensures exists m :: m in Deduplicate(letters) && letters[m].job == letters[d].job
    ensures letters[d].job.Some? ==>
              forall m, k | m in Deduplicate(letters) && k in Deduplicate(letters) && letters[m].job == letters[k].job == letters[d].job :: m == k
  {
    if letters[d].job.Some? {
      DuplicateIsNotLatest(letters, d);
      var ids := set k | k in letters && letters[k].job == letters[d].job;
      assert d in ids;
      LatestExists(letters, ids);
      var m :| m in ids && forall k | k in ids && k != m :: IsLater(letters, m, k);
      DuplicateIsNotLatest(letters, m);
      assert m in Deduplicate(letters);
      forall a, b | a in Deduplicate(letters) && b in Deduplicate(letters) && letters[a].job == letters[b].job == letters[d].job ensures a == b {
        DuplicateIsNotLatest(letters, a);
        DuplicateIsNotLatest(letters, b);
        LatestIsOnlyOne(letters, a, b);
      }
    }
  }

  // ---------------------------------------------------------------- the migration

  function FixCompany(loc: Locale, id: nat, row: CompanyRow): CompanyRow {
    CompanyRow(FixName(loc, id, row.name), if row.maxConcurrentJobs < 1 then 1 else row.maxConcurrentJobs)
  }

  function FixJob(loc: Locale, users: map<nat, UserRow>, row: JobRow): JobRow {
    JobRow(row.company,
           if CreatorOk(users, row) then row.createdBy else None,
           FixKind(loc, row.kind),
           Clamp(row.attempts, 0, 3),
           FixKey(loc, row.key))
  }

  function FixLetter(loc: Locale, row: LetterRow): LetterRow {
    row.(kind := FixKind(loc, row.kind), attempts := Clamp(row.attempts, 1, 3))
  }

  function FixLetters(loc: Locale, letters: map<nat, LetterRow>): map<nat, LetterRow> {
    map d | d in letters :: FixLetter(loc, letters[d])
  }

  // What already meets the constraints stays, and what does not is mended no further than needed.

  predicate IsTrimmed(s: string) {
    Trim(s) == s
  }

  lemma FixNameIsExact(loc: Locale, id: nat, name: string)
    ensures HasContent(loc, name) && IsPrintable(loc, name) && IsTrimmed(name) ==> FixName(loc, id, name) == name
    ensures HasContent(loc, Clean(loc, name)) ==> FixName(loc, id, name) == Clean(loc, name)
    ensures !HasContent(loc, Clean(loc, name)) ==> |FixName(loc, id, name)| >= 8 && FixName(loc, id, name)[..8] == "empresa "
                                                   && Value(FixName(loc, id, name)[8..]) == id
  {
    StripIsPrintable(loc, name);
    DigitsAreDecimal(id);
    assert ("empresa " + Digits(id))[..8] == "empresa " && ("empresa " + Digits(id))[8..] == Digits(id);
  }

  /** A kind is cut to its first 100 characters, and replaced only if that leaves nothing. */
  lemma FixKindIsExact(loc: Locale, kind: string)
    ensures var clean := Clean(loc, kind);
            var first := if |clean| > 100 then clean[..100] else clean;
            FixKind(loc, kind) == if exists c | c in first :: c !in loc.space then first else "desconhecido"
  {
  }

  lemma FixCompanyIsExact(loc: Locale, id: nat, row: CompanyRow)
    ensures (HasContent(loc, row.name) && IsPrintable(loc, row.name) && IsTrimmed(row.name) && row.maxConcurrentJobs > 0) ==>
              FixCompany(loc, id, row) == row
    ensures row.maxConcurrentJobs <= 0 ==> FixCompany(loc, id, row).maxConcurrentJobs == 1
    ensures row.maxConcurrentJobs > 0 ==> FixCompany(loc, id, row).maxConcurrentJobs == row.maxConcurrentJobs
  {
    FixNameIsExact(loc, id, row.name);
  }

  /** A job keeps its company, its creator iff the creator is a user of that company, its attempts if
      they are from 0 to 3, and its key iff the new check accepts it. */
  lemma FixJobIsExact(loc: Locale, users: map<nat, UserRow>, row: JobRow)
    ensures JobOk(loc, users, row) && IsTrimmed(row.kind) ==> FixJob(loc, users, row) == row
    ensures var fixed := FixJob(loc, users, row);
            && fixed.company == row.company && fixed.kind == FixKind(loc, row.kind)
            && (row.createdBy.Some? ==>
                  if row.createdBy.value in users && users[row.createdBy.value].company == row.company
                  then fixed.createdBy == row.createdBy else fixed.createdBy == None)
            && (row.createdBy == None ==> fixed.createdBy == None)
            && (row.attempts < 0 ==> fixed.attempts == 0) && (row.attempts > 3 ==> fixed.attempts == 3)
            && (0 <= row.attempts <= 3 ==> fixed.attempts == row.attempts)
            && (row.key.Some? ==> fixed.key == if IsKeyValid(loc, row.key.value) then row.key else None)
            && (row.key == None ==> fixed.key == None)
  {
    if JobOk(loc, users, row) && IsTrimmed(row.kind) {
      FixKindKeepsGood(loc, row.kind);
    }
    FixKeyIsOk(loc, row.key);
  }

  lemma FixLetterIsExact(loc: Locale, row: LetterRow)
    ensures KindOk(loc, row.kind) && IsTrimmed(row.kind) && 1 <= row.attempts <= 3 ==> FixLetter(loc, row) == row
    ensures var fixed := FixLetter(loc, row);
            && fixed.job == row.job && fixed.failedAt == row.failedAt && fixed.kind == FixKind(loc, row.kind)
            && (row.attempts < 1 ==> fixed.attempts == 1) && (row.attempts > 3 ==> fixed.attempts == 3)
            && (1 <= row.attempts <= 3 ==> fixed.attempts == row.attempts)
  {
    if KindOk(loc, row.kind) && IsTrimmed(row.kind) {
      FixKindKeepsGood(loc, row.kind);
    }
  }

  // What each group of statements makes of its table.

  predicate CompaniesFixed(loc: Locale, before: map<nat, CompanyRow>, after: map<nat, CompanyRow>) {
    after.Keys == before.Keys && forall i | i in before :: after[i] == FixCompany(loc, i, before[i])
  }

  predicate UsersFixed(loc: Locale, before: map<nat, UserRow>, after: map<nat, UserRow>) {
    && after.Keys == before.Keys
    && forall i | i in before ::
         && after[i].company == before[i].company
         && after[i].role == (if before[i].role in {"user", "admin"} then before[i].role else "user")
         && after[i].email == (if HasContent(loc, Clean(loc, before[i].email)) then Clean(loc, before[i].email) else PlaceholderEmail(i))
  }

  predicate JobsFixed(loc: Locale, users: map<nat, UserRow>, before: map<nat, JobRow>, after: map<nat, JobRow>) {
    after.Keys == before.Keys && forall i | i in before :: after[i] == FixJob(loc, users, before[i])
  }

  ghost predicate ResultsFixed(loc: Locale, before: map<nat, ResultRow>, after: map<nat, ResultRow>) {
    && (forall i :: i in after <==> i in before && HasContent(loc, Strip(loc, before[i].payload)))
    && forall i | i in after :: after[i] == before[i].(payload := Strip(loc, before[i].payload))
  }

  predicate LettersFixed(loc: Locale, before: map<nat, LetterRow>, after: map<nat, LetterRow>) {
    after == Deduplicate(FixLetters(loc, before))
  }

  lemma FixedCompaniesAreOk(loc: Locale, before: map<nat, CompanyRow>, after: map<nat, CompanyRow>)
    requires IsPlain(loc) && CompaniesFixed(loc, before, after)
    ensures CompaniesOk(loc, after)
  {
    forall i | i in after ensures HasContent(loc, after[i].name) && IsPrintable(loc, after[i].name) && after[i].maxConcurrentJobs > 0 {
      FixNameIsOk(loc, i, before[i].name);
    }
  }

  lemma FixedUsersAreOk(loc: Locale, before: map<nat, UserRow>, after: map<nat, UserRow>)
    requires IsPlain(loc) && UsersFixed(loc, before, after)
    ensures UsersOk(loc, after)
  {
    forall i | i in after ensures HasContent(loc, after[i].email) && IsPrintable(loc, after[i].email) {
      CleanIsPrintable(loc, before[i].email);
      PlaceholderIsOk(loc, i);
    }
  }

  lemma FixedJobIsOk(loc: Locale, users: map<nat, UserRow>, row: JobRow, fixed: JobRow)
    requires fixed == FixJob(loc, users, row) && KindOk(loc, fixed.kind)
    ensures JobOk(loc, users, fixed)
  {
    FixKeyIsOk(loc, row.key);
  }

  lemma FixedJobsAreOk(loc: Locale, users: map<nat, UserRow>, before: map<nat, JobRow>, after: map<nat, JobRow>)
    requires IsPlain(loc) && JobsFixed(loc, users, before, after)
    ensures JobsOk(loc, users, after)
  {
    forall i | i in after ensures JobOk(loc, users, after[i]) {
      FixKindIsOk(loc, before[i].kind);
      FixedJobIsOk(loc, users, before[i], after[i]);
    }
  }

  lemma FixedResultsAreOk(loc: Locale, before: map<nat, ResultRow>, after: map<nat, ResultRow>)
    requires ResultsFixed(loc, before, after)
    ensures ResultsOk(loc, after)
  {
    forall i | i in after ensures HasContent(loc, after[i].payload) && IsPrintable(loc, after[i].payload) {
      StripIsPrintable(loc, before[i].payload);
    }
  }

  lemma FixedLettersAreSingle(loc: Locale, before: map<nat, LetterRow>, after: map<nat, LetterRow>, d: nat, e: nat)
    requires LettersFixed(loc, before, after)
    requires d in after && e in after && after[d].job.Some? && after[d].job == after[e].job
    ensures d == e
  {
    DeduplicationIsExact(FixLetters(loc, before), d);
  }

  lemma FixedLettersAreOk(loc: Locale, before: map<nat, LetterRow>, after: map<nat, LetterRow>)
    requires IsPlain(loc) && LettersFixed(loc, before, after)
    ensures LettersOk(loc, after)
  {
    var fixed := FixLetters(loc, before);
    forall d | d in after ensures KindOk(loc, after[d].kind) && 1 <= after[d].attempts <= 3 {
      assert after[d] == fixed[d];
      FixKindIsOk(loc, before[d].kind);
    }
    forall d, e | d in after && e in after && after[d].job.Some? && after[d].job == after[e].job ensures d == e {
      FixedLettersAreSingle(loc, before, after, d, e);
    }
  }

  // A database that has nothing to repair.

  lemma GoodCompaniesStay(loc: Locale, before: map<nat, CompanyRow>, after: map<nat, CompanyRow>)
    requires CompaniesOk(loc, before) && CompaniesFixed(loc, before, after) && forall i | i in before :: IsTrimmed(before[i].name)
    ensures after == before
  {
    forall i | i in before ensures after[i] == before[i] {
      FixCompanyIsExact(loc, i, before[i]);
    }
  }

  lemma GoodUsersStay(loc: Locale, before: map<nat, UserRow>, after: map<nat, UserRow>)
    requires UsersOk(loc, before) && UsersFixed(loc, before, after) && forall i | i in before :: IsTrimmed(before[i].email)
    ensures after == before
  {
    forall i | i in before ensures after[i] == before[i] {
      StripIsPrintable(loc, before[i].email);
    }
  }

  lemma GoodJobsStay(loc: Locale, users: map<nat, UserRow>, before: map<nat, JobRow>, after: map<nat, JobRow>)
    requires JobsOk(loc, users, before) && JobsFixed(loc, users, before, after) && forall i | i in before :: IsTrimmed(before[i].kind)
    ensures after == before
  {
    forall i | i in before ensures after[i] == before[i] {
      FixJobIsExact(loc, users, before[i]);
    }
  }

  lemma GoodResultsStay(loc: Locale, before: map<nat, ResultRow>, after: map<nat, ResultRow>)
    requires ResultsOk(loc, before) && ResultsFixed(loc, before, after)
    ensures after == before
  {
    forall i | i in before ensures Strip(loc, before[i].payload) == before[i].payload {
      StripIsPrintable(loc, before[i].payload);
    }
    assert after.Keys == before.Keys;
  }

  lemma GoodLettersStay(loc: Locale, before: map<nat, LetterRow>, after: map<nat, LetterRow>)
    requires LettersOk(loc, before) && LettersFixed(loc, before, after) && forall d | d in before :: IsTrimmed(before[d].kind)
    ensures after == before
  {
    forall d | d in before ensures FixLetter(loc, before[d]) == before[d] {
      FixLetterIsExact(loc, before[d]);
    }
    assert FixLetters(loc, before) == before;
    assert forall d | d in before :: !IsDuplicate(before, d);
  }

  lemma GoodEmailsSurvive(loc: Locale, users: map<nat, UserRow>)
    requires UsersOk(loc, users) && EmailsUnique(users) && forall i | i in users :: IsTrimmed(users[i].email)
    ensures EmailsSurvive(loc, users)
  {
    forall i | i in users ensures Clean(loc, users[i].email) == users[i].email {
      StripIsPrintable(loc, users[i].email);
    }
  }

  /** Everything the tables hold. */
  datatype Contents = Contents(
    companies: map<nat, CompanyRow>,
    users: map<nat, UserRow>,
    jobs: map<nat, JobRow>,
    results: map<nat, ResultRow>,
    letters: map<nat, LetterRow>)

  predicate MeetsConstraints(loc: Locale, t: Contents) {
    && CompaniesOk(loc, t.companies) && UsersOk(loc, t.users) && JobsOk(loc, t.users, t.jobs)
    && ResultsOk(loc, t.results) && LettersOk(loc, t.letters)
  }

  predicate NeedsNothing(loc: Locale, t: Contents) {
    && MeetsConstraints(loc, t) && EmailsUnique(t.users)
    && (forall i | i in t.companies :: IsTrimmed(t.companies[i].name))
    && (forall i | i in t.users :: IsTrimmed(t.users[i].email))
    && (forall i | i in t.jobs :: IsTrimmed(t.jobs[i].kind))
    && (forall i | i in t.letters :: IsTrimmed(t.letters[i].kind))
  }

  ghost predicate Repaired(loc: Locale, before: Contents, after: Contents) {
    && CompaniesFixed(loc, before.companies, after.companies)
    && UsersFixed(loc, before.users, after.users)
    && JobsFixed(loc, after.users, before.jobs, after.jobs)
    && ResultsFixed(loc, before.results, after.results)
    && LettersFixed(loc, before.letters, after.letters)
  }

  lemma RepairedIsOk(loc: Locale, before: Contents, after: Contents)
    requires IsPlain(loc) && Repaired(loc, before, after)
    ensures MeetsConstraints(loc, after)
  {
    FixedCompaniesAreOk(loc, before.companies, after.companies);
    FixedUsersAreOk(loc, before.users, after.users);
    FixedJobsAreOk(loc, after.users, before.jobs, after.jobs);
    FixedResultsAreOk(loc, before.results, after.results);
    FixedLettersAreOk(loc, before.letters, after.letters);
  }

  lemma NothingToRepair(loc: Locale, before: Contents, after: Contents)
    requires NeedsNothing(loc, before)
    ensures EmailsSurvive(loc, before.users)
    ensures Repaired(loc, before, after) ==> after == before
  {
    GoodEmailsSurvive(loc, before.users);
    if Repaired(loc, before, after) {
      GoodCompaniesStay(loc, before.companies, after.companies);
      GoodUsersStay(loc, before.users, after.users);
      GoodJobsStay(loc, after.users, before.jobs, after.jobs);
      GoodResultsStay(loc, before.results, after.results);
      GoodLettersStay(loc, before.letters, after.letters);
    }
  }

  class Tenants {
    var companies: map<nat, CompanyRow>
    var users: map<nat, UserRow>
    var jobs: map<nat, JobRow>
    var results: map<nat, ResultRow>
    var letters: map<nat, LetterRow>

    constructor (companies: map<nat, CompanyRow>, users: map<nat, UserRow>, jobs: map<nat, JobRow>,
                 results: map<nat, ResultRow>, letters: map<nat, LetterRow>)
      ensures this.companies == companies && this.users == users && this.jobs == jobs
      ensures this.results == results && this.letters == letters
    {
      this.companies, this.users, this.jobs, this.results, this.letters := companies, users, jobs, results, letters;
    }

    method SanitizeCompanies(loc: Locale)
      modifies this`companies
      ensures CompaniesFixed(loc, old(companies), companies)
    {
      companies := map i | i in companies :: companies[i].(name := Clean(loc, companies[i].name));
      companies := map i | i in companies ::
        if HasContent(loc, companies[i].name) then companies[i] else companies[i].(name := "empresa " + Digits(i));
      companies := map i | i in companies ::
        if companies[i].maxConcurrentJobs < 1 then companies[i].(maxConcurrentJobs := 1) else companies[i];
    }

    /** The two rewrites of users.email. False when the UNIQUE constraint stops one of them. */
    method SanitizeEmails(loc: Locale) returns (ok: bool)
      requires IsPlain(loc) && EmailsUnique(users)
      modifies this`users
      ensures ok <==> EmailsSurvive(loc, old(users))
      ensures users == if ok then FillEmails(loc, CleanEmails(loc, old(users))) else old(users)
      ensures EmailsUnique(users)
    {
      var clean := CleanEmails(loc, users);
      var filled := FillEmails(loc, clean);
      forall i, k | i in users && k in users && i != k && clean[i].email == users[k].email ensures clean[k].email == users[k].email {
        CleanNeverMeetsLeaving(loc, users, i, k);
      }
      var current;
      ok, current := UpdateEmails(users, clean);
      if ok {
        forall i, k | i in clean && k in clean && i != k && filled[i].email == clean[k].email ensures filled[k].email == clean[k].email {
          FillNeverMeetsLeaving(loc, clean, i, k);
        }
        FilledAreUnique(loc, users);
        ok, current := UpdateEmails(clean, filled);
        if ok {
          users := current;
        }
      }
    }

    method SanitizeRoles()
      modifies this`users
      ensures users.Keys == old(users).Keys
      ensures forall i | i in users ::
                users[i] == old(users)[i].(role := if old(users)[i].role in {"user", "admin"} then old(users)[i].role else "user")
    {
      users := map i | i in users :: if users[i].role in {"user", "admin"} then users[i] else users[i].(role := "user");
    }

    method SanitizeUsers(loc: Locale) returns (ok: bool)
      requires IsPlain(loc) && EmailsUnique(users)
      modifies this`users
      ensures ok <==> EmailsSurvive(loc, old(users))
      ensures ok ==> UsersFixed(loc, old(users), users) && EmailsUnique(users)
      ensures !ok ==> users == old(users)
    {
      ok := SanitizeEmails(loc);
      if ok {
        SanitizeRoles();
      }
    }

    method SanitizeJobs(loc: Locale)
      modifies this`jobs
      ensures JobsFixed(loc, users, old(jobs), jobs)
    {
      SanitizeKinds(loc);
      SanitizeCounts(loc);
      jobs := map i | i in jobs :: if CreatorOk(users, jobs[i]) then jobs[i] else jobs[i].(createdBy := None);
    }

    /** The two statements on jobs.kind. */
    method SanitizeKinds(loc: Locale)
      modifies this`jobs
      ensures jobs.Keys == old(jobs).Keys
      ensures forall i | i in jobs :: jobs[i] == old(jobs)[i].(kind := FixKind(loc, old(jobs)[i].kind))
    {
      jobs := map i | i in jobs :: jobs[i].(kind := Left(Clean(loc, jobs[i].kind), 100));
      jobs := map i | i in jobs :: if HasContent(loc, jobs[i].kind) then jobs[i] else jobs[i].(kind := "desconhecido");
    }

    /** The statements on jobs.attempts and jobs.idempotency_key. */
    method SanitizeCounts(loc: Locale)
      modifies this`jobs
      ensures jobs.Keys == old(jobs).Keys
      ensures forall i | i in jobs ::
                jobs[i] == old(jobs)[i].(attempts := Clamp(old(jobs)[i].attempts, 0, 3), key := FixKey(loc, old(jobs)[i].key))
    {
      jobs := map i | i in jobs :: if 0 <= jobs[i].attempts <= 3 then jobs[i] else jobs[i].(attempts := Clamp(jobs[i].attempts, 0, 3));
      jobs := map i | i in jobs :: if jobs[i].key.Some? && IsKeyDropped(loc, jobs[i].key.value) then jobs[i].(key := None) else jobs[i];
    }

    method SanitizeResults(loc: Locale)
      modifies this`results
      ensures ResultsFixed(loc, old(results), results)
    {
      results := map i | i in results :: results[i].(payload := Strip(loc, results[i].payload));
      results := map i | i in results && HasContent(loc, results[i].payload) :: results[i];
    }

    method SanitizeLetters(loc: Locale)
      modifies this`letters
      ensures LettersFixed(loc, old(letters), letters)
    {
      RewriteLetters(loc);
      letters := map d | d in letters && !IsDuplicate(letters, d) :: letters[d];
    }

    /** The three UPDATEs of the dead letters, before the DELETE. */
    method RewriteLetters(loc: Locale)
      modifies this`letters
      ensures letters == FixLetters(loc, old(letters))
    {
      RewriteLetterKinds(loc);
      letters := map d | d in letters :: if 1 <= letters[d].attempts <= 3 then letters[d] else letters[d].(attempts := Clamp(letters[d].attempts, 1, 3));
    }

    method RewriteLetterKinds(loc: Locale)
      modifies this`letters
      ensures letters.Keys == old(letters).Keys
      ensures forall d | d in letters :: letters[d] == old(letters)[d].(kind := FixKind(loc, old(letters)[d].kind))
    {
      letters := map d | d in letters :: letters[d].(kind := Left(Clean(loc, letters[d].kind), 100));
      letters := map d | d in letters :: if HasContent(loc, letters[d].kind) then letters[d] else letters[d].(kind := "desconhecido");
    }

    ghost function Stored(): Contents
      reads this
    {
      Contents(companies, users, jobs, results, letters)
    }

    /** The migration goes through exactly when the rewritten emails stay unique, and then every
        constraint it adds holds, whatever the tables held; otherwise it is rolled back. A database
        that needs nothing is left as it is. */
    method Migrate(loc: Locale) returns (ok: bool)
      requires IsPlain(loc) && EmailsUnique(users)
      modifies this
      ensures ok <==> EmailsSurvive(loc, old(users))
      ensures ok ==> MeetsConstraints(loc, Stored()) && EmailsUnique(users) && Repaired(loc, old(Stored()), Stored())
      ensures !ok ==> Stored() == old(Stored())
      ensures NeedsNothing(loc, old(Stored())) ==> ok && Stored() == old(Stored())
    {
      var before := companies;
      SanitizeCompanies(loc);
      ok := SanitizeUsers(loc);
      if !ok {
        companies := before;
      } else {
        SanitizeJobs(loc);
        SanitizeResults(loc);
        SanitizeLetters(loc);
        RepairedIsOk(loc, old(Stored()), Stored());
      }
      if NeedsNothing(loc, old(Stored())) {
        NothingToRepair(loc, old(Stored()), Stored());
      }
    }
  }
}
