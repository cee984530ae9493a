/** What a tenant can see and do through the API: reads, cancel and retry, and why none of it
    depends on, or reaches, another tenant's jobs. */
module Tenancy {
  import opened Tables
  import opened Lifecycle
  import opened Queue
  import opened Admission
  import opened Sequential
  import Safety

  datatype Detail = Detail(
    id: JobId,
    kind: string,
    status: Status,
    attempts: int,
    lastError: Option<string>,
    cancellation: Option<Event>,
    events: seq<Event>)

  datatype Summary = Summary(id: JobId, kind: string, status: Status, createdAt: Time, resultCount: nat)

  datatype Outcome = Accepted(status: Status, attempts: int) | NotFound | InvalidState(status: Status) | RetryLimit(attempts: int)

  /** Everything the tables hold about a company's jobs. */
  function View(s: State, c: CompanyId): map<JobId, Record> {
    map j | j in s.recs && s.recs[j].row.company == c :: s.recs[j]
  }

  // -------------------------------------------------------------------- reads

  /** Puts an event behind all those that did not happen later. */
  function InsertByTime(events: seq<Event>, e: Event): seq<Event> {
    if events == [] || Last(events).at <= e.at then events + [e]
    else InsertByTime(events[..|events| - 1], e) + [Last(events)]
  }

  /** ORDER BY occurred_at, id. */
  function ByTime(log: seq<Event>): seq<Event> {
    if log == [] then [] else InsertByTime(ByTime(log[..|log| - 1]), Last(log))
  }

  function OfCompany(log: seq<Event>, c: CompanyId): seq<Event> {
    if log == [] then []
    else OfCompany(log[..|log| - 1], c) + if Last(log).company == c then [Last(log)] else []
  }

  function FirstCancellation(events: seq<Event>): Option<Event> {
    if events == [] then None
    else if events[0].kind == EvCancelled then Some(events[0])
    else FirstCancellation(events[1..])
  }

  function GetJob(s: State, c: CompanyId, j: JobId): Option<Detail> {
    if j in s.recs && s.recs[j].row.company == c then
      var row := s.recs[j].row;
      var events := ByTime(OfCompany(s.recs[j].log, c));
      Some(Detail(j, row.kind, row.status, row.attempts, row.lastError, FirstCancellation(events), events))
    else None
  }

  function GetResult(s: State, c: CompanyId, j: JobId): Option<string> {
    if j in s.recs && s.recs[j].row.company == c then s.recs[j].result else None
  }

  function Matching(recs: map<JobId, Record>, c: CompanyId, status: Option<Status>): set<JobId> {
    set j | j in recs && recs[j].row.company == c && (status == None || recs[j].row.status == status.value)
  }

  /** created_at DESC, id DESC. */
  predicate IsNewer(recs: map<JobId, Record>, i: JobId, j: JobId)
    requires i in recs && j in recs
  {
    || recs[i].row.createdAt > recs[j].row.createdAt
    || (recs[i].row.createdAt == recs[j].row.createdAt && i > j)
  }

  predicate IsNewest(recs: map<JobId, Record>, ids: set<JobId>, j: JobId)
    requires ids <= recs.Keys
  {
    j in ids && forall i | i in ids && i != j :: IsNewer(recs, j, i)
  }

  lemma NewestExists(recs: map<JobId, Record>, ids: set<JobId>)
    requires ids <= recs.Keys && ids != {}
    ensures exists j :: IsNewest(recs, ids, j)
  {
    var j :| j in ids;
    if ids == {j} {
      assert IsNewest(recs, ids, j);
    } else {
      NewestExists(recs, ids - {j});
      var m :| IsNewest(recs, ids - {j}, m);
      assert forall i | i in ids :: i == j || i in ids - {j};
      assert IsNewest(recs, ids, if IsNewer(recs, j, m) then j else m);
    }
  }

  function Newest(recs: map<JobId, Record>, ids: set<JobId>): (j: JobId)
    requires ids <= recs.Keys && ids != {}
    ensures IsNewest(recs, ids, j)
  {
    NewestExists(recs, ids);
    var j :| IsNewest(recs, ids, j);
    j
  }

  function Ordered(recs: map<JobId, Record>, ids: set<JobId>): seq<JobId>
    requires ids <= recs.Keys
    decreases |ids|
  {
    if ids == {} then [] else var j := Newest(recs, ids); [j] + Ordered(recs, ids - {j})
  }

  function Page<T>(rows: seq<T>, limit: nat, offset: nat): seq<T> {
    if offset >= |rows| then [] else if offset + limit >= |rows| then rows[offset..] else rows[offset..offset + limit]
  }

  function Summarize(recs: map<JobId, Record>, ids: seq<JobId>): seq<Summary>
    requires forall j | j in ids :: j in recs
  {
    seq(|ids|, i requires 0 <= i < |ids| =>
      var rec := recs[ids[i]];
      Summary(ids[i], rec.row.kind, rec.row.status, rec.row.createdAt, if rec.result.Some? then 1 else 0))
  }

  /** The list before LIMIT and OFFSET. */
  function FullList(recs: map<JobId, Record>, c: CompanyId, status: Option<Status>): seq<Summary> {
    OrderedIsExact(recs, Matching(recs, c, status));
    Summarize(recs, Ordered(recs, Matching(recs, c, status)))
  }

  function ListJobs(s: State, c: CompanyId, limit: nat, offset: nat, status: Option<Status>): seq<Summary> {
    Page(FullList(s.recs, c, status), limit, offset)
  }

  function CountJobs(s: State, c: CompanyId, status: Option<Status>): nat {
    |Matching(s.recs, c, status)|
  }

  predicate NewestFirst(recs: map<JobId, Record>, xs: seq<JobId>) {
    forall i, k | 0 <= i < k < |xs| :: xs[i] in recs && xs[k] in recs && IsNewer(recs, xs[i], xs[k])
  }

  lemma PrependNewest(recs: map<JobId, Record>, x: JobId, rest: seq<JobId>)
    requires NewestFirst(recs, rest) && x in recs && forall y | y in rest :: y in recs && IsNewer(recs, x, y)
    ensures NewestFirst(recs, [x] + rest)
  {
    forall k | 0 <= k < |rest| ensures rest[k] in recs && IsNewer(recs, x, rest[k]) {
      assert rest[k] in rest;
    }
  }

  lemma {:induction false} OrderedIsExact(recs: map<JobId, Record>, ids: set<JobId>)
    requires ids <= recs.Keys
    ensures var xs := Ordered(recs, ids);
            && |xs| == |ids|
            && (forall j :: j in xs <==> j in ids)
            && NewestFirst(recs, xs)
    decreases |ids|
  {
    if ids != {} {
      var j := Newest(recs, ids);
      OrderedIsExact(recs, ids - {j});
      PrependNewest(recs, j, Ordered(recs, ids - {j}));
      assert ids == {j} + (ids - {j});
    }
  }

  /** What a client reads that asks for page after page until it has as many as the total says. */
  function Pages<T>(fetch: nat -> seq<T>, total: nat, limit: nat, offset: nat): seq<T>
    requires limit > 0
    decreases total - offset
  {
    if offset >= total then [] else fetch(offset) + Pages(fetch, total, limit, offset + limit)
  }

  lemma {:induction false} PagesCoverRows<T>(fetch: nat -> seq<T>, rows: seq<T>, limit: nat, offset: nat)
    requires limit > 0 && offset <= |rows| && forall o :: fetch(o) == Page(rows, limit, o)
    ensures Pages(fetch, |rows|, limit, offset) == rows[offset..]
    decreases |rows| - offset
  {
    if offset + limit < |rows| {
      PagesCoverRows(fetch, rows, limit, offset + limit);
      assert rows[offset..] == rows[offset..offset + limit] + rows[offset + limit..];
    }
  }

  function JobsPage(s: State, c: CompanyId, status: Option<Status>, limit: nat): nat -> seq<Summary> {
    (offset: nat) => ListJobs(s, c, limit, offset, status)
  }

  /** A line of the listing is about a matching job of the company, and true of it. */
  predicate IsLineOf(s: State, c: CompanyId, status: Option<Status>, line: Summary) {
    && line.id in s.recs
    && var rec := s.recs[line.id];
       && rec.row.company == c && (status == None || status == Some(rec.row.status))
       && line.kind == rec.row.kind && line.status == rec.row.status && line.createdAt == rec.row.createdAt
       && line.resultCount == if rec.result.Some? then 1 else 0
  }

  /** Every job of the list has its line, and the lines say what the rows say. */
  lemma FullListIsExact(s: State, c: CompanyId, status: Option<Status>)
    ensures var all := FullList(s.recs, c, status);
            && |all| == CountJobs(s, c, status)
            && (forall j | j in Matching(s.recs, c, status) :: exists i :: 0 <= i < |all| && all[i].id == j)
            && (forall i | 0 <= i < |all| :: IsLineOf(s, c, status, all[i]))
  {
    var ids := Matching(s.recs, c, status);
    OrderedIsExact(s.recs, ids);
    var xs, all := Ordered(s.recs, ids), FullList(s.recs, c, status);
    forall j | j in ids ensures exists i :: 0 <= i < |all| && all[i].id == j {
      assert j in xs;
      var i :| 0 <= i < |xs| && xs[i] == j;
      assert all[i].id == j;
    }
    forall i | 0 <= i < |all| ensures IsLineOf(s, c, status, all[i]) {
      assert all[i].id == xs[i] && xs[i] in xs;
    }
  }

  /** Newest first. */
  lemma FullListIsOrdered(s: State, c: CompanyId, status: Option<Status>, i: nat, k: nat)
    requires i < k < |FullList(s.recs, c, status)|
    ensures var all := FullList(s.recs, c, status);
            all[i].createdAt > all[k].createdAt || (all[i].createdAt == all[k].createdAt && all[i].id > all[k].id)
  {
    OrderedIsExact(s.recs, Matching(s.recs, c, status));
    var xs := Ordered(s.recs, Matching(s.recs, c, status));
    assert IsNewer(s.recs, xs[i], xs[k]);
  }

  /** Reading page after page of one snapshot yields each of the company's matching jobs once,
      newest first, and as many as X-Total-Count says. */
  lemma PagesListEachJobOnce(s: State, c: CompanyId, status: Option<Status>, limit: nat)
    requires limit > 0
    ensures var all := Pages(JobsPage(s, c, status, limit), CountJobs(s, c, status), limit, 0);
            && |all| == CountJobs(s, c, status)
            && (forall j | j in s.recs && s.recs[j].row.company == c && (status == None || status == Some(s.recs[j].row.status)) ::
                  exists i :: 0 <= i < |all| && all[i].id == j)
            && (forall i | 0 <= i < |all| :: IsLineOf(s, c, status, all[i]))
            && (forall i, k | 0 <= i < k < |all| ::
                  all[i].createdAt > all[k].createdAt || (all[i].createdAt == all[k].createdAt && all[i].id > all[k].id))
  {
    FullListIsExact(s, c, status);
    PagesCoverRows(JobsPage(s, c, status, limit), FullList(s.recs, c, status), limit, 0);
    var all := FullList(s.recs, c, status);
    assert all[0..] == all;
    forall j | j in s.recs && s.recs[j].row.company == c && (status == None || status == Some(s.recs[j].row.status))
      ensures j in Matching(s.recs, c, status)
    {
    }
    forall i, k | 0 <= i < k < |all|
      ensures all[i].createdAt > all[k].createdAt || (all[i].createdAt == all[k].createdAt && all[i].id > all[k].id)
    {
      FullListIsOrdered(s, c, status, i, k);
    }
  }

  // -------------------------------------------------------------- cancel and retry

  /** The response of a cancel whose second read sees the same snapshot as its UPDATE. */
  function CancelOutcome(s: State, c: CompanyId, j: JobId): Outcome {
    if CanCancel(s, c, j) then Accepted(Cancelled, s.recs[j].row.attempts)
    else
      match GetJob(s, c, j)
      case None => NotFound
      case Some(job) => InvalidState(job.status)
  }

  function RetryOutcome(s: State, c: CompanyId, j: JobId): Outcome {
    if CanRetry(s, c, j) then Accepted(Queued, s.recs[j].row.attempts)
    else
      match GetJob(s, c, j)
      case None => NotFound
      case Some(job) => if job.status == Failed then RetryLimit(job.attempts) else InvalidState(job.status)
  }

  /** Each error class has exactly one cause. */
  lemma ErrorsAreExact(s: State, c: CompanyId, j: JobId)
    ensures (CancelOutcome(s, c, j) == NotFound <==> j !in View(s, c)) && (RetryOutcome(s, c, j) == NotFound <==> j !in View(s, c))
    ensures j in View(s, c) ==>
              var row := s.recs[j].row;
              && (CancelOutcome(s, c, j) == Accepted(Cancelled, row.attempts) <==> row.status == Queued || row.status == Running)
              && (CancelOutcome(s, c, j) == InvalidState(row.status) <==> row.status in {Done, Failed, Cancelled})
              && (RetryOutcome(s, c, j) == Accepted(Queued, row.attempts) <==> row.status == Failed && row.attempts < 3)
              && (RetryOutcome(s, c, j) == RetryLimit(row.attempts) <==> row.status == Failed && row.attempts >= 3)
              && (RetryOutcome(s, c, j) == InvalidState(row.status) <==> row.status != Failed)
  {
  }

  /** Cancelling or retrying twice is refused the second time, whatever happened first. */
  lemma SecondCallIsRefused(s: State, c: CompanyId, j: JobId, actor: string, now: Time)
    ensures CanCancel(s, c, j) ==> CancelOutcome(DoCancelJob(s, c, j, actor, now), c, j) == InvalidState(Cancelled)
    ensures CanRetry(s, c, j) ==> RetryOutcome(DoRetryJob(s, c, j, actor, now), c, j) == InvalidState(Queued)
  {
  }

  // --------------------------------------------------------------- noninterference

  predicate LooksSame(s: State, t: State, c: CompanyId) {
    View(s, c) == View(t, c)
  }

  lemma SameViewSameRecord(s: State, t: State, c: CompanyId, j: JobId)
    requires LooksSame(s, t, c)
    ensures j in View(s, c) <==> (j in s.recs && s.recs[j].row.company == c)
    ensures j in View(s, c) <==> (j in t.recs && t.recs[j].row.company == c)
    ensures j in View(s, c) ==> s.recs[j] == t.recs[j]
  {
    assert j in View(s, c) ==> View(s, c)[j] == s.recs[j] && View(t, c)[j] == t.recs[j];
  }

  lemma SameViewSameMatching(s: State, t: State, c: CompanyId, status: Option<Status>)
    requires LooksSame(s, t, c)
    ensures Matching(s.recs, c, status) == Matching(t.recs, c, status)
  {
    forall j ensures j in Matching(s.recs, c, status) <==> j in Matching(t.recs, c, status) {
      SameViewSameRecord(s, t, c, j);
    }
  }

  lemma {:induction false} SameRecordsSameOrder(a: map<JobId, Record>, b: map<JobId, Record>, ids: set<JobId>)
    requires ids <= a.Keys && ids <= b.Keys && forall j | j in ids :: a[j] == b[j]
    ensures Ordered(a, ids) == Ordered(b, ids)
    decreases |ids|
  {
    if ids != {} {
      var j := Newest(a, ids);
      assert IsNewest(b, ids, j) && j == Newest(b, ids);
      SameRecordsSameOrder(a, b, ids - {j});
    }
  }

  /** Two databases that hold the same about a company answer all its reads alike, whatever
      they hold about the others. */
  lemma ReadsSeeOwnTenantOnly(s: State, t: State, c: CompanyId, j: JobId, limit: nat, offset: nat, status: Option<Status>)
    requires LooksSame(s, t, c)
    ensures GetJob(s, c, j) == GetJob(t, c, j) && GetResult(s, c, j) == GetResult(t, c, j)
    ensures ListJobs(s, c, limit, offset, status) == ListJobs(t, c, limit, offset, status)
    ensures CountJobs(s, c, status) == CountJobs(t, c, status)
  {
    SameViewSameRecord(s, t, c, j);
    SameViewSameMatching(s, t, c, status);
    var ids := Matching(s.recs, c, status);
    forall i | i in ids ensures i in t.recs && s.recs[i] == t.recs[i] {
      SameViewSameRecord(s, t, c, i);
    }
    SameRecordsSameOrder(s.recs, t.recs, ids);
    OrderedIsExact(s.recs, ids);
    assert FullList(s.recs, c, status) == FullList(t.recs, c, status);
  }

  lemma OutcomesSeeOwnTenantOnly(s: State, t: State, c: CompanyId, j: JobId)
    requires LooksSame(s, t, c)
    ensures CancelOutcome(s, c, j) == CancelOutcome(t, c, j) && RetryOutcome(s, c, j) == RetryOutcome(t, c, j)
  {
    SameViewSameRecord(s, t, c, j);
  }

  lemma OtherRowUnseen(s: State, s': State, c: CompanyId)
    requires s'.recs.Keys == s.recs.Keys
    requires forall j | j in s.recs && s'.recs[j] != s.recs[j] :: s.recs[j].row.company != c && s'.recs[j].row.company != c
    ensures LooksSame(s, s', c)
  {
  }

  lemma CancelStaysInTenant(s: State, t: State, c: CompanyId, j: JobId, actor: string, now: Time)
    requires LooksSame(s, t, c)
    ensures LooksSame(DoCancelJob(s, c, j, actor, now), DoCancelJob(t, c, j, actor, now), c)
  {
    SameViewSameRecord(s, t, c, j);
    SameViewAfter(s, t, DoCancelJob(s, c, j, actor, now), DoCancelJob(t, c, j, actor, now), c, j);
  }

  lemma RetryStaysInTenant(s: State, t: State, c: CompanyId, j: JobId, actor: string, now: Time)
    requires LooksSame(s, t, c)
    ensures LooksSame(DoRetryJob(s, c, j, actor, now), DoRetryJob(t, c, j, actor, now), c)
  {
    SameViewSameRecord(s, t, c, j);
    SameViewAfter(s, t, DoRetryJob(s, c, j, actor, now), DoRetryJob(t, c, j, actor, now), c, j);
  }

  lemma CancelUnseen(s: State, c: CompanyId, d: CompanyId, j: JobId, actor: string, now: Time)
    requires d != c
    ensures LooksSame(s, DoCancelJob(s, c, j, actor, now), d)
  {
    OtherRowUnseen(s, DoCancelJob(s, c, j, actor, now), d);
  }

  lemma RetryUnseen(s: State, c: CompanyId, d: CompanyId, j: JobId, actor: string, now: Time)
    requires d != c
    ensures LooksSame(s, DoRetryJob(s, c, j, actor, now), d)
  {
    OtherRowUnseen(s, DoRetryJob(s, c, j, actor, now), d);
  }

  /** Cancel and retry answer alike too, leave the two databases alike to the company, and leave
      every other company's jobs exactly as they were. */
  lemma WritesStayInTenant(s: State, t: State, c: CompanyId, d: CompanyId, j: JobId, actor: string, now: Time)
    requires LooksSame(s, t, c) && d != c
    ensures CancelOutcome(s, c, j) == CancelOutcome(t, c, j) && RetryOutcome(s, c, j) == RetryOutcome(t, c, j)
    ensures LooksSame(DoCancelJob(s, c, j, actor, now), DoCancelJob(t, c, j, actor, now), c)
    ensures LooksSame(DoRetryJob(s, c, j, actor, now), DoRetryJob(t, c, j, actor, now), c)
    ensures View(DoCancelJob(s, c, j, actor, now), d) == View(s, d) && View(DoRetryJob(s, c, j, actor, now), d) == View(s, d)
  {
    OutcomesSeeOwnTenantOnly(s, t, c, j);
    CancelStaysInTenant(s, t, c, j, actor, now);
    RetryStaysInTenant(s, t, c, j, actor, now);
    CancelUnseen(s, c, d, j, actor, now);
    RetryUnseen(s, c, d, j, actor, now);
  }

  lemma SameViewAfter(s: State, t: State, s': State, t': State, c: CompanyId, j: JobId)
    requires LooksSame(s, t, c)
    requires || (s'.recs == s.recs && t'.recs == t.recs)
             || (j in s.recs && j in t.recs && s.recs[j].row.company == c
                 && j in s'.recs && s'.recs == s.recs[j := s'.recs[j]] && t'.recs == t.recs[j := s'.recs[j]])
    ensures LooksSame(s', t', c)
  {
    forall i ensures i in View(s', c) <==> i in View(t', c)
             ensures i in View(s', c) ==> View(s', c)[i] == View(t', c)[i]
    {
      SameViewSameRecord(s, t, c, i);
    }
  }

  /** The same limit for c, or an unknown company in both. */
  predicate SameOwnRow(s: State, t: State, c: CompanyId) {
    && (c in s.companies <==> c in t.companies)
    && (c in s.companies ==> s.companies[c].maxConcurrentJobs == t.companies[c].maxConcurrentJobs)
  }

  /** Equal answers, but for the number of a new job. */
  predicate SameAnswer(s: State, t: State, q: Request) {
    Verdict(s, q) == Verdict(t, q) || (Verdict(s, q) == Created(s.nextId) && Verdict(t, q) == Created(t.nextId))
  }

  /** Equal views, but for a new job that is number i in one and number k in the other. */
  predicate SameButNumber(a: map<JobId, Record>, b: map<JobId, Record>, i: JobId, k: JobId) {
    i in a && k in b && a[i] == b[k] && a - {i} == b - {k}
  }

  lemma SameViewSameSets(s: State, t: State, c: CompanyId, key: string)
    requires LooksSame(s, t, c)
    ensures KeyedIds(s.recs, c, key) == KeyedIds(t.recs, c, key) && ActiveIds(s.recs, c) == ActiveIds(t.recs, c)
  {
    forall i ensures i in KeyedIds(s.recs, c, key) <==> i in KeyedIds(t.recs, c, key)
             ensures i in ActiveIds(s.recs, c) <==> i in ActiveIds(t.recs, c)
    {
      SameViewSameRecord(s, t, c, i);
    }
  }

  lemma SameViewSameReplay(s: State, t: State, c: CompanyId, key: string, kind: string)
    requires LooksSame(s, t, c) && FindByKey(s.recs, c, key).Some?
    ensures FindByKey(t.recs, c, key) == FindByKey(s.recs, c, key)
    ensures ReplayOf(t.recs, FindByKey(t.recs, c, key).value, kind) == ReplayOf(s.recs, FindByKey(s.recs, c, key).value, kind)
  {
    SameViewSameSets(s, t, c, key);
    SameViewSameRecord(s, t, c, FindByKey(s.recs, c, key).value);
  }

  lemma VerdictSeesOwnTenantOnly(s: State, t: State, q: Request)
    requires LooksSame(s, t, q.company) && SameOwnRow(s, t, q.company)
    ensures SameAnswer(s, t, q)
  {
    SameViewSameSets(s, t, q.company, q.key);
    if FindByKey(s.recs, q.company, q.key).Some? {
      SameViewSameReplay(s, t, q.company, q.key, q.kind);
    }
  }

  lemma NewJobInView(s: State, s': State, id: JobId, rec: Record, c: CompanyId)
    requires id !in s.recs && s'.recs == s.recs[id := rec]
    ensures rec.row.company == c ==> View(s', c) == View(s, c)[id := rec]
    ensures rec.row.company != c ==> View(s', c) == View(s, c)
  {
  }

  lemma NewJobsLookSame(s: State, s': State, i: JobId, t: State, t': State, k: JobId, rec: Record)
    requires LooksSame(s, t, rec.row.company)
    requires i !in s.recs && s'.recs == s.recs[i := rec] && k !in t.recs && t'.recs == t.recs[k := rec]
    ensures SameButNumber(View(s', rec.row.company), View(t', rec.row.company), i, k)
  {
    var c := rec.row.company;
    NewJobInView(s, s', i, rec, c);
    NewJobInView(t, t', k, rec, c);
    assert View(s', c) - {i} == View(s, c) && View(t', c) - {k} == View(t, c);
  }

  /** The whole of POST /jobs, with nothing beside it: two databases that hold the same about the
      company, and may differ in everything about the others, give the same answer and look the
      same to it afterwards, up to the number of the new job; nobody else sees a difference. */
  lemma PostStaysInTenant(s: State, t: State, r: RequestId, q: Request, now: Time, d: CompanyId)
    requires LooksSame(s, t, q.company) && SameOwnRow(s, t, q.company) && d != q.company
    requires s.nextId !in s.recs && t.nextId !in t.recs
    ensures SameAnswer(s, t, q)
    ensures var s', t', c := Posted(s, r, q, now), Posted(t, r, q, now), q.company;
            && (if Verdict(s, q).Created? then SameButNumber(View(s', c), View(t', c), s.nextId, t.nextId) else LooksSame(s', t', c))
            && View(s', d) == View(s, d)
  {
    VerdictSeesOwnTenantOnly(s, t, q);
    if Verdict(s, q).Created? {
      var rec := NewRecord(NewRow(q.company, q.kind, q.key, now), q.actor);
      NewJobInView(s, Posted(s, r, q, now), s.nextId, rec, d);
      NewJobsLookSame(s, Posted(s, r, q, now), s.nextId, t, Posted(t, r, q, now), t.nextId, rec);
    }
  }

  // ------------------------------------------------ the same, statement by statement

  /** The same stage of a request, but for the number of its job. */
  predicate SameStage(a: Stage, b: Stage) {
    || a == b
    || (a.Inserted? && b.Inserted? && a.row == b.row)
    || (a.Replied? && b.Replied? && a.response.Created? && b.response.Created?)
  }

  /** Request r has come as far in both databases, which hold the same about its company. */
  predicate AlikeTo(s: State, t: State, r: RequestId) {
    && r in s.requests && r in t.requests
    && var q, p := s.requests[r], t.requests[r];
       && p == q.(stage := p.stage) && SameStage(q.stage, p.stage)
       && LooksSame(s, t, q.company) && SameOwnRow(s, t, q.company)
       && (q.company in s.locks <==> q.company in t.locks)
  }

  /** The same effect, but for the number of a job. */
  predicate SameEffect(e: Effect, f: Effect) {
    || e == f
    || (e.DrawId? && f.DrawId? && SameStage(e.stage, f.stage))
    || (e.Publish? && f.Publish? && e.row == f.row)
  }

  lemma LookupsAlike(s: State, t: State, q: Request, p: Request, otherwise: Effect)
    requires LooksSame(s, t, q.company) && p == q.(stage := p.stage)
    ensures LookupOr(s, q, otherwise) == LookupOr(t, p, otherwise)
  {
    SameViewSameSets(s, t, q.company, q.key);
    if FindByKey(s.recs, q.company, q.key).Some? {
      SameViewSameReplay(s, t, q.company, q.key, q.kind);
    }
  }

  lemma LookingUpAlike(s: State, t: State, r: RequestId, step: CreateStep)
    requires AlikeTo(s, t, r) && (step.Lookup? || step.Relookup? || step.ResolveConflict?)
    ensures SameEffect(Decide(s, s.requests[r], step), Decide(t, t.requests[r], step))
  {
    var q, p := s.requests[r], t.requests[r];
    LookupsAlike(s, t, q, p, Move(WantsLock));
    LookupsAlike(s, t, q, p, Answer(Aborted));
    if q.stage.Locked? {
      LookupsAlike(s, t, q, p, Move(Checked(q.stage.limit)));
    }
  }

  lemma OtherEffectsAlike(s: State, t: State, r: RequestId, step: CreateStep)
    requires IdsFresh(s) && IdsFresh(t) && AlikeTo(s, t, r)
    requires step.Begin? || step.LockCompany? || step.CountActive? || step.Commit? || step.Abort?
             || (step.Insert? && !s.requests[r].stage.Counted?)
    ensures SameEffect(Decide(s, s.requests[r], step), Decide(t, t.requests[r], step))
  {
    SameViewSameSets(s, t, s.requests[r].company, s.requests[r].key);
  }

  lemma EffectsAlike(s: State, t: State, r: RequestId, step: CreateStep)
    requires Admitted(s) && Admitted(t) && AlikeTo(s, t, r)
    ensures SameEffect(Decide(s, s.requests[r], step), Decide(t, t.requests[r], step))
  {
    if step.Lookup? || step.Relookup? || step.ResolveConflict? {
      LookingUpAlike(s, t, r, step);
    } else if step.Insert? && s.requests[r].stage.Counted? {
      InsertIsAlone(s, r, step.now);
      InsertIsAlone(t, r, step.now);
    } else {
      OtherEffectsAlike(s, t, r, step);
    }
  }

  lemma StageAfter(s: State, r: RequestId, step: CreateStep)
    requires r in s.requests && !step.Begin?
    ensures r in DoCreate(s, r, step).requests
    ensures DoCreate(s, r, step).requests[r].stage
         == match Decide(s, s.requests[r], step)
            case Stay => s.requests[r].stage
            case Move(stage) => stage
            case TakeLock(limit) => Locked(limit)
            case DrawId(stage) => stage
            case Answer(response) => Replied(response)
            case Publish(id, _) => Replied(Created(id))
  {
  }

  lemma StagesAlike(s: State, t: State, r: RequestId, step: CreateStep)
    requires Admitted(s) && Admitted(t) && AlikeTo(s, t, r)
    ensures r in DoCreate(s, r, step).requests && r in DoCreate(t, r, step).requests
    ensures SameStage(DoCreate(s, r, step).requests[r].stage, DoCreate(t, r, step).requests[r].stage)
  {
    if !step.Begin? {
      EffectsAlike(s, t, r, step);
      StageAfter(s, r, step);
      StageAfter(t, r, step);
    }
  }

  lemma CreateUnseen(s: State, r: RequestId, d: CompanyId, step: CreateStep)
    requires Admitted(s) && r in s.requests && d != s.requests[r].company
    ensures View(DoCreate(s, r, step), d) == View(s, d)
  {
    Safety.CreateFollows(s, r, step);
    if Safety.Publishes(s, r, step) {
      assert Safety.PendingRowNew(s.requests[r]);
      NewJobInView(s, DoCreate(s, r, step), s.requests[r].stage.id, NewRecord(s.requests[r].stage.row, s.requests[r].actor), d);
    }
  }

  lemma CommitsAlike(s: State, t: State, r: RequestId, step: CreateStep)
    requires Admitted(s) && Admitted(t) && AlikeTo(s, t, r) && Safety.Publishes(s, r, step)
    ensures var s', t', q, p := DoCreate(s, r, step), DoCreate(t, r, step), s.requests[r], t.requests[r];
            && q.stage.Inserted? && p.stage.Inserted? && r in s'.requests && r in t'.requests
            && s'.requests[r].stage == Replied(Created(q.stage.id)) && t'.requests[r].stage == Replied(Created(p.stage.id))
            && SameButNumber(View(s', q.company), View(t', q.company), q.stage.id, p.stage.id)
            && s'.recs != s.recs
  {
    var q, p := s.requests[r], t.requests[r];
    Safety.CreateFollows(s, r, step);
    Safety.CreateFollows(t, r, step);
    StageAfter(s, r, step);
    StageAfter(t, r, step);
    assert Safety.PendingRowNew(q) && Safety.PendingRowNew(p);
    NewJobsLookSame(s, DoCreate(s, r, step), q.stage.id, t, DoCreate(t, r, step), p.stage.id, NewRecord(q.stage.row, q.actor));
  }

  /** POST /jobs statement by statement, in two databases that hold the same about the company and
      may differ in everything about the others: each statement brings the request to the same
      stage and, at the end, to the same answer, and leaves the same view, up to the number of the
      new job; it shows up in no other company's view. */
  lemma CreatesStayInTenant(s: State, t: State, r: RequestId, d: CompanyId, step: CreateStep)
    requires Admitted(s) && Admitted(t) && AlikeTo(s, t, r) && d != s.requests[r].company
    ensures var s', t', q := DoCreate(s, r, step), DoCreate(t, r, step), s.requests[r];
            && r in s'.requests && r in t'.requests && SameStage(s'.requests[r].stage, t'.requests[r].stage)
            && (if s'.recs != s.recs
                then q.stage.Inserted? && t.requests[r].stage.Inserted?
                     && s'.requests[r].stage == Replied(Created(q.stage.id))
                     && t'.requests[r].stage == Replied(Created(t.requests[r].stage.id))
                     && SameButNumber(View(s', q.company), View(t', q.company), q.stage.id, t.requests[r].stage.id)
                else LooksSame(s', t', q.company))
            && View(s', d) == View(s, d) && View(t', d) == View(t, d)
  {
    StagesAlike(s, t, r, step);
    CreateUnseen(s, r, d, step);
    CreateUnseen(t, r, d, step);
    if Safety.Publishes(s, r, step) {
      CommitsAlike(s, t, r, step);
    } else {
      Safety.CreateFollows(s, r, step);
      Safety.CreateFollows(t, r, step);
    }
  }

  // ------------------------------------------------------------ the others at work

  /** A transaction that works for tenants other than c: a request of theirs, a recovery of their
      jobs, or a worker's on a job of theirs. */
  predicate OfOthers(s: State, step: Step, c: CompanyId) {
    match step
    case RecoverStale(now, lease) => forall j | j in s.recs && IsStale(s.recs[j].row, now, lease) :: s.recs[j].row.company != c
    case Work(w, work) => WorksForOthers(s, w, work, c)
    case CancelJob(d, _, _, _) => d != c
    case RetryJob(d, _, _, _) => d != c
    case Create(r, create) => if create.Begin? then create.company != c else r in s.requests ==> s.requests[r].company != c
  }

  predicate WorksForOthers(s: State, w: WorkerId, work: WorkerStep, c: CompanyId) {
    match work
    case StartWorker => true
    case Crash => true
    case ClaimNext(now, skip) =>
      IsIdle(s, w) && EligibleIds(s.recs, now, skip) != {} ==> s.recs[Least(EligibleIds(s.recs, now, skip))].row.company != c
    case _ => IsHolding(s, w) && s.workers[w].claim.job in s.recs ==> s.recs[s.workers[w].claim.job].row.company != c
  }

  /** Every step of the run works for others. */
  predicate OnlyOthers(s: State, steps: seq<Step>, c: CompanyId)
    decreases |steps|
  {
    steps != [] ==> OnlyOthers(s, steps[..|steps| - 1], c) && OfOthers(Run(s, steps[..|steps| - 1]), Last(steps), c)
  }

  lemma OtherWorkUnseen(s: State, w: WorkerId, work: WorkerStep, c: CompanyId)
    requires WorksForOthers(s, w, work, c)
    ensures LooksSame(s, DoWork(s, w, work), c)
  {
    var s' := DoWork(s, w, work);
    Safety.WorkLeavesRequests(s, w, work);
    Safety.WorkFollows(s, w, work);
    forall j | j in s.recs && s'.recs[j] != s.recs[j] ensures s.recs[j].row.company != c {
    }
    forall j | j in s.recs ensures s'.recs[j].row.company == s.recs[j].row.company {
      assert Safety.Edge(s.recs[j], s'.recs[j]);
    }
    OtherRowUnseen(s, s', c);
  }

  lemma OtherStepUnseen(s: State, step: Step, c: CompanyId)
    requires Admitted(s) && OfOthers(s, step, c)
    ensures LooksSame(s, Do(s, step), c)
  {
    match step
    case RecoverStale(now, lease) => OtherRowUnseen(s, DoRecoverStale(s, now, lease), c);
    case Work(w, work) => OtherWorkUnseen(s, w, work, c);
    case CancelJob(d, j, actor, now) => CancelUnseen(s, d, c, j, actor, now);
    case RetryJob(d, j, actor, now) => RetryUnseen(s, d, c, j, actor, now);
    case Create(r, create) => if !create.Begin? && r in s.requests { CreateUnseen(s, r, c, create); }
  }

  /** Whatever the other tenants request and the workers do for them, in any interleaving, a
      company reads the same before and after. */
  lemma {:induction false} OthersAreUnseen(s: State, steps: seq<Step>, c: CompanyId, j: JobId, limit: nat, offset: nat, status: Option<Status>)
    requires Admitted(s) && OnlyOthers(s, steps, c)
    ensures var t := Run(s, steps);
            && Admitted(t) && LooksSame(s, t, c)
            && GetJob(s, c, j) == GetJob(t, c, j) && GetResult(s, c, j) == GetResult(t, c, j)
            && ListJobs(s, c, limit, offset, status) == ListJobs(t, c, limit, offset, status)
            && CountJobs(s, c, status) == CountJobs(t, c, status)
    decreases |steps|
  {
    if steps != [] {
      var t := Run(s, steps[..|steps| - 1]);
      OthersAreUnseen(s, steps[..|steps| - 1], c, j, limit, offset, status);
      OtherStepUnseen(t, Last(steps), c);
      StepKeepsAdmitted(t, Last(steps));
    }
    ReadsSeeOwnTenantOnly(s, Run(s, steps), c, j, limit, offset, status);
  }
}
