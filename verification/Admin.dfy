/** The administrator's listings: companies with their job counts, page by page, and all jobs. */
module Admin {
  import opened Tables
  import opened Lifecycle
  import opened Queue
  import opened Admission
  import opened Tenancy

  datatype Totals = Totals(
    id: CompanyId,
    maxConcurrentJobs: int,
    jobQuota: int,
    total: nat,
    queued: nat,
    running: nat,
    done: nat,
    failed: nat,
    cancelled: nat)

  // ------------------------------------------- companies LEFT JOIN jobs, GROUP BY company

  /** A row of the join; no job for a company that has none. */
  datatype JoinedRow = JoinedRow(company: CompanyId, job: Option<JobId>)

  function Joined(s: State, companies: set<CompanyId>): set<JoinedRow> {
    (set j | j in s.recs && s.recs[j].row.company in companies :: JoinedRow(s.recs[j].row.company, Some(j)))
    + (set c | c in companies && Matching(s.recs, c, None) == {} :: JoinedRow(c, None))
  }

  function GroupKeys(rows: set<JoinedRow>): set<CompanyId> {
    set r | r in rows :: r.company
  }

  /** count(j.id), with or without a FILTER on the status, in the group of c: nulls do not count. */
  function CountGroup(s: State, rows: set<JoinedRow>, c: CompanyId, status: Option<Status>): nat {
    |set r | r in rows && r.company == c && r.job.Some? && r.job.value in s.recs
             && (status == None || s.recs[r.job.value].row.status == status.value)|
  }

  function GroupTotals(s: State, rows: set<JoinedRow>, c: CompanyId): Totals
    requires c in s.companies
  {
    Totals(c, s.companies[c].maxConcurrentJobs, s.companies[c].jobQuota,
           CountGroup(s, rows, c, None), CountGroup(s, rows, c, Some(Queued)), CountGroup(s, rows, c, Some(Running)),
           CountGroup(s, rows, c, Some(Done)), CountGroup(s, rows, c, Some(Failed)), CountGroup(s, rows, c, Some(Cancelled)))
  }

  /** One line a group, ORDER BY c.id. */
  function Aggregate(s: State, companies: set<CompanyId>): seq<Totals>
    requires companies <= s.companies.Keys
  {
    var rows := Joined(s, companies);
    SortedIsExact(GroupKeys(rows));
    var keys := Sorted(GroupKeys(rows));
    seq(|keys|, i requires 0 <= i < |keys| => assert keys[i] in keys; GroupTotals(s, rows, keys[i]))
  }

  function CompanyIds(s: State): (ids: seq<CompanyId>)
    ensures StrictlyAscending(ids) && ToSet(ids) == s.companies.Keys
  {
    SortedIsExact(s.companies.Keys);
    Sorted(s.companies.Keys)
  }

  lemma PageIsAscending(ids: seq<nat>, limit: nat, offset: nat)
    requires StrictlyAscending(ids)
    ensures StrictlyAscending(Page(ids, limit, offset)) && ToSet(Page(ids, limit, offset)) <= ToSet(ids)
  {
    forall x | x in Page(ids, limit, offset) ensures x in ids {
    }
  }

  /** LIMIT and OFFSET inside the subquery: only the page's companies are joined and grouped. */
  function ListCompanies(s: State, limit: nat, offset: nat): seq<Totals> {
    PageIsAscending(CompanyIds(s), limit, offset);
    Aggregate(s, ToSet(Page(CompanyIds(s), limit, offset)))
  }

  /** What the query is for: a company's own counts. */
  function TotalsOf(s: State, c: CompanyId): Totals
    requires c in s.companies
  {
    Totals(c, s.companies[c].maxConcurrentJobs, s.companies[c].jobQuota,
           CountJobs(s, c, None), CountJobs(s, c, Some(Queued)), CountJobs(s, c, Some(Running)),
           CountJobs(s, c, Some(Done)), CountJobs(s, c, Some(Failed)), CountJobs(s, c, Some(Cancelled)))
  }

  function TotalsList(s: State, ids: seq<CompanyId>): seq<Totals>
    requires ToSet(ids) <= s.companies.Keys
  {
    seq(|ids|, i requires 0 <= i < |ids| => assert ids[i] in ToSet(ids); TotalsOf(s, ids[i]))
  }

  /** The join loses no company: that is what LEFT is for. */
  lemma EveryCompanyHasItsGroup(s: State, companies: set<CompanyId>)
    ensures GroupKeys(Joined(s, companies)) == companies
  {
    forall c | c in companies ensures c in GroupKeys(Joined(s, companies)) {
      if Matching(s.recs, c, None) == {} {
        assert JoinedRow(c, None) in Joined(s, companies);
      } else {
        var j :| j in Matching(s.recs, c, None);
        assert JoinedRow(c, Some(j)) in Joined(s, companies);
      }
    }
  }

  function RowsOf(c: CompanyId, ids: set<JobId>): set<JoinedRow> {
    set j | j in ids :: JoinedRow(c, Some(j))
  }

  lemma {:induction false} RowsAreAsMany(c: CompanyId, ids: set<JobId>)
    ensures |RowsOf(c, ids)| == |ids|
    decreases |ids|
  {
    if ids != {} {
      var j :| j in ids;
      RowsAreAsMany(c, ids - {j});
      assert RowsOf(c, ids) == RowsOf(c, ids - {j}) + {JoinedRow(c, Some(j))};
    }
  }

  /** A group counts its company's jobs, whichever other companies are joined beside it. */
  lemma GroupCountsOwnJobs(s: State, companies: set<CompanyId>, c: CompanyId, status: Option<Status>)
    requires c in companies
    ensures CountGroup(s, Joined(s, companies), c, status) == CountJobs(s, c, status)
  {
    var rows := Joined(s, companies);
    var counted := set r | r in rows && r.company == c && r.job.Some? && r.job.value in s.recs
                           && (status == None || s.recs[r.job.value].row.status == status.value);
    forall r ensures r in counted <==> r in RowsOf(c, Matching(s.recs, c, status)) {
    }
    assert counted == RowsOf(c, Matching(s.recs, c, status));
    RowsAreAsMany(c, Matching(s.recs, c, status));
  }

  lemma GroupTotalsAreExact(s: State, companies: set<CompanyId>, c: CompanyId)
    requires c in companies && c in s.companies
    ensures GroupTotals(s, Joined(s, companies), c) == TotalsOf(s, c)
  {
    forall status ensures CountGroup(s, Joined(s, companies), c, status) == CountJobs(s, c, status) {
      GroupCountsOwnJobs(s, companies, c, status);
    }
  }

  /** Join, group and order: one line for each company, with that company's own counts. */
  lemma AggregateIsExact(s: State, ids: seq<CompanyId>)
    requires StrictlyAscending(ids) && ToSet(ids) <= s.companies.Keys
    ensures Aggregate(s, ToSet(ids)) == TotalsList(s, ids)
  {
    EveryCompanyHasItsGroup(s, ToSet(ids));
    SortedIsUnique(ids);
    forall i | 0 <= i < |ids| ensures GroupTotals(s, Joined(s, ToSet(ids)), ids[i]) == TotalsOf(s, ids[i]) {
      assert ids[i] in ToSet(ids);
      GroupTotalsAreExact(s, ToSet(ids), ids[i]);
    }
  }

  lemma PageOfTotals(s: State, ids: seq<CompanyId>, limit: nat, offset: nat)
    requires ToSet(ids) <= s.companies.Keys && ToSet(Page(ids, limit, offset)) <= s.companies.Keys
    ensures TotalsList(s, Page(ids, limit, offset)) == Page(TotalsList(s, ids), limit, offset)
  {
  }

  /** Taking the page before the join is as good as joining and grouping everything and taking the
      page after. */
  lemma PageThenAggregate(s: State, limit: nat, offset: nat)
    ensures ListCompanies(s, limit, offset) == Page(Aggregate(s, s.companies.Keys), limit, offset)
    ensures Aggregate(s, s.companies.Keys) == TotalsList(s, CompanyIds(s))
  {
    PageIsAscending(CompanyIds(s), limit, offset);
    AggregateIsExact(s, Page(CompanyIds(s), limit, offset));
    AggregateIsExact(s, CompanyIds(s));
    PageOfTotals(s, CompanyIds(s), limit, offset);
  }

  function AllMatching(s: State, company: Option<CompanyId>, status: Option<Status>): set<JobId> {
    set j | j in s.recs && (company == None || s.recs[j].row.company == company.value) && (status == None || s.recs[j].row.status == status.value)
  }

  function ListAllJobs(s: State, limit: nat, offset: nat, company: Option<CompanyId>, status: Option<Status>): seq<JobId> {
    Page(Sorted(AllMatching(s, company, status)), limit, offset)
  }

  function CountAllJobs(s: State, company: Option<CompanyId>, status: Option<Status>): nat {
    |AllMatching(s, company, status)|
  }

  function CompaniesPage(s: State, limit: nat): nat -> seq<Totals> {
    (offset: nat) => ListCompanies(s, limit, offset)
  }

  function CountCompanies(s: State): nat {
    |s.companies|
  }

  function AllCompanies(s: State, limit: nat): seq<Totals>
    requires limit > 0
  {
    Pages(CompaniesPage(s, limit), CountCompanies(s), limit, 0)
  }

  /** The jobs of a company in a status. */
  function HowMany(s: State, c: CompanyId, status: Status): nat {
    |set j | j in s.recs && s.recs[j].row.company == c && s.recs[j].row.status == status|
  }

  lemma CountsAreHowMany(s: State, c: CompanyId, status: Status)
    ensures CountJobs(s, c, Some(status)) == HowMany(s, c, status)
  {
    assert Matching(s.recs, c, Some(status)) == set j | j in s.recs && s.recs[j].row.company == c && s.recs[j].row.status == status;
  }

  /** A line says what the company's row says and how many of its jobs are in each status. */
  predicate IsTrueLine(s: State, t: Totals) {
    && t.id in s.companies
    && t.maxConcurrentJobs == s.companies[t.id].maxConcurrentJobs && t.jobQuota == s.companies[t.id].jobQuota
    && t.queued == HowMany(s, t.id, Queued) && t.running == HowMany(s, t.id, Running) && t.done == HowMany(s, t.id, Done)
    && t.failed == HowMany(s, t.id, Failed) && t.cancelled == HowMany(s, t.id, Cancelled)
    && t.total == t.queued + t.running + t.done + t.failed + t.cancelled
  }

  lemma TotalsAreTrue(s: State, c: CompanyId)
    requires c in s.companies
    ensures IsTrueLine(s, TotalsOf(s, c)) && TotalsOf(s, c).id == c
  {
    CountsAreHowMany(s, c, Queued);
    CountsAreHowMany(s, c, Running);
    CountsAreHowMany(s, c, Done);
    CountsAreHowMany(s, c, Failed);
    CountsAreHowMany(s, c, Cancelled);
    StatusesPartition(s, c);
  }

  /** Page after page lists each company once, in the order of the ids, with its own counts. */
  lemma CompanyPagesAreExact(s: State, limit: nat)
    requires limit > 0
    ensures AllCompanies(s, limit) == TotalsList(s, CompanyIds(s)) && |CompanyIds(s)| == CountCompanies(s)
    ensures forall i | 0 <= i < |AllCompanies(s, limit)| ::
              IsTrueLine(s, AllCompanies(s, limit)[i]) && AllCompanies(s, limit)[i].id == CompanyIds(s)[i]
  {
    forall i | 0 <= i < |CompanyIds(s)| ensures IsTrueLine(s, TotalsList(s, CompanyIds(s))[i]) {
      assert CompanyIds(s)[i] in ToSet(CompanyIds(s));
      TotalsAreTrue(s, CompanyIds(s)[i]);
    }
    var all := TotalsList(s, CompanyIds(s));
    forall o ensures CompaniesPage(s, limit)(o) == Page(all, limit, o) {
      PageThenAggregate(s, limit, o);
    }
    SortedIsExact(s.companies.Keys);
    PagesCoverRows(CompaniesPage(s, limit), all, limit, 0);
  }

  function Sum(totals: seq<Totals>, count: Totals -> nat): nat {
    if totals == [] then 0 else count(totals[0]) + Sum(totals[1..], count)
  }

  /** The column of a status; None is total_jobs. */
  function Column(status: Option<Status>): Totals -> nat {
    match status
    case None => (t: Totals) => t.total
    case Some(Queued) => (t: Totals) => t.queued
    case Some(Running) => (t: Totals) => t.running
    case Some(Done) => (t: Totals) => t.done
    case Some(Failed) => (t: Totals) => t.failed
    case Some(Cancelled) => (t: Totals) => t.cancelled
  }

  function OfCompanies(s: State, ids: seq<CompanyId>, status: Option<Status>): set<JobId> {
    set j | j in AllMatching(s, None, status) && s.recs[j].row.company in ids
  }

  lemma ColumnCounts(s: State, c: CompanyId, status: Option<Status>)
    requires c in s.companies
    ensures Column(status)(TotalsOf(s, c)) == |Matching(s.recs, c, status)|
  {
  }

  lemma FirstCompanyAndRest(s: State, ids: seq<CompanyId>, status: Option<Status>)
    requires StrictlyAscending(ids) && ids != []
    ensures OfCompanies(s, ids, status) == Matching(s.recs, ids[0], status) + OfCompanies(s, ids[1..], status)
  {
    assert forall c :: c in ids <==> c == ids[0] || c in ids[1..];
  }

  lemma FirstCompanyApart(s: State, ids: seq<CompanyId>, status: Option<Status>)
    requires StrictlyAscending(ids) && ids != []
    ensures |OfCompanies(s, ids, status)| == |Matching(s.recs, ids[0], status)| + |OfCompanies(s, ids[1..], status)|
  {
    var first, rest := Matching(s.recs, ids[0], status), OfCompanies(s, ids[1..], status);
    FirstCompanyAndRest(s, ids, status);
    assert first !! rest;
  }

  lemma {:induction false} ColumnSums(s: State, ids: seq<CompanyId>, status: Option<Status>)
    requires StrictlyAscending(ids) && ToSet(ids) <= s.companies.Keys
    ensures Sum(TotalsList(s, ids), Column(status)) == |OfCompanies(s, ids, status)|
  {
    if ids != [] {
      assert ToSet(ids[1..]) <= ToSet(ids) && ids[0] in ToSet(ids);
      ColumnSums(s, ids[1..], status);
      assert TotalsList(s, ids)[1..] == TotalsList(s, ids[1..]);
      ColumnCounts(s, ids[0], status);
      FirstCompanyApart(s, ids, status);
    }
  }

  /** Over all pages, every job is counted in one company and one status: the columns add up to
      what the job listing counts. */
  lemma ListingsAgree(s: State, limit: nat, status: Option<Status>)
    requires CompaniesKnown(s) && limit > 0
    ensures Sum(AllCompanies(s, limit), Column(status)) == CountAllJobs(s, None, status)
  {
    CompanyPagesAreExact(s, limit);
    ColumnSums(s, CompanyIds(s), status);
    assert forall c :: c in CompanyIds(s) <==> c in ToSet(CompanyIds(s));
    assert OfCompanies(s, CompanyIds(s), status) == AllMatching(s, None, status);
  }

  /** The jobs of a company in one of the given statuses. */
  function InStatuses(recs: map<JobId, Record>, c: CompanyId, statuses: set<Status>): set<JobId> {
    set j | j in recs && recs[j].row.company == c && recs[j].row.status in statuses
  }

  lemma OneMoreStatus(recs: map<JobId, Record>, c: CompanyId, statuses: set<Status>, status: Status)
    requires status !in statuses
    ensures |InStatuses(recs, c, statuses + {status})| == |InStatuses(recs, c, statuses)| + |Matching(recs, c, Some(status))|
  {
    var a, b := InStatuses(recs, c, statuses), Matching(recs, c, Some(status));
    assert InStatuses(recs, c, statuses + {status}) == a + b;
    assert a !! b;
  }

  lemma IsSomeStatus(status: Status)
    ensures status in {} + {Queued} + {Running} + {Done} + {Failed} + {Cancelled}
  {
    match status
    case Queued =>
    case _ =>
  }

  lemma EveryStatus(recs: map<JobId, Record>, c: CompanyId)
    ensures Matching(recs, c, None) == InStatuses(recs, c, {} + {Queued} + {Running} + {Done} + {Failed} + {Cancelled})
    ensures InStatuses(recs, c, {}) == {}
  {
    forall j | j in recs ensures recs[j].row.status in {} + {Queued} + {Running} + {Done} + {Failed} + {Cancelled} {
      IsSomeStatus(recs[j].row.status);
    }
  }

  /** A company's statuses add up to its total. */
  lemma StatusesPartition(s: State, c: CompanyId)
    requires c in s.companies
    ensures var t := TotalsOf(s, c);
            t.total == t.queued + t.running + t.done + t.failed + t.cancelled
  {
    EveryStatus(s.recs, c);
    OneMoreStatus(s.recs, c, {}, Queued);
    OneMoreStatus(s.recs, c, {} + {Queued}, Running);
    OneMoreStatus(s.recs, c, {} + {Queued} + {Running}, Done);
    OneMoreStatus(s.recs, c, {} + {Queued} + {Running} + {Done}, Failed);
    OneMoreStatus(s.recs, c, {} + {Queued} + {Running} + {Done} + {Failed}, Cancelled);
  }

  /** The administrator's filter by company and the company's own listing count alike. */
  lemma ServicesCountAlike(s: State, c: CompanyId, status: Option<Status>)
    ensures CountAllJobs(s, Some(c), status) == CountJobs(s, c, status)
  {
    assert AllMatching(s, Some(c), status) == Matching(s.recs, c, status);
  }

  function AllJobsPage(s: State, company: Option<CompanyId>, status: Option<Status>, limit: nat): nat -> seq<JobId> {
    (offset: nat) => ListAllJobs(s, limit, offset, company, status)
  }

  /** Page after page lists each matching job once, in the order of the ids. */
  lemma JobPagesAreExact(s: State, limit: nat, company: Option<CompanyId>, status: Option<Status>)
    requires limit > 0
    ensures var all := Pages(AllJobsPage(s, company, status, limit), CountAllJobs(s, company, status), limit, 0);
            && StrictlyAscending(all) && |all| == CountAllJobs(s, company, status)
            && forall j :: j in all <==> j in AllMatching(s, company, status)
  {
    SortedIsExact(AllMatching(s, company, status));
    PagesCoverRows(AllJobsPage(s, company, status, limit), Sorted(AllMatching(s, company, status)), limit, 0);
  }
}
