/** The tables as they are stored: one row a job, results by job, and two append-only tables
    whose rows carry the id of their job. Recs collects the rows of each job. */
module Store {
  import opened Tables
  import opened Lifecycle

  datatype AuditRow = AuditRow(job: JobId, event: Event)

  datatype DeadRow = DeadRow(job: JobId, letter: DeadLetter)

  datatype Contents = Contents(
    jobs: map<JobId, Job>,
    results: map<JobId, string>,
    deadLetters: seq<DeadRow>,
    audit: seq<AuditRow>)

  function EventsOf(audit: seq<AuditRow>, j: JobId): seq<Event> {
    if audit == [] then []
    else EventsOf(audit[..|audit| - 1], j) + if Last(audit).job == j then [Last(audit).event] else []
  }

  function LettersOf(dead: seq<DeadRow>, j: JobId): seq<DeadLetter> {
    if dead == [] then []
    else LettersOf(dead[..|dead| - 1], j) + if Last(dead).job == j then [Last(dead).letter] else []
  }

  function RecordAt(t: Contents, j: JobId): Record
    requires j in t.jobs
  {
    Record(t.jobs[j], EventsOf(t.audit, j), if j in t.results then Some(t.results[j]) else None, LettersOf(t.deadLetters, j))
  }

  function Recs(t: Contents): map<JobId, Record> {
    map j | j in t.jobs :: RecordAt(t, j)
  }

  /** The foreign keys to jobs. */
  predicate ReferencesHold(t: Contents) {
    && t.results.Keys <= t.jobs.Keys
    && (forall a | a in t.audit :: a.job in t.jobs)
    && (forall d | d in t.deadLetters :: d.job in t.jobs)
  }

  lemma EventAppended(audit: seq<AuditRow>, row: AuditRow, j: JobId)
    ensures EventsOf(audit + [row], j) == EventsOf(audit, j) + if row.job == j then [row.event] else []
  {
    assert (audit + [row])[..|audit|] == audit;
  }

  lemma LetterAppended(dead: seq<DeadRow>, row: DeadRow, j: JobId)
    ensures LettersOf(dead + [row], j) == LettersOf(dead, j) + if row.job == j then [row.letter] else []
  {
    assert (dead + [row])[..|dead|] == dead;
  }

  lemma {:induction false} EventsAreRows(audit: seq<AuditRow>, j: JobId, e: Event)
    ensures e in EventsOf(audit, j) <==> AuditRow(j, e) in audit
  {
    if audit != [] {
      var init := audit[..|audit| - 1];
      EventsAreRows(init, j, e);
      assert audit == init + [Last(audit)];
    }
  }

  lemma {:induction false} LettersAreRows(dead: seq<DeadRow>, j: JobId)
    ensures LettersOf(dead, j) == [] <==> forall d | d in dead :: d.job != j
  {
    if dead != [] {
      var init := dead[..|dead| - 1];
      LettersAreRows(init, j);
      assert dead == init + [Last(dead)];
    }
  }

  /** One job written in every table: its row, and what is added beside it. */
  function Written(t: Contents, j: JobId, row: Job, result: Option<string>, event: Option<Event>, letter: Option<DeadLetter>): Contents {
    Contents(t.jobs[j := row],
             if result.Some? then t.results[j := result.value] else t.results,
             if letter.Some? then t.deadLetters + [DeadRow(j, letter.value)] else t.deadLetters,
             if event.Some? then t.audit + [AuditRow(j, event.value)] else t.audit)
  }

  lemma WrittenEvents(t: Contents, j: JobId, event: Option<Event>, i: JobId)
    ensures EventsOf(if event.Some? then t.audit + [AuditRow(j, event.value)] else t.audit, i)
         == EventsOf(t.audit, i) + if event.Some? && i == j then [event.value] else []
  {
    if event.Some? {
      EventAppended(t.audit, AuditRow(j, event.value), i);
    }
  }

  lemma WrittenLetters(t: Contents, j: JobId, letter: Option<DeadLetter>, i: JobId)
    ensures LettersOf(if letter.Some? then t.deadLetters + [DeadRow(j, letter.value)] else t.deadLetters, i)
         == LettersOf(t.deadLetters, i) + if letter.Some? && i == j then [letter.value] else []
  {
    if letter.Some? {
      LetterAppended(t.deadLetters, DeadRow(j, letter.value), i);
    }
  }

  /** What WrittenRecord says the job's record becomes. */
  function Rewritten(rec: Record, row: Job, result: Option<string>, event: Option<Event>, letter: Option<DeadLetter>): Record {
    Record(row,
           rec.log + if event.Some? then [event.value] else [],
           if result.Some? then result else rec.result,
           rec.dead + if letter.Some? then [letter.value] else [])
  }

  lemma WrittenAt(t: Contents, j: JobId, row: Job, result: Option<string>, event: Option<Event>, letter: Option<DeadLetter>, i: JobId)
    requires j in t.jobs && i in t.jobs
    ensures RecordAt(Written(t, j, row, result, event, letter), i)
         == if i == j then Rewritten(RecordAt(t, j), row, result, event, letter) else RecordAt(t, i)
  {
    WrittenEvents(t, j, event, i);
    WrittenLetters(t, j, letter, i);
  }

  lemma WrittenReferences(t: Contents, j: JobId, row: Job, result: Option<string>, event: Option<Event>, letter: Option<DeadLetter>)
    requires ReferencesHold(t)
    ensures ReferencesHold(Written(t, j, row, result, event, letter))
  {
  }

  lemma RecsUpdated(t: Contents, t': Contents, j: JobId, rec: Record)
    requires t'.jobs.Keys == t.jobs.Keys + {j} && RecordAt(t', j) == rec
    requires forall i | i in t.jobs && i != j :: RecordAt(t', i) == RecordAt(t, i)
    ensures Recs(t') == Recs(t)[j := rec]
  {
  }

  lemma WrittenRecord(t: Contents, j: JobId, row: Job, result: Option<string>, event: Option<Event>, letter: Option<DeadLetter>)
    requires ReferencesHold(t) && j in t.jobs
    ensures ReferencesHold(Written(t, j, row, result, event, letter))
    ensures Recs(Written(t, j, row, result, event, letter))
         == Recs(t)[j := Rewritten(RecordAt(t, j), row, result, event, letter)]
  {
    WrittenReferences(t, j, row, result, event, letter);
    forall i | i in t.jobs
      ensures RecordAt(Written(t, j, row, result, event, letter), i)
           == if i == j then Rewritten(RecordAt(t, j), row, result, event, letter) else RecordAt(t, i)
    {
      WrittenAt(t, j, row, result, event, letter, i);
    }
    RecsUpdated(t, Written(t, j, row, result, event, letter), j, Rewritten(RecordAt(t, j), row, result, event, letter));
  }

  lemma NoEvents(t: Contents, j: JobId)
    requires ReferencesHold(t) && j !in t.jobs
    ensures EventsOf(t.audit, j) == [] && LettersOf(t.deadLetters, j) == []
  {
    LettersAreRows(t.deadLetters, j);
    if EventsOf(t.audit, j) != [] {
      var e := EventsOf(t.audit, j)[0];
      EventsAreRows(t.audit, j, e);
      assert false;
    }
  }

  lemma NewAt(t: Contents, j: JobId, row: Job, event: Event, i: JobId)
    requires i == j || i in t.jobs
    requires EventsOf(t.audit, j) == [] && LettersOf(t.deadLetters, j) == [] && j !in t.results
    ensures RecordAt(Written(t, j, row, None, Some(event), None), i)
         == if i == j then Record(row, [event], None, []) else RecordAt(t, i)
  {
    WrittenEvents(t, j, Some(event), i);
    WrittenLetters(t, j, None, i);
  }

  /** A new job starts with nothing beside its row but the event of its submission. */
  lemma NewRecordWritten(t: Contents, j: JobId, row: Job, event: Event)
    requires ReferencesHold(t) && j !in t.jobs
    ensures ReferencesHold(Written(t, j, row, None, Some(event), None))
    ensures Recs(Written(t, j, row, None, Some(event), None)) == Recs(t)[j := Record(row, [event], None, [])]
  {
    WrittenReferences(t, j, row, None, Some(event), None);
    NoEvents(t, j);
    NewAt(t, j, row, event, j);
    forall i | i in t.jobs && i != j ensures RecordAt(Written(t, j, row, None, Some(event), None), i) == RecordAt(t, i) {
      NewAt(t, j, row, event, i);
    }
    RecsUpdated(t, Written(t, j, row, None, Some(event), None), j, Record(row, [event], None, []));
  }

  // ------------------------------------------- the transitions, table by table

  function CompletedTables(t: Contents, j: JobId, company: CompanyId, now: Time): Contents
    requires j in t.jobs
  {
    Written(t, j, Release(t.jobs[j], Done, now), if j in t.results then None else Some(Payload(company)),
            Some(Event(EvCompleted, company, SYSTEM_ACTOR, now)), None)
  }

  lemma CompletedRecord(t: Contents, j: JobId, company: CompanyId, now: Time)
    requires ReferencesHold(t) && j in t.jobs
    ensures ReferencesHold(CompletedTables(t, j, company, now))
    ensures Recs(CompletedTables(t, j, company, now)) == Recs(t)[j := Complete(Recs(t)[j], company, now)]
  {
    WrittenRecord(t, j, Release(t.jobs[j], Done, now), if j in t.results then None else Some(Payload(company)),
                  Some(Event(EvCompleted, company, SYSTEM_ACTOR, now)), None);
  }

  function FailedTables(t: Contents, j: JobId, company: CompanyId, exhausted: bool, error: string, now: Time): Contents
    requires j in t.jobs
  {
    var row := FailedRow(t.jobs[j], error, now);
    Written(t, j, row, None, Some(Event(EvFailed, company, SYSTEM_ACTOR, now)),
            if exhausted && LettersOf(t.deadLetters, j) == [] then Some(Letter(row, error, now)) else None)
  }

  lemma FailedRecord(t: Contents, j: JobId, company: CompanyId, exhausted: bool, error: string, now: Time)
    requires ReferencesHold(t) && j in t.jobs
    ensures ReferencesHold(FailedTables(t, j, company, exhausted, error, now))
    ensures Recs(FailedTables(t, j, company, exhausted, error, now)) == Recs(t)[j := Fail(Recs(t)[j], company, exhausted, error, now)]
  {
    var row := FailedRow(t.jobs[j], error, now);
    var letter := if exhausted && LettersOf(t.deadLetters, j) == [] then Some(Letter(row, error, now)) else None;
    var event := Event(EvFailed, company, SYSTEM_ACTOR, now);
    WrittenRecord(t, j, row, None, Some(event), letter);
    var dead := LettersOf(t.deadLetters, j);
    assert Rewritten(RecordAt(t, j), row, None, Some(event), letter) == Fail(RecordAt(t, j), company, exhausted, error, now) by {
      assert dead + (if letter.Some? then [letter.value] else [])
          == if exhausted then AddLetter(dead, Letter(row, error, now)) else dead;
    }
  }

  function CancelledTables(t: Contents, j: JobId, actor: string, now: Time): Contents
    requires j in t.jobs
  {
    var event := Event(EvCancelled, t.jobs[j].company, actor, now);
    var log := EventsOf(t.audit, j);
    Written(t, j, Release(t.jobs[j], Cancelled, now), None, if AddEvent(log, event) == log then None else Some(event), None)
  }

  lemma CancelledRecord(t: Contents, j: JobId, actor: string, now: Time)
    requires ReferencesHold(t) && j in t.jobs
    ensures ReferencesHold(CancelledTables(t, j, actor, now))
    ensures Recs(CancelledTables(t, j, actor, now)) == Recs(t)[j := Cancel(Recs(t)[j], actor, now)]
  {
    var event := Event(EvCancelled, t.jobs[j].company, actor, now);
    var log := EventsOf(t.audit, j);
    WrittenRecord(t, j, Release(t.jobs[j], Cancelled, now), None, if AddEvent(log, event) == log then None else Some(event), None);
  }

  function RetriedTables(t: Contents, j: JobId, actor: string, now: Time): Contents
    requires j in t.jobs
  {
    Written(t, j, RetriedRow(t.jobs[j], now), None, Some(Event(EvRetryRequested, t.jobs[j].company, actor, now)), None)
  }

  lemma RetriedRecord(t: Contents, j: JobId, actor: string, now: Time)
    requires ReferencesHold(t) && j in t.jobs
    ensures ReferencesHold(RetriedTables(t, j, actor, now))
    ensures Recs(RetriedTables(t, j, actor, now)) == Recs(t)[j := Retry(Recs(t)[j], actor, now)]
  {
    WrittenRecord(t, j, RetriedRow(t.jobs[j], now), None, Some(Event(EvRetryRequested, t.jobs[j].company, actor, now)), None);
  }
}
