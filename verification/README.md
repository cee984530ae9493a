# Relay: the job queue, its workers and its migrations, verified

Relay is a multi-tenant job queue in one PostgreSQL table. API requests create, cancel and retry
jobs; any number of worker processes claim, run and finish them, crash, stall and lose their leases.
Every guarantee comes out of small guarded UPDATEs that interleave. This project models those
statements and proves what holds in every interleaving, and then the parts around them: one worker's
sequence of transactions, the cancellation monitor, the heartbeat, the shutdown gate, the migration
runner and the data rewrite of migration 0007.

`dafny verify dfyconfig.toml` checks the whole project.

## How the model is laid out

| file | contents |
|---|---|
| `Tables`, `Decimal`, `Lifecycle` | rows, and one job seen across its tables: row, audit log, result, dead letters; the transitions of a job; the automaton that replays its log |
| `Queue` | the protocol as a state machine, one step a transaction; POST /jobs is one step a statement |
| `Safety`, `Progress`, `Claims` | what every run keeps: ownership, audit log, dead letters, billing, back-off, the budget of transitions, what became of a lost claim |
| `Admission`, `Sequential` | POST /jobs under interleaving: idempotency keys, the concurrency limit, and that the split request is the atomic one when alone |
| `Tenancy`, `Reports`, `Admin` | reads, tenant isolation, what a tenant reads back after a write, the administrator's listings |
| `Store`, `Database` | the tables as they are stored, and a class whose methods are the statements of the worker and the API on mutable tables; each method refines a step of `Queue` |
| `Worker`, `Leases`, `Polling` | `process_next`, `drain`, the heartbeat and the idle wait, as methods with everybody else's transactions in between |
| `Listener`, `Monitor`, `GracefulShutdown` | the idle worker's notifications, the cancellation handshake and the API's shutdown gate |
| `Migrations`, `Backfill` | the runner with its ledger and lock, and the statements of migration 0007 |

Assumptions the statements below rest on:

- READ COMMITTED. A transaction of the worker, a cancel or a retry is one atomic step, because the
  row lock of its first UPDATE serialises it. POST /jobs is split at each statement, since its
  correctness is about that split; its row becomes visible at the commit.
- Each transaction brings its own `now()`, in microseconds. No two clocks are related, so nothing in
  `Safety` depends on lease timing; `ClaimWaitsForBackoff` compares the two recorded times.
- Worker ids are unique for ever (a UUID a process). No row is deleted. Requests always name who
  submitted them, as `api/modules/jobs/routes.py` does.
- An audit event share-locks its company's row through its foreign key
  (`db/migrations/0010_job_audit_events.sql:4`). A cancel, retry, finalize, failure or recovery that has
  matched its rows therefore waits while a POST /jobs holds that row, from its FOR UPDATE to its end;
  a step that waits changes nothing (`Queue.Waits`).
- The audit log of a job is in insertion order. `occurred_at` is the start of the transaction and
  may run against that order.
- `FOR UPDATE SKIP LOCKED` passes over an arbitrary set of rows.
- A migration's versions are numbers, so that the order of the file names and the ORDER BY of the
  ledger agree. `DownsUndoUps` says that each reversal file undoes its migration.
- `IsPlain` says that the locale classifies the letters, digits and signs of the texts migration
  0007 writes as printable and not blank.

Where the code and its documentation part:

- `docs/worker.md:52` says that a finalize matching no row means the job was cancelled. The code also
  answers `cancelled` when the lease was recovered and nobody cancelled anything
  (`Claims.FinalizeMissesUncancelled`). `Claims.LostClaimsHaveACause` says exactly when the
  documentation is right: when the first step that took the row from the worker was a cancel.
- `db/migrations/0007_validation_constraints.sql:4-6` promises a migration that does not fail on a
  database with history. It fails when two emails differ only by blanks or control characters
  (`Backfill.TrimmingCanCollide`); `Backfill.Tenants.Migrate` goes through if and only if
  `EmailsSurvive`.

## Model

| member | source | states |
|---|---|---|
| Safety.AuditLogReplaysToRow | worker/modules/jobs/processor.py:264-413 | In every reachable state a job's audit events spell submitted (failed retry_requested)^n and at most one closing event; folding them gives the row's status, and failures, retries and attempts determine each other, status by status |
| Lifecycle.LogIsWord | api/modules/jobs/service.py:94-109 | A log the replay automaton accepts is a word of that grammar |
| Lifecycle.WordIsLog | api/modules/jobs/service.py:94-109 | The converse: each word of the grammar is accepted, with these counts |
| Safety.GuardMatchesOwnClaim | worker/modules/jobs/processor.py:186-197 | From any table contents, when `running AND worker_id = mine` matches, the row's attempt and company are those of the worker's local claim; an idle worker owns no row. A stale worker cannot finish, fail or renew a later claim |
| Safety.StepsFollowLifecycle | worker/modules/jobs/processor.py:264-413 | Every transaction moves a job along the lifecycle only, changes no identity column and drops no row |
| Safety.LogsOnlyGrow | worker/modules/jobs/processor.py:380-387 | A job's audit log is append-only over every run |
| Safety.RowsComeFromCommits | api/modules/jobs/routes.py:140-160 | The commit of a POST /jobs is the only source of rows |
| Safety.RowsMatchTheirStatus | worker/modules/jobs/processor.py:311-413 | In every reachable state the status decides which columns are null; row and log carry the same times; only the worker fails or completes |
| Safety.DeadLettersAreExact | worker/modules/jobs/processor.py:369-377 | A job has a dead letter iff it failed its third attempt, then exactly one, repeating the row, whether written from the worker's count or by the recovery |
| Safety.TerminalJobsAreFrozen | worker/modules/jobs/processor.py:330-413 | A done, cancelled or exhausted job never changes again in any table |
| Safety.QuotaPlusResultsIsConstant | worker/modules/jobs/processor.py:330-352 | From any table contents, over any interleaving, a tenant's quota plus the number of its results is constant |
| Safety.BillingIsExactlyOnce | worker/modules/jobs/processor.py:330-352 | From an empty jobs table, quota spent equals the number of done jobs; each done job has the result made out to its tenant, no other job has one |
| Safety.ClaimWaitsForBackoff | api/modules/jobs/service.py:210-226 | The second claim of a job comes at least 5 s after the retry that queued it, the third at least 10 s |
| Lifecycle.RetryWaits | api/modules/jobs/service.py:214-217 | A retry schedules the job 5 s ahead after the first attempt and 10 s after the second |
| Tables.BackoffDoubles | api/modules/jobs/service.py:215-217 | The back-off is 5 s up to the first attempt and doubles with each one after |
| Safety.EligibleExactlyWhenDue | worker/modules/jobs/processor.py:295-307 | In every reachable state a queued job can be claimed at once if its log holds only its submission, else exactly from 5 s after its first retry and from 10 s after its second |
| Safety.ClaimTakesOldestFree | worker/modules/jobs/processor.py:293-327 | A claim changes a row iff the worker is idle and the row is eligible, not locked by others, and no smaller id is both |
| Safety.StepKeepsHealthy | worker/modules/jobs/processor.py:264-413 | Every transaction keeps fencing, pending inserts and the invariant of each job |
| Progress.TransitionsAreBounded | worker/modules/jobs/processor.py:264-413 | A run makes at most 8 lifecycle transitions for each job it creates; both numbers are those the tables show |
| Progress.MovesAreOnRecord | worker/modules/jobs/processor.py:264-413 | The transitions of a run are exactly the attempts of its jobs and the events of their logs but the submissions |
| Progress.CreationsAreJobs | api/modules/jobs/routes.py:140-160 | The creations of a run are the jobs in the table |
| Progress.StepSpends | worker/modules/jobs/processor.py:264-413 | Every transition uses up the measure 3(3 - attempts) + weight of the status; only a commit of POST /jobs refills it |
| Progress.ThreeClaimsAtMost | worker/modules/jobs/processor.py:293-327 | No job is claimed more than three times |
| Progress.ClaimsCountAttempts | worker/modules/jobs/processor.py:311-323 | The attempts column is the number of claims of the run |
| Claims.LostClaimsHaveACause | worker/modules/jobs/processor.py:330-342 | A finalize that misses changes no table. The first step of the run that took the row since the claim is named: it cancelled the job iff this attempt's failure is not on record, and then the row is cancelled at this attempt; else it is a recovery later than the lease allows after the last renewal |
| Claims.LostRowsTell | worker/modules/jobs/processor.py:264-290 | A row its worker has lost still tells, over every later step, whether a cancel or a recovery took it |
| Claims.FinalizeMissesUncancelled | worker/modules/jobs/processor.py:341-342 | A run without any cancel at whose end a finalize misses and the job is waiting for its retry |
| Claims.CancelledAfterTheLoss | worker/modules/jobs/processor.py:341-342 | Retried and cancelled later, that row shows the lost claim's attempt as cancelled, and it was not |
| Claims.RunsAreTracked | worker/modules/jobs/processor.py:293-327 | A worker's claim is never ahead of the row, and at the row's attempt it is the claim the row names |
| Admission.CreateIsIdempotent | api/modules/jobs/service.py:133-185 | With any number of requests interleaved by statement: one job a company and key, equal requests all get its id and one created it, a request of another kind is a conflict |
| Admission.InsertNeverConflicts | api/modules/jobs/service.py:157-169 | The ON CONFLICT branch is never taken and no insert waits for another |
| Admission.LimitNeverHidesReplay | api/modules/jobs/service.py:142-156 | A 429 is given only if no job has the key and the company is at its limit |
| Admission.RepliesAreAtomic | api/modules/jobs/service.py:133-173 | In every interleaving each reply is the one an atomic POST /jobs gives at that instant, without exception; a created job has the number the atomic request gives at the insert, and from the count to the commit the atomic request would create one |
| Admission.AnswersAreExact | api/modules/jobs/service.py:133-185 | In every interleaving an answer is true of the rows when it is given: a replay has the job's status at that moment, under the request's company, key and kind; a conflict the kind that is there; a limit the company's own, and the number of queued and running jobs |
| Admission.LockStopsActivation | db/migrations/0010_job_audit_events.sql:4-4 | While a request holds its company's row no other transaction adds to that company's active jobs: a retry waits for the share lock of its audit event |
| Admission.LockFreezesCompany | db/migrations/0010_job_audit_events.sql:4-4 | While a request holds its company's row, no other transaction writes an event, a result, a dead letter or a charge for the company, and its jobs change only by being claimed |
| Admission.StepKeepsHolders | api/modules/jobs/service.py:136-139 | A company's row is locked only by a request of that company still on its way |
| Admission.ActiveJobsAreLimited | api/modules/jobs/service.py:149-156 | Active jobs never retried number at most the limit; active jobs exceed it by at most the retried ones |
| Admission.RetryIgnoresLimit | api/modules/jobs/service.py:209-227 | A retry adds one active job; the company stays within its limit iff there was room |
| Admission.StepKeepsAdmitted | api/modules/jobs/service.py:133-173 | Every transaction keeps locks, ids, keys and past replies sound |
| Sequential.PostAlone | api/modules/jobs/service.py:125-173 | With nothing beside it, the seven statements together are one atomic POST /jobs |
| Sequential.LimitCanBeExceeded | api/modules/jobs/service.py:209-227 | A run from an empty table with two active jobs under a limit of one |
| Tenancy.ReadsSeeOwnTenantOnly | api/modules/jobs/service.py:29-123 | Databases that agree on a company's jobs answer its get, result, list and count alike |
| Tenancy.WritesStayInTenant | api/modules/jobs/service.py:187-235 | Cancel and retry answer alike, leave both databases alike to the company, and leave every other company untouched |
| Tenancy.CreatesStayInTenant | api/modules/jobs/service.py:125-173 | Two databases that agree on a company's jobs and its own row: each statement of its POST /jobs brings the request to the same stage and answer and leaves the same view, up to the number of the new job, and shows in no other company's view |
| Tenancy.PostStaysInTenant | api/modules/jobs/service.py:125-173 | The same of the whole request: same answer and same view afterwards, up to the number |
| Tenancy.OthersAreUnseen | api/modules/jobs/routes.py:140-231 | After any interleaving of other tenants' requests, of workers on their jobs and of recoveries of their jobs, a company reads what it read before |
| Tenancy.PagesListEachJobOnce | api/modules/jobs/service.py:29-59 | The pages of a snapshot list each matching job once, newest first, as many as the count says, each line true of its row |
| Tenancy.OrderedIsExact | api/modules/jobs/service.py:36-47 | The listing order is strict and complete |
| Tenancy.PagesCoverRows | api/modules/jobs/service.py:44-44 | Consecutive LIMIT/OFFSET pages concatenate to the list |
| Reports.CancellationIsAttributed | api/modules/jobs/service.py:61-92 | After a cancel, the job detail names its actor and time for ever |
| Reports.ResultIsDelivered | api/modules/jobs/service.py:111-123 | After a finalize that matched, the tenant, and nobody else, reads the result for ever |
| Reports.FailureIsReported | worker/modules/jobs/processor.py:390-413 | A recorded failure shows its error, the third for ever; an earlier one can be retried, which clears it |
| Reports.RefusalIsFinal | api/modules/jobs/service.py:187-235 | A done, cancelled or exhausted job answers every later cancel and retry with the same refusal, over every later run |
| Reports.RetryNeedsANewFailure | api/modules/jobs/service.py:209-235 | After a retry the next one is accepted only when the job has been tried and has failed again, whatever happened between |
| Reports.DetailIsTrue | api/modules/jobs/service.py:61-81 | The detail shows the whole history, and a canceller iff the job is cancelled |
| Reports.DetailRepeatsRow | api/modules/jobs/service.py:61-92 | Whatever the tables hold, a detail exists for exactly the company's own jobs, repeats kind, status, attempts and error of the row, and shows exactly the company's events of the job in the order of time |
| Reports.HistoryIsSorted | api/modules/jobs/service.py:83-92 | Sorting by time keeps every event, and keeps the insertion order iff that is one of time |
| Admin.ListingsAgree | api/modules/admin/service.py:10-34 | Over all pages the columns of the company listing add up to what the job count says, in total and by status |
| Admin.AggregateIsExact | api/modules/admin/service.py:10-34 | The LEFT JOIN loses no company, and each group counts exactly its own company's jobs, by status, whichever companies are joined beside it |
| Admin.PageThenAggregate | api/modules/admin/service.py:20-28 | Taking the page before the join equals joining and grouping everything and taking the page after |
| Admin.CompanyPagesAreExact | api/modules/admin/service.py:10-38 | Page after page lists each company once, in the order of ids, with its own limit and quota and the number of its jobs in each status |
| Admin.StatusesPartition | api/modules/admin/service.py:13-19 | A company's statuses add up to its total |
| Admin.ServicesCountAlike | api/modules/admin/service.py:60-68 | The administrator's filter counts what the tenant's own count does |
| Admin.JobPagesAreExact | api/modules/admin/service.py:40-58 | The pages of the job listing list each matching job once, in the order of ids |
| Store.WrittenRecord | worker/modules/jobs/processor.py:380-387 | Writing a job's row and adding beside it changes that job's record and no other's |
| Store.NewRecordWritten | api/modules/jobs/service.py:157-171 | A new job starts with nothing but its row and its submission |
| Store.CompletedRecord | worker/modules/jobs/processor.py:330-352 | The writes of a finalize, table by table, complete the job's record |
| Store.FailedRecord | worker/modules/jobs/processor.py:390-413 | The writes of a failure, table by table, fail the job's record |
| Store.CancelledRecord | api/modules/jobs/service.py:187-200 | The writes of a cancel, with at most one cancelled event a job |
| Store.RetriedRecord | api/modules/jobs/service.py:209-231 | The writes of a retry |
| Database.Relay.ClaimNext | worker/modules/jobs/processor.py:293-327 | Claims the least eligible row that is not skipped, iff there is one, and remembers job, company and attempt |
| Database.Relay.RenewLease | worker/modules/jobs/processor.py:186-197 | Renews iff the row is still this worker's |
| Database.Relay.Finalize | worker/modules/jobs/processor.py:330-352 | Done iff the guard matches; then result, event and charge, as the protocol's step |
| Database.Relay.CompleteJob | worker/modules/jobs/processor.py:343-352 | The quota is charged iff the result was inserted |
| Database.Relay.AcknowledgeCancellation | worker/modules/jobs/processor.py:355-366 | True iff the row read is cancelled |
| Database.Relay.RecordFailure | worker/modules/jobs/processor.py:390-413 | Failed iff the guard matches, with a dead letter for the worker's third attempt |
| Database.Relay.FailJob | worker/modules/jobs/processor.py:394-412 | The failure's row, event and dead letter |
| Database.Relay.SendToDlq | worker/modules/jobs/processor.py:369-377 | Copies the row unless the job has a letter |
| Database.Relay.RecordAuditEventOnce | api/modules/jobs/service.py:94-109 | Appends the event unless a unique index has one of the kind for the job |
| Database.Relay.RecoverStaleJobs | worker/modules/jobs/processor.py:264-290 | The UPDATE and the loop over its rows, in any order, fail exactly the stale jobs; the result is their number |
| Database.Relay.RecordRecoveries | worker/modules/jobs/processor.py:286-289 | Each recovered row gets one event, and its dead letter at the third attempt |
| Database.Relay.CancelJob | api/modules/jobs/service.py:187-202 | Cancels or answers the exact error |
| Database.Relay.RetryJob | api/modules/jobs/service.py:209-235 | Requeues the job for 5 s or 10 s from now, or answers the exact error |
| Database.Relay.FindByIdempotencyKey | api/modules/jobs/service.py:181-185 | Finds the job of the key iff there is one |
| Database.Relay.CountActive | api/modules/jobs/service.py:149-154 | Counts the queued and running jobs of the company |
| Database.Relay.CreateJob | api/modules/jobs/service.py:125-173 | The whole request on an uncontended company: same answer and same tables as the split one; a replay has the row's status, company and kind, a new job the next number and the request's row, and any other answer changes no row |
| Database.Relay.Statement | api/modules/jobs/service.py:133-173 | What each statement of the split request does next |
| Database.Relay.MustWait | db/migrations/0010_job_audit_events.sql:4-4 | Tells from the tables whether a transaction would stop at the share lock of its audit events |
| Database.Relay.Execute | worker/modules/jobs/processor.py:264-413 | Any transaction on the tables is the step of the state machine |
| Database.Relay.ExecuteAll | worker/modules/jobs/processor.py:430-487 | Any interleaving on the tables is a run of the state machine |
| Worker.ProcessNext | worker/modules/jobs/processor.py:430-487 | Whatever the others do in between, every claim is resolved: the worker comes back owning no row; `done` and an acknowledged `cancelled` are true; undisturbed, stale jobs fail and the claim ends as the handler did |
| Worker.EndClaim | worker/modules/jobs/processor.py:450-482 | Each way out of the handler ends the claim |
| Worker.EndReturned | worker/modules/jobs/processor.py:456-458 | Done iff the row was still the worker's; after a commit that raised, a failure is recorded in vain |
| Worker.AwaitCompanies | db/migrations/0010_job_audit_events.sql:4-4 | Waiting for company rows ends, and changes nothing but the requests that held them |
| Worker.EndInterrupted | worker/modules/jobs/processor.py:459-471 | After a signal: acknowledged iff the row is cancelled, else a failure |
| Worker.TakeJob | worker/modules/jobs/processor.py:293-327 | Leaves the queue without exactly the job it took |
| Worker.ForeignRunIsHarmless | worker/modules/jobs/processor.py:430-487 | The same about the state machine |
| Worker.Drain | worker/main.py:28-32 | Without API requests it ends: on an empty look at the queue, on the order to shut down, or on a stuck monitor; alone with a still clock it processes exactly the eligible jobs in ascending order unless it has a reason to stop |
| Leases.LeaseIsHonoured | worker/modules/jobs/processor.py:264-290 | A worker keeps its row iff no step of the run cancels the job and no recovery comes later than the lease allows after the last renewal; a row once lost stays lost |
| Leases.ClaimIsHonoured | worker/modules/jobs/processor.py:311-323 | A claim starts such a lease at its own time |
| Leases.RecoveryIsExact | worker/modules/jobs/processor.py:264-290 | A recovery changes exactly the stale jobs, leaves none, and is idempotent |
| Leases.NoJobIsStranded | worker/modules/jobs/processor.py:264-290 | Once its lease has run out, a recovery leaves a running job retryable or dead-lettered, never both |
| Leases.CrashIsForGood | worker/modules/jobs/processor.py:21-21 | A crash changes no table; the worker never acts again, and a row it still owns later is as it left it |
| Claims.LeaseIsThirtySeconds | worker/modules/jobs/processor.py:19-19 | To the microsecond, a recovery leaves a claim for 30 s and takes it after |
| Leases.Renew | worker/modules/jobs/processor.py:186-197 | A renewal tells whether the row is this worker's |
| Leases.Heartbeat | worker/modules/jobs/processor.py:200-236 | Gives up at the first third failure in a row, or at the first renewal that gets through after the row was lost, and not before; a renewal that does not end it leaves the lease renewed at its time |
| Leases.Round | worker/modules/jobs/processor.py:225-228 | One round renews iff it gets through and the row is still the worker's |
| Leases.ThirdInARow | worker/modules/jobs/processor.py:224-236 | The counter that successes reset reaches three iff the last three rounds failed |
| Polling.UntilNextAttempt | worker/modules/jobs/processor.py:251-261 | The time to the earliest scheduled retry of the rows, none iff there is none |
| Polling.NextPollTimeout | worker/main.py:50-55 | At most 30 s and at most 0.05 s after every scheduled retry, and exactly one of the two |
| Polling.WaitForWork | worker/main.py:58-66 | Ends with the notification, at the deadline, or within a second of the order to shut down |
| Polling.IdleWait | worker/main.py:50-66 | Over within 30 s and 0.05 s after every scheduled retry of the rows; the next one, due within 29.95 s, is eligible at wake-up; with none the wait is 30 s |
| Listener.NoJobIsMissed | worker/main.py:74-93 | In every interleaving, a job that can be claimed while the worker waits on a live session has its notification pending, or had its row locked at the last look, or was scheduled for later than that look |
| Listener.QueuedIsAnnounced | api/modules/jobs/service.py:204-207 | A job gets into the queue only with a notification |
| Listener.QueueFollows | worker/main.py:74-93 | The queue the listener watches is the one the transactions of the run make |
| Listener.LooksAndWakes | worker/main.py:28-66 | The worker waits exactly after a look that found nothing but locked rows, and drains again after a notification, a timeout or a reconnection |
| Monitor.NoCancellationIsLost | worker/modules/jobs/processor.py:111-141 | While the monitor runs, a cancelled row has set the token, or the SELECT is to come, or its notification waits |
| Monitor.SignalHasACause | worker/modules/jobs/processor.py:459-471 | A token set means cancelled, or an error of monitor or heartbeat on record: the fallback error is unreachable |
| Monitor.AlwaysWatched | worker/modules/jobs/processor.py:75-179 | The handshake's invariant over all interleavings of three threads and the database |
| Monitor.PendingCancellationArrives | worker/modules/jobs/processor.py:60-64 | Reading the waiting notifications sets the token of a cancelled job |
| Monitor.CancellationArrives | worker/modules/jobs/processor.py:111-132 | From every reachable state with a live monitor, a cancellation sets the token once the monitor has listened, looked and read what waits |
| Monitor.SelectLooksAtTheRow | worker/modules/jobs/processor.py:121-128 | The SELECT sets the token and ends the monitor on a cancelled row; on any other it makes the monitor ready and lets it poll |
| Monitor.ErrorsAreRecorded | worker/modules/jobs/processor.py:99-165 | Each error of monitor and heartbeat is recorded, the first one kept, and sets the token |
| Monitor.StopEndsTheMonitor | worker/modules/jobs/processor.py:129-150 | A polling monitor that is stopped ends with the token as it was |
| Monitor.NotificationsQueueUp | api/modules/jobs/service.py:198-200 | A listening session gets every cancellation behind what waits, another session none |
| Monitor.StatusesFollowQueue | api/modules/jobs/service.py:187-200 | The row moves the monitor allows for include every move of the queue |
| GracefulShutdown.CounterIsExact | api/shared/http/graceful_shutdown.py:6-29 | The counter is the number of admitted and unfinished requests; the event is set iff it is zero |
| GracefulShutdown.AdmittedExactly | api/shared/http/graceful_shutdown.py:15-29 | Over every run a request is admitted iff it started before any drain began, and alive iff it has not finished since |
| GracefulShutdown.NothingAdmittedAfter | api/shared/http/graceful_shutdown.py:15-23 | After shutdown begins nothing is admitted |
| GracefulShutdown.DrainedForGood | api/shared/http/graceful_shutdown.py:31-38 | A drain that did not time out leaves no request alive, then or ever after |
| GracefulShutdown.Gate.RequestStarted | api/shared/http/graceful_shutdown.py:15-23 | Admits iff not shutting down; one that is admitted is counted, clears the event and is alive; one that is not changes nothing |
| GracefulShutdown.Gate.RequestFinished | api/shared/http/graceful_shutdown.py:25-29 | Counts down and sets the event at zero |
| GracefulShutdown.Gate.Drain | api/shared/http/graceful_shutdown.py:31-34 | Begins the shutdown and returns at once iff nothing is alive |
| Migrations.LedgerAndSchemaAgree | api/shared/db/migrate.py:72-110 | Any number of runners, failing or dying anywhere: the ledger is a prefix of the versions, the schema is what their up files make, the lock holder's list is what is left to do |
| Migrations.EachVersionAppliedOnce | api/shared/db/migrate.py:35-51 | A version is applied once more than reverted iff it is in the ledger; without rollbacks by exactly one runner |
| Migrations.UpsAndDownsAlternate | api/shared/db/migrate.py:79-82 | The committed history of a version alternates |
| Migrations.UpgradeCompletes | api/shared/db/migrate.py:72-88 | With the lock free and files that go through, an upgrade applies every pending version and gives the lock back |
| Migrations.RollbackCompletes | api/shared/db/migrate.py:91-110 | With the lock free and reversal files, a rollback takes off exactly as many as asked and gives the lock back |
| Migrations.LeavingFreesTheLock | api/shared/db/migrate.py:83-87 | A runner that breaks or dies leaves the database as it is and frees the lock |
| Migrations.Database.RunMigrations | api/shared/db/migrate.py:72-88 | Applies the pending versions in order up to the first that breaks or does not go through, fails iff there is one, and reports exactly those applied |
| Migrations.Database.RollbackMigrations | api/shared/db/migrate.py:91-110 | Reverts the last `steps` versions, newest first, up to the first that cannot be reverted, and fails iff there is one |
| Migrations.Database.RevertOne | api/shared/db/migrate.py:97-104 | The last version goes iff it can be reverted; else nothing changes |
| Migrations.PendingIsRest | api/shared/db/migrate.py:35-37 | With a prefix applied, the pending files are the rest, in order |
| Migrations.ToRevertIsSuffix | api/shared/db/migrate.py:97-97 | The slice of applied versions is the reversed end of the prefix, also for steps <= 0 or too many |
| Backfill.Tenants.Migrate | db/migrations/0007_validation_constraints.sql:7-90 | Goes through iff the rewritten emails stay unique, and then every added constraint holds whatever the tables held; otherwise nothing changes; a database that needs nothing is left as it is |
| Backfill.FixJobIsExact | db/migrations/0007_validation_constraints.sql:15-36 | A job that meets the constraints stays; the creator is kept iff it is a user of the job's company, attempts go to the nearer bound, the key is kept iff the check accepts it |
| Backfill.FixCompanyIsExact | db/migrations/0007_validation_constraints.sql:7-9 | A good company stays; only a limit below one becomes one |
| Backfill.FixLetterIsExact | db/migrations/0007_validation_constraints.sql:29-31 | A good letter stays; job and time are kept, attempts go to the nearer bound |
| Backfill.FixKindIsExact | db/migrations/0007_validation_constraints.sql:15-16 | The first 100 characters of the cleaned kind, unless they are blank |
| Backfill.FixNameIsExact | db/migrations/0007_validation_constraints.sql:7-8 | The cleaned name, unless it is blank: then the word and the company's number |
| Backfill.StripIsExact | db/migrations/0007_validation_constraints.sql:7-7 | Exactly the control characters go |
| Backfill.TrimIsExact | db/migrations/0007_validation_constraints.sql:7-7 | Exactly the blanks at both ends go |
| Backfill.NothingToRepair | db/migrations/0007_validation_constraints.sql:7-44 | On rows that meet the constraints and are trimmed the statements change nothing |
| Decimal.DigitsAreDecimal | db/migrations/0007_validation_constraints.sql:8-8 | The digits of a number stand for it |
| Lifecycle.PayloadNamesTenant | worker/modules/jobs/processor.py:343-346 | Two tenants never get the same payload |
| Backfill.UpdateEmails | db/migrations/0007_validation_constraints.sql:11-12 | A row-by-row UPDATE of a UNIQUE column, in any order, goes through iff its outcome is unique |
| Backfill.FilledAreUnique | db/migrations/0007_validation_constraints.sql:11-12 | The exact condition under which the two email rewrites stay unique |
| Backfill.TrimmingCanCollide | db/migrations/0007_validation_constraints.sql:11-11 | Two emails that differ by a space stop the migration |
| Backfill.DeduplicationIsExact | db/migrations/0007_validation_constraints.sql:38-44 | Keeps, for each job, exactly the greatest (failed_at, id) letter, and every letter without a job |
| Backfill.FixKindIsOk | db/migrations/0007_validation_constraints.sql:15-16 | Any kind becomes one the new check accepts |
| Backfill.FixKindKeepsGood | db/migrations/0007_validation_constraints.sql:15-16 | A trimmed kind that the check accepts stays |
| Backfill.FixKeyIsOk | db/migrations/0007_validation_constraints.sql:18-24 | A key is kept iff the new check accepts it |
| Backfill.FixNameIsOk | db/migrations/0007_validation_constraints.sql:7-8 | Any company name becomes one the check accepts |
| Backfill.PlaceholdersDiffer | db/migrations/0007_validation_constraints.sql:12-12 | Different users get different placeholders |
| Backfill.Tenants.SanitizeEmails | db/migrations/0007_validation_constraints.sql:11-12 | The two rewrites under the UNIQUE constraint: all or nothing |
| Backfill.Tenants.SanitizeJobs | db/migrations/0007_validation_constraints.sql:15-36 | Kinds, attempts, keys and creators of jobs |
| Backfill.Tenants.SanitizeLetters | db/migrations/0007_validation_constraints.sql:29-44 | Kinds, attempts and duplicates of dead letters |

## Left out

- HTTP routing, request validation, authentication headers, the web application, metrics, logs, load tests: plumbing around the protocol.
- Connection pools, sockets, signals and real thread joins: threads are steps, notifications a queue a listener reads in order.
- An exception inside the transactions that end a claim (a lost connection while a failure is recorded): the worker process then ends, which is the step `Crash`, and the recovery takes the job.
- The handler's simulated work and its query of the company: any ending of the handler is allowed instead.
- trace_id, metadata, payload contents beyond the tenant they name, the wording of error messages.
- How long a lock is waited for: a step that finds the company's row locked stays where it is and can be tried again. A method of `Database.Relay` is its transaction up to the commit, which such a lock would keep it from; `Worker.AwaitCompanies` ends the wait by rolling back requests that are still there after the others' steps. `Database.Relay.CreateJob` covers the uncontended request.
- The second read that picks the error of a refused cancel or retry is taken in the snapshot of its UPDATE; a change in between may change the error named, not the effect.
- Partly executed non-transactional migrations (0012): their statements commit one by one, so nothing atomic can be said.
- Seed and benchmark rows written straight into the tables: the properties from any contents (`GuardMatchesOwnClaim`, `QuotaPlusResultsIsConstant`, the `Admission` results) cover them, those from an empty table do not.
- The unordered ties of the dead-letter listing, ordered by failed_at only, and its count.
- Indexes and query plans, and NOTIFY as a means against latency.
- Polling.IdleWait: sleeping is taken as exact and the clock as common to the worker and the database.
- GracefulShutdown.Gate.Drain: the timeout of the wait is not modelled; DrainedForGood speaks of a drain whose condition came true.
