# DJJob — a verified model of a database-backed delayed-job queue

DJJob keeps background jobs as rows of one SQL table, `jobs`. Producers add rows to a
named queue with `DJJob::enqueue` and `DJJob::bulkEnqueue`. Each row holds a serialized
handler object, a priority, an optional earliest start time (`run_at`), and
bookkeeping columns: `attempts`, `locked_at`/`locked_by`, `failed_at`/`error`.

A `DJWorker` polls its queue. Each poll selects up to five eligible rows, lowest
priority number first. A row is eligible when:
- it is due;
- it is unlocked, or its lock is more than four hours old, or the worker already holds it;
- it has not failed terminally.

The worker then claims the first of these rows whose conditional `UPDATE` still
matches, and runs the job. What happens to the row depends on the handler:
- It returns normally: the row is deleted.
- It throws a `DJRetryException`: the row is rescheduled (two hours by default),
  its handler is optionally replaced, and it is optionally charged one failed attempt.
- It throws any other `Exception`, or the handler does not deserialize: the row is
  charged one failed attempt.

When the attempts reach the worker's `max_attempts`, the row becomes terminally failed
and is never picked up again. `DJJob::status` reports, per queue, the number of rows in
total, locked, failed, and "outstanding" (the rest).

The model is split into four layers, plus a module of cross-operation properties:

- `Jobs` (`jobs.dfy`): the row and table datatypes (`Table = map<JobId, Job>`) and each
  SQL statement as a pure function. Each function returns the new table and the
  number of rows the statement changed, which is what PDO's `rowCount()` reports on
  MySQL. Also here: the claimability predicate shared
  by the `SELECT` and the lock `UPDATE`, the specification of a candidate selection,
  and the `status` counts.
- `Execution` (`execution.dfy`): `DJRetryException` as a datatype, the handler's
  behaviour as an `Outcome`, and `DJJob::run` as a function of the table.
- `Bulk` (`bulk.dfy`): the multi-row `INSERT` built by `bulkEnqueue`, with its
  placeholder binding. This is where the column-count mismatch under
  "## Findings" is shown.
- `Store` (`store.dfy`): the `jobs` table as a class `JobsTable` whose methods change
  the stored rows one statement at a time, as the PHP methods do. The worker's
  `getNewJob` and `start` loops are methods with loop invariants. The postcondition of
  every method except `Start` ties the new `rows` to the pure function of
  `Jobs`/`Execution` applied to the old rows. `Start` instead states a frame:
  - it inserts nothing;
  - it removes at most one row per job it runs, and never a row of another queue or
    a terminally failed row;
  - a row of another queue, or one already terminally failed, keeps every column
    except, at most, its lock columns.
  - a row it did not claim and run is kept, changed at most in its lock columns by
    the shutdown unlock, and not at all when no signal arrived;
  - it acts on the first termination signal it reaches: it releases the worker's
    locks and stops.
- `Properties` (`properties.dfy`): lemmas about sequences of statements:
  - mutual exclusion of the lock and stale-lock recovery;
  - attempt accounting and the outcome of each kind of run;
  - a job failing three times against a threshold of three;
  - a one-hour retry;
  - what `status` counts.

Conventions used throughout:
- The clock (`NOW()`) is a parameter `now : int`, in seconds.
- The time columns hold `Option<int>`.
- The worker's name (`host::… pid::…`) is a parameter.
- The serialized handler is a `string`.

## Model

| member | source | states |
|---|---|---|
| Jobs.SelectionEmptyIffNoneEligible | DJJob.php:126-148 | a selection is empty exactly when no row of the queue is eligible for this worker, and its head, when there is one, is eligible |
| Jobs.LowestPriorityExists | DJJob.php:128-139 | every nonempty set of rows has a row whose priority is no greater than any other's, so `ORDER BY priority` always has a first row |
| Jobs.SelectionDone | DJJob.php:128-139 | the scan that repeatedly takes a lowest-priority remaining row, stopped at five rows or when none remain, yields a selection of the query |
| Jobs.FirstTakenIsLowest | DJJob.php:141-146 | the first candidate whose lock statement changes its row has the lowest priority among all eligible rows the worker could lock |
| Jobs.CandidateLockFailsOnlyWhenSelfLocked | DJJob.php:141-148 | a candidate's lock statement fails exactly when the worker already locked that row in this second; if no eligible row is so locked, all candidates fail exactly when no row is eligible |
| Jobs.LockKeepsOthers | DJJob.php:231-246 | locking an eligible row of the worker's queue keeps the key set and changes no other row; every row of another queue and every terminally failed row keeps all but its lock columns; the locked row stays in that queue and unfailed |
| Jobs.UnlockAllKeepsOthers | DJJob.php:117-124 | the worker-wide unlock removes no row and changes no row outside its lock columns |
| Jobs.LockRow | DJJob.php:231-246 | the lock `UPDATE` matches exactly when the row exists, is not failed, and is unlocked, stale (locked strictly more than 14400 s ago) or held by the same worker; on a match only `locked_at := now` and `locked_by := worker` change, otherwise the table is unchanged; it reports one row exactly when it matches and the row did not already hold this worker and this second |
| Jobs.UnlockRow | DJJob.php:248-255 | the row's lock columns become NULL and nothing else changes; any other row is untouched; one row is reported exactly when the row was locked |
| Jobs.DeleteRow | DJJob.php:257-263 | the row with that id is removed and every other row is kept as it was |
| Jobs.RecordFailure | DJJob.php:266-280 | `attempts` goes up by one; `failed_at = now` and `error` are set exactly when the incremented attempts reach the threshold (MySQL evaluates the assignments left to right), and both are NULL otherwise; no other column changes |
| Jobs.RescheduleRow | DJJob.php:288-303 | `run_at` is set to the new time, `handler` is replaced only when a new one is given, and nothing else changes; one row is reported exactly when the row changed |
| Jobs.UnlockAllOf | DJJob.php:117-124 | exactly the rows locked by the worker are matched; each is unlocked with no other column changed; all other rows are untouched; afterwards the worker holds no row |
| Jobs.NewJob | DJJob.php:317-321 | an enqueued row starts with zero attempts, unlocked, not failed, with the given handler, queue, priority and `run_at`, and `created_at = now` |
| Jobs.InsertAllFresh | DJJob.php:331-342 | inserting a batch under fresh consecutive ids keeps every old row and adds exactly the batch, the k-th job under id `first + k` |
| Jobs.FinishWithErrorEffect | DJJob.php:265-283 | one more attempt; terminal failure (with `failed_at = now` and the error text) exactly when the attempts reach the threshold; the lock is released only when `unlock` is set and kept otherwise; every other column is kept |
| Jobs.RetryLaterEffect | DJJob.php:285-306 | `run_at` becomes `now + interval`, or `now + 7200` when no interval is given; the handler is replaced only when given; the lock is released only when `unlock` is set and kept otherwise; every other column (attempts, failure columns, queue, priority, creation time) is kept |
| Jobs.StatusOf | DJJob.php:355-374 | `total`, `failed` and `locked` count the queue's rows, with failed and locked each at most total, and `outstanding + locked + failed == total` |
| Execution.Digits | DJJob.php:195-196 | the job id's text in the bad-handler message is a nonempty string of digits with no leading zero unless the id is 0 |
| Execution.DigitsDenoteValue | DJJob.php:195-196 | that text is the decimal numeral of the id: read back as a number it gives the id |
| Execution.RunEffect | DJJob.php:191-229 | the run succeeds exactly when the row exists and the handler returned; success deletes that row, any other outcome keeps the key set; no other row changes; a row that survives its run is unlocked |
| Execution.RunKeepsOthers | DJJob.php:191-229 | running a live row of a queue removes or changes no other row; every row of another queue and every terminally failed row keeps all but its lock columns |
| Execution.RunKeepsSettled | DJJob.php:191-229 | a run never leaves a terminally failed row locked when none was before |
| Execution.RunKeepsWellFormed | DJJob.php:191-229 | a run keeps both lock columns set together and `failed_at` set exactly when `error` is |
| Bulk.BulkParameters | DJJob.php:335-341 | the parameter list has four entries per handler, and the entries for handler i are its serialized handler, the queue, the priority and `run_at`, in that order |
| Bulk.BulkInsert | DJJob.php:332-333 | the statement has one `(?, ?, ?, ?, NOW())` tuple per handler |
| Bulk.BindTuple | DJJob.php:332-333 | binding a tuple yields one value per cell |
| Bulk.BindAll | DJJob.php:332-333 | binding a statement yields one row of values per tuple |
| Bulk.Execute | DJJob.php:342 | the store inserts rows exactly when the statement has at least one tuple, the parameter count equals the placeholder count, and every tuple has one value per named column; each tuple then gives one row |
| Bulk.TuplePlaceholders | DJJob.php:333 | each values tuple has four placeholders |
| Bulk.RepeatedPlaceholders | DJJob.php:332-333 | n tuples have 4·n placeholders, whichever column list is named |
| Bulk.AsWrittenBulkInsertRejected | DJJob.php:331-342 | with the column list as written (four columns) and tuples of five values, the statement is rejected for every batch, by a column-count mismatch whenever the batch is nonempty |
| Bulk.BindValuesTuple | DJJob.php:333 | a tuple binds its four parameters in order, followed by the current time |
| Bulk.BindRepeated | DJJob.php:332-341 | binding n tuples against 4·n parameters gives, for tuple i, parameters 4i to 4i+3 followed by the current time |
| Bulk.CorrectedBulkInsertBindsEnqueueRows | DJJob.php:317-342 | with the priority column named, a nonempty batch inserts one row per handler, and row i holds exactly what `enqueue` would have inserted for handler i |
| Bulk.EnqueueInsertIsSingleBulkInsert | DJJob.php:317-321 | the single-row `enqueue` insert binds to the same values as a one-tuple corrected bulk insert |
| Store.Landed | DJJob.php:342-352 | the affected-row count of a batch is at most the batch size |
| Store.AdmittedJobs | DJJob.php:331-342 | the inserted rows are as many as the store admitted, and each is the enqueue row of one of the batch's handlers |
| Store.JobsTable.constructor | test/database.php:11-23 | the table starts empty, with the next id 1 (`AUTO_INCREMENT`) |
| Store.JobsTable.AcquireLock | DJJob.php:231-246 | returns true exactly when the lock `UPDATE` changes the row: claimable by this worker now and not already locked by it in this second; the rows become those of the lock `UPDATE` |
| Store.JobsTable.ReleaseLock | DJJob.php:248-255 | the rows become those of the unlock `UPDATE` |
| Store.JobsTable.Finish | DJJob.php:257-263 | the rows become those of the `DELETE` |
| Store.JobsTable.FinishWithError | DJJob.php:265-283 | the rows become those of the failure `UPDATE` followed, when `unlock` is set, by the unlock |
| Store.JobsTable.RetryLater | DJJob.php:285-306 | the rows become those of the reschedule `UPDATE` followed, when `unlock` is set, by the unlock |
| Store.JobsTable.Run | DJJob.php:191-229 | the rows and the returned flag are those of `RunEffect`; a settled table stays settled |
| Store.JobsTable.Enqueue | DJJob.php:317-329 | returns true exactly when the store admitted the row; then the new row, under a fresh id, is the enqueue row; otherwise nothing changes |
| Store.JobsTable.BulkEnqueue | DJJob.php:331-353 | with the column list corrected (see Findings): returns true exactly when at least one row landed (a partial batch also returns true); the admitted rows are added under consecutive fresh ids |
| Store.JobsTable.ReleaseLocks | DJJob.php:117-124 | the rows become those of the worker-wide unlock; a settled table stays settled |
| Store.JobsTable.SelectCandidates | DJJob.php:128-139 | the result is min(5, number of eligible rows) distinct eligible ids in nondecreasing priority, none of higher priority number than an eligible row left out |
| Store.JobsTable.ClaimFirst | DJJob.php:141-148 | returns the first candidate whose lock `UPDATE` reports a changed row, with the rows locked by that statement; when there is none, returns nothing and changes nothing |
| Store.JobsTable.GetNewJob | DJJob.php:126-148 | the candidates are a selection of the query; it returns nothing exactly when every candidate is already locked by this worker in this second (in particular when no row is eligible), and then changes nothing; otherwise it returns the first candidate that is not already so locked, an eligible row of minimal priority among the eligible rows it could lock, now locked by this worker; when no eligible row is locked by this worker in this second, it returns nothing exactly when no row is eligible |
| Store.JobsTable.Start | DJJob.php:105-177 | runs at most `count` polls (unbounded when `count` is 0, none when it is negative), with no more jobs run than polls; every event it polls is a tick, so a pending termination signal is always acted on: it then stops, and no row stays locked by the worker; it inserts no row; every row it did not claim and run is still present, changed at most in its lock columns and, without a signal, not at all; the rows it ran are at most one per job, so at most that many rows are removed; rows of other queues and terminally failed rows keep every column but the lock columns; a settled table stays settled |
| Properties.LockExcludesOtherWorkers | DJJob.php:231-246 | once worker A holds the lock, worker B's lock statement matches nothing and changes nothing until the lock is older than 14400 s |
| Properties.StaleLockIsReclaimable | DJJob.php:231-246 | a lock older than 14400 s is taken over by any worker |
| Properties.OwnerMayRelock | DJJob.php:126-246 | the lock holder can claim its own row again in any later second |
| Properties.SameSecondRelockReportsNothing | DJJob.php:231-246 | in the same second the holder's lock statement changes nothing and reports no row, so `acquireLock` answers false while the lock stays with that worker |
| Properties.UnlockUndoesLock | DJJob.php:231-255 | locking an unlocked row and releasing it restores the table |
| Properties.FailedRowIsNeverClaimed | DJJob.php:128-139 | a terminally failed row is never selected and never locked |
| Properties.RetryDefersEligibility | DJJob.php:285-306 | after a retry with delay d the row is not eligible before `now + d`, and is eligible from then on if it is not failed |
| Properties.RunRetryOutcome | DJJob.php:207-220 | on a retry signal the row is rescheduled and unlocked, and its handler is replaced exactly when the signal asks; without the failure flag, attempts and failure columns are kept; with it, one attempt is charged and the row is terminal exactly when the attempts reach the threshold |
| Properties.RunFailureOutcome | DJJob.php:191-228 | on a bad handler or an exception, one attempt is charged; the row is terminal, with the failure text, exactly when the attempts reach the threshold; its schedule and handler are kept and it is unlocked |
| Properties.RunChargesOneAttemptPerFailure | DJJob.php:191-229 | a run removes the row exactly when the handler returned; otherwise attempts rise by exactly one on a failure path and by none on a plain retry |
| Properties.ThirdFailureIsTerminal | DJJob.php:191-229 | with threshold 3, three failing runs leave attempts 1 and 2 unfailed, then 3 failed with the last error, after which no worker can claim the row |
| Properties.HourRetryScenario | DJJob.php:207-220 | a one-hour retry without the failure flag keeps attempts, unlocks the row, and makes it claimable by any worker exactly from `now + 3600` |
| Properties.ReleasedRowsAreClaimable | DJJob.php:117-124 | after shutdown every unfailed row the worker held is claimable by any worker at once |
| Properties.StatusOfEmptyQueue | DJJob.php:355-374 | a queue with no rows reports zero for all four counts |
| Properties.StatusCountsIdleRows | DJJob.php:355-374 | when no failed row is locked, `outstanding` is the number of rows that are neither failed nor locked, so it is never negative |
| Properties.InsertRaisesStatus | DJJob.php:317-374 | enqueueing one row raises its queue's `total` and `outstanding` by one and leaves `locked` and `failed` unchanged |
| Properties.InsertAllRaisesTotal | DJJob.php:331-374 | a batch of k fresh idle rows of a queue raises its `total` and `outstanding` by k |
| Properties.BatchOfThreeWithTwoAdmitted | DJJob.php:331-374 | a batch of three of which two are admitted reports success and raises the queue's total by two |

## Left out

- Connection handling, configuration and logging (`DJBase`): the model has no PDO, no
  DSN and no log. Store errors and the exceptions they raise are not modelled.
  The connection is in exception mode (`DJJob.php:48`), so a refused `INSERT` raises
  before `enqueue` tests its row count (`DJJob.php:323`). In `Store.JobsTable.Enqueue`,
  `admitted = false` stands for a store that reports no row without raising; there the
  model returns false and changes nothing, and a refusal that raises is not modelled.
- The worker's name is a parameter. The model does not build it from the host name
  and process id.
- Signal handling and `sleep`: a termination signal is an event in the script that
  `Start` consumes. On that event `Start` releases the worker's locks and stops, as
  `handleSignal` does. The sleep between empty polls has no effect on the table and is
  left out.
- Default arguments are not modelled; every caller passes every argument explicitly.
  This covers the worker options (queue `default`, count 0, sleep 5, max_attempts 5),
  the `$queue`, `$run_at` and `$priority` defaults of `enqueue`, `bulkEnqueue` and
  `status`, and the `$unlock = true` default of `finishWithError` and `retryLater`.
  Only `max_attempts` 5 appears, as `DefaultMaxAttempts`.
- `Store.JobsTable.Start`: its events come from a finite script, so an unbounded
  worker (`count` 0) is modelled only up to the end of the script. The catch-all
  exception handler around the loop is not modelled.
- PHP `Error`s: `run` catches only `Exception` (`DJJob.php:222`). An `Error` thrown by
  `perform()` escapes `start` as well and leaves the row locked until its lock is
  stale. The model's outcomes are a return, a retry signal, an `Exception` or a bad
  handler.
- `serialize`/`unserialize` and `getHandler`: handlers are opaque strings, and a
  run is given the handler's behaviour as an `Outcome`. The bad-handler case covers a
  missing row or a value that is not an object. `Threw` carries the
  `"<message> (<file>:<line>)"` text already formatted.
- `Store.JobsTable.SelectCandidates`: the `RAND()` tie-break among equal priorities is
  a nondeterministic choice of any lowest-priority row. The contract states only what
  holds for every such choice.
- `RetryLaterEffect`: the interval is a number of seconds. The source splices a MySQL
  interval expression (such as `'2 HOUR'`) into the SQL text, and the model does not
  parse that text.
- Concurrency: statements of different workers are not interleaved inside one
  `getNewJob`. So after `SelectCandidates`, every candidate still meets the lock
  condition, and a lock statement fails only on a row that the same worker locked in
  the same second.
  Races between workers are stated instead as properties of consecutive lock
  statements (`Properties.LockExcludesOtherWorkers`).
- `NOW()` is one value for a whole operation. A statement that calls it twice sees
  the same time twice. In `Store.JobsTable.Start` one event's time serves both the
  claim and the run, so `perform()` takes no time, and `run_at` and `failed_at` are
  computed from the claim time rather than from the time the run ends.
- `Store.JobsTable.BulkEnqueue` models the statement with its column list corrected.
  As written, every call raises (see "## Findings" and
  `Bulk.AsWrittenBulkInsertRejected`), because the connection is in exception mode
  (`DJJob.php:48`). So the source never reaches its return rule. The model also returns
  false for an empty batch without sending a statement, where in the source the empty
  `VALUES` list is a syntax error that the store raises. Which tuples of a batch land
  is a parameter `landed`.
- `Properties.LockExcludesOtherWorkers`, `Jobs.LockRow`, `Jobs.UnlockAllOf`,
  `Jobs.EligibleIds` and `Jobs.StatusOf` compare worker and queue names with exact
  string equality. MySQL's `=` follows the column collation, and the default
  collations are case-insensitive. So in the store, two worker names that differ only
  in letter case share each other's locks, and queue names match regardless of case.
  The exclusion lemma holds in the store only for names that differ under the
  collation. The model does not capture collations.
- The schema file of the repository's tests has no `priority` column. The model
  follows the queries in `DJJob.php`, which all use one.
- `DJRetryException`: the retry signal has no "keep the lock" field. The lock is kept
  only while the attempt is also charged as a failure (`unlock = !is_failure`), and
  `finishWithError` then releases it. This follows `DJJob.php:207-220`.

## Findings

| source | as written | input that shows it | evidently intended | confidence | as-written member | corrected member |
|---|---|---|---|---|---|---|
| DJJob.php:332-333 | `bulkEnqueue` names four columns `(handler, queue, run_at, created_at)` but every tuple is `(?, ?, ?, ?, NOW())` with five values, and the priority is bound as the third parameter | any nonempty batch, e.g. one handler: 4 columns, 5 values per row, so MySQL rejects the statement with a column-count error | name the priority column, `(handler, queue, priority, run_at, created_at)`, as `enqueue` does | high, not executed | Bulk.AsWrittenBulkInsertRejected | Bulk.CorrectedBulkInsertBindsEnqueueRows |
