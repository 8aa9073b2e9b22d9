/**
 * The `jobs` table of the delayed-job queue and the effect of every SQL
 * statement the queue issues against it.  Each statement is one atomic
 * transition of the table; it yields the new table together with the number
 * of rows it changed.  That is what `runUpdate` hands back to its caller:
 * PDO's `rowCount()` on MySQL counts changed rows, not matched ones, unless the
 * connection asks for found rows, and the connection here never does.
 */
module Jobs {

  datatype Option<T> = None | Some(value: T)

  type JobId = nat

  /** Timestamps and durations, in seconds. */
  type Time = int

  /** A serialized handler: opaque to the queue. */
  type Payload = string

  /** `INTERVAL 4 HOUR`: a lock older than this may be taken over by anyone. */
  const StaleLockWindow: int := 14400

  /** `'2 HOUR'`: the delay `retryLater` uses when none is given. */
  const DefaultRetryInterval: int := 7200

  /** `LIMIT 5` of the candidate query. */
  const CandidateLimit: nat := 5

  /** `max_attempts` default of the worker and job options. */
  const DefaultMaxAttempts: int := 5

  datatype Job = Job(
    handler: Payload,
    queue: string,
    priority: int,
    attempts: nat,
    runAt: Option<Time>,
    lockedAt: Option<Time>,
    lockedBy: Option<string>,
    failedAt: Option<Time>,
    error: Option<string>,
    createdAt: Time)

  type Table = map<JobId, Job>

  /** A statement's new table and its affected-row (changed-row) count. */
  datatype Update = Update(table: Table, affected: nat)

  /** What `status` reports for one queue. */
  datatype QueueStatus = QueueStatus(outstanding: int, locked: nat, failed: nat, total: nat)

  // ---------------------------------------------------------------------
  // Row predicates
  // ---------------------------------------------------------------------

  /** `locked_at IS NULL OR locked_at < NOW() - 4 HOUR OR locked_by = worker` */
  predicate LockOpen(j: Job, worker: string, now: Time) {
    || j.lockedAt.None?
    || j.lockedAt.value < now - StaleLockWindow
    || j.lockedBy == Some(worker)
  }

  /** The row condition of the lock statement: lock open and not terminally failed. */
  predicate Claimable(j: Job, worker: string, now: Time) {
    LockOpen(j, worker, now) && j.failedAt.None?
  }

  /** `run_at IS NULL OR NOW() >= run_at` */
  predicate Due(j: Job, now: Time) {
    j.runAt.None? || now >= j.runAt.value
  }

  /** The WHERE clause of the candidate query. */
  predicate Eligible(j: Job, queue: string, worker: string, now: Time) {
    j.queue == queue && Due(j, now) && Claimable(j, worker, now)
  }

  /** The lock statement would write what the row already holds: this worker locked it
      in this very second. */
  predicate LockedAtBy(j: Job, worker: string, now: Time) {
    j.lockedAt == Some(now) && j.lockedBy == Some(worker)
  }

  /** The lock statement on row `id` reports one changed row. */
  predicate LockTakes(t: Table, id: JobId, worker: string, now: Time) {
    id in t && Claimable(t[id], worker, now) && !LockedAtBy(t[id], worker, now)
  }

  predicate Unlocked(j: Job) {
    j.lockedAt.None? && j.lockedBy.None?
  }

  /** `b` differs from `a` at most in the two lock columns. */
  predicate LockFieldsOnly(a: Job, b: Job) {
    b == a.(lockedAt := b.lockedAt, lockedBy := b.lockedBy)
  }

  /** Shape every row keeps: lock columns are set and cleared together, and so are
      `failed_at` and `error`. */
  predicate RowWellFormed(j: Job) {
    (j.lockedAt.Some? <==> j.lockedBy.Some?) && (j.failedAt.Some? <==> j.error.Some?)
  }

  ghost predicate WellFormed(t: Table) {
    forall id :: id in t ==> RowWellFormed(t[id])
  }

  /** The lifecycle invariant: a terminally failed row is never also locked, so every
      row is exactly one of pending, locked, rescheduled or failed. */
  ghost predicate Settled(t: Table) {
    forall id :: id in t ==> (t[id].failedAt.Some? ==> t[id].lockedAt.None?)
  }

  ghost predicate SameOutside(t: Table, u: Table, id: JobId) {
    forall k :: k in t && k != id ==> k in u && u[k] == t[k]
  }

  /** `u` has no row `t` lacks, and keeps every row of `t` that lies outside `queue` or
      has terminally failed, changing at most its lock columns: what a worker on
      `queue` may do to the rest of the table. */
  ghost predicate KeepsOthers(t: Table, u: Table, queue: string) {
    && u.Keys <= t.Keys
    && forall id :: id in t && (t[id].queue != queue || t[id].failedAt.Some?) ==>
         id in u && LockFieldsOnly(t[id], u[id])
  }

  lemma KeepsOthersTransitive(a: Table, b: Table, c: Table, queue: string)
    requires KeepsOthers(a, b, queue) && KeepsOthers(b, c, queue)
    ensures KeepsOthers(a, c, queue)
  {
    forall id | id in a && (a[id].queue != queue || a[id].failedAt.Some?)
      ensures id in c && LockFieldsOnly(a[id], c[id])
    {
      assert b[id].queue == a[id].queue && b[id].failedAt == a[id].failedAt;
    }
  }

  /** Every row of `t` outside `ran` is still in `u`, unchanged. */
  ghost predicate UntouchedOutside(t: Table, u: Table, ran: set<JobId>) {
    forall id :: id in t && id !in ran ==> id in u && u[id] == t[id]
  }

  /** Every row of `t` outside `ran` is still in `u`, changed at most in its lock columns. */
  ghost predicate LockOnlyOutside(t: Table, u: Table, ran: set<JobId>) {
    forall id :: id in t && id !in ran ==> id in u && LockFieldsOnly(t[id], u[id])
  }

  /** A lock followed by a run of row `id` touches no row but `id`. */
  lemma UntouchedStep(t: Table, before: Table, locked: Table, after: Table, id: JobId, ran: set<JobId>)
    requires UntouchedOutside(t, before, ran)
    requires SameOutside(before, locked, id) && SameOutside(locked, after, id)
    ensures UntouchedOutside(t, after, ran + {id})
    ensures |ran + {id}| <= |ran| + 1
  {
  }

  /** Only rows in `ran` can be missing from `u`, so at most `|ran|` rows are. */
  lemma UntouchedBoundsRemoved(t: Table, u: Table, ran: set<JobId>)
    requires LockOnlyOutside(t, u, ran)
    ensures |t.Keys - u.Keys| <= |ran|
  {
    assert t.Keys - u.Keys <= ran;
    SubsetCard(t.Keys - u.Keys, ran);
  }

  // ---------------------------------------------------------------------
  // Candidate selection
  // ---------------------------------------------------------------------

  function EligibleIds(t: Table, queue: string, worker: string, now: Time): set<JobId> {
    set id | id in t && Eligible(t[id], queue, worker, now)
  }

  function Min(a: nat, b: nat): nat {
    if a <= b then a else b
  }

  /** `cands` is a possible result of
      `SELECT id ... ORDER BY priority, RAND() LIMIT 5`: the eligible rows of lowest
      priority, as many as there are up to five, in nondecreasing priority. */
  ghost predicate IsSelection(t: Table, queue: string, worker: string, now: Time, cands: seq<JobId>) {
    var pool := EligibleIds(t, queue, worker, now);
    && |cands| == Min(CandidateLimit, |pool|)
    && (forall i :: 0 <= i < |cands| ==> cands[i] in pool)
    && (forall i, j :: 0 <= i < j < |cands| ==> cands[i] != cands[j])
    && (forall i, j :: 0 <= i < j < |cands| ==> t[cands[i]].priority <= t[cands[j]].priority)
    && (forall i, id :: 0 <= i < |cands| && id in pool && id !in cands ==>
          t[cands[i]].priority <= t[id].priority)
  }

  /** The query returns some candidate exactly when some row is eligible. */
  lemma SelectionEmptyIffNoneEligible(t: Table, queue: string, worker: string, now: Time, cands: seq<JobId>)
    requires IsSelection(t, queue, worker, now, cands)
    ensures cands == [] <==> EligibleIds(t, queue, worker, now) == {}
    ensures cands != [] ==> cands[0] in EligibleIds(t, queue, worker, now)
  {
  }

  /** The state of the `ORDER BY priority LIMIT 5` scan: `cands` holds the rows of `pool`
      taken so far, in nondecreasing priority, and `rest` those not yet taken, none of
      lower priority than a row already taken. */
  ghost predicate SelectionSoFar(t: Table, pool: set<JobId>, rest: set<JobId>, cands: seq<JobId>) {
    && rest <= pool <= t.Keys
    && |cands| + |rest| == |pool|
    && (forall i :: 0 <= i < |cands| ==> cands[i] in pool && cands[i] !in rest)
    && (forall id :: id in pool && id !in rest ==> id in cands)
    && (forall i, j :: 0 <= i < j < |cands| ==> cands[i] != cands[j])
    && (forall i, j :: 0 <= i < j < |cands| ==> t[cands[i]].priority <= t[cands[j]].priority)
    && (forall i, id :: 0 <= i < |cands| && id in rest ==> t[cands[i]].priority <= t[id].priority)
  }

  /** Taking a lowest-priority row of `rest` next keeps the scan ordered. */
  lemma SelectionStep(t: Table, pool: set<JobId>, rest: set<JobId>, cands: seq<JobId>, id: JobId)
    requires SelectionSoFar(t, pool, rest, cands)
    requires id in rest && forall o :: o in rest ==> t[id].priority <= t[o].priority
    ensures SelectionSoFar(t, pool, rest - {id}, cands + [id])
  {
    var c := cands + [id];
    assert forall i :: 0 <= i < |cands| ==> c[i] == cands[i];
    assert c[|cands|] == id;
  }

  /** A scan stopped at the limit or on an empty remainder is a selection. */
  lemma SelectionDone(t: Table, queue: string, worker: string, now: Time, rest: set<JobId>, cands: seq<JobId>)
    requires SelectionSoFar(t, EligibleIds(t, queue, worker, now), rest, cands)
    requires |cands| <= CandidateLimit && (|cands| == CandidateLimit || rest == {})
    ensures IsSelection(t, queue, worker, now, cands)
  {
  }

  /** The first candidate whose lock statement changes its row has the lowest priority
      among all eligible rows whose lock statement would change them. */
  lemma FirstTakenIsLowest(t: Table, queue: string, worker: string, now: Time, cands: seq<JobId>, i: nat)
    requires IsSelection(t, queue, worker, now, cands)
    requires i < |cands| && LockTakes(t, cands[i], worker, now)
    requires forall k :: 0 <= k < i ==> !LockTakes(t, cands[k], worker, now)
    ensures forall o :: o in EligibleIds(t, queue, worker, now) && !LockedAtBy(t[o], worker, now) ==>
      t[cands[i]].priority <= t[o].priority
  {
    forall o | o in EligibleIds(t, queue, worker, now) && !LockedAtBy(t[o], worker, now)
      ensures t[cands[i]].priority <= t[o].priority
    {
      if o in cands {
        var j :| 0 <= j < |cands| && cands[j] == o;
        assert LockTakes(t, cands[j], worker, now);
        if i < j { assert t[cands[i]].priority <= t[cands[j]].priority; }
      }
    }
  }

  /** A candidate's lock statement fails only when this worker already locked the row in
      this second; so, when none is, the lock statements all fail exactly when no row is
      eligible. */
  lemma CandidateLockFailsOnlyWhenSelfLocked(t: Table, queue: string, worker: string, now: Time, cands: seq<JobId>)
    requires IsSelection(t, queue, worker, now, cands)
    ensures forall i :: 0 <= i < |cands| ==> (LockTakes(t, cands[i], worker, now) <==> !LockedAtBy(t[cands[i]], worker, now))
    ensures (forall o :: o in EligibleIds(t, queue, worker, now) ==> !LockedAtBy(t[o], worker, now))
            ==> ((forall i :: 0 <= i < |cands| ==> LockedAtBy(t[cands[i]], worker, now))
                 <==> EligibleIds(t, queue, worker, now) == {})
  {
    SelectionEmptyIffNoneEligible(t, queue, worker, now, cands);
  }

  /** Every non-empty set of rows has one of lowest priority. */
  lemma {:induction false} LowestPriorityExists(t: Table, s: set<JobId>)
    requires s != {} && s <= t.Keys
    ensures exists id :: id in s && forall o :: o in s ==> t[id].priority <= t[o].priority
  {
    var x :| x in s;
    if s != {x} {
      var rest := s - {x};
      LowestPriorityExists(t, rest);
      var y :| y in rest && forall o :: o in rest ==> t[y].priority <= t[o].priority;
      if t[x].priority <= t[y].priority {
        assert forall o :: o in s ==> t[x].priority <= t[o].priority;
      } else {
        assert forall o :: o in s ==> t[y].priority <= t[o].priority;
      }
    }
  }

  // ---------------------------------------------------------------------
  // Statements
  // ---------------------------------------------------------------------

  /** `UPDATE jobs SET locked_at = NOW(), locked_by = ? WHERE id = ? AND <lock open>
      AND failed_at IS NULL` (acquireLock). */
  function LockRow(t: Table, id: JobId, worker: string, now: Time): (u: Update)
    ensures u.affected == 1 <==> LockTakes(t, id, worker, now)
    ensures u.affected <= 1
    ensures u.table.Keys == t.Keys && SameOutside(t, u.table, id)
    ensures id in t && Claimable(t[id], worker, now) ==>
      && LockFieldsOnly(t[id], u.table[id])
      && u.table[id].lockedAt == Some(now)
      && u.table[id].lockedBy == Some(worker)
    ensures !(id in t && Claimable(t[id], worker, now)) ==> u.table == t
    ensures u.affected == 0 ==> u.table == t
  {
    if id in t && Claimable(t[id], worker, now) then
      var row := t[id].(lockedAt := Some(now), lockedBy := Some(worker));
      assert row == t[id] <==> LockedAtBy(t[id], worker, now);
      Update(t[id := row], if row == t[id] then 0 else 1)
    else
      Update(t, 0)
  }

  /** `UPDATE jobs SET locked_at = NULL, locked_by = NULL WHERE id = ?` (releaseLock). */
  function UnlockRow(t: Table, id: JobId): (u: Update)
    ensures u.affected == if id in t && !Unlocked(t[id]) then 1 else 0
    ensures u.table.Keys == t.Keys && SameOutside(t, u.table, id)
    ensures id in t ==> Unlocked(u.table[id]) && LockFieldsOnly(t[id], u.table[id])
  {
    if id in t then Update(t[id := t[id].(lockedAt := None, lockedBy := None)], if Unlocked(t[id]) then 0 else 1)
    else Update(t, 0)
  }

  /** `DELETE FROM jobs WHERE id = ?` (finish). */
  function DeleteRow(t: Table, id: JobId): (u: Update)
    ensures u.affected == if id in t then 1 else 0
    ensures u.table.Keys == t.Keys - {id}
    ensures forall k :: k in u.table ==> u.table[k] == t[k]
  {
    Update(t - {id}, if id in t then 1 else 0)
  }

  /** `UPDATE jobs SET attempts = attempts + 1, failed_at = IF(attempts >= ?, NOW(), NULL),
      error = IF(attempts >= ?, ?, NULL) WHERE id = ?` (finishWithError).
      MySQL evaluates the assignments of a single-table UPDATE from left to right, so both
      IF tests read the already incremented `attempts`; the body applies the three
      assignments in that order. */
  function RecordFailure(t: Table, id: JobId, maxAttempts: int, error: string, now: Time): (u: Update)
    ensures u.affected == if id in t then 1 else 0
    ensures u.table.Keys == t.Keys && SameOutside(t, u.table, id)
    ensures id in t ==>
      var (was, row) := (t[id], u.table[id]);
      && row.attempts == was.attempts + 1
      && (row.attempts >= maxAttempts ==> row.failedAt == Some(now) && row.error == Some(error))
      && (row.attempts < maxAttempts ==> row.failedAt.None? && row.error.None?)
      && row == was.(attempts := row.attempts, failedAt := row.failedAt, error := row.error)
  {
    if id in t then
      var r0 := t[id];
      var r1 := r0.(attempts := r0.attempts + 1);
      var r2 := r1.(failedAt := if r1.attempts >= maxAttempts then Some(now) else None);
      var r3 := r2.(error := if r2.attempts >= maxAttempts then Some(error) else None);
      Update(t[id := r3], 1)
    else
      Update(t, 0)
  }

  /** The two statements of retryLater: `SET run_at = DATE_ADD(NOW(), INTERVAL ...)`, with
      `handler = ?` added when a replacement handler is given. */
  function RescheduleRow(t: Table, id: JobId, runAt: Time, handler: Option<Payload>): (u: Update)
    ensures u.table.Keys == t.Keys && SameOutside(t, u.table, id)
    ensures id in t ==>
      var (was, row) := (t[id], u.table[id]);
      && row.runAt == Some(runAt)
      && row.handler == (if handler.Some? then handler.value else was.handler)
      && row == was.(runAt := row.runAt, handler := row.handler)
    ensures u.affected == if id in t && u.table[id] != t[id] then 1 else 0
  {
    if id !in t then Update(t, 0)
    else
      var row := if handler.Some? then t[id].(runAt := Some(runAt), handler := handler.value)
                 else t[id].(runAt := Some(runAt));
      Update(t[id := row], if row == t[id] then 0 else 1)
  }

  /** Locking an eligible row of `queue` changes no other row, and stays within what
      `KeepsOthers` allows a worker on `queue`. */
  lemma LockKeepsOthers(t: Table, id: JobId, worker: string, now: Time, queue: string)
    requires id in EligibleIds(t, queue, worker, now)
    ensures LockRow(t, id, worker, now).table.Keys == t.Keys
    ensures SameOutside(t, LockRow(t, id, worker, now).table, id)
    ensures KeepsOthers(t, LockRow(t, id, worker, now).table, queue)
    ensures var row := LockRow(t, id, worker, now).table[id]; row.queue == queue && row.failedAt.None?
  {
  }

  /** The rows whose lock names `worker`. */
  function HeldBy(t: Table, worker: string): set<JobId> {
    set id | id in t && t[id].lockedBy == Some(worker)
  }

  /** `UPDATE jobs SET locked_at = NULL, locked_by = NULL WHERE locked_by = ?` (releaseLocks). */
  function UnlockAllOf(t: Table, worker: string): (u: Update)
    ensures u.affected == |HeldBy(t, worker)|
    ensures u.table.Keys == t.Keys
    ensures forall id :: id in t && t[id].lockedBy == Some(worker) ==>
      Unlocked(u.table[id]) && LockFieldsOnly(t[id], u.table[id])
    ensures forall id :: id in t && t[id].lockedBy != Some(worker) ==> u.table[id] == t[id]
    ensures HeldBy(u.table, worker) == {}
  {
    var t' := map id | id in t :: if t[id].lockedBy == Some(worker)
                                  then t[id].(lockedAt := None, lockedBy := None) else t[id];
    assert forall id :: id in t' ==> t'[id].lockedBy != Some(worker);
    Update(t', |HeldBy(t, worker)|)
  }

  lemma UnlockAllKeepsOthers(t: Table, worker: string, queue: string)
    ensures KeepsOthers(t, UnlockAllOf(t, worker).table, queue)
  {
  }

  /** The worker-wide unlock after steps that touched only the rows in `ran` leaves
      every other row of `t` changed at most in its lock columns. */
  lemma UnlockAllKeepsLockOnly(t: Table, before: Table, worker: string, ran: set<JobId>)
    requires UntouchedOutside(t, before, ran)
    ensures LockOnlyOutside(t, UnlockAllOf(before, worker).table, ran)
  {
  }

  /** The row `INSERT INTO jobs (handler, queue, priority, run_at, created_at)
      VALUES(?, ?, ?, ?, NOW())` creates; the other columns take their defaults. */
  function NewJob(handler: Payload, queue: string, priority: int, runAt: Option<Time>, now: Time): (j: Job)
    ensures j.attempts == 0 && Unlocked(j) && j.failedAt.None? && j.error.None?
    ensures j.handler == handler && j.queue == queue && j.priority == priority && j.runAt == runAt && j.createdAt == now
    ensures RowWellFormed(j)
  {
    Job(handler, queue, priority, 0, runAt, None, None, None, None, now)
  }

  /** A multi-row INSERT: the rows take consecutive auto-increment ids from `first`. */
  function InsertAll(t: Table, first: JobId, js: seq<Job>): Table
    decreases |js|
  {
    if js == [] then t else InsertAll(t[first := js[0]], first + 1, js[1..])
  }

  lemma {:induction false} InsertAllFresh(t: Table, first: JobId, js: seq<Job>)
    requires forall id :: id in t ==> id < first
    ensures forall id :: id in InsertAll(t, first, js) <==> id in t || first <= id < first + |js|
    ensures forall id :: id in t ==> InsertAll(t, first, js)[id] == t[id]
    ensures forall id :: id in InsertAll(t, first, js) && id !in t ==> InsertAll(t, first, js)[id] == js[id - first]
    decreases |js|
  {
    if js != [] {
      var t1 := t[first := js[0]];
      InsertAllFresh(t1, first + 1, js[1..]);
      var u := InsertAll(t, first, js);
      assert u == InsertAll(t1, first + 1, js[1..]);
      forall id | id in u && id !in t
        ensures u[id] == js[id - first]
      {
        if id != first {
          assert js[1..][id - (first + 1)] == js[id - first];
        }
      }
    }
  }

  // ---------------------------------------------------------------------
  // Composite effects of the job operations
  // ---------------------------------------------------------------------

  /** finishWithError: the failure row update, then releaseLock when `unlock`. */
  function FinishWithErrorEffect(t: Table, id: JobId, maxAttempts: int, error: string,
                                 unlock: bool, now: Time): (t': Table)
    ensures t'.Keys == t.Keys && SameOutside(t, t', id)
    ensures id in t ==>
      var (was, row) := (t[id], t'[id]);
      && row.attempts == was.attempts + 1
      && (row.failedAt.Some? <==> row.attempts >= maxAttempts)
      && (row.attempts >= maxAttempts ==> row.failedAt == Some(now) && row.error == Some(error))
      && (row.attempts < maxAttempts ==> row.error.None?)
      && (unlock ==> Unlocked(row))
      && (!unlock ==> row.lockedAt == was.lockedAt && row.lockedBy == was.lockedBy)
      && row == was.(attempts := row.attempts, failedAt := row.failedAt, error := row.error,
                     lockedAt := row.lockedAt, lockedBy := row.lockedBy)
  {
    var u := RecordFailure(t, id, maxAttempts, error, now).table;
    if unlock then UnlockRow(u, id).table else u
  }

  function IntervalOrDefault(interval: Option<int>): int {
    if interval.Some? then interval.value else DefaultRetryInterval
  }

  /** retryLater: reschedule, optionally replace the handler, then releaseLock when `unlock`. */
  function RetryLaterEffect(t: Table, id: JobId, interval: Option<int>, handler: Option<Payload>,
                            unlock: bool, now: Time): (t': Table)
    ensures t'.Keys == t.Keys && SameOutside(t, t', id)
    ensures id in t ==>
      var (was, row) := (t[id], t'[id]);
      && (interval.Some? ==> row.runAt == Some(now + interval.value))
      && (interval.None? ==> row.runAt == Some(now + DefaultRetryInterval))
      && row.handler == (if handler.Some? then handler.value else was.handler)
      && (unlock ==> Unlocked(row))
      && (!unlock ==> row.lockedAt == was.lockedAt && row.lockedBy == was.lockedBy)
      && row == was.(runAt := row.runAt, handler := row.handler, lockedAt := row.lockedAt, lockedBy := row.lockedBy)
  {
    var u := RescheduleRow(t, id, now + IntervalOrDefault(interval), handler).table;
    if unlock then UnlockRow(u, id).table else u
  }

  // ---------------------------------------------------------------------
  // Status
  // ---------------------------------------------------------------------

  function QueueRows(t: Table, queue: string): set<JobId> {
    set id | id in t && t[id].queue == queue
  }

  function FailedRows(t: Table, queue: string): set<JobId> {
    set id | id in t && t[id].queue == queue && t[id].failedAt.Some?
  }

  function LockedRows(t: Table, queue: string): set<JobId> {
    set id | id in t && t[id].queue == queue && t[id].lockedAt.Some?
  }

  /** Rows of the queue that are neither failed nor locked. */
  function IdleRows(t: Table, queue: string): set<JobId> {
    set id | id in t && t[id].queue == queue && t[id].failedAt.None? && t[id].lockedAt.None?
  }

  /** `SELECT COUNT(*), COUNT(failed_at), COUNT(locked_at) FROM jobs WHERE queue = ?`
      followed by `outstanding = total - locked - failed` (status). */
  function StatusOf(t: Table, queue: string): (s: QueueStatus)
    ensures s.failed <= s.total && s.locked <= s.total
    ensures s.outstanding + s.locked + s.failed == s.total
  {
    var total := |QueueRows(t, queue)|;
    var failed := |FailedRows(t, queue)|;
    var locked := |LockedRows(t, queue)|;
    assert FailedRows(t, queue) <= QueueRows(t, queue);
    assert LockedRows(t, queue) <= QueueRows(t, queue);
    SubsetCard(FailedRows(t, queue), QueueRows(t, queue));
    SubsetCard(LockedRows(t, queue), QueueRows(t, queue));
    QueueStatus(total - locked - failed, locked, failed, total)
  }

  lemma SubsetCard<T>(a: set<T>, b: set<T>)
    requires a <= b
    ensures |a| <= |b|
  {
    assert b == a + (b - a);
  }
}
