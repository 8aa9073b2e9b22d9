/**
 * The jobs table as a mutable store, with the operations of DJJob and DJWorker
 * as methods that change it one statement at a time.
 */
module Store {
  import opened Jobs
  import opened Execution
  import Bulk

  /** A DJWorker: its name ("host::<hostname> pid::<pid>") and its options (the `sleep`
      option only paces the loop and is not part of the model). */
  datatype Worker = Worker(name: string, queue: string, count: int, maxAttempts: int)

  /** A DJJob: the worker it runs for, the row it works on, and its failure threshold. */
  datatype JobRef = JobRef(workerName: string, id: JobId, maxAttempts: int)

  /** What the worker loop meets at the top of an iteration: either a pending termination
      signal, or the current time and the behaviour of whatever job it then claims. */
  datatype Event = Tick(now: Time, outcome: Outcome) | Signal

  /** The count of `true` entries. */
  function Landed(landed: seq<bool>): (n: nat)
    ensures n <= |landed|
  {
    if landed == [] then 0 else (if landed[0] then 1 else 0) + Landed(landed[1..])
  }

  /** The rows of a batch that the store admits, in batch order. */
  function AdmittedJobs(handlers: seq<Payload>, landed: seq<bool>, queue: string, priority: int,
                        runAt: Option<Time>, now: Time): (js: seq<Job>)
    requires |landed| == |handlers|
    ensures |js| == Landed(landed)
    ensures forall k :: 0 <= k < |js| ==>
      js[k].handler in handlers && js[k] == NewJob(js[k].handler, queue, priority, runAt, now)
  {
    if handlers == [] then []
    else
      var rest := AdmittedJobs(handlers[1..], landed[1..], queue, priority, runAt, now);
      if landed[0] then [NewJob(handlers[0], queue, priority, runAt, now)] + rest else rest
  }

  class JobsTable {
    var rows: Table
    var nextId: JobId

    /** Rows keep their shape and every id lies below the auto-increment counter. */
    ghost predicate Valid()
      reads this
    {
      WellFormed(rows) && forall id :: id in rows ==> id < nextId
    }

    constructor ()
      ensures Valid() && rows == map[] && nextId == 1
    {
      rows := map[];
      nextId := 1;
    }

    // -------------------------------------------------------------------
    // DJJob
    // -------------------------------------------------------------------

    method AcquireLock(job: JobRef, now: Time) returns (ok: bool)
      requires Valid()
      modifies this
      ensures Valid() && nextId == old(nextId)
      ensures ok <==> LockTakes(old(rows), job.id, job.workerName, now)
      ensures rows == LockRow(old(rows), job.id, job.workerName, now).table
    {
      var u := LockRow(rows, job.id, job.workerName, now);
      rows := u.table;
      ok := u.affected != 0;
    }

    method ReleaseLock(job: JobRef)
      requires Valid()
      modifies this
      ensures Valid() && nextId == old(nextId)
      ensures rows == UnlockRow(old(rows), job.id).table
    {
      rows := UnlockRow(rows, job.id).table;
    }

    method Finish(job: JobRef)
      requires Valid()
      modifies this
      ensures Valid() && nextId == old(nextId)
      ensures rows == DeleteRow(old(rows), job.id).table
    {
      rows := DeleteRow(rows, job.id).table;
    }

    method FinishWithError(job: JobRef, error: string, unlock: bool, now: Time)
      requires Valid()
      modifies this
      ensures Valid() && nextId == old(nextId)
      ensures rows == FinishWithErrorEffect(old(rows), job.id, job.maxAttempts, error, unlock, now)
    {
      rows := RecordFailure(rows, job.id, job.maxAttempts, error, now).table;
      if unlock {
        ReleaseLock(job);
      }
    }

    method RetryLater(job: JobRef, interval: Option<int>, handler: Option<Payload>, unlock: bool, now: Time)
      requires Valid()
      modifies this
      ensures Valid() && nextId == old(nextId)
      ensures rows == RetryLaterEffect(old(rows), job.id, interval, handler, unlock, now)
    {
      rows := RescheduleRow(rows, job.id, now + IntervalOrDefault(interval), handler).table;
      if unlock {
        ReleaseLock(job);
      }
    }

    method Run(job: JobRef, outcome: Outcome, now: Time) returns (ok: bool)
      requires Valid()
      modifies this
      ensures Valid() && nextId == old(nextId)
      ensures rows == RunEffect(old(rows), job.id, job.maxAttempts, outcome, now).table
      ensures ok == RunEffect(old(rows), job.id, job.maxAttempts, outcome, now).succeeded
      ensures Settled(old(rows)) ==> Settled(rows)
    {
      ghost var t := rows;
      if Settled(t) {
        RunKeepsSettled(t, job.id, job.maxAttempts, outcome, now);
      }
      RunKeepsWellFormed(t, job.id, job.maxAttempts, outcome, now);
      if job.id !in rows || outcome.BadHandler? {
        FinishWithError(job, BadHandlerMessage(job.id), true, now);
        return false;
      }
      if outcome.Returned? {
        Finish(job);
        return true;
      } else if outcome.Retry? {
        var e := outcome.signal;
        var h := if e.updateHandler then Some(outcome.handlerAfter) else None;
        RetryLater(job, e.interval, h, !e.isFailure, now);
        if e.isFailure {
          FinishWithError(job, e.description, true, now);
        }
        return false;
      } else {
        FinishWithError(job, outcome.description, true, now);
        return false;
      }
    }

    method Enqueue(handler: Payload, queue: string, runAt: Option<Time>, priority: int, now: Time,
                   admitted: bool)
      returns (ok: bool)
      requires Valid()
      modifies this
      ensures Valid()
      ensures ok == admitted
      ensures ok ==> && old(nextId) !in old(rows) && nextId == old(nextId) + 1
                     && rows == old(rows)[old(nextId) := NewJob(handler, queue, priority, runAt, now)]
      ensures !ok ==> rows == old(rows) && nextId == old(nextId)
    {
      var affected := 0;
      if admitted {
        rows := rows[nextId := NewJob(handler, queue, priority, runAt, now)];
        nextId := nextId + 1;
        affected := 1;
      }
      if affected < 1 {
        return false;
      }
      return true;
    }

    /** bulkEnqueue with its statement corrected (see module Bulk); `landed` says which
        tuples the store admits. */
    method BulkEnqueue(handlers: seq<Payload>, queue: string, runAt: Option<Time>, priority: int,
                       now: Time, landed: seq<bool>)
      returns (ok: bool)
      requires Valid()
      requires |landed| == |handlers|
      modifies this
      ensures Valid()
      ensures ok <==> Landed(landed) >= 1
      ensures nextId == old(nextId) + Landed(landed)
      ensures rows == InsertAll(old(rows), old(nextId), AdmittedJobs(handlers, landed, queue, priority, runAt, now))
    {
      var params := Bulk.BulkParameters(handlers, queue, priority, runAt);
      if |handlers| > 0 {
        Bulk.CorrectedBulkInsertBindsEnqueueRows(handlers, queue, priority, runAt, params, now);
      }
      var js := AdmittedJobs(handlers, landed, queue, priority, runAt, now);
      InsertAllFresh(rows, nextId, js);
      rows := InsertAll(rows, nextId, js);
      nextId := nextId + |js|;
      var affected := |js|;
      if affected < 1 {
        return false;
      }
      return true;
    }

    // -------------------------------------------------------------------
    // DJWorker
    // -------------------------------------------------------------------

    method ReleaseLocks(w: Worker)
      requires Valid()
      modifies this
      ensures Valid() && nextId == old(nextId)
      ensures rows == UnlockAllOf(old(rows), w.name).table
      ensures Settled(old(rows)) ==> Settled(rows)
    {
      rows := UnlockAllOf(rows, w.name).table;
    }

    /** The candidate query: the eligible rows of lowest priority, at most five, ties
        broken by an arbitrary choice. */
    method SelectCandidates(queue: string, worker: string, now: Time) returns (cands: seq<JobId>)
      ensures IsSelection(rows, queue, worker, now, cands)
    {
      var pool := EligibleIds(rows, queue, worker, now);
      var rest := pool;
      cands := [];
      while |cands| < CandidateLimit && rest != {}
        invariant SelectionSoFar(rows, pool, rest, cands)
        invariant |cands| <= CandidateLimit
        decreases |rest|
      {
        LowestPriorityExists(rows, rest);
        var id :| id in rest && forall o :: o in rest ==> rows[id].priority <= rows[o].priority;
        SelectionStep(rows, pool, rest, cands, id);
        cands := cands + [id];
        rest := rest - {id};
      }
      SelectionDone(rows, queue, worker, now, rest, cands);
    }

    /** The `foreach` of getNewJob: try each candidate in turn and keep the first lock
        statement that reports a changed row. */
    method ClaimFirst(w: Worker, cands: seq<JobId>, now: Time) returns (job: Option<JobRef>)
      requires Valid()
      modifies this
      ensures Valid() && nextId == old(nextId)
      ensures job.None? ==>
        && rows == old(rows)
        && forall i :: 0 <= i < |cands| ==> !LockTakes(old(rows), cands[i], w.name, now)
      ensures job.Some? ==>
        && job.value == JobRef(w.name, job.value.id, w.maxAttempts)
        && (exists i :: 0 <= i < |cands| && cands[i] == job.value.id
              && forall k :: 0 <= k < i ==> !LockTakes(old(rows), cands[k], w.name, now))
        && LockTakes(old(rows), job.value.id, w.name, now)
        && rows == LockRow(old(rows), job.value.id, w.name, now).table
    {
      var i := 0;
      while i < |cands|
        invariant 0 <= i <= |cands|
        invariant Valid() && nextId == old(nextId) && rows == old(rows)
        invariant forall k :: 0 <= k < i ==> !LockTakes(old(rows), cands[k], w.name, now)
      {
        var candidate := JobRef(w.name, cands[i], w.maxAttempts);
        var locked := AcquireLock(candidate, now);
        if locked {
          return Some(candidate);
        }
        i := i + 1;
      }
      return None;
    }

    /** getNewJob.  With no other worker acting between the query and the lock
        statements, every candidate still satisfies the lock condition, so a lock fails
        only on a row this worker already locked in this same second: the statement then
        changes nothing and reports no row.  `cands` is the query's result. */
    method GetNewJob(w: Worker, now: Time) returns (job: Option<JobRef>, ghost cands: seq<JobId>)
      requires Valid()
      modifies this
      ensures Valid() && nextId == old(nextId)
      ensures IsSelection(old(rows), w.queue, w.name, now, cands)
      ensures job.None? <==> forall i :: 0 <= i < |cands| ==> LockedAtBy(old(rows)[cands[i]], w.name, now)
      ensures job.None? ==> rows == old(rows)
      ensures EligibleIds(old(rows), w.queue, w.name, now) == {} ==> job.None?
      ensures job.Some? ==>
        var id := job.value.id;
        && job.value == JobRef(w.name, id, w.maxAttempts)
        && id in EligibleIds(old(rows), w.queue, w.name, now)
        && !LockedAtBy(old(rows)[id], w.name, now)
        && (forall o :: o in EligibleIds(old(rows), w.queue, w.name, now) && !LockedAtBy(old(rows)[o], w.name, now)
              ==> old(rows)[id].priority <= old(rows)[o].priority)
        && rows == LockRow(old(rows), id, w.name, now).table
      ensures job.Some? ==>
        exists i :: 0 <= i < |cands| && cands[i] == job.value.id
          && forall k :: 0 <= k < i ==> LockedAtBy(old(rows)[cands[k]], w.name, now)
      ensures (forall o :: o in EligibleIds(old(rows), w.queue, w.name, now) ==> !LockedAtBy(old(rows)[o], w.name, now))
              ==> (job.None? <==> EligibleIds(old(rows), w.queue, w.name, now) == {})
      ensures Settled(old(rows)) ==> Settled(rows)
    {
      var selected := SelectCandidates(w.queue, w.name, now);
      cands := selected;
      SelectionEmptyIffNoneEligible(rows, w.queue, w.name, now, cands);
      CandidateLockFailsOnlyWhenSelfLocked(rows, w.queue, w.name, now, cands);
      job := ClaimFirst(w, selected, now);
      if job.Some? {
        ghost var i :| 0 <= i < |cands| && cands[i] == job.value.id
                       && forall k :: 0 <= k < i ==> !LockTakes(old(rows), cands[k], w.name, now);
        FirstTakenIsLowest(old(rows), w.queue, w.name, now, cands, i);
      }
    }

    /** start: poll until the iteration budget (0 = none) is spent or a termination
        signal arrives; a signal releases every lock of this worker and ends the process.
        The loop runs over the events the environment supplies.  `ran` holds the ids of
        the rows the worker claimed and ran. */
    method Start(w: Worker, env: seq<Event>) returns (polls: nat, jobCount: nat, signalled: bool, ghost ran: set<JobId>)
      requires Valid()
      modifies this
      ensures Valid()
      ensures jobCount <= polls <= |env|
      ensures w.count > 0 ==> polls <= w.count
      ensures w.count < 0 ==> polls == 0 && !signalled && rows == old(rows)
      ensures forall k :: 0 <= k < polls ==> env[k].Tick?
      ensures signalled ==> polls < |env| && env[polls] == Signal && HeldBy(rows, w.name) == {}
      ensures !signalled ==> polls == |env| || (w.count != 0 && polls == w.count) || w.count < 0
      ensures Settled(old(rows)) ==> Settled(rows)
      ensures nextId == old(nextId) && KeepsOthers(old(rows), rows, w.queue)
      ensures |ran| <= jobCount && |old(rows).Keys - rows.Keys| <= jobCount
      ensures LockOnlyOutside(old(rows), rows, ran)
      ensures !signalled ==> UntouchedOutside(old(rows), rows, ran)
    {
      polls, jobCount, signalled := 0, 0, false;
      ran := {};
      while (w.count == 0 || polls < w.count) && polls < |env|
        invariant Valid()
        invariant jobCount <= polls <= |env|
        invariant w.count > 0 ==> polls <= w.count
        invariant w.count < 0 ==> polls == 0 && rows == old(rows)
        invariant forall k :: 0 <= k < polls ==> env[k].Tick?
        invariant Settled(old(rows)) ==> Settled(rows)
        invariant nextId == old(nextId) && KeepsOthers(old(rows), rows, w.queue)
        invariant UntouchedOutside(old(rows), rows, ran) && |ran| <= jobCount
        decreases |env| - polls
      {
        ghost var before := rows;
        if env[polls].Signal? {
          ReleaseLocks(w);
          ShutdownKeepsFrame(old(rows), before, w.name, w.queue, ran);
          signalled := true;
          return;
        }
        var now := env[polls].now;
        var outcome := env[polls].outcome;
        polls := polls + 1;
        var job;
        ghost var cands;
        job, cands := GetNewJob(w, now);
        if job.None? {
          continue;
        }
        jobCount := jobCount + 1;
        var _ := Run(job.value, outcome, now);
        PollKeepsFrame(old(rows), before, job.value.id, w.name, now, w.maxAttempts, outcome, w.queue, ran);
        ran := ran + {job.value.id};
      }
      UntouchedBoundsRemoved(old(rows), rows, ran);
    }
  }
}
