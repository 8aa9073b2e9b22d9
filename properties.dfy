/**
 * Properties of the claim / run / retry protocol that relate several statements:
 * the lock as a compare-and-set, stale-lock recovery, attempt accounting, the
 * outcome of a run, and what `status` counts.
 */
module Properties {
  import opened Jobs
  import opened Execution
  import opened Store

  // -----------------------------------------------------------------------
  // The lock statement as a compare-and-set
  // -----------------------------------------------------------------------

  /** Once a worker holds a row's lock, no other worker's lock statement matches that
      row until the lock is older than the staleness window. */
  lemma LockExcludesOtherWorkers(t: Table, id: JobId, a: string, b: string, now: Time, later: Time)
    requires LockRow(t, id, a, now).affected == 1
    requires a != b && later <= now + StaleLockWindow
    ensures LockRow(LockRow(t, id, a, now).table, id, b, later).affected == 0
    ensures LockRow(LockRow(t, id, a, now).table, id, b, later).table == LockRow(t, id, a, now).table
  {
  }

  /** A lock strictly older than the window can be taken over by any worker. */
  lemma StaleLockIsReclaimable(t: Table, id: JobId, a: string, b: string, now: Time, later: Time)
    requires LockRow(t, id, a, now).affected == 1
    requires later > now + StaleLockWindow
    ensures LockRow(LockRow(t, id, a, now).table, id, b, later).affected == 1
    ensures LockRow(LockRow(t, id, a, now).table, id, b, later).table[id].lockedBy == Some(b)
  {
  }

  /** The holder of a lock may take it again in any later second (getNewJob re-finds its
      own rows). */
  lemma OwnerMayRelock(t: Table, id: JobId, a: string, now: Time, later: Time)
    requires LockRow(t, id, a, now).affected == 1
    requires later != now
    ensures LockRow(LockRow(t, id, a, now).table, id, a, later).affected == 1
  {
  }

  /** In the same second, the holder's lock statement writes what the row already holds:
      it reports no changed row, so acquireLock answers false although the worker keeps
      the lock. */
  lemma SameSecondRelockReportsNothing(t: Table, id: JobId, a: string, now: Time)
    requires LockRow(t, id, a, now).affected == 1
    ensures LockRow(LockRow(t, id, a, now).table, id, a, now).affected == 0
    ensures LockRow(LockRow(t, id, a, now).table, id, a, now).table == LockRow(t, id, a, now).table
    ensures LockRow(t, id, a, now).table[id].lockedBy == Some(a)
  {
  }

  /** Locking an unlocked row and then releasing it gives back the table it started from. */
  lemma UnlockUndoesLock(t: Table, id: JobId, w: string, now: Time)
    requires id in t && Unlocked(t[id])
    ensures UnlockRow(LockRow(t, id, w, now).table, id).table == t
  {
  }

  /** A terminally failed row is never a candidate and never matched by the lock statement,
      whatever its run_at and lock columns hold. */
  lemma FailedRowIsNeverClaimed(t: Table, id: JobId, queue: string, w: string, now: Time, cands: seq<JobId>)
    requires id in t && t[id].failedAt.Some?
    ensures LockRow(t, id, w, now).affected == 0
    ensures IsSelection(t, queue, w, now, cands) ==> forall i :: 0 <= i < |cands| ==> cands[i] != id
  {
  }

  // -----------------------------------------------------------------------
  // Retry and failure
  // -----------------------------------------------------------------------

  /** After a retry with delay `interval` the row is unlocked but not due before
      `now + interval`; from then on any worker may pick it up again, unless it has failed. */
  lemma RetryDefersEligibility(t: Table, id: JobId, interval: int, handler: Option<Payload>,
                               now: Time, later: Time, w: string)
    requires id in t
    ensures var t' := RetryLaterEffect(t, id, Some(interval), handler, true, now);
      && (later < now + interval ==> !Eligible(t'[id], t[id].queue, w, later))
      && (later >= now + interval && t[id].failedAt.None? ==> Eligible(t'[id], t[id].queue, w, later))
  {
  }

  /** A retry signal: the row is rescheduled (two hours on by default), its handler is
      replaced only when asked, and it ends unlocked. Without the failure flag its
      attempts, failed_at and error stay as they were; with it, it is charged one attempt
      and becomes terminal exactly when the attempts reach the threshold. */
  lemma RunRetryOutcome(t: Table, id: JobId, maxAttempts: int, e: RetrySignal, after: Payload, now: Time)
    requires id in t
    ensures var r := RunEffect(t, id, maxAttempts, Retry(e, after), now);
      && !r.succeeded && id in r.table
      && var (was, row) := (t[id], r.table[id]);
      && row.runAt == Some(now + IntervalOrDefault(e.interval))
      && row.handler == (if e.updateHandler then after else was.handler)
      && Unlocked(row)
      && row.queue == was.queue && row.priority == was.priority && row.createdAt == was.createdAt
      && (!e.isFailure ==> row.attempts == was.attempts && row.failedAt == was.failedAt && row.error == was.error)
      && (e.isFailure ==>
            && row.attempts == was.attempts + 1
            && (row.failedAt.Some? <==> row.attempts >= maxAttempts)
            && (row.attempts >= maxAttempts ==> row.error == Some(e.description)))
  {
  }

  /** A bad handler or any other exception: one more attempt, terminal once the attempts
      reach the threshold (with the failure text kept), schedule and handler untouched,
      row unlocked. */
  lemma RunFailureOutcome(t: Table, id: JobId, maxAttempts: int, outcome: Outcome, now: Time)
    requires id in t && (outcome.BadHandler? || outcome.Threw?)
    ensures var r := RunEffect(t, id, maxAttempts, outcome, now);
      && !r.succeeded && id in r.table
      && var (was, row) := (t[id], r.table[id]);
      && row.attempts == was.attempts + 1
      && (row.failedAt.Some? <==> row.attempts >= maxAttempts)
      && (row.attempts >= maxAttempts ==> row.failedAt == Some(now))
      && (row.attempts >= maxAttempts ==>
            row.error == Some(if outcome.Threw? then outcome.description else BadHandlerMessage(id)))
      && (row.attempts < maxAttempts ==> row.error.None?)
      && row.runAt == was.runAt && row.handler == was.handler
      && Unlocked(row)
  {
  }

  /** Attempts never go down: a run adds exactly one attempt on every failure path
      (bad handler, exception, retry flagged as failure) and none otherwise. */
  lemma RunChargesOneAttemptPerFailure(t: Table, id: JobId, maxAttempts: int, outcome: Outcome, now: Time)
    requires id in t
    ensures var r := RunEffect(t, id, maxAttempts, outcome, now);
      var failure := outcome.BadHandler? || outcome.Threw? || (outcome.Retry? && outcome.signal.isFailure);
      && (id in r.table <==> !outcome.Returned?)
      && (id in r.table ==> r.table[id].attempts == t[id].attempts + (if failure then 1 else 0))
  {
  }

  /** A job enqueued with threshold 3 that throws on each of its first three runs: after
      the first two it is unlocked with attempts 1 and 2 and not failed; the third run
      makes it terminal with its error recorded, and no worker can claim it afterwards. */
  lemma ThirdFailureIsTerminal(t: Table, id: JobId, job: Job, w: string,
                               n1: Time, n2: Time, n3: Time, later: Time, other: string,
                               m1: string, m2: string, m3: string)
    requires id !in t && job.attempts == 0 && Unlocked(job) && job.failedAt.None? && job.runAt.None?
    ensures var t0 := t[id := job];
      var r1 := RunEffect(LockRow(t0, id, w, n1).table, id, 3, Threw(m1), n1).table;
      var r2 := RunEffect(LockRow(r1, id, w, n2).table, id, 3, Threw(m2), n2).table;
      var r3 := RunEffect(LockRow(r2, id, w, n3).table, id, 3, Threw(m3), n3).table;
      && r1[id].attempts == 1 && r1[id].failedAt.None? && Unlocked(r1[id])
      && r2[id].attempts == 2 && r2[id].failedAt.None? && Unlocked(r2[id])
      && r3[id].attempts == 3 && r3[id].failedAt == Some(n3) && r3[id].error == Some(m3)
      && LockRow(r3, id, other, later).affected == 0
  {
    var t0 := t[id := job];
    var l1 := LockRow(t0, id, w, n1);
    assert l1.affected == 1;
    RunFailureOutcome(l1.table, id, 3, Threw(m1), n1);
    var r1 := RunEffect(l1.table, id, 3, Threw(m1), n1).table;
    var l2 := LockRow(r1, id, w, n2);
    assert l2.affected == 1;
    RunFailureOutcome(l2.table, id, 3, Threw(m2), n2);
    var r2 := RunEffect(l2.table, id, 3, Threw(m2), n2).table;
    var l3 := LockRow(r2, id, w, n3);
    assert l3.affected == 1;
    RunFailureOutcome(l3.table, id, 3, Threw(m3), n3);
  }

  /** A retry signal of one hour without the failure flag: the row is unlocked with its
      attempts unchanged, no worker can claim it before the hour is over, and any worker
      can once it is. */
  lemma HourRetryScenario(t: Table, id: JobId, w: string, now: Time, after: Payload, msg: string,
                          later: Time, other: string)
    requires id in t && t[id].failedAt.None?
    ensures var r := RunEffect(LockRow(t, id, w, now).table, id, DefaultMaxAttempts,
                               Retry(RetrySignal(Some(3600), false, false, msg), after), now).table;
      && Unlocked(r[id]) && r[id].attempts == t[id].attempts && r[id].runAt == Some(now + 3600)
      && (later < now + 3600 ==> !Eligible(r[id], t[id].queue, other, later))
      && (later >= now + 3600 ==> Eligible(r[id], t[id].queue, other, later))
  {
  }

  // -----------------------------------------------------------------------
  // Shutdown
  // -----------------------------------------------------------------------

  /** After the shutdown unlock every unfailed row the worker held may be claimed by
      any worker at once. */
  lemma ReleasedRowsAreClaimable(t: Table, w: string, id: JobId, other: string, now: Time)
    requires id in t && t[id].lockedBy == Some(w) && t[id].failedAt.None?
    ensures LockRow(UnlockAllOf(t, w).table, id, other, now).affected == 1
  {
  }

  // -----------------------------------------------------------------------
  // Status
  // -----------------------------------------------------------------------

  /** A queue with no rows reports zero everywhere. */
  lemma StatusOfEmptyQueue(t: Table, queue: string)
    requires forall id :: id in t ==> t[id].queue != queue
    ensures StatusOf(t, queue) == QueueStatus(0, 0, 0, 0)
  {
  }

  /** On a settled table `outstanding` is the number of rows of the queue that are
      neither failed nor locked, so it is never negative. */
  lemma StatusCountsIdleRows(t: Table, queue: string)
    requires Settled(t)
    ensures StatusOf(t, queue).outstanding == |IdleRows(t, queue)|
  {
    var q, f, l, i := QueueRows(t, queue), FailedRows(t, queue), LockedRows(t, queue), IdleRows(t, queue);
    assert f * l == {};
    assert q == i + (f + l);
    assert i * (f + l) == {};
    assert |f + l| == |f| + |l|;
    assert |q| == |i| + |f + l|;
  }

  /** Inserting an idle row into a queue raises its total and outstanding counts by one. */
  lemma InsertRaisesStatus(t: Table, id: JobId, job: Job)
    requires id !in t && Unlocked(job) && job.failedAt.None?
    ensures var (s, s') := (StatusOf(t, job.queue), StatusOf(t[id := job], job.queue));
      s'.total == s.total + 1 && s'.outstanding == s.outstanding + 1
      && s'.locked == s.locked && s'.failed == s.failed
  {
    var t' := t[id := job];
    assert QueueRows(t', job.queue) == QueueRows(t, job.queue) + {id};
    assert FailedRows(t', job.queue) == FailedRows(t, job.queue);
    assert LockedRows(t', job.queue) == LockedRows(t, job.queue);
  }

  /** A multi-row insert of rows of one queue raises that queue's total by the number of
      rows inserted. */
  lemma {:induction false} InsertAllRaisesTotal(t: Table, first: JobId, js: seq<Job>, queue: string)
    requires forall id :: id in t ==> id < first
    requires forall k :: 0 <= k < |js| ==> js[k].queue == queue && Unlocked(js[k]) && js[k].failedAt.None?
    ensures StatusOf(InsertAll(t, first, js), queue).total == StatusOf(t, queue).total + |js|
    ensures StatusOf(InsertAll(t, first, js), queue).outstanding == StatusOf(t, queue).outstanding + |js|
    decreases |js|
  {
    if js != [] {
      InsertRaisesStatus(t, first, js[0]);
      var t1 := t[first := js[0]];
      InsertAllRaisesTotal(t1, first + 1, js[1..], queue);
    }
  }

  /** A batch of three handlers of which the store admits two: bulkEnqueue reports
      success and the queue's total grows by two. */
  lemma BatchOfThreeWithTwoAdmitted(t: Table, first: JobId, h1: Payload, h2: Payload, h3: Payload,
                                    queue: string, priority: int, now: Time)
    requires forall id :: id in t ==> id < first
    ensures var landed := [true, true, false];
      var js := AdmittedJobs([h1, h2, h3], landed, queue, priority, None, now);
      && Landed(landed) >= 1
      && StatusOf(InsertAll(t, first, js), queue).total == StatusOf(t, queue).total + 2
  {
    var landed := [true, true, false];
    assert Landed(landed) == 2 by {
      assert landed[1..] == [true, false] && landed[1..][1..] == [false] && landed[1..][1..][1..] == [];
    }
    var js := AdmittedJobs([h1, h2, h3], landed, queue, priority, None, now);
    InsertAllRaisesTotal(t, first, js, queue);
  }
}
