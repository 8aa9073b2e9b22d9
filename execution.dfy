/**
 * What happens to a claimed job's row when it is run: the handler is pulled
 * from the row and deserialized, performed, and the row is then deleted,
 * rescheduled or charged with a failure.
 */
module Execution {
  import opened Jobs

  /** DJRetryException: an optional delay (null means the two-hour default), whether the
      handler's current state should replace the stored one, whether the retry also
      counts as a failed attempt, and the text recorded if it does. */
  datatype RetrySignal = RetrySignal(interval: Option<int>, updateHandler: bool, isFailure: bool, description: string)

  /** How the handler of the claimed row behaved. */
  datatype Outcome =
    | BadHandler
      // the stored handler did not deserialize to an object
    | Returned
      // perform() returned normally
    | Retry(signal: RetrySignal, handlerAfter: Payload)
      // perform() threw a retry signal; handlerAfter is the handler serialized at that point
    | Threw(description: string)
      // perform() threw any other Exception; description is "<message> (<file>:<line>)"

  function DigitChar(d: nat): (c: char)
    requires d < 10
    ensures '0' <= c <= '9'
  {
    (('0' as int) + d) as char
  }

  /** The decimal text of `n`, as PHP interpolates an integer into a string: no leading
      zero unless `n` is zero. */
  function Digits(n: nat): (s: string)
    ensures |s| >= 1
    ensures forall i :: 0 <= i < |s| ==> '0' <= s[i] <= '9'
    ensures s[0] == '0' ==> n == 0
  {
    if n < 10 then [DigitChar(n)] else Digits(n / 10) + [DigitChar(n % 10)]
  }

  predicate IsNumeral(s: string) {
    forall i :: 0 <= i < |s| ==> '0' <= s[i] <= '9'
  }

  /** The number a string of decimal digits denotes, most significant digit first. */
  function NumeralValue(s: string): nat
    requires IsNumeral(s)
  {
    if s == [] then 0 else NumeralValue(s[..|s| - 1]) * 10 + (s[|s| - 1] as int - '0' as int)
  }

  /** `Digits` writes exactly the number it is given. */
  lemma {:induction false} DigitsDenoteValue(n: nat)
    ensures IsNumeral(Digits(n)) && NumeralValue(Digits(n)) == n
  {
    if n >= 10 {
      DigitsDenoteValue(n / 10);
      var s := Digits(n);
      assert s[..|s| - 1] == Digits(n / 10);
    }
  }

  function BadHandlerMessage(id: JobId): string {
    "bad handler for job::" + Digits(id)
  }

  datatype RunResult = RunResult(table: Table, succeeded: bool)

  /** DJJob::run on row `id`, for a job whose failure threshold is `maxAttempts`. */
  function RunEffect(t: Table, id: JobId, maxAttempts: int, outcome: Outcome, now: Time): (r: RunResult)
    ensures r.succeeded <==> id in t && outcome.Returned?
    ensures r.table.Keys == if r.succeeded then t.Keys - {id} else t.Keys
    ensures forall k :: k in r.table && k != id ==> r.table[k] == t[k]
    ensures id in r.table ==> Unlocked(r.table[id])
  {
    if id !in t || outcome.BadHandler? then
      RunResult(FinishWithErrorEffect(t, id, maxAttempts, BadHandlerMessage(id), true, now), false)
    else if outcome.Returned? then
      RunResult(DeleteRow(t, id).table, true)
    else if outcome.Retry? then
      var e := outcome.signal;
      var t1 := RetryLaterEffect(t, id, e.interval, if e.updateHandler then Some(outcome.handlerAfter) else None,
                                 !e.isFailure, now);
      RunResult(if e.isFailure then FinishWithErrorEffect(t1, id, maxAttempts, e.description, true, now) else t1,
                false)
    else
      RunResult(FinishWithErrorEffect(t, id, maxAttempts, outcome.description, true, now), false)
  }

  /** The run of a row over a settled table leaves the table settled. */
  lemma RunKeepsSettled(t: Table, id: JobId, maxAttempts: int, outcome: Outcome, now: Time)
    requires Settled(t)
    ensures Settled(RunEffect(t, id, maxAttempts, outcome, now).table)
  {
  }

  /** Running a live row of `queue` touches no other row, and stays within what
      `KeepsOthers` allows a worker on `queue`. */
  lemma RunKeepsOthers(t: Table, id: JobId, maxAttempts: int, outcome: Outcome, now: Time, queue: string)
    requires id in t && t[id].queue == queue && t[id].failedAt.None?
    ensures SameOutside(t, RunEffect(t, id, maxAttempts, outcome, now).table, id)
    ensures KeepsOthers(t, RunEffect(t, id, maxAttempts, outcome, now).table, queue)
  {
  }

  /** One poll of a worker on `queue` that claims row `id` and runs it: the frame kept
      since `t` extends to the new table, with `id` added to the rows run. */
  lemma PollKeepsFrame(t: Table, before: Table, id: JobId, worker: string, now: Time,
                       maxAttempts: int, outcome: Outcome, queue: string, ran: set<JobId>)
    requires KeepsOthers(t, before, queue) && UntouchedOutside(t, before, ran)
    requires id in EligibleIds(before, queue, worker, now)
    ensures var after := RunEffect(LockRow(before, id, worker, now).table, id, maxAttempts, outcome, now).table;
      && KeepsOthers(t, after, queue)
      && UntouchedOutside(t, after, ran + {id})
      && |ran + {id}| <= |ran| + 1
  {
    var locked := LockRow(before, id, worker, now).table;
    var after := RunEffect(locked, id, maxAttempts, outcome, now).table;
    LockKeepsOthers(before, id, worker, now, queue);
    RunKeepsOthers(locked, id, maxAttempts, outcome, now, queue);
    KeepsOthersTransitive(before, locked, after, queue);
    KeepsOthersTransitive(t, before, after, queue);
    UntouchedStep(t, before, locked, after, id, ran);
  }

  /** The shutdown unlock at the end of a worker's loop keeps the frame since `t`, with
      the unclaimed rows changed at most in their lock columns. */
  lemma ShutdownKeepsFrame(t: Table, before: Table, worker: string, queue: string, ran: set<JobId>)
    requires KeepsOthers(t, before, queue) && UntouchedOutside(t, before, ran)
    ensures var after := UnlockAllOf(before, worker).table;
      && KeepsOthers(t, after, queue)
      && LockOnlyOutside(t, after, ran)
      && |t.Keys - after.Keys| <= |ran|
  {
    var after := UnlockAllOf(before, worker).table;
    UnlockAllKeepsOthers(before, worker, queue);
    UnlockAllKeepsLockOnly(t, before, worker, ran);
    KeepsOthersTransitive(t, before, after, queue);
    UntouchedBoundsRemoved(t, after, ran);
  }

  /** The run of a row over a well-formed table leaves it well-formed. */
  lemma RunKeepsWellFormed(t: Table, id: JobId, maxAttempts: int, outcome: Outcome, now: Time)
    requires WellFormed(t)
    ensures WellFormed(RunEffect(t, id, maxAttempts, outcome, now).table)
  {
  }
}
