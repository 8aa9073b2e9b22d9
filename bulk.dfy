/**
 * The multi-row INSERT of bulkEnqueue: the parameter list its loop builds, the
 * statement text it assembles, and how the store binds the two into rows.
 *
 * The statement as the source writes it names four columns
 * (handler, queue, run_at, created_at) while every VALUES tuple holds five cells
 * (four placeholders and NOW()), so the store refuses it for every batch.  The
 * corrected statement lists the priority column as enqueue's INSERT does; it then
 * binds each handler to the same row enqueue would insert.
 */
module Bulk {
  import opened Jobs

  /** A value bound to a placeholder or produced by NOW(). */
  datatype SqlValue = Text(text: string) | Integer(n: int) | Null | DateTime(at: Time)

  /** One cell of a VALUES tuple: `?` or `NOW()`. */
  datatype Cell = Placeholder | CurrentTime

  datatype Insert = Insert(columns: seq<string>, tuples: seq<seq<Cell>>)

  datatype SqlError = EmptyValues | ParameterCountMismatch | ColumnCountMismatch

  /** The store's answer to an INSERT: the column values of each new row, or a refusal. */
  datatype Bound = Rows(rows: seq<seq<SqlValue>>) | Rejected(reason: SqlError)

  function RunAtValue(runAt: Option<Time>): SqlValue {
    if runAt.Some? then DateTime(runAt.value) else Null
  }

  /** The four values the loop pushes for one handler, in push order. */
  function ParamsFor(handler: Payload, queue: string, priority: int, runAt: Option<Time>): seq<SqlValue> {
    [Text(handler), Text(queue), Integer(priority), RunAtValue(runAt)]
  }

  /** bulkEnqueue's `foreach` loop building `$parameters`. */
  method BulkParameters(handlers: seq<Payload>, queue: string, priority: int, runAt: Option<Time>)
    returns (params: seq<SqlValue>)
    ensures |params| == 4 * |handlers|
    ensures forall i :: 0 <= i < |handlers| ==>
      params[4 * i .. 4 * i + 4] == ParamsFor(handlers[i], queue, priority, runAt)
  {
    params := [];
    var i := 0;
    while i < |handlers|
      invariant 0 <= i <= |handlers|
      invariant |params| == 4 * i
      invariant forall k :: 0 <= k < i ==>
        params[4 * k .. 4 * k + 4] == ParamsFor(handlers[k], queue, priority, runAt)
    {
      ghost var before := params;
      params := params + [Text(handlers[i])];
      params := params + [Text(queue)];
      params := params + [Integer(priority)];
      params := params + [RunAtValue(runAt)];
      assert params == before + ParamsFor(handlers[i], queue, priority, runAt);
      forall k | 0 <= k < i
        ensures params[4 * k .. 4 * k + 4] == before[4 * k .. 4 * k + 4]
      {
        assert params[..4 * i] == before;
      }
      i := i + 1;
    }
  }

  /** `(?, ?, ?, ?, NOW())` */
  const ValuesTuple: seq<Cell> := [Placeholder, Placeholder, Placeholder, Placeholder, CurrentTime]

  /** The column list of bulkEnqueue's statement as written. */
  const AsWrittenColumns: seq<string> := ["handler", "queue", "run_at", "created_at"]

  /** The column list of enqueue's statement, which the bulk statement evidently meant. */
  const InsertColumns: seq<string> := ["handler", "queue", "priority", "run_at", "created_at"]

  /** `INSERT INTO jobs (<columns>) VALUES` followed by `n` copies of the tuple joined by commas. */
  function BulkInsert(columns: seq<string>, n: nat): (s: Insert)
    ensures |s.tuples| == n && forall k :: 0 <= k < n ==> s.tuples[k] == ValuesTuple
  {
    Insert(columns, seq(n, _ => ValuesTuple))
  }

  function PlaceholderCount(tuple: seq<Cell>): nat {
    if tuple == [] then 0
    else (if tuple[0] == Placeholder then 1 else 0) + PlaceholderCount(tuple[1..])
  }

  function TotalPlaceholders(tuples: seq<seq<Cell>>): nat {
    if tuples == [] then 0 else PlaceholderCount(tuples[0]) + TotalPlaceholders(tuples[1..])
  }

  /** The values of one tuple: placeholders take parameters in order, NOW() the time. */
  function BindTuple(tuple: seq<Cell>, params: seq<SqlValue>, now: Time): (vs: seq<SqlValue>)
    requires |params| == PlaceholderCount(tuple)
    ensures |vs| == |tuple|
  {
    if tuple == [] then []
    else if tuple[0] == Placeholder then [params[0]] + BindTuple(tuple[1..], params[1..], now)
    else [DateTime(now)] + BindTuple(tuple[1..], params, now)
  }

  function BindAll(tuples: seq<seq<Cell>>, params: seq<SqlValue>, now: Time): (rows: seq<seq<SqlValue>>)
    requires |params| == TotalPlaceholders(tuples)
    ensures |rows| == |tuples|
  {
    if tuples == [] then []
    else
      var k := PlaceholderCount(tuples[0]);
      [BindTuple(tuples[0], params[..k], now)] + BindAll(tuples[1..], params[k..], now)
  }

  predicate Rectangular(s: Insert) {
    forall k :: 0 <= k < |s.tuples| ==> |s.tuples[k]| == |s.columns|
  }

  /** Executing a prepared INSERT: an empty VALUES list is a syntax error, a parameter
      count different from the placeholder count is refused on binding, and a tuple
      whose width is not the column count is refused by the server. */
  function Execute(s: Insert, params: seq<SqlValue>, now: Time): (b: Bound)
    ensures b.Rows? <==> s.tuples != [] && |params| == TotalPlaceholders(s.tuples) && Rectangular(s)
    ensures b.Rows? ==> |b.rows| == |s.tuples|
  {
    if s.tuples == [] then Rejected(EmptyValues)
    else if |params| != TotalPlaceholders(s.tuples) then Rejected(ParameterCountMismatch)
    else if !Rectangular(s) then Rejected(ColumnCountMismatch)
    else Rows(BindAll(s.tuples, params, now))
  }

  /** The values a row has in the columns of enqueue's INSERT. */
  function InsertedValues(j: Job): seq<SqlValue> {
    [Text(j.handler), Text(j.queue), Integer(j.priority), RunAtValue(j.runAt), DateTime(j.createdAt)]
  }

  predicate ParamsShape(params: seq<SqlValue>, handlers: seq<Payload>, queue: string, priority: int,
                        runAt: Option<Time>)
  {
    && |params| == 4 * |handlers|
    && forall i :: 0 <= i < |handlers| ==>
         params[4 * i .. 4 * i + 4] == ParamsFor(handlers[i], queue, priority, runAt)
  }

  lemma TuplePlaceholders()
    ensures PlaceholderCount(ValuesTuple) == 4
  {
    assert ValuesTuple[1..][1..][1..][1..] == [CurrentTime];
    assert ValuesTuple[1..][1..][1..][1..][1..] == [];
  }

  lemma {:induction false} RepeatedPlaceholders(n: nat)
    ensures TotalPlaceholders(BulkInsert(InsertColumns, n).tuples) == 4 * n
    ensures TotalPlaceholders(BulkInsert(AsWrittenColumns, n).tuples) == 4 * n
  {
    TuplePlaceholders();
    if n > 0 {
      RepeatedPlaceholders(n - 1);
      assert BulkInsert(InsertColumns, n).tuples[1..] == BulkInsert(InsertColumns, n - 1).tuples;
      assert BulkInsert(AsWrittenColumns, n).tuples[1..] == BulkInsert(AsWrittenColumns, n - 1).tuples;
    }
  }

  /** Finding, as written: whatever the batch, the store refuses bulkEnqueue's statement,
      because its tuples have five cells for four columns (and an empty batch has no
      VALUES at all). No row is ever inserted by it. */
  lemma AsWrittenBulkInsertRejected(handlers: seq<Payload>, queue: string, priority: int,
                                    runAt: Option<Time>, params: seq<SqlValue>, now: Time)
    requires ParamsShape(params, handlers, queue, priority, runAt)
    ensures Execute(BulkInsert(AsWrittenColumns, |handlers|), params, now).Rejected?
    ensures |handlers| > 0 ==>
      Execute(BulkInsert(AsWrittenColumns, |handlers|), params, now) == Rejected(ColumnCountMismatch)
  {
    RepeatedPlaceholders(|handlers|);
    var s := BulkInsert(AsWrittenColumns, |handlers|);
    if |handlers| > 0 {
      assert |s.tuples[0]| != |s.columns|;
    }
  }

  lemma BindValuesTuple(ps: seq<SqlValue>, now: Time)
    requires |ps| == 4
    ensures PlaceholderCount(ValuesTuple) == 4
    ensures BindTuple(ValuesTuple, ps, now) == ps + [DateTime(now)]
  {
    TuplePlaceholders();
    var t1 := ValuesTuple[1..];
    var t2 := t1[1..];
    var t3 := t2[1..];
    var t4 := t3[1..];
    assert t4 == [CurrentTime] && t4[1..] == [];
    assert BindTuple(t4, ps[4..], now) == [DateTime(now)];
    assert BindTuple(t3, ps[3..], now) == [ps[3], DateTime(now)];
    assert BindTuple(t2, ps[2..], now) == [ps[2], ps[3], DateTime(now)];
    assert BindTuple(t1, ps[1..], now) == [ps[1], ps[2], ps[3], DateTime(now)];
  }

  lemma {:induction false} BindRepeated(n: nat, params: seq<SqlValue>, now: Time)
    requires |params| == 4 * n
    ensures TotalPlaceholders(BulkInsert(InsertColumns, n).tuples) == 4 * n
    ensures forall i :: 0 <= i < n ==>
      BindAll(BulkInsert(InsertColumns, n).tuples, params, now)[i] == params[4 * i .. 4 * i + 4] + [DateTime(now)]
  {
    RepeatedPlaceholders(n);
    if n > 0 {
      var tuples := BulkInsert(InsertColumns, n).tuples;
      assert tuples[1..] == BulkInsert(InsertColumns, n - 1).tuples;
      BindValuesTuple(params[..4], now);
      BindRepeated(n - 1, params[4..], now);
      var rows := BindAll(tuples, params, now);
      var rest := BindAll(tuples[1..], params[4..], now);
      assert rows == [BindTuple(tuples[0], params[..4], now)] + rest;
      forall i | 0 <= i < n
        ensures rows[i] == params[4 * i .. 4 * i + 4] + [DateTime(now)]
      {
        if i == 0 {
          assert tuples[0] == ValuesTuple;
          assert params[4 * 0 .. 4 * 0 + 4] == params[..4];
          assert rows[0] == params[..4] + [DateTime(now)];
        } else {
          assert rows[i] == rest[i - 1];
          assert rest[i - 1] == params[4..][4 * (i - 1) .. 4 * (i - 1) + 4] + [DateTime(now)];
          assert params[4..][4 * (i - 1) .. 4 * (i - 1) + 4] == params[4 * i .. 4 * i + 4];
        }
      }
    }
  }

  /** Finding, corrected: with the priority column listed, the statement binds the
      parameters of the loop to one row per handler, and that row holds exactly the
      column values enqueue's INSERT gives a new job for the same handler. */
  lemma CorrectedBulkInsertBindsEnqueueRows(handlers: seq<Payload>, queue: string, priority: int,
                                            runAt: Option<Time>, params: seq<SqlValue>, now: Time)
    requires |handlers| > 0
    requires ParamsShape(params, handlers, queue, priority, runAt)
    ensures var b := Execute(BulkInsert(InsertColumns, |handlers|), params, now);
      && b.Rows? && |b.rows| == |handlers|
      && forall i :: 0 <= i < |handlers| ==>
           b.rows[i] == InsertedValues(NewJob(handlers[i], queue, priority, runAt, now))
  {
    var n := |handlers|;
    BindRepeated(n, params, now);
    var s := BulkInsert(InsertColumns, n);
    assert Rectangular(s);
    var rows := BindAll(s.tuples, params, now);
    forall i | 0 <= i < n
      ensures rows[i] == InsertedValues(NewJob(handlers[i], queue, priority, runAt, now))
    {
      assert rows[i] == params[4 * i .. 4 * i + 4] + [DateTime(now)];
      assert params[4 * i .. 4 * i + 4] == ParamsFor(handlers[i], queue, priority, runAt);
    }
  }

  /** enqueue's own statement is the corrected bulk statement for one handler. */
  lemma EnqueueInsertIsSingleBulkInsert(handler: Payload, queue: string, priority: int,
                                        runAt: Option<Time>, now: Time)
    ensures Execute(BulkInsert(InsertColumns, 1), ParamsFor(handler, queue, priority, runAt), now)
         == Rows([InsertedValues(NewJob(handler, queue, priority, runAt, now))])
  {
    var ps := ParamsFor(handler, queue, priority, runAt);
    assert ps[4 * 0 .. 4 * 0 + 4] == ps;
    CorrectedBulkInsertBindsEnqueueRows([handler], queue, priority, runAt, ps, now);
  }
}
