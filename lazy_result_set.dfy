/** The lazy cursor of a streamed query (`StreamQueryResult.LazyResultSet`): a bounded queue
    of row batches filled by the stream, a running row count, the batch being read, the row
    number shown to the client, and the completed and closed flags. A batch is its row count;
    column values are not modelled. */
module LazyResultSets {
  import opened Wrappers

  /** The capacity of the batch queue. */
  const QueueCapacity := 5
  /** `ResultSet.FETCH_FORWARD` */
  const FETCH_FORWARD := 1000

  /** The batch being read: how many rows it has and how many were read. */
  datatype Reader = Reader(rowCount: nat, position: nat)

  /** The cursor's fields, as a value. */
  datatype Cursor = Cursor(
    readers: seq<nat>,
    rowsCount: nat,
    isCompleted: bool,
    isClosed: bool,
    current: Option<Reader>,
    rowIndex: int)

  /** A single attempt to hand a batch to the cursor. `QueueFull` is where the producer
      would wait for the reader to make room. */
  datatype Offer = Accepted | QueueFull | Stopped

  /** What `next()` does: a row, no more rows, or waiting for the stream to deliver. */
  datatype NextResult = HasRow | NoMoreRows | WaitingForRows

  datatype AddStep = AddStep(cursor: Cursor, offer: Offer)
  datatype NextStep = NextStep(cursor: Cursor, result: NextResult)

  datatype CursorError = ForwardOnlyMode

  /** The scrolling operations a forward-only cursor refuses. */
  datatype Navigation = BeforeFirst | AfterLast | First | Last | Absolute(row: int)
                      | Relative(rows: int) | Previous

  function EmptyCursor(): Cursor
  {
    Cursor([], 0, false, false, None, 0)
  }

  function Sum(s: seq<nat>): nat
  {
    if s == [] then 0 else s[0] + Sum(s[1..])
  }

  lemma {:induction false} SumAppend(s: seq<nat>, x: nat)
    ensures Sum(s + [x]) == Sum(s) + x
  {
    if s != [] {
      assert (s + [x])[1..] == s[1..] + [x];
      SumAppend(s[1..], x);
    }
  }

  /** Rows accepted but not yet shown: those in queued batches and those left in the
      current one. */
  function Remaining(c: Cursor): nat
    requires c.current.Some? ==> c.current.value.position <= c.current.value.rowCount
  {
    Sum(c.readers) + (if c.current.Some? then c.current.value.rowCount - c.current.value.position else 0)
  }

  /** The cursor invariant: the queue is within its capacity and, while the cursor is open,
      every accepted row is either shown (counted by the row number) or still waiting, or
      the cursor finished and stands after the last row. */
  predicate Consistent(c: Cursor)
  {
    |c.readers| <= QueueCapacity
    && c.rowIndex >= 0
    && (c.current.Some? ==> c.current.value.position <= c.current.value.rowCount)
    && (!c.isClosed ==>
          c.rowIndex + Remaining(c) == c.rowsCount
          || (c.isCompleted && c.rowsCount > 0 && c.rowIndex == c.rowsCount + 1 && Remaining(c) == 0))
  }

  /** `close()` */
  function CloseSpec(c: Cursor): Cursor
  {
    c.(isClosed := true, current := None, readers := [])
  }

  /** `addResultSet(rsr)`, one offer: a stopped stream closes the cursor instead; an accepted
      batch adds its rows to the count and is dropped again if the cursor was closed. */
  function AddResultSetSpec(c: Cursor, rows: nat, stopped: bool): AddStep
  {
    if stopped then AddStep(CloseSpec(c), Stopped)
    else if |c.readers| >= QueueCapacity then AddStep(c, QueueFull)
    else
      var c1 := c.(readers := c.readers + [rows], rowsCount := c.rowsCount + rows);
      AddStep(if c1.isClosed then c1.(readers := []) else c1, Accepted)
  }

  /** `next()`: read on in the current batch, else finish if the stream is complete and the
      queue empty, else take the next batch. */
  function NextSpec(c: Cursor): NextStep
    decreases |c.readers|
  {
    if c.isClosed then NextStep(c, NoMoreRows)
    else if c.current.Some? && c.current.value.position < c.current.value.rowCount then
      NextStep(c.(current := Some(c.current.value.(position := c.current.value.position + 1)),
                  rowIndex := c.rowIndex + 1), HasRow)
    else if c.isCompleted && c.readers == [] then
      NextStep(c.(current := None, rowIndex := if c.rowsCount > 0 then c.rowsCount + 1 else c.rowIndex),
               NoMoreRows)
    else if c.readers == [] then NextStep(c.(current := None), WaitingForRows)
    else NextSpec(c.(current := Some(Reader(c.readers[0], 0)), readers := c.readers[1..]))
  }

  // ---- position queries; `None` is where `isCompleted.join()` would wait ----

  function IsBeforeFirst(c: Cursor): bool
  {
    c.rowsCount > 0 && c.rowIndex < 1
  }

  function IsAfterLast(c: Cursor): Option<bool>
  {
    if !c.isCompleted then None else Some(c.rowsCount > 0 && c.rowIndex > c.rowsCount)
  }

  function IsFirst(c: Cursor): bool
  {
    c.rowIndex == 1
  }

  function IsLast(c: Cursor): Option<bool>
  {
    if !c.isCompleted then None else Some(c.rowsCount > 0 && c.rowIndex == c.rowsCount)
  }

  /** `beforeFirst`, `afterLast`, `first`, `last`, `absolute`, `relative` and `previous` are
      refused whatever the cursor's state. */
  function Navigate(n: Navigation): (r: Result<bool, CursorError>)
    ensures r.Err?
  {
    Err(ForwardOnlyMode)
  }

  /** `setFetchDirection(direction)` */
  function SetFetchDirection(direction: int): (r: Result<(), CursorError>)
    ensures r.Ok? <==> direction == FETCH_FORWARD
  {
    if direction != FETCH_FORWARD then Err(ForwardOnlyMode) else Ok(())
  }

  class LazyResultSet {
    var readers: seq<nat>
    var rowsCount: nat
    var isCompleted: bool
    var isClosed: bool
    var current: Option<Reader>
    var rowIndex: int

    function State(): Cursor
      reads this
    {
      Cursor(readers, rowsCount, isCompleted, isClosed, current, rowIndex)
    }

    constructor ()
      ensures State() == EmptyCursor()
    {
      readers := [];
      rowsCount := 0;
      isCompleted := false;
      isClosed := false;
      current := None;
      rowIndex := 0;
    }

    /** `cleanQueue()`: poll until the queue answers empty. */
    method CleanQueue()
      modifies this
      ensures State() == old(State()).(readers := [])
    {
      var isEmpty := false;
      while !isEmpty
        invariant State() == old(State()).(readers := readers)
        invariant isEmpty ==> readers == []
        decreases |readers| + (if isEmpty then 0 else 1)
      {
        isEmpty := readers == [];
        if !isEmpty {
          readers := readers[1..];
        }
      }
    }

    method AddResultSet(rows: nat, stopped: bool) returns (offer: Offer)
      modifies this
      ensures State() == AddResultSetSpec(old(State()), rows, stopped).cursor
      ensures offer == AddResultSetSpec(old(State()), rows, stopped).offer
    {
      if stopped {
        Close();
        return Stopped;
      }
      if |readers| >= QueueCapacity {
        return QueueFull;
      }
      readers := readers + [rows];
      rowsCount := rowsCount + rows;
      if isClosed {
        CleanQueue();
      }
      return Accepted;
    }

    method Next() returns (r: NextResult)
      modifies this
      ensures State() == NextSpec(old(State())).cursor
      ensures r == NextSpec(old(State())).result
    {
      while true
        invariant NextSpec(State()) == NextSpec(old(State()))
        decreases |readers|
      {
        if isClosed {
          return NoMoreRows;
        }
        if current.Some? && current.value.position < current.value.rowCount {
          current := Some(current.value.(position := current.value.position + 1));
          rowIndex := rowIndex + 1;
          return HasRow;
        }
        if isCompleted && readers == [] {
          current := None;
          if rowsCount > 0 {
            rowIndex := rowsCount + 1;
          }
          return NoMoreRows;
        }
        if readers == [] {
          current := None;
          return WaitingForRows;
        }
        current := Some(Reader(readers[0], 0));
        readers := readers[1..];
      }
    }

    /** `complete()`: the stream has ended. */
    method Complete()
      modifies this
      ensures State() == old(State()).(isCompleted := true)
    {
      isCompleted := true;
    }

    method Close()
      modifies this
      ensures State() == CloseSpec(old(State()))
    {
      isClosed := true;
      current := None;
      CleanQueue();
    }
  }

  // ---- properties ----

  /** A new cursor is consistent, and so is every cursor after `next`, `close`, `complete`,
      and after a batch offered before the stream completed. */
  lemma NewCursorConsistent()
    ensures Consistent(EmptyCursor())
  {
    assert Remaining(EmptyCursor()) == Sum([]) == 0;
  }

  lemma {:induction false} NextPreservesConsistency(c: Cursor)
    requires Consistent(c)
    ensures Consistent(NextSpec(c).cursor)
    decreases |c.readers|
  {
    if c.isClosed {
    } else if c.current.Some? && c.current.value.position < c.current.value.rowCount {
    } else if c.isCompleted && c.readers == [] {
    } else if c.readers == [] {
    } else {
      var c1 := c.(current := Some(Reader(c.readers[0], 0)), readers := c.readers[1..]);
      assert Remaining(c1) == Remaining(c);
      NextPreservesConsistency(c1);
    }
  }

  lemma AddPreservesConsistency(c: Cursor, rows: nat, stopped: bool)
    requires Consistent(c) && !c.isCompleted
    ensures Consistent(AddResultSetSpec(c, rows, stopped).cursor)
  {
    SumAppend(c.readers, rows);
  }

  lemma CloseAndCompletePreserveConsistency(c: Cursor)
    requires Consistent(c)
    ensures Consistent(CloseSpec(c))
    ensures Consistent(c.(isCompleted := true))
  {
  }

  /** The queue never holds more than its capacity, and the row count grows by exactly the
      rows of an accepted batch; a refused or stopped offer adds no rows. */
  lemma {:induction false} AddCountsRows(c: Cursor, rows: nat, stopped: bool)
    requires |c.readers| <= QueueCapacity
    ensures |AddResultSetSpec(c, rows, stopped).cursor.readers| <= QueueCapacity
    ensures AddResultSetSpec(c, rows, stopped).cursor.rowsCount ==
              c.rowsCount + (if AddResultSetSpec(c, rows, stopped).offer == Accepted then rows else 0)
    ensures AddResultSetSpec(c, rows, stopped).offer == Accepted <==> !stopped && |c.readers| < QueueCapacity
    ensures AddResultSetSpec(c, rows, stopped).offer == QueueFull ==> AddResultSetSpec(c, rows, stopped).cursor == c
    ensures stopped ==> AddResultSetSpec(c, rows, stopped).cursor == CloseSpec(c)
  {
  }

  /** `next` on a closed cursor answers false and changes nothing; a row moves the row number
      on by exactly one; the end of the rows is reached only once the stream completed and
      the queue is empty, and then the row number stands after the last row. */
  lemma {:induction false} NextOutcomes(c: Cursor)
    ensures c.isClosed ==> NextSpec(c) == NextStep(c, NoMoreRows)
    ensures NextSpec(c).result == HasRow ==>
              NextSpec(c).cursor.rowIndex == c.rowIndex + 1 && NextSpec(c).cursor.rowsCount == c.rowsCount
    ensures !c.isClosed && NextSpec(c).result == NoMoreRows ==>
              c.isCompleted && NextSpec(c).cursor.readers == [] && NextSpec(c).cursor.current.None?
              && NextSpec(c).cursor.rowIndex == (if c.rowsCount > 0 then c.rowsCount + 1 else c.rowIndex)
    ensures NextSpec(c).result == WaitingForRows ==> !c.isCompleted && NextSpec(c).cursor.readers == []
    ensures NextSpec(c).cursor.rowsCount == c.rowsCount && NextSpec(c).cursor.isClosed == c.isClosed
            && NextSpec(c).cursor.isCompleted == c.isCompleted
    decreases |c.readers|
  {
    if !c.isClosed && !(c.current.Some? && c.current.value.position < c.current.value.rowCount)
       && c.readers != [] {
      NextOutcomes(c.(current := Some(Reader(c.readers[0], 0)), readers := c.readers[1..]));
    }
  }

  /** On a consistent cursor the row number never goes back, and a cursor that ran out of
      rows has shown every row it accepted. */
  lemma {:induction false} NextMovesForward(c: Cursor)
    requires Consistent(c)
    ensures NextSpec(c).cursor.rowIndex >= c.rowIndex
    ensures !c.isClosed && NextSpec(c).result == NoMoreRows && c.rowsCount > 0 ==>
              IsAfterLast(NextSpec(c).cursor) == Some(true) && IsLast(NextSpec(c).cursor) == Some(false)
              && !IsBeforeFirst(NextSpec(c).cursor)
    decreases |c.readers|
  {
    NextOutcomes(c);
    if !c.isClosed && !(c.current.Some? && c.current.value.position < c.current.value.rowCount)
       && c.readers != [] {
      var c1 := c.(current := Some(Reader(c.readers[0], 0)), readers := c.readers[1..]);
      assert Remaining(c1) == Remaining(c);
      NextMovesForward(c1);
    }
  }

  /** A cursor that received no rows is neither before the first nor after the last row. */
  lemma ZeroRowsHasNoPosition(c: Cursor)
    requires c.rowsCount == 0 && c.isCompleted
    ensures !IsBeforeFirst(c) && IsAfterLast(c) == Some(false) && IsLast(c) == Some(false)
  {
  }

  /** `close` leaves a closed cursor with no batch and an empty queue, and closing twice is
      closing once. */
  lemma CloseIdempotent(c: Cursor)
    ensures CloseSpec(c).isClosed && CloseSpec(c).current.None? && CloseSpec(c).readers == []
    ensures CloseSpec(CloseSpec(c)) == CloseSpec(c)
    ensures CloseSpec(c).rowsCount == c.rowsCount && CloseSpec(c).rowIndex == c.rowIndex
  {
  }
}
