/** The result of a multi-statement query read from a stream (`StreamQueryResult`): a table
    giving each statement its kind or its result-set slot, one slot per result set that the
    stream resolves once, the client's position among the statements, and the cancellation
    of the stream once the client closed the result. The stream's callbacks are method calls
    made in some order; futures are cells that are set once. */
module StreamQueryResults {
  import opened Wrappers
  import opened Validator
  import opened LazyResultSets

  /** A statement of the query, by the three questions the constructor asks of it. */
  datatype QueryStatement = QueryStatement(isDDL: bool, hasUpdateCount: bool, hasResults: bool)

  const DDL_EXPRESSION := -1
  const UPDATE_EXPRESSION := -2

  /** `Statement.CLOSE_CURRENT_RESULT`, `KEEP_CURRENT_RESULT`, `CLOSE_ALL_RESULTS` */
  const CLOSE_CURRENT_RESULT := 1
  const KEEP_CURRENT_RESULT := 2
  const CLOSE_ALL_RESULTS := 3

  /** How the stream ended: with a status, or with an exception. */
  datatype StreamEnd = Finished(code: StatusCode) | Threw

  datatype StreamError =
    | Unsuccessful(code: StatusCode)
    | StreamFailed
    | NotReady
    | UnsupportedMode(mode: int)
    | NoSuchResultSet(index: int)

  /** A result-set future: not yet set, set to a cursor, or set to a failure. */
  datatype Slot = Pending | Ready(cursor: LazyResultSet) | Failed(error: StreamError)

  datatype CurrentResult = NoResultSet | ResultSetAt(cursor: LazyResultSet) | CurrentFailed(error: StreamError)

  datatype MoreStep = MoreStep(result: Result<bool, StreamError>, index: int)

  /** What a call of `close()` comes to: it returns with an outcome, or it waits for the
      stream to end. */
  datatype CloseStep = Closed(result: Result<(), StreamError>) | Waiting

  predicate Succeeded(end: StreamEnd)
  {
    end.Finished? && end.code == Success
  }

  function EndError(end: StreamEnd): StreamError
  {
    if end.Threw? then StreamFailed else Unsuccessful(end.code)
  }

  // ---- the statement table ----

  predicate ProducesResults(s: QueryStatement)
  {
    !s.isDDL && !s.hasUpdateCount && s.hasResults
  }

  predicate Classified(s: QueryStatement)
  {
    s.isDDL || s.hasUpdateCount || s.hasResults
  }

  /** How many statements produce a result set. */
  function ResultCount(stmts: seq<QueryStatement>): (n: nat)
    ensures n <= |stmts|
  {
    if stmts == [] then 0
    else ResultCount(stmts[..|stmts| - 1]) + (if ProducesResults(stmts[|stmts| - 1]) then 1 else 0)
  }

  /** The entries the constructor writes, one per classified statement: DDL -1, update -2,
      a result set its slot number. */
  function Entries(stmts: seq<QueryStatement>): (e: seq<int>)
    ensures |e| <= |stmts|
  {
    if stmts == [] then []
    else
      var init := stmts[..|stmts| - 1];
      var s := stmts[|stmts| - 1];
      if s.isDDL then Entries(init) + [DDL_EXPRESSION]
      else if s.hasUpdateCount then Entries(init) + [UPDATE_EXPRESSION]
      else if s.hasResults then Entries(init) + [ResultCount(init)]
      else Entries(init)
  }

  /** The whole table: the entries, then the zeros an unclassified statement leaves at the
      end of the array. */
  function SlotTable(stmts: seq<QueryStatement>): (t: seq<int>)
  {
    Entries(stmts) + seq(|stmts| - |Entries(stmts)|, _ => 0)
  }

  /** The non-negative entries of a table, in order. */
  function SlotNumbers(e: seq<int>): seq<int>
  {
    if e == [] then []
    else SlotNumbers(e[..|e| - 1]) + (if e[|e| - 1] >= 0 then [e[|e| - 1]] else [])
  }

  function Iota(n: nat): (r: seq<int>)
    ensures |r| == n && forall k :: 0 <= k < n ==> r[k] == k
  {
    if n == 0 then [] else Iota(n - 1) + [n - 1]
  }

  /** `getUpdateCount()` at a position of the table. */
  function UpdateCountAt(table: seq<int>, idx: nat): int
  {
    if idx >= |table| then -1
    else if table[idx] == DDL_EXPRESSION then 0
    else if table[idx] == UPDATE_EXPRESSION then 1
    else -1
  }

  /** `hasResultSets()` at a position of the table. */
  function HasResultSetsAt(table: seq<int>, idx: nat): bool
  {
    idx < |table| && table[idx] >= 0
  }

  /** `getCurrentResultSet()`: the slot the table names at the position, if any. */
  function CurrentAt(table: seq<int>, slots: seq<Slot>, idx: nat): CurrentResult
  {
    if idx >= |table| || table[idx] < 0 || table[idx] >= |slots| then NoResultSet
    else match slots[table[idx]]
      case Pending => CurrentFailed(NotReady)
      case Failed(e) => CurrentFailed(e)
      case Ready(c) => ResultSetAt(c)
  }

  /** What joining a slot and closing its cursor gives. */
  function CloseOutcome(slot: Slot): Result<(), StreamError>
  {
    match slot
    case Pending => Err(NotReady)
    case Failed(e) => Err(e)
    case Ready(_) => Ok(())
  }

  predicate ClosesCurrent(mode: int)
  {
    mode == CLOSE_CURRENT_RESULT || mode == CLOSE_ALL_RESULTS
  }

  /** `getMoreResults(mode)`: the answer and the new position. The position is compared with
      the number of slots, and the slot closed is the one numbered by the position. */
  function MoreResults(table: seq<int>, slots: seq<Slot>, idx: nat, mode: int): MoreStep
  {
    if idx >= |slots| then MoreStep(Ok(false), idx)
    else if mode == KEEP_CURRENT_RESULT then MoreStep(Ok(HasResultSetsAt(table, idx + 1)), idx + 1)
    else if ClosesCurrent(mode) then
      if CloseOutcome(slots[idx]).Err? then MoreStep(Err(CloseOutcome(slots[idx]).error), idx)
      else MoreStep(Ok(HasResultSetsAt(table, idx + 1)), idx + 1)
    else MoreStep(Err(UnsupportedMode(mode)), idx)
  }

  /** What `close()` reports once the stream it waited for has ended: a thrown stream fails,
      a stream the client cancelled meanwhile is fine whatever its status, and otherwise the
      status must be a success. */
  function WaitedCloseResult(end: StreamEnd, cancelled: bool): Result<(), StreamError>
  {
    match end
    case Threw => Err(StreamFailed)
    case Finished(code) => if cancelled || code == Success then Ok(()) else Err(Unsuccessful(code))
  }

  /** `close()` of the whole result: it returns at once when the start is done and the result
      already closed; otherwise it waits for the end of the stream and reports it. */
  function CloseResult(startDone: bool, resultClosed: bool, streamStatus: Option<StreamEnd>,
                       streamCancelled: bool): CloseStep
  {
    if startDone && resultClosed then Closed(Ok(()))
    else match streamStatus
      case None => Waiting
      case Some(end) => Closed(WaitedCloseResult(end, streamCancelled))
  }

  /** Java's narrowing cast `(int)` of a `long`: the low 32 bits read as a signed number. */
  function ToJavaInt(v: int): (r: int)
    ensures -0x8000_0000 <= r < 0x8000_0000
    ensures (r - v) % 0x1_0000_0000 == 0
  {
    (v + 0x8000_0000) % 0x1_0000_0000 - 0x8000_0000
  }

  /** The constructor's loop over the statements: writes the entries from the start of a
      zeroed array and counts the result sets. */
  method FillSlotTable(resultIndexes: array<int>, stmts: seq<QueryStatement>) returns (count: nat)
    requires resultIndexes.Length == |stmts|
    requires forall k :: 0 <= k < resultIndexes.Length ==> resultIndexes[k] == 0
    modifies resultIndexes
    ensures resultIndexes[..] == SlotTable(stmts)
    ensures count == ResultCount(stmts)
  {
    var idx := 0;
    count := 0;
    var i := 0;
    while i < |stmts|
      invariant 0 <= i <= |stmts|
      invariant idx == |Entries(stmts[..i])| <= i
      invariant resultIndexes[..idx] == Entries(stmts[..i])
      invariant forall k :: idx <= k < resultIndexes.Length ==> resultIndexes[k] == 0
      invariant count == ResultCount(stmts[..i])
    {
      assert stmts[..i + 1][..i] == stmts[..i];
      ghost var before := resultIndexes[..idx];
      var exp := stmts[i];
      if exp.isDDL {
        resultIndexes[idx] := DDL_EXPRESSION;
        idx := idx + 1;
        assert resultIndexes[..idx] == before + [DDL_EXPRESSION];
      } else if exp.hasUpdateCount {
        resultIndexes[idx] := UPDATE_EXPRESSION;
        idx := idx + 1;
        assert resultIndexes[..idx] == before + [UPDATE_EXPRESSION];
      } else if exp.hasResults {
        resultIndexes[idx] := count;
        idx := idx + 1;
        assert resultIndexes[..idx] == before + [count];
        count := count + 1;
      }
      i := i + 1;
    }
    assert stmts[..i] == stmts;
    assert resultIndexes[..] == resultIndexes[..idx] + resultIndexes[idx..];
  }

  class StreamQueryResult {
    const resultIndexes: array<int>
    var slots: seq<Slot>
    var streamStatus: Option<StreamEnd>
    var startDone: bool
    var streamCancelled: bool
    /** How many times the stream's stop action ran. */
    ghost var stopRuns: nat
    var resultIndex: nat
    var resultClosed: bool
    /** A call of `close()` waits for the end of the stream. */
    var closeWaiting: bool

    ghost function Cursors(): set<LazyResultSet>
      reads this
    {
      set i | 0 <= i < |slots| && slots[i].Ready? :: slots[i].cursor
    }

    /** The stop action ran once exactly when the stream was cancelled, which happens only
        after the result was closed; a waiting close has closed the result; the stream ends
        only after the start is done; every slot has its own cursor. */
    ghost predicate Valid()
      reads this
    {
      stopRuns == (if streamCancelled then 1 else 0)
      && (streamCancelled ==> resultClosed)
      && (closeWaiting ==> resultClosed)
      && (streamStatus.Some? ==> startDone)
      && forall i, j :: 0 <= i < |slots| && 0 <= j < |slots| && i != j && slots[i].Ready? && slots[j].Ready?
           ==> slots[i].cursor != slots[j].cursor
    }

    constructor (stmts: seq<QueryStatement>)
      ensures Valid() && fresh(resultIndexes)
      ensures resultIndexes[..] == SlotTable(stmts)
      ensures |slots| == ResultCount(stmts) && forall i :: 0 <= i < |slots| ==> slots[i] == Pending
      ensures streamStatus.None? && !startDone && !streamCancelled && resultIndex == 0 && !resultClosed
      ensures !closeWaiting
    {
      var table := new int[|stmts|](_ => 0);
      var count := FillSlotTable(table, stmts);
      resultIndexes := table;
      slots := seq(count, _ => Pending);
      streamStatus := None;
      startDone := false;
      streamCancelled := false;
      stopRuns := 0;
      resultIndex := 0;
      resultClosed := false;
      closeWaiting := false;
    }

    method GetUpdateCount() returns (r: int)
      ensures r == UpdateCountAt(resultIndexes[..], resultIndex)
    {
      if resultIndex >= resultIndexes.Length {
        return -1;
      }
      var index := resultIndexes[resultIndex];
      if index == DDL_EXPRESSION {
        return 0;
      }
      if index == UPDATE_EXPRESSION {
        return 1;
      }
      return -1;
    }

    method HasResultSets() returns (r: bool)
      ensures r == HasResultSetsAt(resultIndexes[..], resultIndex)
    {
      if resultIndex >= resultIndexes.Length {
        return false;
      }
      return resultIndexes[resultIndex] >= 0;
    }

    method GetCurrentResultSet() returns (r: CurrentResult)
      ensures r == CurrentAt(resultIndexes[..], slots, resultIndex)
    {
      if resultIndex >= resultIndexes.Length {
        return NoResultSet;
      }
      var index := resultIndexes[resultIndex];
      if index < 0 || index >= |slots| {
        return NoResultSet;
      }
      match slots[index]
      case Pending => r := CurrentFailed(NotReady);
      case Failed(e) => r := CurrentFailed(e);
      case Ready(c) => r := ResultSetAt(c);
    }

    /** `isStreamStopped()`: true once the result was closed; the first such call while
        the stream still runs cancels it. */
    method IsStreamStopped() returns (stopped: bool)
      requires Valid()
      modifies this
      ensures Valid()
      ensures stopped == resultClosed
      ensures streamCancelled == (old(streamCancelled) || (resultClosed && streamStatus.None?))
      ensures stopRuns == old(stopRuns) + (if streamCancelled && !old(streamCancelled) then 1 else 0)
      ensures slots == old(slots) && streamStatus == old(streamStatus) && startDone == old(startDone)
      ensures resultIndex == old(resultIndex) && resultClosed == old(resultClosed) && closeWaiting == old(closeWaiting)
    {
      if !resultClosed {
        return false;
      }
      if streamStatus.None? && !streamCancelled {
        streamCancelled := true;
        stopRuns := stopRuns + 1;
      }
      return true;
    }

    /** `closeResultSet(index)` */
    method CloseResultSet(index: nat) returns (r: Result<(), StreamError>)
      requires Valid() && index < |slots|
      modifies Cursors()
      ensures r == CloseOutcome(slots[index])
      ensures forall j :: 0 <= j < |slots| && slots[j].Ready? ==>
                slots[j].cursor.State() ==
                  (if j == index then CloseSpec(old(slots[j].cursor.State())) else old(slots[j].cursor.State()))
    {
      match slots[index]
      case Pending => r := Err(NotReady);
      case Failed(e) => r := Err(e);
      case Ready(c) =>
        c.Close();
        r := Ok(());
    }

    /** The `CLOSE_ALL_RESULTS` branch of `getMoreResults`: it closes the result set at the
        current position once per position up to and including it. */
    method CloseAllResultSets() returns (r: Result<(), StreamError>)
      requires Valid() && resultIndex < |slots|
      modifies Cursors()
      ensures Valid()
      ensures r == CloseOutcome(slots[resultIndex])
      ensures forall j :: 0 <= j < |slots| && slots[j].Ready? ==>
                slots[j].cursor.State() ==
                  (if j == resultIndex then CloseSpec(old(slots[j].cursor.State())) else old(slots[j].cursor.State()))
    {
      var idx := 0;
      while idx <= resultIndex
        modifies Cursors()
        invariant slots == old(slots) && Valid()
        invariant 0 <= idx <= resultIndex + 1
        invariant idx > 0 ==> slots[resultIndex].Ready?
        invariant forall j :: 0 <= j < |slots| && slots[j].Ready? ==>
                    slots[j].cursor.State() ==
                      (if j == resultIndex && idx > 0 then CloseSpec(old(slots[j].cursor.State()))
                       else old(slots[j].cursor.State()))
      {
        var closed := CloseResultSet(resultIndex);
        if closed.Err? {
          return closed;
        }
        idx := idx + 1;
      }
      return Ok(());
    }

    method GetMoreResults(mode: int) returns (r: Result<bool, StreamError>)
      requires Valid()
      modifies this, Cursors()
      ensures Valid()
      ensures MoreStep(r, resultIndex) == MoreResults(resultIndexes[..], slots, old(resultIndex), mode)
      ensures slots == old(slots) && streamStatus == old(streamStatus) && startDone == old(startDone)
      ensures streamCancelled == old(streamCancelled) && stopRuns == old(stopRuns)
      ensures resultClosed == old(resultClosed) && closeWaiting == old(closeWaiting)
      ensures forall j :: 0 <= j < |slots| && slots[j].Ready? ==>
                slots[j].cursor.State() ==
                  (if j == old(resultIndex) && ClosesCurrent(mode) then CloseSpec(old(slots[j].cursor.State()))
                   else old(slots[j].cursor.State()))
    {
      if resultIndex >= |slots| {
        return Ok(false);
      }
      if mode == KEEP_CURRENT_RESULT {
      } else if mode == CLOSE_CURRENT_RESULT {
        var closed := CloseResultSet(resultIndex);
        if closed.Err? {
          return Err(closed.error);
        }
      } else if mode == CLOSE_ALL_RESULTS {
        var closed := CloseAllResultSets();
        if closed.Err? {
          return Err(closed.error);
        }
      } else {
        return Err(UnsupportedMode(mode));
      }
      resultIndex := resultIndex + 1;
      var more := HasResultSets();
      return Ok(more);
    }

    /** `onResultSet(index, rsr)`: an index with no slot fails (the list lookup throws) and
        nothing changes; the first part for a slot sets it to a new cursor; a part for a slot
        holding a cursor is offered to it, and a part for a failed slot is dropped. */
    method OnResultSet(index: int, rows: nat) returns (r: Result<Option<Offer>, StreamError>)
      requires Valid()
      modifies this, Cursors()
      ensures Valid()
      ensures r.Err? <==> !(0 <= index < |slots|)
      ensures r.Err? ==> r.error == NoSuchResultSet(index) && streamCancelled == old(streamCancelled)
      ensures |slots| == |old(slots)| && forall j :: 0 <= j < |slots| && j != index ==> slots[j] == old(slots[j])
      ensures r.Ok? && !old(slots[index]).Pending? ==> slots[index] == old(slots[index])
      ensures r.Ok? && old(slots[index]).Pending? ==> slots[index].Ready? && fresh(slots[index].cursor)
      ensures r.Ok? ==> (r.value.Some? <==> slots[index].Ready?)
      ensures r.Ok? && slots[index].Ready? ==>
                AddStep(slots[index].cursor.State(), r.value.value) ==
                  AddResultSetSpec(if old(slots[index]).Ready? then old(slots[index].cursor.State()) else EmptyCursor(),
                                   rows, resultClosed)
      ensures forall j :: 0 <= j < |slots| && j != index && slots[j].Ready? ==>
                slots[j].cursor.State() == old(slots[j].cursor.State())
      ensures r.Ok? ==>
                streamCancelled == (old(streamCancelled) || (slots[index].Ready? && resultClosed && streamStatus.None?))
      ensures streamStatus == old(streamStatus) && startDone == old(startDone)
      ensures resultIndex == old(resultIndex) && resultClosed == old(resultClosed) && closeWaiting == old(closeWaiting)
    {
      if index < 0 || index >= |slots| {
        return Err(NoSuchResultSet(index));
      }
      if slots[index].Pending? {
        var c := new LazyResultSet();
        slots := slots[index := Ready(c)];
      }
      r := Ok(None);
      match slots[index]
      case Ready(c) =>
        var stopped := IsStreamStopped();
        var o := c.AddResultSet(rows, stopped);
        r := Ok(Some(o));
      case Failed(_) =>
      case Pending =>
    }

    /** The data-part handler of a query stream: the part goes to the slot named by the
        narrowed index of the part, and the start future is set unless that lookup failed. */
    method OnNextPart(partIndex: int, rows: nat) returns (r: Result<Option<Offer>, StreamError>)
      requires Valid()
      modifies this, Cursors()
      ensures Valid()
      ensures startDone == (old(startDone) || r.Ok?)
      ensures r.Err? <==> !(0 <= ToJavaInt(partIndex) < |slots|)
      ensures r.Err? ==> r.error == NoSuchResultSet(ToJavaInt(partIndex)) && slots == old(slots)
      ensures streamStatus == old(streamStatus) && resultIndex == old(resultIndex)
      ensures resultClosed == old(resultClosed) && closeWaiting == old(closeWaiting)
      ensures r.Ok? ==> |slots| == |old(slots)|
      ensures r.Ok? ==> forall j :: 0 <= j < |slots| && j != ToJavaInt(partIndex) ==> slots[j] == old(slots[j])
      ensures r.Ok? && old(slots[ToJavaInt(partIndex)]).Pending? ==>
                slots[ToJavaInt(partIndex)].Ready? && fresh(slots[ToJavaInt(partIndex)].cursor)
      ensures r.Ok? ==> (r.value.Some? <==> slots[ToJavaInt(partIndex)].Ready?)
      ensures r.Ok? ==>
                streamCancelled ==
                  (old(streamCancelled) || (slots[ToJavaInt(partIndex)].Ready? && resultClosed && streamStatus.None?))
    {
      r := OnResultSet(ToJavaInt(partIndex), rows);
      if r.Ok? {
        startDone := true;
      }
    }

    /** The part handler of a scan query: every part goes to the first slot, and the start
        future is set unless there is no slot. */
    method OnScanPart(rows: nat) returns (r: Result<Option<Offer>, StreamError>)
      requires Valid()
      modifies this, Cursors()
      ensures Valid()
      ensures startDone == (old(startDone) || r.Ok?)
      ensures r.Err? <==> |slots| == 0
      ensures r.Err? ==> r.error == NoSuchResultSet(0) && slots == old(slots)
      ensures streamStatus == old(streamStatus) && resultIndex == old(resultIndex)
      ensures resultClosed == old(resultClosed) && closeWaiting == old(closeWaiting)
      ensures r.Ok? ==> |slots| == |old(slots)| && forall j :: 0 < j < |slots| ==> slots[j] == old(slots[j])
      ensures r.Ok? ==> (r.value.Some? <==> slots[0].Ready?)
    {
      r := OnResultSet(0, rows);
      if r.Ok? {
        startDone := true;
      }
    }

    /** Sets every pending slot to the failure. */
    method FailPending(e: StreamError)
      requires Valid()
      modifies this
      ensures Valid()
      ensures |slots| == |old(slots)|
      ensures forall i :: 0 <= i < |slots| ==> slots[i] == (if old(slots[i]).Pending? then Failed(e) else old(slots[i]))
      ensures streamStatus == old(streamStatus) && startDone == old(startDone) && streamCancelled == old(streamCancelled)
      ensures stopRuns == old(stopRuns) && resultIndex == old(resultIndex) && resultClosed == old(resultClosed)
        && closeWaiting == old(closeWaiting)
    {
      var i := 0;
      while i < |slots|
        invariant 0 <= i <= |slots| == |old(slots)|
        invariant forall k :: 0 <= k < i ==> slots[k] == (if old(slots[k]).Pending? then Failed(e) else old(slots[k]))
        invariant forall k :: i <= k < |slots| ==> slots[k] == old(slots[k])
        invariant Valid()
        invariant streamStatus == old(streamStatus) && startDone == old(startDone) && streamCancelled == old(streamCancelled)
        invariant stopRuns == old(stopRuns) && resultIndex == old(resultIndex) && resultClosed == old(resultClosed)
        && closeWaiting == old(closeWaiting)
      {
        if slots[i].Pending? {
          slots := slots[i := Failed(e)];
        }
        i := i + 1;
      }
    }

    /** Sets every pending slot to a new empty cursor. */
    method FillPending()
      requires Valid()
      modifies this
      ensures Valid()
      ensures |slots| == |old(slots)|
      ensures forall i :: 0 <= i < |slots| && !old(slots[i]).Pending? ==> slots[i] == old(slots[i])
      ensures forall i :: 0 <= i < |slots| && old(slots[i]).Pending? ==>
                slots[i].Ready? && fresh(slots[i].cursor) && slots[i].cursor.State() == EmptyCursor()
      ensures streamStatus == old(streamStatus) && startDone == old(startDone) && streamCancelled == old(streamCancelled)
      ensures stopRuns == old(stopRuns) && resultIndex == old(resultIndex) && resultClosed == old(resultClosed)
        && closeWaiting == old(closeWaiting)
    {
      var i := 0;
      while i < |slots|
        invariant 0 <= i <= |slots| == |old(slots)|
        invariant forall k :: 0 <= k < i && !old(slots[k]).Pending? ==> slots[k] == old(slots[k])
        invariant forall k :: 0 <= k < i && old(slots[k]).Pending? ==>
                    slots[k].Ready? && fresh(slots[k].cursor) && slots[k].cursor.State() == EmptyCursor()
        invariant forall k :: i <= k < |slots| ==> slots[k] == old(slots[k])
        invariant Valid()
        invariant streamStatus == old(streamStatus) && startDone == old(startDone) && streamCancelled == old(streamCancelled)
        invariant stopRuns == old(stopRuns) && resultIndex == old(resultIndex) && resultClosed == old(resultClosed)
        && closeWaiting == old(closeWaiting)
      {
        if slots[i].Pending? {
          var c := new LazyResultSet();
          slots := slots[i := Ready(c)];
        }
        i := i + 1;
      }
    }

    /** Marks every cursor complete. */
    method CompleteCursors()
      requires Valid()
      modifies Cursors()
      ensures forall i :: 0 <= i < |slots| && slots[i].Ready? ==>
                slots[i].cursor.State() == old(slots[i].cursor.State()).(isCompleted := true)
    {
      var i := 0;
      while i < |slots|
        invariant 0 <= i <= |slots|
        invariant forall k :: 0 <= k < |slots| && slots[k].Ready? ==>
                    slots[k].cursor.State() ==
                      (if k < i then old(slots[k].cursor.State()).(isCompleted := true) else old(slots[k].cursor.State()))
      {
        if slots[i].Ready? {
          slots[i].cursor.Complete();
        }
        i := i + 1;
      }
    }

    /** `onStreamFinished(status, th)`: every slot still pending is resolved, to an empty
        cursor if the stream succeeded and to the failure otherwise; a slot already set keeps
        its value; every cursor is then complete. */
    method OnStreamFinished(end: StreamEnd)
      requires Valid()
      modifies this, Cursors()
      ensures Valid() && startDone
      ensures streamStatus == (if old(streamStatus).None? then Some(end) else old(streamStatus))
      ensures streamCancelled == old(streamCancelled) && stopRuns == old(stopRuns)
      ensures resultIndex == old(resultIndex) && resultClosed == old(resultClosed) && closeWaiting == old(closeWaiting)
      ensures |slots| == |old(slots)|
      ensures forall i :: 0 <= i < |slots| ==> !slots[i].Pending?
      ensures forall i :: 0 <= i < |slots| && !old(slots[i]).Pending? ==> slots[i] == old(slots[i])
      ensures forall i :: 0 <= i < |slots| && old(slots[i]).Pending? ==>
                if Succeeded(end)
                then slots[i].Ready? && fresh(slots[i].cursor)
                     && slots[i].cursor.State() == EmptyCursor().(isCompleted := true)
                else slots[i] == Failed(EndError(end))
      ensures forall i :: 0 <= i < |slots| && old(slots[i]).Ready? ==>
                slots[i].cursor.State() == old(slots[i].cursor.State()).(isCompleted := true)
    {
      if streamStatus.None? {
        streamStatus := Some(end);
      }
      startDone := true;
      if Succeeded(end) {
        FillPending();
      } else {
        FailPending(EndError(end));
      }
      CompleteCursors();
    }

    /** `close()` of the whole result: returns at once when the start is done and the result
        already closed; otherwise it closes the result and waits for the end of the stream
        (`AwaitClose`), which returns at once when the stream has already ended. */
    method Close() returns (r: CloseStep)
      requires Valid()
      modifies this
      ensures Valid()
      ensures r == CloseResult(old(startDone), old(resultClosed), streamStatus, streamCancelled)
      ensures resultClosed
      ensures closeWaiting == (old(closeWaiting) || r.Waiting?)
      ensures slots == old(slots) && streamStatus == old(streamStatus) && startDone == old(startDone)
      ensures streamCancelled == old(streamCancelled) && stopRuns == old(stopRuns) && resultIndex == old(resultIndex)
    {
      if startDone && resultClosed {
        return Closed(Ok(()));
      }
      resultClosed := true;
      closeWaiting := true;
      if streamStatus.None? {
        return Waiting;
      }
      var waited := AwaitClose();
      r := Closed(waited);
    }

    /** The waiting `close()` resumes once the stream has ended, and reports that end; the
        stream may have been cancelled by a part that arrived after the result was closed. */
    method AwaitClose() returns (r: Result<(), StreamError>)
      requires Valid() && closeWaiting && streamStatus.Some?
      modifies this
      ensures Valid() && !closeWaiting
      ensures slots == old(slots) && streamStatus == old(streamStatus) && startDone == old(startDone)
      ensures r == WaitedCloseResult(streamStatus.value, streamCancelled)
      ensures streamCancelled == old(streamCancelled) && stopRuns == old(stopRuns)
      ensures resultIndex == old(resultIndex) && resultClosed == old(resultClosed)
    {
      closeWaiting := false;
      match streamStatus.value
      case Threw => r := Err(StreamFailed);
      case Finished(code) =>
        if streamCancelled {
          return Ok(());
        }
        r := if code == Success then Ok(()) else Err(Unsuccessful(code));
    }
  }

  // ---- properties ----

  /** The slot numbers in the table are 0, 1, 2, … in statement order, one per statement that
      produces a result set. */
  lemma {:induction false} SlotsAreConsecutive(stmts: seq<QueryStatement>)
    ensures SlotNumbers(Entries(stmts)) == Iota(ResultCount(stmts))
    ensures forall k :: 0 <= k < |Entries(stmts)| ==> -2 <= Entries(stmts)[k] < ResultCount(stmts)
  {
    if stmts != [] {
      var init := stmts[..|stmts| - 1];
      SlotsAreConsecutive(init);
      var e := Entries(stmts);
      if Classified(stmts[|stmts| - 1]) {
        assert e[..|e| - 1] == Entries(init);
      }
    }
  }

  /** When every statement is of one of the three kinds, entry k is -1 for DDL, -2 for an
      update, and for a result set the number of result sets before it; nothing is left
      over. */
  lemma {:induction false} TableFollowsStatements(stmts: seq<QueryStatement>)
    requires forall k :: 0 <= k < |stmts| ==> Classified(stmts[k])
    ensures SlotTable(stmts) == Entries(stmts) && |Entries(stmts)| == |stmts|
    ensures forall k :: 0 <= k < |stmts| ==>
              Entries(stmts)[k] == (if stmts[k].isDDL then DDL_EXPRESSION
                                    else if stmts[k].hasUpdateCount then UPDATE_EXPRESSION
                                    else ResultCount(stmts[..k]))
  {
    if stmts != [] {
      var init := stmts[..|stmts| - 1];
      TableFollowsStatements(init);
      forall k | 0 <= k < |stmts| - 1
        ensures stmts[..k] == init[..k]
      {
      }
    }
  }

  /** A statement of none of the three kinds takes no entry: the entries after it move up
      and the array ends with a zero that reads as slot 0. */
  lemma UnclassifiedLeavesZero()
    ensures SlotTable([QueryStatement(false, false, false), QueryStatement(false, false, true)]) == [0, 0]
    ensures ResultCount([QueryStatement(false, false, false), QueryStatement(false, false, true)]) == 1
  {
    var stmts := [QueryStatement(false, false, false), QueryStatement(false, false, true)];
    assert stmts[..1][..0] == [];
    assert stmts[..1] == [QueryStatement(false, false, false)];
    assert Entries(stmts) == [0];
  }

  /** On a table built from classified statements, `getUpdateCount` gives 0 for DDL, 1 for an
      update and -1 for a result set or past the last statement, and `hasResultSets` holds
      exactly at a statement producing a result set. */
  lemma UpdateCountFollowsStatements(stmts: seq<QueryStatement>, k: nat)
    requires forall i :: 0 <= i < |stmts| ==> Classified(stmts[i])
    ensures k >= |stmts| ==> UpdateCountAt(SlotTable(stmts), k) == -1 && !HasResultSetsAt(SlotTable(stmts), k)
    ensures k < |stmts| ==>
              UpdateCountAt(SlotTable(stmts), k) == (if stmts[k].isDDL then 0 else if stmts[k].hasUpdateCount then 1 else -1)
              && (HasResultSetsAt(SlotTable(stmts), k) <==> ProducesResults(stmts[k]))
  {
    TableFollowsStatements(stmts);
  }

  /** Whatever the table, a position with a result set has no update count. */
  lemma ResultSetHasNoUpdateCount(table: seq<int>, idx: nat)
    ensures HasResultSetsAt(table, idx) ==> UpdateCountAt(table, idx) == -1
    ensures UpdateCountAt(table, idx) in {-1, 0, 1}
  {
  }

  /** `getMoreResults` only moves forward, by one, and only when it answers; past the last
      slot it answers false and stays; an unknown mode is refused without moving; closing all
      results closes the same one slot closing the current result does. */
  lemma MoreResultsMovesForward(table: seq<int>, slots: seq<Slot>, idx: nat, mode: int)
    ensures MoreResults(table, slots, idx, mode).index in {idx, idx + 1}
    ensures MoreResults(table, slots, idx, mode).index == idx + 1 <==>
              idx < |slots| && MoreResults(table, slots, idx, mode).result.Ok?
    ensures idx >= |slots| ==> MoreResults(table, slots, idx, mode) == MoreStep(Ok(false), idx)
    ensures idx < |slots| && mode !in {CLOSE_CURRENT_RESULT, KEEP_CURRENT_RESULT, CLOSE_ALL_RESULTS} ==>
              MoreResults(table, slots, idx, mode) == MoreStep(Err(UnsupportedMode(mode)), idx)
    ensures MoreResults(table, slots, idx, mode).result == Ok(true) ==> HasResultSetsAt(table, idx + 1)
    ensures MoreResults(table, slots, idx, CLOSE_ALL_RESULTS) == MoreResults(table, slots, idx, CLOSE_CURRENT_RESULT)
  {
  }

  /** The position is compared with the number of slots, not of statements: a query of only
      DDL and update statements has no slot, so `getMoreResults` never leaves its first
      statement. */
  lemma MoreResultsStopsAtSlotCount()
    ensures SlotTable([QueryStatement(true, false, false), QueryStatement(false, true, false)]) == [-1, -2]
    ensures ResultCount([QueryStatement(true, false, false), QueryStatement(false, true, false)]) == 0
    ensures MoreResults([-1, -2], [], 0, KEEP_CURRENT_RESULT) == MoreStep(Ok(false), 0)
    ensures UpdateCountAt([-1, -2], 0) == 0 && UpdateCountAt([-1, -2], 1) == 1
  {
    var stmts := [QueryStatement(true, false, false), QueryStatement(false, true, false)];
    assert stmts[..1][..0] == [];
    assert stmts[..1] == [QueryStatement(true, false, false)];
  }

  /** A close that waited for a stream its result cancelled succeeds whatever the stream's
      status; a close that waited without cancelling reports a failed status or a thrown
      stream. */
  lemma CloseAfterCancel(code: StatusCode, cancelled: bool)
    ensures WaitedCloseResult(Finished(code), true) == Ok(())
    ensures WaitedCloseResult(Finished(code), false) == (if code == Success then Ok(()) else Err(Unsuccessful(code)))
    ensures WaitedCloseResult(Threw, cancelled) == Err(StreamFailed)
  {
  }

  /** A close issued before the stream ends waits; when the stream then ends with a failed
      status that nobody cancelled, the waiting close reports it, and a later close returns
      at once. */
  method CloseBeforeFailedEnd(stmts: seq<QueryStatement>, code: StatusCode)
    returns (first: CloseStep, waited: Result<(), StreamError>, second: CloseStep)
    requires code != Success
    ensures first == Waiting && waited == Err(Unsuccessful(code)) && second == Closed(Ok(()))
  {
    var q := new StreamQueryResult(stmts);
    first := q.Close();
    q.OnStreamFinished(Finished(code));
    waited := q.AwaitClose();
    second := q.Close();
  }

  /** A close issued before the stream ends waits; a part that arrives meanwhile cancels the
      stream, and the waiting close then succeeds whatever status the stream ends with. */
  method CancelledCloseSucceeds(code: StatusCode, rows: nat) returns (first: CloseStep, waited: Result<(), StreamError>)
    ensures first == Waiting && waited == Ok(())
  {
    var stmts := [QueryStatement(false, false, true)];
    assert stmts[..0] == [];
    var q := new StreamQueryResult(stmts);
    first := q.Close();
    var part := q.OnNextPart(0, rows);
    assert ToJavaInt(0) == 0;
    q.OnStreamFinished(Finished(code));
    waited := q.AwaitClose();
  }

  /** The narrowing cast leaves a number that already fits an `int` as it is, and wraps the
      first number past the largest `int` to the smallest. */
  lemma ToJavaIntProperties(v: int)
    ensures -0x8000_0000 <= v < 0x8000_0000 ==> ToJavaInt(v) == v
    ensures ToJavaInt(0x8000_0000) == -0x8000_0000
    ensures ToJavaInt(v + 0x1_0000_0000) == ToJavaInt(v)
  {
  }
}
