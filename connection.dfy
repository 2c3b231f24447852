/** The transaction bookkeeping of a connection (`tech.ydb.jdbc.impl.YdbConnectionImpl` and
    its `MutableState`): the current transaction id, the issues of the last request, the
    autocommit flag, the isolation level and the closed flag, and the operations that change
    them. The session RPCs (commit, rollback, close) are inputs: what the response said or how
    waiting for it failed. */
module Connection {
  import opened Wrappers
  import opened Strings
  import opened QueryTypes
  import opened Validator
  import TxStates

  /** A server issue as the connection stores it for `getWarnings`. */
  datatype Issue = Issue(message: string)

  /** The outcome of a session RPC: a response with its status code and issues (judged
      under the caller's gRPC context), or a failure while waiting for it. */
  datatype RpcOutcome =
    | Responded(code: StatusCode, issues: seq<Issue>, ctx: GrpcContext)
    | JoinFailed(error: LocalError)

  /** The exceptions the connection throws. */
  datatype ConnError =
    | ClosedConnection
    | ReadOnlyInsideTransaction
    | ChangeIsolationInsideTx
    | UnsupportedTransactionLevel(level: int)
    | StatusFailure(status: StatusError)
    | ExecutionFailure(local: LocalError)
    | TransactionNotClosed(previous: string, next: string)
    | ResultSetTypeUnsupported
    | ResultSetConcurrencyUnsupported
    | ResultSetHoldabilityUnsupported

  /** `MutableState`, as a value. */
  datatype ConnState = ConnState(
    txId: Option<string>,
    lastIssues: seq<Issue>,
    autoCommit: bool,
    level: int,
    closed: bool)

  /** The state after an operation and what the operation returned or threw. */
  datatype Step = Step(state: ConnState, result: Result<(), ConnError>)

  const PrefixSyntaxV1 := "--!syntax_v1"

  const TYPE_FORWARD_ONLY := 1003
  const TYPE_SCROLL_INSENSITIVE := 1004
  const CONCUR_READ_ONLY := 1007
  const HOLD_CURSORS_OVER_COMMIT := 1

  // ---- the operations, as functions of the state ----

  /** `ensureOpened()` */
  function EnsureOpened(s: ConnState): (r: Result<(), ConnError>)
    ensures r.Err? <==> s.closed
    ensures r.Err? ==> r.error == ClosedConnection
  {
    if s.closed then Err(ClosedConnection) else Ok(())
  }

  /** `clearWarnings()` */
  function ClearWarningsSpec(s: ConnState): Step
  {
    if s.closed then Step(s, Err(ClosedConnection)) else Step(s.(lastIssues := []), Ok(()))
  }

  /** `joinStatusImpl`: a response that passes `validate` becomes the last issues; a response
      that does not, or a failed wait, throws and leaves the issues alone. */
  function JoinStatus(s: ConnState, rpc: RpcOutcome): (r: Step)
    ensures r.result.Ok? <==> rpc.Responded? && rpc.code == Success
    ensures r.result.Ok? ==> r.state == s.(lastIssues := rpc.issues)
    ensures r.result.Err? ==> r.state == s
  {
    match rpc
    case JoinFailed(e) => Step(s, Err(ExecutionFailure(e)))
    case Responded(code, issues, ctx) =>
      var v := Validate(code, ctx);
      if v.None? then Step(s.(lastIssues := issues), Ok(())) else Step(s, Err(StatusFailure(v.value)))
  }

  /** The failure that `commit` and `rollback` treat specially: a retryable `NOT_FOUND`. */
  predicate IsNotFound(r: Result<(), ConnError>)
  {
    r.Err? && r.error.StatusFailure? && r.error.status.category == Retryable
    && r.error.status.code == NotFound
  }

  /** `clearTx()` */
  function ClearTx(s: ConnState): ConnState
  {
    s.(txId := None)
  }

  /** `commit()` */
  function CommitSpec(s: ConnState, rpc: RpcOutcome): Step
  {
    if s.closed then Step(s, Err(ClosedConnection))
    else if s.txId.None? then Step(s, Ok(()))
    else
      var j := JoinStatus(s.(lastIssues := []), rpc);
      if j.result.Ok? || IsNotFound(j.result) then Step(ClearTx(j.state), j.result) else j
  }

  /** `rollback()`: as `commit`, but an expired transaction is not an error. */
  function RollbackSpec(s: ConnState, rpc: RpcOutcome): Step
  {
    if s.closed then Step(s, Err(ClosedConnection))
    else if s.txId.None? then Step(s, Ok(()))
    else
      var j := JoinStatus(s.(lastIssues := []), rpc);
      if j.result.Ok? || IsNotFound(j.result) then Step(ClearTx(j.state), Ok(())) else j
  }

  /** `setAutoCommit(autoCommit)`: switching it on commits. */
  function SetAutoCommitSpec(s: ConnState, autoCommit: bool, rpc: RpcOutcome): Step
  {
    if s.closed then Step(s, Err(ClosedConnection))
    else
      var changed := s.autoCommit != autoCommit;
      var s1 := s.(autoCommit := autoCommit);
      if changed && autoCommit then CommitSpec(s1, rpc) else Step(s1, Ok(()))
  }

  /** `close()`: the connection is closed and the transaction forgotten whatever the RPC
      did. */
  function CloseSpec(s: ConnState, rpc: RpcOutcome): Step
  {
    if s.closed then Step(s, Ok(()))
    else
      var j := JoinStatus(s.(lastIssues := []), rpc);
      Step(ClearTx(j.state.(closed := true)), j.result)
  }

  /** `setTransactionIsolation(level)` */
  function SetTransactionIsolationSpec(s: ConnState, level: int): Step
  {
    if s.closed then Step(s, Err(ClosedConnection))
    else if s.txId.Some? then Step(s, Err(ChangeIsolationInsideTx))
    else if s.level == level then Step(s, Ok(()))
    else if level in TxStates.SupportedLevels() then Step(s.(level := level), Ok(()))
    else Step(s, Err(UnsupportedTransactionLevel(level)))
  }

  /** `setReadOnly(readOnly)`: read-only maps serializable to online consistent read-only,
      read-write maps every other level back to serializable. */
  function SetReadOnlySpec(s: ConnState, readOnly: bool): Step
  {
    if s.closed then Step(s, Err(ClosedConnection))
    else if s.txId.Some? then Step(s, Err(ReadOnlyInsideTransaction))
    else if readOnly then
      if s.level == TxStates.TRANSACTION_SERIALIZABLE_READ_WRITE
      then SetTransactionIsolationSpec(s, TxStates.ONLINE_CONSISTENT_READ_ONLY)
      else Step(s, Ok(()))
    else
      if s.level != TxStates.TRANSACTION_SERIALIZABLE_READ_WRITE
      then SetTransactionIsolationSpec(s, TxStates.TRANSACTION_SERIALIZABLE_READ_WRITE)
      else Step(s, Ok(()))
  }

  /** `isReadOnly()`, through `getTransactionIsolation()`. */
  function IsReadOnly(s: ConnState): (r: Result<bool, ConnError>)
    ensures r.Err? <==> s.closed
    ensures r.Ok? ==> (r.value <==> s.level != TxStates.TRANSACTION_SERIALIZABLE_READ_WRITE)
  {
    if s.closed then Err(ClosedConnection)
    else Ok(s.level != TxStates.TRANSACTION_SERIALIZABLE_READ_WRITE)
  }

  /** `setTx(txId)`: the empty id ends the transaction; a new id is taken only when none is
      open; a different id while one is open is an internal error. */
  function SetTxSpec(s: ConnState, id: string): Step
  {
    if id == "" then Step(ClearTx(s), Ok(()))
    else if s.txId.Some? then
      if s.txId.value != id then Step(s, Err(TransactionNotClosed(s.txId.value, id)))
      else Step(s, Ok(()))
    else Step(s.(txId := Some(id)), Ok(()))
  }

  /** `getTxControl()` */
  function GetTxControl(s: ConnState): (r: Result<TxStates.TxControl, ConnError>)
    ensures r.Err? <==> s.level !in TxStates.SupportedLevels()
  {
    if s.level == TxStates.TRANSACTION_SERIALIZABLE_READ_WRITE then
      var mode := if s.txId.Some? then TxStates.ExistingTx(s.txId.value) else TxStates.SerializableRw;
      Ok(TxStates.TxControl(mode, s.autoCommit))
    else if s.level == TxStates.ONLINE_CONSISTENT_READ_ONLY then
      Ok(TxStates.TxControl(TxStates.OnlineRo(false), true))
    else if s.level == TxStates.STALE_CONSISTENT_READ_ONLY then
      Ok(TxStates.TxControl(TxStates.StaleRo, true))
    else if s.level == TxStates.ONLINE_INCONSISTENT_READ_ONLY then
      Ok(TxStates.TxControl(TxStates.OnlineRo(true), true))
    else Err(UnsupportedTransactionLevel(s.level))
  }

  /** `prepareYdbSql(sql)` */
  function PrepareYdbSql(enforceSqlV1: bool, sql: string): (r: string)
    ensures !enforceSqlV1 ==> r == sql
    ensures enforceSqlV1 ==> Contains(r, PrefixSyntaxV1)
    ensures r == sql || r == PrefixSyntaxV1 + "\n" + sql
  {
    if enforceSqlV1 && !Contains(sql, PrefixSyntaxV1) then
      ContainsOwnPrefix(PrefixSyntaxV1, "\n" + sql);
      assert PrefixSyntaxV1 + ("\n" + sql) == PrefixSyntaxV1 + "\n" + sql;
      PrefixSyntaxV1 + "\n" + sql
    else sql
  }

  /** The first of `types` whose prefix occurs in `sql`. */
  function FirstContained(sql: string, types: seq<QueryType>): (r: Option<QueryType>)
  {
    if types == [] then None
    else if Contains(sql, Prefix(types[0])) then Some(types[0])
    else FirstContained(sql, types[1..])
  }

  /** What `decodeQueryType` returns. */
  function DecodedQueryType(sql: Option<string>, detectSqlOperations: bool): QueryType
  {
    if sql.Some? && detectSqlOperations then
      match FirstContained(sql.value, Values())
      case Some(t) => t
      case None => DataQuery
    else DataQuery
  }

  /** `checkStatementParams(type, concurrency, holdability)`, checked in that order. */
  function CheckStatementParams(resultSetType: int, concurrency: int, holdability: int)
    : (r: Result<(), ConnError>)
    ensures r.Ok? <==> resultSetType in {TYPE_FORWARD_ONLY, TYPE_SCROLL_INSENSITIVE}
                       && concurrency == CONCUR_READ_ONLY && holdability == HOLD_CURSORS_OVER_COMMIT
    ensures r.Err? && resultSetType !in {TYPE_FORWARD_ONLY, TYPE_SCROLL_INSENSITIVE} ==>
              r.error == ResultSetTypeUnsupported
    ensures r.Err? && resultSetType in {TYPE_FORWARD_ONLY, TYPE_SCROLL_INSENSITIVE} ==>
              r.error == (if concurrency != CONCUR_READ_ONLY then ResultSetConcurrencyUnsupported
                          else ResultSetHoldabilityUnsupported)
  {
    if resultSetType != TYPE_FORWARD_ONLY && resultSetType != TYPE_SCROLL_INSENSITIVE then
      Err(ResultSetTypeUnsupported)
    else if concurrency != CONCUR_READ_ONLY then Err(ResultSetConcurrencyUnsupported)
    else if holdability != HOLD_CURSORS_OVER_COMMIT then Err(ResultSetHoldabilityUnsupported)
    else Ok(())
  }

  // ---- the connection object ----

  class YdbConnection {
    var txId: Option<string>
    var lastIssues: seq<Issue>
    var autoCommit: bool
    var transactionLevel: int
    var closed: bool
    /** `properties.isEnforceSqlV1()` and `properties.isDetectSqlOperations()` */
    const enforceSqlV1: bool
    const detectSqlOperations: bool

    function State(): ConnState
      reads this
    {
      ConnState(txId, lastIssues, autoCommit, transactionLevel, closed)
    }

    /** The state starts from the configured autocommit and level. */
    constructor (autoCommit: bool, level: int, enforceSqlV1: bool, detectSqlOperations: bool)
      ensures State() == ConnState(None, [], autoCommit, level, false)
      ensures this.enforceSqlV1 == enforceSqlV1 && this.detectSqlOperations == detectSqlOperations
    {
      this.txId := None;
      this.lastIssues := [];
      this.autoCommit := autoCommit;
      this.transactionLevel := level;
      this.closed := false;
      this.enforceSqlV1 := enforceSqlV1;
      this.detectSqlOperations := detectSqlOperations;
    }

    method EnsureOpenedCheck() returns (r: Result<(), ConnError>)
      ensures r == EnsureOpened(State())
    {
      if closed {
        return Err(ClosedConnection);
      }
      return Ok(());
    }

    method ClearWarnings() returns (r: Result<(), ConnError>)
      modifies this
      ensures State() == ClearWarningsSpec(old(State())).state
      ensures r == ClearWarningsSpec(old(State())).result
    {
      r := EnsureOpenedCheck();
      if r.Err? {
        return;
      }
      lastIssues := [];
    }

    method JoinStatusImpl(rpc: RpcOutcome) returns (r: Result<(), ConnError>)
      modifies this
      ensures State() == JoinStatus(old(State()), rpc).state
      ensures r == JoinStatus(old(State()), rpc).result
    {
      match rpc
      case JoinFailed(e) =>
        r := Err(ExecutionFailure(e));
      case Responded(code, issues, ctx) =>
        var v := Validate(code, ctx);
        if v.Some? {
          r := Err(StatusFailure(v.value));
        } else {
          lastIssues := issues;
          r := Ok(());
        }
    }

    method ClearTxImpl()
      modifies this
      ensures State() == ClearTx(old(State()))
    {
      if txId.Some? {
        txId := None;
      }
    }

    method Commit(rpc: RpcOutcome) returns (r: Result<(), ConnError>)
      modifies this
      ensures State() == CommitSpec(old(State()), rpc).state
      ensures r == CommitSpec(old(State()), rpc).result
    {
      r := EnsureOpenedCheck();
      if r.Err? {
        return;
      }
      if txId.Some? {
        r := ClearWarnings();
        r := JoinStatusImpl(rpc);
        if r.Ok? || IsNotFound(r) {
          ClearTxImpl();
        }
      }
    }

    method Rollback(rpc: RpcOutcome) returns (r: Result<(), ConnError>)
      modifies this
      ensures State() == RollbackSpec(old(State()), rpc).state
      ensures r == RollbackSpec(old(State()), rpc).result
    {
      r := EnsureOpenedCheck();
      if r.Err? {
        return;
      }
      if txId.Some? {
        r := ClearWarnings();
        r := JoinStatusImpl(rpc);
        if r.Ok? || IsNotFound(r) {
          ClearTxImpl();
          r := Ok(());
        }
      }
    }

    method SetAutoCommit(newAutoCommit: bool, rpc: RpcOutcome) returns (r: Result<(), ConnError>)
      modifies this
      ensures State() == SetAutoCommitSpec(old(State()), newAutoCommit, rpc).state
      ensures r == SetAutoCommitSpec(old(State()), newAutoCommit, rpc).result
    {
      r := EnsureOpenedCheck();
      if r.Err? {
        return;
      }
      var changed := autoCommit != newAutoCommit;
      autoCommit := newAutoCommit;
      if changed && newAutoCommit {
        r := Commit(rpc);
      }
    }

    method GetAutoCommit() returns (r: Result<bool, ConnError>)
      ensures r.Err? <==> closed
      ensures r.Ok? ==> r.value == autoCommit
    {
      if closed {
        return Err(ClosedConnection);
      }
      return Ok(autoCommit);
    }

    method Close(rpc: RpcOutcome) returns (r: Result<(), ConnError>)
      modifies this
      ensures State() == CloseSpec(old(State()), rpc).state
      ensures r == CloseSpec(old(State()), rpc).result
    {
      r := Ok(());
      if !closed {
        r := ClearWarnings();
        r := JoinStatusImpl(rpc);
        closed := true;
        ClearTxImpl();
      }
    }

    method GetTransactionIsolation() returns (r: Result<int, ConnError>)
      ensures r.Err? <==> closed
      ensures r.Ok? ==> r.value == transactionLevel
    {
      if closed {
        return Err(ClosedConnection);
      }
      return Ok(transactionLevel);
    }

    method SetTransactionIsolation(level: int) returns (r: Result<(), ConnError>)
      modifies this
      ensures State() == SetTransactionIsolationSpec(old(State()), level).state
      ensures r == SetTransactionIsolationSpec(old(State()), level).result
    {
      r := EnsureOpenedCheck();
      if r.Err? {
        return;
      }
      if txId.Some? {
        return Err(ChangeIsolationInsideTx);
      }
      if transactionLevel != level {
        if level in TxStates.SupportedLevels() {
          transactionLevel := level;
        } else {
          return Err(UnsupportedTransactionLevel(level));
        }
      }
    }

    method SetReadOnly(readOnly: bool) returns (r: Result<(), ConnError>)
      modifies this
      ensures State() == SetReadOnlySpec(old(State()), readOnly).state
      ensures r == SetReadOnlySpec(old(State()), readOnly).result
    {
      r := EnsureOpenedCheck();
      if r.Err? {
        return;
      }
      if txId.Some? {
        return Err(ReadOnlyInsideTransaction);
      }
      var level := GetTransactionIsolation();
      if readOnly {
        if level == Ok(TxStates.TRANSACTION_SERIALIZABLE_READ_WRITE) {
          r := SetTransactionIsolation(TxStates.ONLINE_CONSISTENT_READ_ONLY);
        }
      } else {
        if level != Ok(TxStates.TRANSACTION_SERIALIZABLE_READ_WRITE) {
          r := SetTransactionIsolation(TxStates.TRANSACTION_SERIALIZABLE_READ_WRITE);
        }
      }
    }

    method SetTx(id: string) returns (r: Result<(), ConnError>)
      modifies this
      ensures State() == SetTxSpec(old(State()), id).state
      ensures r == SetTxSpec(old(State()), id).result
    {
      r := Ok(());
      if id == "" {
        ClearTxImpl();
      } else if txId.Some? {
        if txId.value != id {
          r := Err(TransactionNotClosed(txId.value, id));
        }
      } else {
        txId := Some(id);
      }
    }

    /** `decodeQueryType(sql)`: the first query type, in declaration order, whose prefix
        occurs in the text; data query when none does, when the text is null or when
        detection is off. */
    method DecodeQueryType(sql: Option<string>) returns (t: QueryType)
      ensures t == DecodedQueryType(sql, detectSqlOperations)
    {
      if sql.Some? && detectSqlOperations {
        var types := Values();
        var i := 0;
        while i < |types|
          invariant 0 <= i <= |types|
          invariant FirstContained(sql.value, types) == FirstContained(sql.value, types[i..])
        {
          assert types[i..][1..] == types[i + 1..];
          if Contains(sql.value, Prefix(types[i])) {
            return types[i];
          }
          i := i + 1;
        }
      }
      return DataQuery;
    }
  }

  // ---- properties ----

  /** Once closed, every guarded operation throws the closed-connection error and changes
      nothing, and closing again does nothing. */
  lemma ClosedIsFinal(s: ConnState, rpc: RpcOutcome, b: bool, level: int)
    requires s.closed
    ensures CommitSpec(s, rpc) == Step(s, Err(ClosedConnection))
    ensures RollbackSpec(s, rpc) == Step(s, Err(ClosedConnection))
    ensures SetAutoCommitSpec(s, b, rpc) == Step(s, Err(ClosedConnection))
    ensures SetReadOnlySpec(s, b) == Step(s, Err(ClosedConnection))
    ensures SetTransactionIsolationSpec(s, level) == Step(s, Err(ClosedConnection))
    ensures ClearWarningsSpec(s) == Step(s, Err(ClosedConnection))
    ensures IsReadOnly(s) == Err(ClosedConnection)
    ensures CloseSpec(s, rpc) == Step(s, Ok(()))
  {
  }

  /** `close` always ends closed and without a transaction, even when the RPC fails, and
      is idempotent. */
  lemma CloseAlwaysCloses(s: ConnState, rpc: RpcOutcome, rpc2: RpcOutcome)
    ensures CloseSpec(s, rpc).state.closed
    ensures CloseSpec(s, rpc).state.txId.None? || s.closed
    ensures CloseSpec(CloseSpec(s, rpc).state, rpc2).state == CloseSpec(s, rpc).state
    ensures !s.closed ==> CloseSpec(s, rpc).state.autoCommit == s.autoCommit
                          && CloseSpec(s, rpc).state.level == s.level
  {
  }

  /** Setting autocommit to its current value does not commit; switching it on commits,
      which ends a transaction that commits; switching it off never commits. */
  lemma SetAutoCommitCommitsOnlyWhenSwitchedOn(s: ConnState, b: bool, rpc: RpcOutcome)
    requires !s.closed
    ensures b == s.autoCommit ==> SetAutoCommitSpec(s, b, rpc) == Step(s, Ok(()))
    ensures !b ==> SetAutoCommitSpec(s, b, rpc) == Step(s.(autoCommit := false), Ok(()))
    ensures b && !s.autoCommit ==>
              SetAutoCommitSpec(s, b, rpc) == CommitSpec(s.(autoCommit := true), rpc)
    ensures b && !s.autoCommit && SetAutoCommitSpec(s, b, rpc).result.Ok? ==>
              SetAutoCommitSpec(s, b, rpc).state.txId.None? && SetAutoCommitSpec(s, b, rpc).state.autoCommit
  {
  }

  /** `commit` and `rollback` do nothing without a transaction. With one, success ends it;
      `NOT_FOUND` ends it too, but `commit` reports the failure and `rollback` does not;
      any other failure keeps it. */
  lemma CommitAndRollbackOutcomes(s: ConnState, rpc: RpcOutcome)
    requires !s.closed
    ensures s.txId.None? ==> CommitSpec(s, rpc) == Step(s, Ok(())) && RollbackSpec(s, rpc) == Step(s, Ok(()))
    ensures s.txId.Some? && rpc.Responded? && rpc.code == Success ==>
              CommitSpec(s, rpc) == Step(s.(txId := None, lastIssues := rpc.issues), Ok(()))
              && RollbackSpec(s, rpc) == CommitSpec(s, rpc)
    ensures s.txId.Some? && rpc.Responded? && rpc.code == NotFound ==>
              CommitSpec(s, rpc).state == s.(txId := None, lastIssues := [])
              && CommitSpec(s, rpc).result.Err?
              && RollbackSpec(s, rpc) == Step(s.(txId := None, lastIssues := []), Ok(()))
    ensures s.txId.Some? && (rpc.JoinFailed? || (rpc.code != Success && rpc.code != NotFound)) ==>
              CommitSpec(s, rpc).state == s.(lastIssues := []) && CommitSpec(s, rpc).result.Err?
              && RollbackSpec(s, rpc) == CommitSpec(s, rpc)
  {
    if s.txId.Some? && rpc.Responded? && rpc.code == NotFound {
      assert Validate(NotFound, rpc.ctx) == Some(StatusError(Retryable, NotFound, StatusReason));
    }
  }

  /** `setTx` never replaces one open transaction id with another: an open id changes only
      by ending it. */
  lemma TxIdNeverSwitches(s: ConnState, id: string)
    ensures SetTxSpec(s, id).state.txId.Some? && s.txId.Some? ==> SetTxSpec(s, id).state.txId == s.txId
    ensures id == "" ==> SetTxSpec(s, id) == Step(s.(txId := None), Ok(()))
    ensures id != "" && s.txId.None? ==> SetTxSpec(s, id) == Step(s.(txId := Some(id)), Ok(()))
    ensures id != "" && s.txId.Some? ==> (SetTxSpec(s, id).result.Ok? <==> s.txId.value == id)
    ensures SetTxSpec(s, id).state.(txId := s.txId) == s
  {
  }

  /** The isolation level changes only outside a transaction, only to a supported level, and
      `isReadOnly` reports whether it left serializable read-write. */
  lemma IsolationChanges(s: ConnState, level: int)
    requires !s.closed
    ensures s.txId.Some? ==> SetTransactionIsolationSpec(s, level) == Step(s, Err(ChangeIsolationInsideTx))
    ensures s.txId.None? && level == s.level ==> SetTransactionIsolationSpec(s, level) == Step(s, Ok(()))
    ensures s.txId.None? && level != s.level ==>
              (SetTransactionIsolationSpec(s, level).result.Ok? <==> level in TxStates.SupportedLevels())
    ensures SetTransactionIsolationSpec(s, level).result.Ok? ==>
              SetTransactionIsolationSpec(s, level).state == s.(level := level)
    ensures SetTransactionIsolationSpec(s, level).result.Err? ==> SetTransactionIsolationSpec(s, level).state == s
  {
  }

  /** `setReadOnly` moves between serializable read-write and online consistent read-only,
      after which `isReadOnly` answers what was asked; outside a transaction it never fails. */
  lemma ReadOnlyTakesEffect(s: ConnState, readOnly: bool)
    requires !s.closed && s.txId.None?
    ensures SetReadOnlySpec(s, readOnly).result.Ok?
    ensures IsReadOnly(SetReadOnlySpec(s, readOnly).state) == Ok(readOnly)
    ensures readOnly && s.level == TxStates.TRANSACTION_SERIALIZABLE_READ_WRITE ==>
              SetReadOnlySpec(s, readOnly).state.level == TxStates.ONLINE_CONSISTENT_READ_ONLY
    ensures readOnly && s.level != TxStates.TRANSACTION_SERIALIZABLE_READ_WRITE ==>
              SetReadOnlySpec(s, readOnly).state == s
    ensures !readOnly ==> SetReadOnlySpec(s, readOnly).state.level == TxStates.TRANSACTION_SERIALIZABLE_READ_WRITE
    ensures SetReadOnlySpec(s, readOnly).state.(level := s.level) == s
  {
  }

  /** Every operation keeps a supported isolation level supported. */
  lemma LevelStaysSupported(s: ConnState, rpc: RpcOutcome, b: bool, level: int, id: string)
    requires s.level in TxStates.SupportedLevels()
    ensures CommitSpec(s, rpc).state.level in TxStates.SupportedLevels()
    ensures RollbackSpec(s, rpc).state.level in TxStates.SupportedLevels()
    ensures SetAutoCommitSpec(s, b, rpc).state.level in TxStates.SupportedLevels()
    ensures CloseSpec(s, rpc).state.level in TxStates.SupportedLevels()
    ensures SetTransactionIsolationSpec(s, level).state.level in TxStates.SupportedLevels()
    ensures SetReadOnlySpec(s, b).state.level in TxStates.SupportedLevels()
    ensures SetTxSpec(s, id).state.level in TxStates.SupportedLevels()
    ensures GetTxControl(s).Ok?
  {
  }

  /** The control `getTxControl` builds is the one the transaction-state value of the same
      level, autocommit and transaction id carries. */
  lemma TxControlAgreesWithTxState(s: ConnState)
    requires s.level in TxStates.SupportedLevels()
    ensures s.txId.None? ==>
              TxStates.Create(s.level, s.autoCommit).Ok?
              && GetTxControl(s) == Ok(TxStates.Control(TxStates.Create(s.level, s.autoCommit).value))
    ensures s.txId.Some? && s.level == TxStates.TRANSACTION_SERIALIZABLE_READ_WRITE ==>
              GetTxControl(s) == Ok(TxStates.Control(
                TxStates.TransactionInProgress(s.txId.value, None, s.autoCommit)))
  {
  }

  /** `prepareYdbSql` is idempotent, and leaves text that already names the syntax alone. */
  lemma PrepareYdbSqlIdempotent(enforceSqlV1: bool, sql: string)
    ensures PrepareYdbSql(enforceSqlV1, PrepareYdbSql(enforceSqlV1, sql)) == PrepareYdbSql(enforceSqlV1, sql)
    ensures Contains(sql, PrefixSyntaxV1) ==> PrepareYdbSql(enforceSqlV1, sql) == sql
  {
  }

  /** `FirstContained` finds the earliest type whose prefix occurs, and `None` only when no
      prefix occurs. */
  lemma {:induction false} FirstContainedIsFirst(sql: string, types: seq<QueryType>)
    ensures FirstContained(sql, types).None? <==> forall i :: 0 <= i < |types| ==> !Contains(sql, Prefix(types[i]))
    ensures FirstContained(sql, types).Some? ==>
              exists k :: 0 <= k < |types| && types[k] == FirstContained(sql, types).value
                          && Contains(sql, Prefix(types[k]))
                          && forall i :: 0 <= i < k ==> !Contains(sql, Prefix(types[i]))
  {
    if types != [] {
      FirstContainedIsFirst(sql, types[1..]);
      if !Contains(sql, Prefix(types[0])) {
        if FirstContained(sql, types).Some? {
          var k :| 0 <= k < |types[1..]| && types[1..][k] == FirstContained(sql, types[1..]).value
                   && Contains(sql, Prefix(types[1..][k]))
                   && forall i :: 0 <= i < k ==> !Contains(sql, Prefix(types[1..][i]));
          assert types[k + 1] == types[1..][k];
          assert forall i :: 0 <= i < k + 1 ==> !Contains(sql, Prefix(types[i])) by {
            forall i | 0 <= i < k + 1 ensures !Contains(sql, Prefix(types[i])) {
              if i > 0 {
                assert types[i] == types[1..][i - 1];
              }
            }
          }
        } else {
          forall i | 0 <= i < |types| ensures !Contains(sql, Prefix(types[i])) {
            if i > 0 {
              assert types[i] == types[1..][i - 1];
            }
          }
        }
      }
    }
  }

  /** The text made of a query type's own prefix decodes to that type: no other prefix occurs
      in it. */
  lemma DecodeOwnPrefix(t: QueryType)
    ensures DecodedQueryType(Some(Prefix(t)), true) == t
  {
    FirstContainedIsFirst(Prefix(t), Values());
    PrefixesIndependent(t, t);
    var r := FirstContained(Prefix(t), Values());
    assert Values()[Ordinal(t)] == t;
    var k :| 0 <= k < |Values()| && Values()[k] == r.value && Contains(Prefix(t), Prefix(Values()[k]))
             && forall i :: 0 <= i < k ==> !Contains(Prefix(t), Prefix(Values()[i]));
    PrefixesIndependent(t, Values()[k]);
  }

  /** Without detection, or without text, every query is a data query; with detection, a
      text containing no prefix is a data query too. */
  lemma DecodeDefaultsToData(sql: Option<string>, detect: bool)
    ensures !detect || sql.None? ==> DecodedQueryType(sql, detect) == DataQuery
    ensures sql.Some? && (forall t :: !Contains(sql.value, Prefix(t))) ==> DecodedQueryType(sql, detect) == DataQuery
  {
    if sql.Some? && detect {
      FirstContainedIsFirst(sql.value, Values());
    }
  }
}
