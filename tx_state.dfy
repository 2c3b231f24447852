/** The transaction state of a connection (`tech.ydb.jdbc.connection.YdbTxState`): an
    immutable value with three shapes (a plain state, `EmptyTransaction` and
    `TransactionInProgress`) and `with*` transitions that return the next state. */
module TxStates {
  import opened Wrappers

  /** The isolation levels the driver supports (`YdbConst`). */
  const TRANSACTION_SERIALIZABLE_READ_WRITE := 8
  const ONLINE_CONSISTENT_READ_ONLY := 16
  const ONLINE_INCONSISTENT_READ_ONLY := 17
  const STALE_CONSISTENT_READ_ONLY := 32

  function SupportedLevels(): set<int>
  {
    {TRANSACTION_SERIALIZABLE_READ_WRITE, ONLINE_CONSISTENT_READ_ONLY,
     ONLINE_INCONSISTENT_READ_ONLY, STALE_CONSISTENT_READ_ONLY}
  }

  /** The transaction mode of a `TxControl`: begin a serializable read-write transaction,
      an online read-only one (possibly with inconsistent reads), a stale read-only one,
      or continue the transaction with the given id. */
  datatype TxMode =
    | SerializableRw
    | OnlineRo(allowInconsistentReads: bool)
    | StaleRo
    | ExistingTx(id: string)

  /** `TxControl`: the mode and whether the request commits (`isCommitTx()`); the SDK's
      factories create controls that commit. */
  datatype TxControl = TxControl(mode: TxMode, commitTx: bool)

  /** A table session, known by an identity. */
  datatype Session = Session(id: nat)

  datatype TxState =
    | /** An instance of `YdbTxState` itself. */
      Plain(control: TxControl, level: int)
    | EmptyTransaction
    | TransactionInProgress(txId: string, session: Option<Session>, autoCommit: bool)

  /** The exceptions of the transitions. */
  datatype TxError =
    | UnsupportedTransactionLevel(level: int)
    | ChangeIsolationInsideTx
    | ReadOnlyInsideTransaction

  /** A transition that takes a session: the next state and the session it closed. */
  datatype Transition = Transition(next: TxState, closed: Option<Session>)

  /** `txControl()` */
  function Control(s: TxState): TxControl
  {
    match s
    case Plain(control, _) => control
    case EmptyTransaction => TxControl(SerializableRw, false)
    case TransactionInProgress(id, _, autoCommit) => TxControl(ExistingTx(id), autoCommit)
  }

  /** `transactionLevel()` */
  function Level(s: TxState): int
  {
    if s.Plain? then s.level else TRANSACTION_SERIALIZABLE_READ_WRITE
  }

  /** `isAutoCommit()` */
  function IsAutoCommit(s: TxState): bool
  {
    Control(s).commitTx
  }

  /** `isReadOnly()`: no subclass overrides it, so it holds for every state. */
  function IsReadOnly(s: TxState): (r: bool)
    ensures r
  {
    true
  }

  /** `txID()`: no subclass overrides it, so even a transaction in progress reports none. */
  function TxId(s: TxState): (r: Option<string>)
    ensures r.None?
  {
    None
  }

  /** The private `create(session, txId, level, autoCommit)`. */
  function CreateWith(session: Option<Session>, txId: Option<string>, level: int, autoCommit: bool)
    : (r: Result<TxState, TxError>)
    ensures r.Err? <==> level !in SupportedLevels()
    ensures r.Err? ==> r.error == UnsupportedTransactionLevel(level)
    ensures r.Ok? ==> Level(r.value) == level
    ensures r.Ok? && r.value.TransactionInProgress? <==>
              level == TRANSACTION_SERIALIZABLE_READ_WRITE && txId.Some?
  {
    if level == TRANSACTION_SERIALIZABLE_READ_WRITE then
      if txId.Some? then Ok(TransactionInProgress(txId.value, session, autoCommit))
      else if autoCommit then Ok(Plain(TxControl(SerializableRw, true), level))
      else Ok(EmptyTransaction)
    else if level == ONLINE_CONSISTENT_READ_ONLY then Ok(Plain(TxControl(OnlineRo(false), true), level))
    else if level == STALE_CONSISTENT_READ_ONLY then Ok(Plain(TxControl(StaleRo, true), level))
    else if level == ONLINE_INCONSISTENT_READ_ONLY then Ok(Plain(TxControl(OnlineRo(true), true), level))
    else Err(UnsupportedTransactionLevel(level))
  }

  /** The public `create(level, autoCommit)`: no session, no transaction id. */
  function Create(level: int, autoCommit: bool): (r: Result<TxState, TxError>)
    ensures r.Ok? ==> !r.value.TransactionInProgress?
  {
    CreateWith(None, None, level, autoCommit)
  }

  /** The states the transitions can reach: a plain state carries the control its level
      prescribes. */
  predicate Valid(s: TxState)
  {
    match s
    case Plain(control, level) =>
      (level == TRANSACTION_SERIALIZABLE_READ_WRITE && control == TxControl(SerializableRw, true))
      || (level == ONLINE_CONSISTENT_READ_ONLY && control == TxControl(OnlineRo(false), true))
      || (level == ONLINE_INCONSISTENT_READ_ONLY && control == TxControl(OnlineRo(true), true))
      || (level == STALE_CONSISTENT_READ_ONLY && control == TxControl(StaleRo, true))
    case _ => true
  }

  /** `withAutoCommit(newAutoCommit)` */
  function WithAutoCommit(s: TxState, newAutoCommit: bool): (r: Result<TxState, TxError>)
    ensures s.TransactionInProgress? ==> r == Err(ChangeIsolationInsideTx)
    ensures !s.TransactionInProgress? && newAutoCommit == IsAutoCommit(s) ==> r == Ok(s)
  {
    if s.TransactionInProgress? then Err(ChangeIsolationInsideTx)
    else if newAutoCommit == IsAutoCommit(s) then Ok(s)
    else Create(Level(s), newAutoCommit)
  }

  /** `withReadOnly(readOnly)`, with the overrides of the two subclasses. */
  function WithReadOnly(s: TxState, readOnly: bool): (r: Result<TxState, TxError>)
    ensures s.TransactionInProgress? ==> r == Err(ReadOnlyInsideTransaction)
    ensures s.Plain? && readOnly ==> r == Ok(s)
    ensures s.EmptyTransaction? && !readOnly ==> r == Ok(s)
  {
    match s
    case Plain(_, _) =>
      if readOnly then Ok(s) else Create(TRANSACTION_SERIALIZABLE_READ_WRITE, IsAutoCommit(s))
    case EmptyTransaction =>
      if !readOnly then Ok(s) else Create(ONLINE_CONSISTENT_READ_ONLY, IsAutoCommit(s))
    case TransactionInProgress(_, _, _) => Err(ReadOnlyInsideTransaction)
  }

  /** `withTransactionLevel(newTransactionLevel)` */
  function WithTransactionLevel(s: TxState, newLevel: int): (r: Result<TxState, TxError>)
    ensures s.TransactionInProgress? ==> r == Err(ChangeIsolationInsideTx)
    ensures !s.TransactionInProgress? && newLevel == Level(s) ==> r == Ok(s)
  {
    if s.TransactionInProgress? then Err(ChangeIsolationInsideTx)
    else if newLevel == Level(s) then Ok(s)
    else Create(newLevel, IsAutoCommit(s))
  }

  /** `withCommit(session)`: closes the session passed in (not the one the state owns). */
  function WithCommit(s: TxState, session: Session): (r: Transition)
    ensures r.closed == Some(session)
    ensures r.next == (if s.TransactionInProgress? then EmptyTransaction else s)
  {
    if s.TransactionInProgress? then Transition(EmptyTransaction, Some(session))
    else Transition(s, Some(session))
  }

  /** `withRollback(session)`: the same as `withCommit` on the client side. */
  function WithRollback(s: TxState, session: Session): (r: Transition)
    ensures r == WithCommit(s, session)
  {
    if s.TransactionInProgress? then Transition(EmptyTransaction, Some(session))
    else Transition(s, Some(session))
  }

  /** `withKeepAlive(session)`: a transaction in progress keeps its session open. */
  function WithKeepAlive(s: TxState, session: Session): (r: Transition)
    ensures r.next == s
    ensures r.closed.None? <==> s.TransactionInProgress?
  {
    if s.TransactionInProgress? then Transition(s, None) else Transition(s, Some(session))
  }

  /** The session `createSession` reuses: a transaction in progress returns its own; every
      other state asks the table client for a new one (`None` here). */
  function ReusedSession(s: TxState): (r: Option<Session>)
    ensures s.TransactionInProgress? ==> r == s.session
    ensures !s.TransactionInProgress? ==> r.None?
  {
    if s.TransactionInProgress? then s.session else None
  }

  // ---- properties ----

  /** `create` accepts exactly the four supported levels, each with the control of its mode,
      and rejects every other level with its number. */
  lemma CreateLevels(level: int, autoCommit: bool)
    ensures Create(level, autoCommit).Ok? <==> level in SupportedLevels()
    ensures Create(level, autoCommit).Err? ==>
              Create(level, autoCommit).error == UnsupportedTransactionLevel(level)
    ensures Create(level, autoCommit).Ok? ==> Valid(Create(level, autoCommit).value)
    ensures level == ONLINE_CONSISTENT_READ_ONLY ==>
              Control(Create(level, autoCommit).value) == TxControl(OnlineRo(false), true)
    ensures level == ONLINE_INCONSISTENT_READ_ONLY ==>
              Control(Create(level, autoCommit).value) == TxControl(OnlineRo(true), true)
    ensures level == STALE_CONSISTENT_READ_ONLY ==>
              Control(Create(level, autoCommit).value) == TxControl(StaleRo, true)
  {
  }

  /** Serializable without autocommit is `EmptyTransaction`, which does not commit;
      serializable with autocommit is a plain state that does. */
  lemma CreateSerializable()
    ensures Create(TRANSACTION_SERIALIZABLE_READ_WRITE, false) == Ok(EmptyTransaction)
    ensures !IsAutoCommit(EmptyTransaction)
    ensures Create(TRANSACTION_SERIALIZABLE_READ_WRITE, true).Ok?
    ensures Create(TRANSACTION_SERIALIZABLE_READ_WRITE, true).value.Plain?
    ensures IsAutoCommit(Create(TRANSACTION_SERIALIZABLE_READ_WRITE, true).value)
  {
  }

  /** Only the private `create` with a transaction id builds a transaction in progress, which
      owns the session it was given. */
  lemma InProgressOnlyWithTxId(session: Option<Session>, txId: string, autoCommit: bool)
    ensures CreateWith(session, Some(txId), TRANSACTION_SERIALIZABLE_READ_WRITE, autoCommit)
              == Ok(TransactionInProgress(txId, session, autoCommit))
    ensures ReusedSession(TransactionInProgress(txId, session, autoCommit)) == session
    ensures IsAutoCommit(TransactionInProgress(txId, session, autoCommit)) == autoCommit
  {
  }

  /** Every transition from a valid state that succeeds leads to a valid state. */
  lemma TransitionsPreserveValidity(s: TxState, b: bool, level: int, session: Session)
    requires Valid(s)
    ensures WithAutoCommit(s, b).Ok? ==> Valid(WithAutoCommit(s, b).value)
    ensures WithReadOnly(s, b).Ok? ==> Valid(WithReadOnly(s, b).value)
    ensures WithTransactionLevel(s, level).Ok? ==> Valid(WithTransactionLevel(s, level).value)
    ensures Valid(WithCommit(s, session).next) && Valid(WithRollback(s, session).next)
    ensures Valid(WithKeepAlive(s, session).next)
  {
    CreateLevels(Level(s), b);
    CreateLevels(level, IsAutoCommit(s));
    CreateLevels(TRANSACTION_SERIALIZABLE_READ_WRITE, IsAutoCommit(s));
    CreateLevels(ONLINE_CONSISTENT_READ_ONLY, IsAutoCommit(s));
  }

  /** Outside a transaction, switching autocommit takes effect at the serializable level,
      while the read-only levels always commit: their controls are created committing. */
  lemma AutoCommitTakesEffect(s: TxState, b: bool)
    requires Valid(s) && !s.TransactionInProgress?
    ensures WithAutoCommit(s, b).Ok?
    ensures Level(WithAutoCommit(s, b).value) == Level(s)
    ensures Level(s) == TRANSACTION_SERIALIZABLE_READ_WRITE ==> IsAutoCommit(WithAutoCommit(s, b).value) == b
    ensures Level(s) != TRANSACTION_SERIALIZABLE_READ_WRITE ==> IsAutoCommit(WithAutoCommit(s, b).value)
  {
    CreateLevels(Level(s), b);
  }

  /** A level change that succeeds sets the level asked for and keeps autocommit where the
      new level allows it. */
  lemma LevelChangeTakesEffect(s: TxState, level: int)
    requires Valid(s) && !s.TransactionInProgress?
    ensures WithTransactionLevel(s, level).Ok? <==> level in SupportedLevels() || level == Level(s)
    ensures WithTransactionLevel(s, level).Ok? ==> Level(WithTransactionLevel(s, level).value) == level
    ensures WithTransactionLevel(s, level).Ok? && level == TRANSACTION_SERIALIZABLE_READ_WRITE ==>
              IsAutoCommit(WithTransactionLevel(s, level).value) == IsAutoCommit(s)
  {
    CreateLevels(level, IsAutoCommit(s));
  }

  /** `withReadOnly(false)` on a plain state moves to serializable read-write keeping its
      autocommit; `withReadOnly(true)` on `EmptyTransaction` moves to online consistent
      read-only. */
  lemma ReadOnlySwitch(s: TxState)
    requires s.Plain?
    ensures WithReadOnly(s, false).Ok?
    ensures Level(WithReadOnly(s, false).value) == TRANSACTION_SERIALIZABLE_READ_WRITE
    ensures IsAutoCommit(WithReadOnly(s, false).value) == IsAutoCommit(s)
    ensures WithReadOnly(EmptyTransaction, true) == Ok(Plain(TxControl(OnlineRo(false), true), ONLINE_CONSISTENT_READ_ONLY))
  {
  }

  /** Going read-only and back from `EmptyTransaction` does not return to it: the read-only
      control commits, so the way back is serializable with autocommit on. */
  lemma ReadOnlyRoundTripTurnsAutoCommitOn()
    ensures WithReadOnly(EmptyTransaction, true).Ok?
    ensures WithReadOnly(WithReadOnly(EmptyTransaction, true).value, false)
              == Ok(Plain(TxControl(SerializableRw, true), TRANSACTION_SERIALIZABLE_READ_WRITE))
  {
    var ro := WithReadOnly(EmptyTransaction, true).value;
    assert ro == Plain(TxControl(OnlineRo(false), true), ONLINE_CONSISTENT_READ_ONLY);
    assert IsAutoCommit(ro);
  }

  /** Ending a transaction in progress closes exactly the session passed in and leaves an
      empty transaction; keep-alive keeps the transaction and closes nothing. */
  lemma EndOfTransaction(txId: string, owned: Option<Session>, autoCommit: bool, session: Session)
    ensures WithCommit(TransactionInProgress(txId, owned, autoCommit), session)
              == Transition(EmptyTransaction, Some(session))
    ensures WithRollback(TransactionInProgress(txId, owned, autoCommit), session)
              == Transition(EmptyTransaction, Some(session))
    ensures WithKeepAlive(TransactionInProgress(txId, owned, autoCommit), session)
              == Transition(TransactionInProgress(txId, owned, autoCommit), None)
    ensures !IsAutoCommit(WithCommit(TransactionInProgress(txId, owned, autoCommit), session).next)
  {
  }

  /** Changing autocommit or the level twice to the same value is changing it once. */
  lemma TransitionsIdempotent(s: TxState, b: bool, level: int)
    requires Valid(s)
    ensures WithAutoCommit(s, b).Ok? ==>
              WithAutoCommit(WithAutoCommit(s, b).value, b) == WithAutoCommit(s, b)
    ensures WithTransactionLevel(s, level).Ok? ==>
              WithTransactionLevel(WithTransactionLevel(s, level).value, level) == WithTransactionLevel(s, level)
  {
    CreateLevels(Level(s), b);
    CreateLevels(level, IsAutoCommit(s));
  }
}
