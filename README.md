# YDB JDBC driver: a Dafny model of its bookkeeping core

This project models the sequential bookkeeping of the YDB JDBC driver, the logic around
query execution. It proves properties of that model. Each Dafny module follows one class of
the driver:

- **`QueryTypes`** models `impl/QueryType`. It holds the four query kinds, their
  `--jdbc:` prefixes in declaration order and `prefixes()`. The bare enum
  `jdbc/.../query/QueryType.java` has the same four kinds, and the query builder uses this
  module for it.
- **`Validator`** models the status classifier `Validator.validate`. The code is either
  success, non-retryable, retryable or conditionally retryable. For three codes, an expired
  or cancelled gRPC context downgrades the result. `Validator` also models both
  `checkGrpcContextStatus` overloads and the error-selection branch of a failed `join`. The
  gRPC context is two booleans: deadline expired, and cancelled.
- **`YdbTypes`** models `YdbTypesImpl`:
  - the four tables the constructor fills, and `selfValidate`;
  - the wrapping of YDB types into JDBC type codes (`SQL_KIND_PRIMITIVE + ordinal`) and the
    unwrapping back;
  - lookup by class, by code and by name (with the optional suffix);
  - `toSqlType`, `getSqlPrecision` and the reported type catalogue.
- **`TxStates`** models `YdbTxState`. Its three shapes are the plain state, `EmptyTransaction`
  and `TransactionInProgress`. The `with*` transitions return the next state. A transition
  that is handed a session reports which session it closed.
- **`Connection`** models the `MutableState` of `YdbConnectionImpl`, which is the
  transaction id, autocommit, isolation level, closed flag and the last issues. It covers the
  operations that update it (`commit`, `rollback`, `setAutoCommit`, `close`, `setReadOnly`,
  `setTransactionIsolation`, `setTx`/`clearTx`, `clearWarnings`) and the pure helpers
  (`getTxControl`, `prepareYdbSql`, `decodeQueryType`, `checkStatementParams`). Every session
  RPC is an input of the operation: it responded with a status code, or the wait failed.
- **`LazyResultSets`** and **`StreamQueryResults`** model `StreamQueryResult`:
  - the statement table filled by the constructor;
  - the result-set slots, each resolved once;
  - `getUpdateCount`, `hasResultSets` and `getMoreResults`;
  - the stream callbacks `onResultSet`/`onNextPart`/`onStreamFinished`;
  - cancellation through `isStreamStopped`, and `close`;
  - the cursor `LazyResultSet`, a queue of at most five row batches with a row counter, a row
    index and closed/completed flags.

  The network callbacks are method calls made in sequence.
- **`ParameterMetaData`** models `YdbParameterMetaDataImpl`. It holds the arrays and index map
  built from an ordered map of declared parameters, and the 1-based lookups with their range
  errors.
- **`PreparedStatements`** models `YdbPreparedStatementImpl`. It covers `$`-prefix
  normalisation, binding a value by name, the rejected positional and batch operations, and
  `getParameterTypes`.
- **`QueryBuilders`** models `YdbQueryBuilder`:
  - fresh `$jpN` argument names that never occur in the original text;
  - the one query kind per query;
  - the text appended so far.
- **`MappingResultSets`** models `common/MappingResultSets`:
  - `stableMap` into an insertion-ordered map;
  - the column types taken from the first row, and the row items;
  - `readerFromMap` and `emptyReader`.

`Wrappers` (`Option`, `Result`) and `Strings` (substring, prefix and suffix tests, and decimal
rendering of naturals) support the rest.

Classes keep the fields the driver updates in place. Each such class has a value snapshot
`State()`. Each method is proved against a specification function of the old snapshot, and
the properties are proved as lemmas about those functions.

## Model

| member | source | states |
|---|---|---|
| QueryTypes.Values | src/main/java/tech/ydb/jdbc/impl/QueryType.java:7-16 | there are exactly four kinds, pairwise distinct |
| QueryTypes.Ordinal | src/main/java/tech/ydb/jdbc/impl/QueryType.java:7-16 | every kind has a position in declaration order, and that position holds it |
| QueryTypes.Prefixes | src/main/java/tech/ydb/jdbc/impl/QueryType.java:24-32 | `prefixes()` lists `getPrefix` of each kind, in declaration order |
| QueryTypes.PrefixesIndependent | src/main/java/tech/ydb/jdbc/impl/QueryType.java:9-16 | one kind's prefix occurs inside another's exactly when they are the same kind |
| QueryTypes.PrefixesDistinct | src/main/java/tech/ydb/jdbc/impl/QueryType.java:28-32 | the four prefixes are pairwise distinct |
| Validator.CheckGrpcContextStatus | src/main/java/tech/ydb/jdbc/impl/Validator.java:179-187 | an error exactly when the deadline expired or the context was cancelled; it is non-retryable, keeps the code, and its reason is deadline exceeded exactly when the deadline expired |
| Validator.Validate | src/main/java/tech/ydb/jdbc/impl/Validator.java:114-177 | no error exactly on success; the error keeps the code; retryable exactly for the retryable group; conditionally retryable exactly for the conditional group, or for the context-checked group when the context is live |
| Validator.ClassificationIsTotal | src/main/java/tech/ydb/jdbc/impl/Validator.java:174-175 | every non-success code is classified; a code outside all groups is non-retryable with the plain status reason |
| Validator.GroupsDisjoint | src/main/java/tech/ydb/jdbc/impl/Validator.java:119-173 | the four code groups are pairwise disjoint and do not contain success |
| Validator.ContextMattersOnlyForThree | src/main/java/tech/ydb/jdbc/impl/Validator.java:152-159 | outside the three context-checked codes, the context does not change the outcome |
| Validator.NoRetryAfterOwnDeadline | src/main/java/tech/ydb/jdbc/impl/Validator.java:152-159 | a context-checked code with an expired or cancelled context is non-retryable, and the deadline takes precedence |
| Validator.CheckContextOfException | src/main/java/tech/ydb/jdbc/impl/Validator.java:189-197 | a local error exactly when the context expired or was cancelled; deadline exceeded exactly when it expired |
| Validator.JoinFailure | src/main/java/tech/ydb/jdbc/impl/Validator.java:93-106 | an execution failure is passed on; otherwise interrupted exactly when the thread flag is set or a cause is an interrupt, then deadline, then cancellation, then unavailable; the interrupt flag ends up set in those cases |
| Validator.InterruptedWaitIsInterruption | src/main/java/tech/ydb/jdbc/impl/Validator.java:93-112 | an interrupted wait always yields the interrupted error and sets the thread flag |
| YdbTypes.AllPrimitives | jdbc/src/main/java/tech/ydb/jdbc/impl/YdbTypesImpl.java:42-45 | `PrimitiveType.values()` has 25 constants |
| YdbTypes.Ordinal | jdbc/src/main/java/tech/ydb/jdbc/impl/YdbTypesImpl.java:191-202 | every primitive has an ordinal, and `values()` holds it at that ordinal |
| YdbTypes.SqlTypesOfLookup | jdbc/src/main/java/tech/ydb/jdbc/impl/YdbTypesImpl.java:105-161 | the primitive-to-code table has exactly the primitives the loop visited, each with its switch value |
| YdbTypes.NamesOfLookup | jdbc/src/main/java/tech/ydb/jdbc/impl/YdbTypesImpl.java:42-46 | the name table has exactly the names of the visited primitives, each mapped to its primitive |
| YdbTypes.TablesSelfValid | jdbc/src/main/java/tech/ydb/jdbc/impl/YdbTypesImpl.java:166-174 | every standard code other than `JAVA_OBJECT` in the primitive table is a key of the code-to-type table |
| YdbTypes.PrimitiveCodeRegistered | jdbc/src/main/java/tech/ydb/jdbc/impl/YdbTypesImpl.java:105-174 | the code of each primitive is `JAVA_OBJECT` or registered in the code-to-type table |
| YdbTypes.TypesRegistry.constructor | jdbc/src/main/java/tech/ydb/jdbc/impl/YdbTypesImpl.java:41-164 | the constructor's loops fill the four tables, and they satisfy the self-validation invariant |
| YdbTypes.TypesRegistry.SelfValidate | jdbc/src/main/java/tech/ydb/jdbc/impl/YdbTypesImpl.java:166-174 | the check passes exactly when the self-validation invariant holds |
| YdbTypes.Base | jdbc/src/main/java/tech/ydb/jdbc/impl/YdbTypesImpl.java:191-202 | stripping optional layers leaves a non-optional type |
| YdbTypes.Wrap | jdbc/src/main/java/tech/ydb/jdbc/impl/YdbTypesImpl.java:191-202 | a primitive becomes `SQL_KIND_PRIMITIVE + ordinal`, which lies in the primitive range exactly for primitives; a decimal exactly becomes `DECIMAL`; other kinds exactly become `JAVA_OBJECT`; optional wraps like its content |
| YdbTypes.Unwrap | jdbc/src/main/java/tech/ydb/jdbc/impl/YdbTypesImpl.java:204-218 | identity outside the primitive range; inside it, the standard code of the primitive at that ordinal, or an error past the last ordinal |
| YdbTypes.ToYdbTypeOfCode | jdbc/src/main/java/tech/ydb/jdbc/impl/YdbTypesImpl.java:220-233 | the unknown code gives no type; a code in the primitive range gives the primitive at that ordinal, and it fails exactly for codes in that range beyond the last ordinal; both decimal codes give the default `Decimal(22, 9)` |
| YdbTypes.ToSqlType | jdbc/src/main/java/tech/ydb/jdbc/impl/YdbTypesImpl.java:247-250 | the standard code of the base primitive, `DECIMAL` for a decimal, `JAVA_OBJECT` for other kinds |
| YdbTypes.ToWrappedSqlType | jdbc/src/main/java/tech/ydb/jdbc/impl/YdbTypesImpl.java:176-184 | an unmapped class gives `UNKNOWN_SQL_TYPE`; a mapped one gives the wrapped code of its type |
| YdbTypes.ToYdbTypeOfName | jdbc/src/main/java/tech/ydb/jdbc/impl/YdbTypesImpl.java:235-245 | a name without the optional suffix is looked up in the name table; a name with it yields nothing or an optional type |
| YdbTypes.SqlPrecision | jdbc/src/main/java/tech/ydb/jdbc/impl/YdbTypesImpl.java:253-274 | decimal 16, other kinds 0, a primitive its primitive precision, through optional layers |
| YdbTypes.WrapRoundTrip | jdbc/src/main/java/tech/ydb/jdbc/impl/YdbTypesImpl.java:191-233 | converting a wrapped code back gives the base primitive, the default decimal, or no type for other kinds |
| YdbTypes.WrapInjectiveOnPrimitives | jdbc/src/main/java/tech/ydb/jdbc/impl/YdbTypesImpl.java:191-202 | different primitives get different wrapped codes |
| YdbTypes.TableCodeLookup | jdbc/src/main/java/tech/ydb/jdbc/impl/YdbTypesImpl.java:220-233 | a registered standard code other than `DECIMAL` converts to its registered type |
| YdbTypes.TableInvertsSwitch | jdbc/src/main/java/tech/ydb/jdbc/impl/YdbTypesImpl.java:55-73 | the standard code of a primitive is registered to a primitive with the same standard code |
| YdbTypes.StandardCodeRoundTrip | jdbc/src/main/java/tech/ydb/jdbc/impl/YdbTypesImpl.java:105-233 | converting a primitive's standard code back yields a primitive with that standard code |
| YdbTypes.ToSqlTypeResolves | jdbc/src/main/java/tech/ydb/jdbc/impl/YdbTypesImpl.java:220-250 | every code `toSqlType` produces, other than `JAVA_OBJECT`, converts back to a type with that same code |
| YdbTypes.ClassLookup | jdbc/src/main/java/tech/ydb/jdbc/impl/YdbTypesImpl.java:176-189 | an unmapped class has no type; a mapped primitive or decimal class gets its type back through its wrapped code |
| YdbTypes.ClassTableDomain | jdbc/src/main/java/tech/ydb/jdbc/impl/YdbTypesImpl.java:75-103 | every modelled Java class is mapped, to a primitive or the default decimal |
| YdbTypes.NameInTable | jdbc/src/main/java/tech/ydb/jdbc/impl/YdbTypesImpl.java:42-52 | each primitive's name is in the name table and maps to that primitive |
| YdbTypes.NameLookup | jdbc/src/main/java/tech/ydb/jdbc/impl/YdbTypesImpl.java:235-245 | each primitive is found by its name, and by its name with the suffix as its optional |
| YdbTypes.ExtraNamesLookup | jdbc/src/main/java/tech/ydb/jdbc/impl/YdbTypesImpl.java:48-52 | "String" gives Bytes, "Utf8" gives Text, and the default decimal's name gives it |
| YdbTypes.OptionalSuffix | jdbc/src/main/java/tech/ydb/jdbc/impl/YdbTypesImpl.java:235-245 | a suffixed name yields the optional of the type the rest names, or nothing when the rest is unknown |
| YdbTypes.DateTimePrecisions | jdbc/src/main/java/tech/ydb/jdbc/impl/YdbTypesImpl.java:309-350 | Date 10, Datetime 19, Timestamp 26, TzDate 16, TzDatetime 25, TzTimestamp 32 |
| YdbTypes.FixedPrecisions | jdbc/src/main/java/tech/ydb/jdbc/impl/YdbTypesImpl.java:253-350 | Uuid and decimals 16, a primitive the switch does not name and a non-primitive kind 0 |
| YdbTypes.PrecisionIgnoresOptional | jdbc/src/main/java/tech/ydb/jdbc/impl/YdbTypesImpl.java:191-274 | an optional type has the precision, standard code and wrapped code of its content |
| YdbTypes.AllDatabaseTypes | jdbc/src/main/java/tech/ydb/jdbc/impl/YdbTypesImpl.java:281-305 | the catalogue lists 21 distinct types |
| YdbTypes.SqlTypesResolve | jdbc/src/main/java/tech/ydb/jdbc/impl/YdbTypesImpl.java:276-279 | every reported code converts to a type, the registered one when it is not `DECIMAL` |
| YdbTypes.DatabaseTypesHaveCodes | jdbc/src/main/java/tech/ydb/jdbc/impl/YdbTypesImpl.java:281-305 | every reported type has a standard code other than `JAVA_OBJECT` |
| YdbTypes.DatabaseTypesNamed | jdbc/src/main/java/tech/ydb/jdbc/impl/YdbTypesImpl.java:281-305 | every reported type is found again by its name |
| TxStates.IsReadOnly | src/main/java/tech/ydb/jdbc/connection/YdbTxState.java:36-38 | every state reports read-only, since no subclass overrides it |
| TxStates.TxId | src/main/java/tech/ydb/jdbc/connection/YdbTxState.java:24-26 | every state reports no transaction id, since no subclass overrides it |
| TxStates.CreateWith | src/main/java/tech/ydb/jdbc/connection/YdbTxState.java:91-113 | fails exactly for an unsupported level, with that level; keeps the level; is a transaction in progress exactly for serializable with a transaction id |
| TxStates.Create | src/main/java/tech/ydb/jdbc/connection/YdbTxState.java:87-89 | the public factory never builds a transaction in progress |
| TxStates.WithAutoCommit | src/main/java/tech/ydb/jdbc/connection/YdbTxState.java:44-49 | refused inside a transaction; the same state when the value is unchanged |
| TxStates.WithReadOnly | src/main/java/tech/ydb/jdbc/connection/YdbTxState.java:51-57 | refused inside a transaction; a plain state stays put for true, an empty transaction for false |
| TxStates.WithTransactionLevel | src/main/java/tech/ydb/jdbc/connection/YdbTxState.java:59-65 | refused inside a transaction; the same state when the level is unchanged |
| TxStates.WithCommit | src/main/java/tech/ydb/jdbc/connection/YdbTxState.java:67-70 | closes the given session; a transaction in progress becomes an empty transaction, other states stay |
| TxStates.WithRollback | src/main/java/tech/ydb/jdbc/connection/YdbTxState.java:72-75 | behaves exactly as commit |
| TxStates.WithKeepAlive | src/main/java/tech/ydb/jdbc/connection/YdbTxState.java:77-80 | keeps the state; closes the session exactly when no transaction is in progress |
| TxStates.ReusedSession | src/main/java/tech/ydb/jdbc/connection/YdbTxState.java:82-85 | a transaction in progress hands back its own session, other states none |
| TxStates.CreateLevels | src/main/java/tech/ydb/jdbc/connection/YdbTxState.java:87-113 | creation succeeds exactly for the four levels, into a valid state; the three read-only levels get their fixed read-only controls |
| TxStates.CreateSerializable | src/main/java/tech/ydb/jdbc/connection/YdbTxState.java:97-102 | serializable without autocommit is the empty transaction, whose commit flag is off; with autocommit it is a plain state that commits |
| TxStates.InProgressOnlyWithTxId | src/main/java/tech/ydb/jdbc/connection/YdbTxState.java:94-96 | the private factory with a transaction id builds a transaction in progress that owns the session and keeps autocommit |
| TxStates.TransitionsPreserveValidity | src/main/java/tech/ydb/jdbc/connection/YdbTxState.java:44-80 | every transition from a valid state yields a valid state |
| TxStates.AutoCommitTakesEffect | src/main/java/tech/ydb/jdbc/connection/YdbTxState.java:44-49 | outside a transaction the change succeeds and keeps the level; at serializable autocommit becomes the value, otherwise stays on |
| TxStates.LevelChangeTakesEffect | src/main/java/tech/ydb/jdbc/connection/YdbTxState.java:59-65 | outside a transaction it succeeds exactly for a supported or unchanged level, which becomes the level; serializable keeps autocommit |
| TxStates.ReadOnlySwitch | src/main/java/tech/ydb/jdbc/connection/YdbTxState.java:51-57 | a plain state switched off read-only goes to serializable keeping autocommit; the empty transaction switched on goes to online consistent read-only |
| TxStates.ReadOnlyRoundTripTurnsAutoCommitOn | src/main/java/tech/ydb/jdbc/connection/YdbTxState.java:51-57 | switching the empty transaction read-only and back yields serializable with autocommit on, not the empty transaction |
| TxStates.EndOfTransaction | src/main/java/tech/ydb/jdbc/connection/YdbTxState.java:158-173 | commit and rollback of a transaction in progress close the given session once and give the empty transaction; keep-alive keeps it and closes nothing |
| TxStates.TransitionsIdempotent | src/main/java/tech/ydb/jdbc/connection/YdbTxState.java:44-65 | repeating a successful autocommit or level change gives the same result |
| Connection.EnsureOpened | src/main/java/tech/ydb/jdbc/impl/YdbConnectionImpl.java:466-470 | fails exactly on a closed connection, with the closed-connection error |
| Connection.JoinStatus | src/main/java/tech/ydb/jdbc/impl/YdbConnectionImpl.java:453-457 | succeeds exactly on a successful response, recording its issues; a failure leaves the state |
| Connection.IsReadOnly | src/main/java/tech/ydb/jdbc/impl/YdbConnectionImpl.java:231-233 | fails exactly when closed; read-only exactly when the level is not serializable read-write |
| Connection.GetTxControl | src/main/java/tech/ydb/jdbc/impl/YdbConnectionImpl.java:496-513 | fails exactly for an unsupported level |
| Connection.PrepareYdbSql | src/main/java/tech/ydb/jdbc/impl/YdbConnectionImpl.java:515-522 | without enforcement the text is kept; with it the result contains the syntax prefix; either kept or prefixed |
| Connection.CheckStatementParams | src/main/java/tech/ydb/jdbc/impl/YdbConnectionImpl.java:542-553 | accepted exactly for forward-only or scroll-insensitive, read-only and hold-over-commit; otherwise the first failing check names the error |
| Connection.YdbConnection.constructor | src/main/java/tech/ydb/jdbc/impl/YdbConnectionImpl.java:90-105 | a new connection is open, without transaction or issues, with the given autocommit and level |
| Connection.YdbConnection.EnsureOpenedCheck | src/main/java/tech/ydb/jdbc/impl/YdbConnectionImpl.java:466-470 | reports the open check of the current state |
| Connection.YdbConnection.ClearWarnings | src/main/java/tech/ydb/jdbc/impl/YdbConnectionImpl.java:281-284 | new state and outcome as specified for `clearWarnings` |
| Connection.YdbConnection.JoinStatusImpl | src/main/java/tech/ydb/jdbc/impl/YdbConnectionImpl.java:453-457 | new state and outcome as `JoinStatus` |
| Connection.YdbConnection.ClearTxImpl | src/main/java/tech/ydb/jdbc/impl/YdbConnectionImpl.java:472-477 | the transaction id is cleared |
| Connection.YdbConnection.Commit | src/main/java/tech/ydb/jdbc/impl/YdbConnectionImpl.java:145-162 | new state and outcome as the commit specification `CommitSpec` |
| Connection.YdbConnection.Rollback | src/main/java/tech/ydb/jdbc/impl/YdbConnectionImpl.java:165-185 | new state and outcome as the rollback specification `RollbackSpec` |
| Connection.YdbConnection.SetAutoCommit | src/main/java/tech/ydb/jdbc/impl/YdbConnectionImpl.java:125-135 | new state and outcome as the autocommit specification `SetAutoCommitSpec` |
| Connection.YdbConnection.GetAutoCommit | src/main/java/tech/ydb/jdbc/impl/YdbConnectionImpl.java:138-142 | fails exactly when closed, otherwise reports autocommit |
| Connection.YdbConnection.Close | src/main/java/tech/ydb/jdbc/impl/YdbConnectionImpl.java:188-201 | new state and outcome as the close specification `Connection.CloseSpec` |
| Connection.YdbConnection.GetTransactionIsolation | src/main/java/tech/ydb/jdbc/impl/YdbConnectionImpl.java:269-272 | fails exactly when closed, otherwise reports the level |
| Connection.YdbConnection.SetTransactionIsolation | src/main/java/tech/ydb/jdbc/impl/YdbConnectionImpl.java:246-266 | new state and outcome as the isolation specification `SetTransactionIsolationSpec` |
| Connection.YdbConnection.SetReadOnly | src/main/java/tech/ydb/jdbc/impl/YdbConnectionImpl.java:214-228 | new state and outcome as the read-only specification `SetReadOnlySpec` |
| Connection.YdbConnection.SetTx | src/main/java/tech/ydb/jdbc/impl/YdbConnectionImpl.java:479-494 | new state and outcome as the `setTx` specification `SetTxSpec` |
| Connection.YdbConnection.DecodeQueryType | src/main/java/tech/ydb/jdbc/impl/YdbConnectionImpl.java:524-539 | the loop returns the kind of the first prefix found, as the decoding functions `DecodedQueryType` and `FirstContained` |
| Connection.ClosedIsFinal | src/main/java/tech/ydb/jdbc/impl/YdbConnectionImpl.java:466-470 | on a closed connection every guarded operation fails with the closed-connection error and changes nothing; close succeeds and changes nothing |
| Connection.CloseAlwaysCloses | src/main/java/tech/ydb/jdbc/impl/YdbConnectionImpl.java:188-201 | close leaves the connection closed without a transaction whatever the session close reports; closing twice is closing once |
| Connection.SetAutoCommitCommitsOnlyWhenSwitchedOn | src/main/java/tech/ydb/jdbc/impl/YdbConnectionImpl.java:125-135 | an unchanged value does nothing; switching off only records it; switching on commits, and a successful commit leaves no transaction |
| Connection.CommitAndRollbackOutcomes | src/main/java/tech/ydb/jdbc/impl/YdbConnectionImpl.java:145-185 | without a transaction both do nothing; success clears the id; NOT_FOUND clears it, commit fails, rollback succeeds; other failures keep the id |
| Connection.TxIdNeverSwitches | src/main/java/tech/ydb/jdbc/impl/YdbConnectionImpl.java:472-494 | "" clears; an id is taken only when none is set; a different id is refused, so the id never changes from one to another; nothing else changes |
| Connection.IsolationChanges | src/main/java/tech/ydb/jdbc/impl/YdbConnectionImpl.java:246-266 | refused inside a transaction; unchanged is a no-op; a new level is accepted exactly when supported; failures change nothing |
| Connection.ReadOnlyTakesEffect | src/main/java/tech/ydb/jdbc/impl/YdbConnectionImpl.java:214-233 | outside a transaction it succeeds and `isReadOnly` then reports the value; true maps serializable to online consistent read-only, false maps to serializable; only the level changes |
| Connection.LevelStaysSupported | src/main/java/tech/ydb/jdbc/impl/YdbConnectionImpl.java:125-266 | no operation leads to an unsupported level, so `getTxControl` always succeeds |
| Connection.TxControlAgreesWithTxState | src/main/java/tech/ydb/jdbc/impl/YdbConnectionImpl.java:496-513 | the control is the one the transaction state of the same level and autocommit carries, continuing the id when one is set |
| Connection.PrepareYdbSqlIdempotent | src/main/java/tech/ydb/jdbc/impl/YdbConnectionImpl.java:515-522 | preparing twice is preparing once; text that has the prefix is kept |
| Connection.FirstContainedIsFirst | src/main/java/tech/ydb/jdbc/impl/YdbConnectionImpl.java:532-535 | nothing is found exactly when no prefix occurs; otherwise the found kind's prefix occurs and no earlier kind's does |
| Connection.DecodeOwnPrefix | src/main/java/tech/ydb/jdbc/impl/YdbConnectionImpl.java:524-539 | each kind's own prefix decodes to that kind |
| Connection.DecodeDefaultsToData | src/main/java/tech/ydb/jdbc/impl/YdbConnectionImpl.java:524-539 | without detection, without text or without any prefix the kind is a data query |
| LazyResultSets.Navigate | jdbc/src/main/java/tech/ydb/jdbc/context/StreamQueryResult.java:415-448 | every backward or absolute move is refused |
| LazyResultSets.SetFetchDirection | jdbc/src/main/java/tech/ydb/jdbc/context/StreamQueryResult.java:450-460 | accepted exactly for forward fetching |
| LazyResultSets.LazyResultSet.constructor | jdbc/src/main/java/tech/ydb/jdbc/context/StreamQueryResult.java:291-302 | a new cursor is empty, open and not completed |
| LazyResultSets.LazyResultSet.CleanQueue | jdbc/src/main/java/tech/ydb/jdbc/context/StreamQueryResult.java:304-309 | empties the queue and changes nothing else |
| LazyResultSets.LazyResultSet.AddResultSet | jdbc/src/main/java/tech/ydb/jdbc/context/StreamQueryResult.java:311-333 | new cursor and offer outcome as the add specification `AddResultSetSpec` |
| LazyResultSets.LazyResultSet.Next | jdbc/src/main/java/tech/ydb/jdbc/context/StreamQueryResult.java:344-370 | new cursor and answer as the `next` specification `NextSpec` |
| LazyResultSets.LazyResultSet.Complete | jdbc/src/main/java/tech/ydb/jdbc/context/StreamQueryResult.java:372-374 | marks the cursor completed and changes nothing else |
| LazyResultSets.LazyResultSet.Close | jdbc/src/main/java/tech/ydb/jdbc/context/StreamQueryResult.java:376-381 | new cursor as the close specification `LazyResultSets.CloseSpec` |
| LazyResultSets.NewCursorConsistent | jdbc/src/main/java/tech/ydb/jdbc/context/StreamQueryResult.java:291-302 | a new cursor satisfies the cursor invariant |
| LazyResultSets.NextPreservesConsistency | jdbc/src/main/java/tech/ydb/jdbc/context/StreamQueryResult.java:344-370 | `next` keeps the cursor invariant |
| LazyResultSets.AddPreservesConsistency | jdbc/src/main/java/tech/ydb/jdbc/context/StreamQueryResult.java:311-333 | adding a batch to an uncompleted cursor keeps the cursor invariant |
| LazyResultSets.CloseAndCompletePreserveConsistency | jdbc/src/main/java/tech/ydb/jdbc/context/StreamQueryResult.java:372-381 | close and complete keep the cursor invariant |
| LazyResultSets.AddCountsRows | jdbc/src/main/java/tech/ydb/jdbc/context/StreamQueryResult.java:311-333 | the queue never exceeds five batches; the row count grows by exactly the accepted batch; accepted exactly when not stopped and the queue has room; a full queue changes nothing; a stopped stream closes the cursor |
| LazyResultSets.NextOutcomes | jdbc/src/main/java/tech/ydb/jdbc/context/StreamQueryResult.java:344-370 | closed gives false; each true moves the row by one; false when completed and drained, with the row at count plus one if rows arrived; waiting only when not completed |
| LazyResultSets.NextMovesForward | jdbc/src/main/java/tech/ydb/jdbc/context/StreamQueryResult.java:344-413 | the row never moves back; after the end of a non-empty cursor it is after last, not last, not before first |
| LazyResultSets.ZeroRowsHasNoPosition | jdbc/src/main/java/tech/ydb/jdbc/context/StreamQueryResult.java:393-413 | a completed cursor without rows is neither before first, after last nor last |
| LazyResultSets.CloseIdempotent | jdbc/src/main/java/tech/ydb/jdbc/context/StreamQueryResult.java:376-381 | close sets closed, drops the batch, empties the queue, keeps the counters, and closing twice is closing once |
| StreamQueryResults.FillSlotTable | jdbc/src/main/java/tech/ydb/jdbc/context/StreamQueryResult.java:67-84 | the constructor's loop writes the statement table `SlotTable` and counts the result-producing statements `ResultCount` |
| StreamQueryResults.StreamQueryResult.constructor | jdbc/src/main/java/tech/ydb/jdbc/context/StreamQueryResult.java:62-85 | the table is `SlotTable` of the statements, one pending slot per result-producing statement (`ResultCount`), nothing started, closed, cancelled or waiting |
| StreamQueryResults.StreamQueryResult.GetUpdateCount | jdbc/src/main/java/tech/ydb/jdbc/context/StreamQueryResult.java:190-203 | the update count of the table at the current position |
| StreamQueryResults.StreamQueryResult.HasResultSets | jdbc/src/main/java/tech/ydb/jdbc/context/StreamQueryResult.java:222-228 | whether the current position holds a result set |
| StreamQueryResults.StreamQueryResult.GetCurrentResultSet | jdbc/src/main/java/tech/ydb/jdbc/context/StreamQueryResult.java:205-220 | the slot at the current position's entry, or none |
| StreamQueryResults.StreamQueryResult.IsStreamStopped | jdbc/src/main/java/tech/ydb/jdbc/context/StreamQueryResult.java:151-162 | reports whether the result was closed; cancels, running the stop action once, only when closed and the stream has not finished |
| StreamQueryResults.StreamQueryResult.CloseResultSet | jdbc/src/main/java/tech/ydb/jdbc/context/StreamQueryResult.java:140-149 | closes the cursor of that slot and no other, reporting the slot's outcome |
| StreamQueryResults.StreamQueryResult.CloseAllResultSets | jdbc/src/main/java/tech/ydb/jdbc/context/StreamQueryResult.java:243-246 | the loop closes the current slot's cursor, and only it |
| StreamQueryResults.StreamQueryResult.GetMoreResults | jdbc/src/main/java/tech/ydb/jdbc/context/StreamQueryResult.java:230-255 | answer and position as the `getMoreResults` specification `MoreResults`; closes the current cursor only in the closing modes; nothing else changes |
| StreamQueryResults.StreamQueryResult.OnResultSet | jdbc/src/main/java/tech/ydb/jdbc/context/StreamQueryResult.java:257-268 | an index with no slot fails with nothing changed; otherwise a pending slot gets a fresh cursor, a resolved slot is kept, a cursor receives the batch as the add specification `AddResultSetSpec` (cancelling the stream when the result is closed), and other slots are untouched |
| StreamQueryResults.StreamQueryResult.OnNextPart | jdbc/src/main/java/tech/ydb/jdbc/context/StreamQueryResult.java:284-288 | `onResultSet` at the `int` narrowing of the part's index; the start is marked done exactly when that succeeds, so an index with no slot leaves the start unset |
| StreamQueryResults.StreamQueryResult.OnScanPart | jdbc/src/main/java/tech/ydb/jdbc/context/StreamQueryResult.java:270-276 | `onResultSet` at slot 0; fails with nothing changed when the query has no slot; the start is marked done exactly on success |
| StreamQueryResults.ToJavaInt | jdbc/src/main/java/tech/ydb/jdbc/context/StreamQueryResult.java:286 | the `(int)` cast gives a 32-bit signed number congruent to the `long` modulo 2^32 |
| StreamQueryResults.ToJavaIntProperties | jdbc/src/main/java/tech/ydb/jdbc/context/StreamQueryResult.java:286 | numbers that fit an `int` are kept; 2^31 wraps to -2^31; the cast has period 2^32 |
| StreamQueryResults.StreamQueryResult.FailPending | jdbc/src/main/java/tech/ydb/jdbc/context/StreamQueryResult.java:106-138 | every pending slot becomes the failure; resolved slots stay |
| StreamQueryResults.StreamQueryResult.FillPending | jdbc/src/main/java/tech/ydb/jdbc/context/StreamQueryResult.java:106-138 | every pending slot gets a fresh empty cursor; resolved slots stay |
| StreamQueryResults.StreamQueryResult.CompleteCursors | jdbc/src/main/java/tech/ydb/jdbc/context/StreamQueryResult.java:106-138 | every cursor is marked completed and nothing else about it changes |
| StreamQueryResults.StreamQueryResult.OnStreamFinished | jdbc/src/main/java/tech/ydb/jdbc/context/StreamQueryResult.java:106-138 | the first end is recorded; afterwards no slot is pending; resolved slots keep their value; pending slots become completed empty cursors on success, the failure otherwise; every cursor is completed |
| StreamQueryResults.StreamQueryResult.Close | jdbc/src/main/java/tech/ydb/jdbc/context/StreamQueryResult.java:164-188 | returns at once when the start is done and the result was closed; otherwise marks the result closed and either waits for a running stream or reports its end as `CloseResult` / `WaitedCloseResult` |
| StreamQueryResults.StreamQueryResult.AwaitClose | jdbc/src/main/java/tech/ydb/jdbc/context/StreamQueryResult.java:172-187 | the waiting close, once the stream ended, reports `WaitedCloseResult` of that end and of whether the stream was cancelled meanwhile |
| StreamQueryResults.SlotsAreConsecutive | jdbc/src/main/java/tech/ydb/jdbc/context/StreamQueryResult.java:67-84 | the slot numbers in the table are 0, 1, 2, … in statement order, as many as result-producing statements |
| StreamQueryResults.TableFollowsStatements | jdbc/src/main/java/tech/ydb/jdbc/context/StreamQueryResult.java:67-84 | with every statement classified, entry k is -1 for DDL, -2 for an update, and the number of earlier result sets otherwise |
| StreamQueryResults.UnclassifiedLeavesZero | jdbc/src/main/java/tech/ydb/jdbc/context/StreamQueryResult.java:70-84 | a statement of none of the kinds takes no entry, leaving a trailing 0 |
| StreamQueryResults.UpdateCountFollowsStatements | jdbc/src/main/java/tech/ydb/jdbc/context/StreamQueryResult.java:190-228 | 0 for DDL, 1 for an update, -1 for a result set or past the end; a result set is reported exactly at result-producing statements |
| StreamQueryResults.ResultSetHasNoUpdateCount | jdbc/src/main/java/tech/ydb/jdbc/context/StreamQueryResult.java:190-228 | a result-set position has update count -1; update counts are -1, 0 or 1 |
| StreamQueryResults.MoreResultsMovesForward | jdbc/src/main/java/tech/ydb/jdbc/context/StreamQueryResult.java:230-255 | the position moves by at most one, exactly on a successful answer; false without moving past the slots; unknown modes refused; closing all acts as closing the current |
| StreamQueryResults.MoreResultsStopsAtSlotCount | jdbc/src/main/java/tech/ydb/jdbc/context/StreamQueryResult.java:232 | the position is compared with the slot count, so a query of DDL and updates never leaves its first statement |
| StreamQueryResults.CloseAfterCancel | jdbc/src/main/java/tech/ydb/jdbc/context/StreamQueryResult.java:172-187 | a waited close of a cancelled stream that finished succeeds whatever its status; without cancellation only a success is clean and a failed status is reported; a thrown stream always fails |
| StreamQueryResults.CloseBeforeFailedEnd | jdbc/src/main/java/tech/ydb/jdbc/context/StreamQueryResult.java:164-188 | a close before the end waits; a failed end nobody cancelled is then reported by that close; a later close returns at once |
| StreamQueryResults.CancelledCloseSucceeds | jdbc/src/main/java/tech/ydb/jdbc/context/StreamQueryResult.java:151-188 | a close before the end waits; a part arriving meanwhile cancels the stream; the waiting close then succeeds whatever the status |
| ParameterMetaData.YdbParameterMetaData.constructor | src/main/java/tech/ydb/jdbc/statement/YdbParameterMetaDataImpl.java:98-126 | one pass fills descriptions and names in map order, and the index map inverts the names |
| ParameterMetaData.YdbParameterMetaData.GetParameterCount | src/main/java/tech/ydb/jdbc/statement/YdbParameterMetaDataImpl.java:26-29 | the number of descriptions |
| ParameterMetaData.YdbParameterMetaData.GetIndex | src/main/java/tech/ydb/jdbc/statement/YdbParameterMetaDataImpl.java:87-92 | valid exactly for 1 ≤ p ≤ count, giving p - 1; otherwise out of range with p |
| ParameterMetaData.YdbParameterMetaData.GetDescription | src/main/java/tech/ydb/jdbc/statement/YdbParameterMetaDataImpl.java:94-96 | the p-th description exactly for a valid p |
| ParameterMetaData.YdbParameterMetaData.IsNullable | src/main/java/tech/ydb/jdbc/statement/YdbParameterMetaDataImpl.java:31-36 | valid exactly for a valid p; nullable exactly when the type is optional, otherwise no-nulls |
| ParameterMetaData.YdbParameterMetaData.GetParameterType | src/main/java/tech/ydb/jdbc/statement/YdbParameterMetaDataImpl.java:53-56 | the p-th standard type exactly for a valid p |
| ParameterMetaData.YdbParameterMetaData.GetParameterTypeName | src/main/java/tech/ydb/jdbc/statement/YdbParameterMetaDataImpl.java:58-61 | the p-th type name exactly for a valid p |
| ParameterMetaData.YdbParameterMetaData.GetParameterClassName | src/main/java/tech/ydb/jdbc/statement/YdbParameterMetaDataImpl.java:63-66 | the p-th class name exactly for a valid p |
| ParameterMetaData.YdbParameterMetaData.GetParameterIndex | src/main/java/tech/ydb/jdbc/statement/YdbParameterMetaDataImpl.java:73-80 | found exactly for a declared name, with a number from 1; otherwise not found with the name |
| ParameterMetaData.YdbParameterMetaData.GetParameterName | src/main/java/tech/ydb/jdbc/statement/YdbParameterMetaDataImpl.java:82-85 | valid exactly for a valid p; otherwise out of range with p |
| ParameterMetaData.YdbParameterMetaData.IsSigned | src/main/java/tech/ydb/jdbc/statement/YdbParameterMetaDataImpl.java:38-41 | false for every parameter number |
| ParameterMetaData.YdbParameterMetaData.GetPrecision | src/main/java/tech/ydb/jdbc/statement/YdbParameterMetaDataImpl.java:43-46 | 0 for every parameter number |
| ParameterMetaData.YdbParameterMetaData.GetScale | src/main/java/tech/ydb/jdbc/statement/YdbParameterMetaDataImpl.java:48-51 | 0 for every parameter number |
| ParameterMetaData.YdbParameterMetaData.GetParameterMode | src/main/java/tech/ydb/jdbc/statement/YdbParameterMetaDataImpl.java:68-71 | mode IN for every parameter number |
| ParameterMetaData.NameIndexRoundTrip | src/main/java/tech/ydb/jdbc/statement/YdbParameterMetaDataImpl.java:73-85 | the number of the name of a valid p is p, and the name of a declared name's number is that name |
| ParameterMetaData.GettersAgreeOnRange | src/main/java/tech/ydb/jdbc/statement/YdbParameterMetaDataImpl.java:31-92 | all getters accept the same parameter numbers and refuse the rest as out of range |
| ParameterMetaData.MetaDataOfMap | src/main/java/tech/ydb/jdbc/statement/YdbParameterMetaDataImpl.java:98-112 | one parameter per map entry, numbered in map order, and exactly the map's names are known |
| PreparedStatements.DescriptionsOf | src/main/java/tech/ydb/jdbc/impl/YdbPreparedStatementImpl.java:28-37 | a name has a description exactly when it is declared |
| PreparedStatements.SetByIndex | src/main/java/tech/ydb/jdbc/impl/YdbPreparedStatementImpl.java:79-89 | binding by position is always refused |
| PreparedStatements.Batch | src/main/java/tech/ydb/jdbc/impl/YdbPreparedStatementImpl.java:49-62 | every batch operation is refused |
| PreparedStatements.YdbPreparedStatement.constructor | src/main/java/tech/ydb/jdbc/impl/YdbPreparedStatementImpl.java:28-37 | the descriptions are built from the declared types, and nothing is bound |
| PreparedStatements.YdbPreparedStatement.ClearParameters | src/main/java/tech/ydb/jdbc/impl/YdbPreparedStatementImpl.java:39-42 | the bound values are reset to an empty set |
| PreparedStatements.YdbPreparedStatement.AfterExecute | src/main/java/tech/ydb/jdbc/impl/YdbPreparedStatementImpl.java:44-47 | the bound values are reset to an empty set |
| PreparedStatements.YdbPreparedStatement.SetImpl | src/main/java/tech/ydb/jdbc/impl/YdbPreparedStatementImpl.java:66-77 | new bindings and outcome as the `setImpl` specification `SetSpec`; every bound name stays declared |
| PreparedStatements.YdbPreparedStatement.GetParameterTypes | src/main/java/tech/ydb/jdbc/impl/YdbPreparedStatementImpl.java:96-104 | the declared names in order, each with the description of its type |
| PreparedStatements.NormalizeNameProperties | src/main/java/tech/ydb/jdbc/impl/YdbPreparedStatementImpl.java:66-73 | with enforcement a name always starts with `$`, a missing `$` is prepended, normalising is idempotent; other names are kept |
| PreparedStatements.SetBindsOnlyItsName | src/main/java/tech/ydb/jdbc/impl/YdbPreparedStatementImpl.java:66-77 | an undeclared name fails with that name and binds nothing; a success binds the converted value under the normalised name and leaves every other binding |
| PreparedStatements.SetKeepsBindingsDeclared | src/main/java/tech/ydb/jdbc/impl/YdbPreparedStatementImpl.java:74-76 | binding keeps every bound name a declared one |
| PreparedStatements.DescriptionsOfDeclared | src/main/java/tech/ydb/jdbc/impl/YdbPreparedStatementImpl.java:108-114 | every declared name's description is the description of its declared type |
| PreparedStatements.ParameterTypesKeepKeys | src/main/java/tech/ydb/jdbc/impl/YdbPreparedStatementImpl.java:96-104 | the map of parameter types keeps distinct keys |
| QueryBuilders.ArgName | jdbc/src/main/java/tech/ydb/jdbc/query/YdbQueryBuilder.java:15 | every generated name starts with `$jp` |
| QueryBuilders.YdbQueryBuilder.constructor | jdbc/src/main/java/tech/ydb/jdbc/query/YdbQueryBuilder.java:24-27 | keeps the original text; nothing is built, generated or typed yet |
| QueryBuilders.YdbQueryBuilder.CreateNextArgName | jdbc/src/main/java/tech/ydb/jdbc/query/YdbQueryBuilder.java:29-38 | the counter grows and the name is `$jp` + counter; the name is absent from the original text, every skipped number's name occurs in it; the name is appended to the arguments |
| QueryBuilders.YdbQueryBuilder.SetQueryType | jdbc/src/main/java/tech/ydb/jdbc/query/YdbQueryBuilder.java:40-46 | new kind and outcome as the kind-conflict specification `SetQueryTypeSpec` |
| QueryBuilders.YdbQueryBuilder.GetQueryType | jdbc/src/main/java/tech/ydb/jdbc/query/YdbQueryBuilder.java:48-50 | the set kind, or a data query |
| QueryBuilders.YdbQueryBuilder.GetOriginSQL | jdbc/src/main/java/tech/ydb/jdbc/query/YdbQueryBuilder.java:52-54 | the constructor's text unchanged |
| QueryBuilders.YdbQueryBuilder.BuildYQL | jdbc/src/main/java/tech/ydb/jdbc/query/YdbQueryBuilder.java:56-58 | the in-order concatenation of the appended pieces |
| QueryBuilders.YdbQueryBuilder.GetIndexedArgs | jdbc/src/main/java/tech/ydb/jdbc/query/YdbQueryBuilder.java:60-62 | the generated names in generation order |
| QueryBuilders.YdbQueryBuilder.AppendChars | jdbc/src/main/java/tech/ydb/jdbc/query/YdbQueryBuilder.java:64-66 | succeeds exactly for an in-bounds start and length, appending that slice; a failure appends nothing |
| QueryBuilders.YdbQueryBuilder.AppendChar | jdbc/src/main/java/tech/ydb/jdbc/query/YdbQueryBuilder.java:68-70 | appends the one character |
| QueryBuilders.YdbQueryBuilder.AppendString | jdbc/src/main/java/tech/ydb/jdbc/query/YdbQueryBuilder.java:72-74 | appends the text |
| QueryBuilders.ArgNameInjective | jdbc/src/main/java/tech/ydb/jdbc/query/YdbQueryBuilder.java:29-38 | different numbers give different names |
| QueryBuilders.ArgsDistinct | jdbc/src/main/java/tech/ydb/jdbc/query/YdbQueryBuilder.java:33-35 | the generated names are pairwise distinct |
| QueryBuilders.NoCollisionWithoutPrefix | jdbc/src/test/java/tech/ydb/jdbc/impl/YdbConnectionImplTest.java:219-221 | text without `$jp` contains no generated name, so the first two names are `$jp1` and `$jp2` |
| QueryBuilders.ConcatAppend | jdbc/src/main/java/tech/ydb/jdbc/query/YdbQueryBuilder.java:56-74 | concatenation distributes over appending pieces |
| QueryBuilders.QueryTypeConflicts | jdbc/src/main/java/tech/ydb/jdbc/query/YdbQueryBuilder.java:40-50 | accepted exactly when no kind is set or it is the same; a different kind is a non-retryable `BAD_REQUEST` and keeps the kind; repeating is idempotent; without a kind it is a data query |
| MappingResultSets.StableMap | src/main/java/tech/ydb/jdbc/common/MappingResultSets.java:24-34 | the loop builds the map the pairing specification `StableMapSpec` describes, itself stated through `PutAll` |
| MappingResultSets.EmptyReader | src/main/java/tech/ydb/jdbc/common/MappingResultSets.java:89-92 | no columns and no rows |
| MappingResultSets.ReaderFromList | src/main/java/tech/ydb/jdbc/common/MappingResultSets.java:36-83 | the loops build the result set `ReaderFromListSpec` describes from the column and row specifications `Columns`, `RowItems` and `Rows`, or stop at the first unsupported value |
| MappingResultSets.ReaderFromMap | src/main/java/tech/ydb/jdbc/common/MappingResultSets.java:85-87 | equals the reader of the one-element list |
| MappingResultSets.PutProperties | src/main/java/tech/ydb/jdbc/common/MappingResultSets.java:28-30 | an insertion-ordered put keeps keys distinct and an existing key's place, appends a new key, and changes only that key's value |
| MappingResultSets.PutAllKeys | src/main/java/tech/ydb/jdbc/common/MappingResultSets.java:29-31 | after the puts the keys are the old keys, then new keys in first-occurrence order |
| MappingResultSets.PutAllLookup | src/main/java/tech/ydb/jdbc/common/MappingResultSets.java:29-31 | a key's value is the last one put for it, otherwise its old value |
| MappingResultSets.StableMapProperties | src/main/java/tech/ydb/jdbc/common/MappingResultSets.java:24-34 | succeeds exactly for an even list; the first key is first, the others follow in argument order without repeats; a later duplicate overwrites |
| MappingResultSets.ColumnsOfFirst | src/main/java/tech/ydb/jdbc/common/MappingResultSets.java:41-59 | columns exist exactly when every first-row value is supported: one per entry, named by the key, typed by the value |
| MappingResultSets.ItemsOfRow | src/main/java/tech/ydb/jdbc/common/MappingResultSets.java:63-79 | items exist exactly when every value is supported: one per entry, encoding its value |
| MappingResultSets.RowsOfList | src/main/java/tech/ydb/jdbc/common/MappingResultSets.java:61-80 | rows exist exactly when every row is supported: one per map, holding that map's items |
| MappingResultSets.ReaderFromListProperties | src/main/java/tech/ydb/jdbc/common/MappingResultSets.java:36-83 | succeeds exactly when every value is supported; an empty list gives the empty result set; otherwise columns follow the first row and each row holds its map's items |
| MappingResultSets.ReaderFromMapOneRow | src/main/java/tech/ydb/jdbc/common/MappingResultSets.java:85-87 | one row and one column per entry, exactly when every value is supported |
| MappingResultSets.ItemRoundTrip | src/main/java/tech/ydb/jdbc/common/MappingResultSets.java:48-78 | a supported value is encoded and reads back, a Short as an Integer; the item's kind matches its column type |

## Left out

- The asynchronous plumbing of `StreamQueryResult` is left out: `execute`, the gRPC and query-stream handlers, the completable-future races, and the interrupted-wait paths. Callbacks are sequential method calls, and futures are slots set once.
- The 100 ms timed `offer`/`poll` loops are modelled as single attempts. A full queue reports `QueueFull`, and a `next` without a batch reports `WaitingForRows`. The caller retries.
- A `getCurrentResultSet` or `closeResultSet` that would block on an unresolved slot reports `NotReady` instead of waiting. A blocked `close` is two steps, `Close` returning `Waiting` and `AwaitClose` once the stream has ended. Several threads waiting in `close` at once are one waiting close.
- `Validator.joinWrapped`/`join` waiting, the stopwatch, logging, issue collection and `Validator.init` are left out. This includes the issues `StreamQueryResult.close` adds from the stream's status (`addStatusIssues`, line 175) and the issues the query stream reports (`onIssues`, lines 280-282). The gRPC context is two booleans.
- The session RPCs of the connection (commit, rollback, close, keep-alive, `isValid`) are inputs: the response status code, or a failed wait. Preparing data queries, statement construction, `nativeSQL` and the conversion of issues into warnings are not modelled.
- `YdbTxState.createSession` is a table-client call. Only the reuse of the owned session is modelled (`ReusedSession`).
- The unsupported-feature stubs of the connection and the no-op client-info, catalog and type-map methods are not modelled. Neither are the DDL-inside-transaction policies.
- Value coercion in `setImpl` is not modelled: the conversion is a function input. The superclass `getValue` is not part of this model, and it relies on floating point and `java.time`. `TypeDescription.of` is also an input (`describe`).
- `impl/MappingResultSets`, the `YdbTypes` Java interface, `YdbResultSetMetaData` and `YdbRetryableException` are not modelled. They are a protobuf wrapper, interfaces and an exception class.
- `ProtoValueReaders.forResultSet` is not part of this model. The reader is the result-set message itself, with column names and typed items.
- MappingResultSets.ReaderFromList: the rows are built from each map's own entry order, as the source does. The model does not state that the rows line up with the columns when maps order their keys differently.
- The values of these `YdbConst` constants are assumed:
  - `SQL_KIND_PRIMITIVE` and `SQL_KIND_DECIMAL`;
  - `UNKNOWN_SQL_TYPE`;
  - the optional suffix `?` and the syntax prefix `--!syntax_v1`;
  - `MAX_COLUMN_SIZE`;
  - `DEFAULT_DECIMAL_TYPE`, taken as `Decimal(22, 9)` with the name `"Decimal(22, 9)"`.

  The isolation levels 8, 16, 17 and 32 come from the tests. The order of the SDK's `PrimitiveType` constants is assumed as well, and so are their names: each primitive's type name is taken to be its enum constant's name, which the name lookups, the extra names and the precision table rely on. The proofs do not depend on the particular numbers except where a lemma states them.
- The values of the JDBC result-set type, concurrency and holdability constants are the standard ones.
- QueryBuilders.YdbQueryBuilder.CreateNextArgName: the counter is an unbounded natural, so Java `int` overflow of `argsCounter` is not modelled.
- LazyResultSets.AddPreservesConsistency: it is stated only for a cursor that is not yet completed. The stream never adds a batch after completing a cursor.
- LazyResultSets.LazyResultSet.Next: column values of the current batch (`getValue`) are not modelled, only row positions and counts.
- LazyResultSets.LazyResultSet.Next: the row counters `rowIndex` and `rowsCount` are unbounded naturals, so Java `int` wrap-around and truncation of them (StreamQueryResult.java lines 298, 352, 359, 401 and 412) are not modelled; the `Consistent` invariant it keeps holds only for unbounded counters.
- LazyResultSets.NextMovesForward: "the row never moves back" is proved for unbounded counters only; with Java `int` counters past 2^31 - 1 rows the index would wrap.
- The position queries `isBeforeFirst`, `isAfterLast`, `isFirst` and `isLast` are stated through `NextMovesForward` and `ZeroRowsHasNoPosition`. They have no contracts of their own.
- The connection tests target a newer connection class. The model follows `YdbConnectionImpl`. For example, `setReadOnly(true)` at serializable switches the level to online consistent read-only (lines 219-221), while the newer test expects the level to stay serializable.
- Several quirks of `StreamQueryResult` are kept, not corrected:
  - closing all results closes the current slot only;
  - `getMoreResults` compares the position with the slot count;
  - an unclassified statement takes no table entry.

  The same goes for `YdbTxState`: `txID()` is null and `isReadOnly()` is true in every state. Also, `append(char[], start, end)` reads `end` as a length.
