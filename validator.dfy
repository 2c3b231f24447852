/** Classification of server status codes into retry categories, the downgrade that the
    caller's own gRPC context imposes, and the choice of local error when waiting for a
    response fails (`tech.ydb.jdbc.impl.Validator`). */
module Validator {
  import opened Wrappers

  /** The status codes of the YDB SDK that `validate` names, plus the two it does not
      name (`ExternalError`, `ClientDeadlineExpired`), which reach its default branch. */
  datatype StatusCode =
    | Success
    | BadRequest | InternalError | ClientUnauthenticated | Unauthorized | SchemeError
    | GenericError | ClientCallUnimplemented | Unsupported | UnusedStatus | AlreadyExists
    | Aborted | Unavailable | Overloaded | TransportUnavailable | ClientResourceExhausted
    | NotFound | BadSession | SessionExpired
    | Cancelled | ClientCancelled | ClientInternalError
    | Undetermined | Timeout | PreconditionFailed | ClientDeadlineExceeded | SessionBusy
    | ClientDiscoveryFailed | ClientLimitsReached
    | ExternalError | ClientDeadlineExpired

  /** The three exception classes `validate` throws. */
  datatype Category = NonRetryable | Retryable | ConditionallyRetryable

  /** The message prefix: the plain status, or one of the two context messages. */
  datatype Reason = StatusReason | DeadlineExceeded | QueryCancelled

  datatype StatusError = StatusError(category: Category, code: StatusCode, reason: Reason)

  /** The state of the caller's gRPC context: a deadline that has expired, a cancellation. */
  datatype GrpcContext = GrpcContext(deadlineExpired: bool, cancelled: bool)

  function NonRetryableCodes(): set<StatusCode>
  {
    {BadRequest, InternalError, ClientUnauthenticated, Unauthorized, SchemeError, GenericError,
     ClientCallUnimplemented, Unsupported, UnusedStatus, AlreadyExists}
  }

  function RetryableCodes(): set<StatusCode>
  {
    {Aborted, Unavailable, Overloaded, TransportUnavailable, ClientResourceExhausted, NotFound,
     BadSession, SessionExpired}
  }

  /** Conditionally retryable, but only when the caller's context is still live. */
  function ContextCheckedCodes(): set<StatusCode>
  {
    {Cancelled, ClientCancelled, ClientInternalError}
  }

  /** Conditionally retryable whatever the caller's context. */
  function ConditionalCodes(): set<StatusCode>
  {
    {Undetermined, Timeout, PreconditionFailed, ClientDeadlineExceeded, SessionBusy,
     ClientDiscoveryFailed, ClientLimitsReached}
  }

  /** `checkGrpcContextStatus(response, statusCode)`: an expired deadline is reported first,
      then a cancellation; a live context lets the caller go on. */
  function CheckGrpcContextStatus(code: StatusCode, ctx: GrpcContext): (r: Option<StatusError>)
    ensures r.None? <==> !ctx.deadlineExpired && !ctx.cancelled
    ensures r.Some? ==> r.value.category == NonRetryable && r.value.code == code
    ensures r.Some? ==> (r.value.reason == DeadlineExceeded <==> ctx.deadlineExpired)
    ensures r.Some? ==> r.value.reason != StatusReason
  {
    if ctx.deadlineExpired then Some(StatusError(NonRetryable, code, DeadlineExceeded))
    else if ctx.cancelled then Some(StatusError(NonRetryable, code, QueryCancelled))
    else None
  }

  /** `validate(message, statusCode)`: `None` when it returns, otherwise the exception. */
  function Validate(code: StatusCode, ctx: GrpcContext): (r: Option<StatusError>)
    ensures r.None? <==> code == Success
    ensures r.Some? ==> r.value.code == code
    ensures r.Some? && r.value.category == Retryable <==> code in RetryableCodes()
    ensures r.Some? && r.value.category == ConditionallyRetryable <==>
              code in ConditionalCodes()
              || (code in ContextCheckedCodes() && !ctx.deadlineExpired && !ctx.cancelled)
    ensures r.Some? && r.value.reason != StatusReason ==> code in ContextCheckedCodes()
  {
    match code
    case Success => None
    case BadRequest | InternalError | ClientUnauthenticated | Unauthorized | SchemeError
       | GenericError | ClientCallUnimplemented | Unsupported | UnusedStatus | AlreadyExists =>
      Some(StatusError(NonRetryable, code, StatusReason))
    case Aborted | Unavailable | Overloaded | TransportUnavailable | ClientResourceExhausted
       | NotFound | BadSession | SessionExpired =>
      Some(StatusError(Retryable, code, StatusReason))
    case Cancelled | ClientCancelled | ClientInternalError =>
      var downgraded := CheckGrpcContextStatus(code, ctx);
      if downgraded.Some? then downgraded
      else Some(StatusError(ConditionallyRetryable, code, StatusReason))
    case Undetermined | Timeout | PreconditionFailed | ClientDeadlineExceeded | SessionBusy
       | ClientDiscoveryFailed | ClientLimitsReached =>
      Some(StatusError(ConditionallyRetryable, code, StatusReason))
    case _ => Some(StatusError(NonRetryable, code, StatusReason))
  }

  /** Every code other than `Success` raises, and a code in none of the four named groups
      is non-retryable. */
  lemma ClassificationIsTotal(code: StatusCode, ctx: GrpcContext)
    ensures code != Success ==> Validate(code, ctx).Some?
    ensures code !in NonRetryableCodes() && code !in RetryableCodes()
            && code !in ContextCheckedCodes() && code !in ConditionalCodes() && code != Success
            ==> Validate(code, ctx) == Some(StatusError(NonRetryable, code, StatusReason))
  {
  }

  /** The four named groups are pairwise disjoint, so every code has one category. */
  lemma GroupsDisjoint(code: StatusCode)
    ensures code in NonRetryableCodes() ==>
              code !in RetryableCodes() && code !in ContextCheckedCodes() && code !in ConditionalCodes()
    ensures code in RetryableCodes() ==> code !in ContextCheckedCodes() && code !in ConditionalCodes()
    ensures code in ContextCheckedCodes() ==> code !in ConditionalCodes()
    ensures code == Success ==>
              code !in NonRetryableCodes() + RetryableCodes() + ContextCheckedCodes() + ConditionalCodes()
  {
  }

  /** Outside the three context-checked codes the classification ignores the context. */
  lemma ContextMattersOnlyForThree(code: StatusCode, ctx1: GrpcContext, ctx2: GrpcContext)
    requires code !in ContextCheckedCodes()
    ensures Validate(code, ctx1) == Validate(code, ctx2)
  {
  }

  /** Retrying after the caller's own deadline or cancellation is never offered: with such a
      context no code is classified as conditionally retryable unless it always is. */
  lemma NoRetryAfterOwnDeadline(code: StatusCode, ctx: GrpcContext)
    requires ctx.deadlineExpired || ctx.cancelled
    requires code in ContextCheckedCodes()
    ensures Validate(code, ctx).Some?
    ensures Validate(code, ctx).value.category == NonRetryable
    ensures Validate(code, ctx).value.reason == (if ctx.deadlineExpired then DeadlineExceeded else QueryCancelled)
  {
  }

  // ---- the error-selection branch of `join` ----

  /** The classes of throwable that can appear in a causal chain. */
  datatype ThrowableKind =
    | CancellationException | CompletionException | InterruptedException | TimeoutException
    | ExecutionException | InterruptedIOException | OtherThrowable

  /** The local errors `join` raises: interruption, the two context messages, an
      unavailable database, and the message of an `ExecutionException`. */
  datatype LocalError = QueryInterrupted | LocalDeadlineExceeded | LocalQueryCancelled
                      | DatabaseUnavailable | ExecutionFailed

  /** `isInterrupted(e)`: some throwable of the causal chain (starting with `e` itself) is an
      `InterruptedException` or an `InterruptedIOException`. */
  predicate IsInterrupted(chain: seq<ThrowableKind>)
  {
    exists i :: 0 <= i < |chain| && chain[i] in {InterruptedException, InterruptedIOException}
  }

  /** `checkGrpcContextStatus(exception)`: the context messages, deadline first. */
  function CheckContextOfException(ctx: GrpcContext): (r: Option<LocalError>)
    ensures r.None? <==> !ctx.deadlineExpired && !ctx.cancelled
    ensures r.Some? ==> (r.value == LocalDeadlineExceeded <==> ctx.deadlineExpired)
    ensures r.Some? ==> r.value in {LocalDeadlineExceeded, LocalQueryCancelled}
  {
    if ctx.deadlineExpired then Some(LocalDeadlineExceeded)
    else if ctx.cancelled then Some(LocalQueryCancelled)
    else None
  }

  /** What a failed `future.get` turns into. `chain` is the causal chain of the caught
      exception, which is one of the five that `future.get` throws; `threadInterrupted` is
      the thread's interrupt flag. Returns the error and the interrupt flag afterwards
      (`Thread.interrupted()` clears it, the interrupt branch sets it again). */
  function JoinFailure(chain: seq<ThrowableKind>, threadInterrupted: bool, ctx: GrpcContext)
    : (r: (LocalError, bool))
    requires |chain| > 0
    requires chain[0] in {CancellationException, CompletionException, InterruptedException,
                          TimeoutException, ExecutionException}
    ensures chain[0] == ExecutionException ==> r == (ExecutionFailed, threadInterrupted)
    ensures chain[0] != ExecutionException ==>
              (r.0 == QueryInterrupted <==> threadInterrupted || IsInterrupted(chain))
    ensures chain[0] != ExecutionException && !threadInterrupted && !IsInterrupted(chain) ==>
              r.0 == (if ctx.deadlineExpired then LocalDeadlineExceeded
                      else if ctx.cancelled then LocalQueryCancelled
                      else DatabaseUnavailable)
    ensures r.1 == (threadInterrupted || (chain[0] != ExecutionException && IsInterrupted(chain)))
  {
    if chain[0] == ExecutionException then (ExecutionFailed, threadInterrupted)
    else if threadInterrupted || IsInterrupted(chain) then (QueryInterrupted, true)
    else
      var fromContext := CheckContextOfException(ctx);
      if fromContext.Some? then (fromContext.value, false) else (DatabaseUnavailable, false)
  }

  /** An `InterruptedException` from `future.get` is always reported as an interruption,
      whatever the context says. */
  lemma InterruptedWaitIsInterruption(chain: seq<ThrowableKind>, flag: bool, ctx: GrpcContext)
    requires |chain| > 0 && chain[0] == InterruptedException
    ensures JoinFailure(chain, flag, ctx) == (QueryInterrupted, true)
  {
    assert chain[0] in {InterruptedException, InterruptedIOException};
  }
}
