/** Error classification (internal/provider/provider.go). */
module ProviderErrors {

  /**
   An error value is a chain: `Wrapped` is fmt.Errorf with %w, and a provider error
   may carry a cause of its own.
   */
  datatype Error =
    | DeadlineExceeded
    | Canceled
    | Plain
    | Wrapped(inner: Error)
    | ProviderError(status: int, rateLimited: bool, transient: bool, permanent: bool)
    | ProviderErrorWith(status: int, rateLimited: bool, transient: bool, permanent: bool, cause: Error)

  /** errors.Is(err, context.DeadlineExceeded) */
  predicate IsDeadline(e: Error) {
    match e
    case DeadlineExceeded => true
    case Wrapped(inner) => IsDeadline(inner)
    case ProviderErrorWith(_, _, _, _, cause) => IsDeadline(cause)
    case _ => false
  }

  /** errors.As(err, *ProviderError): there is a provider error in the chain. */
  predicate HasProviderError(e: Error) {
    match e
    case Wrapped(inner) => HasProviderError(inner)
    case ProviderError(_, _, _, _) => true
    case ProviderErrorWith(_, _, _, _, _) => true
    case _ => false
  }

  /** The outermost provider error of the chain. */
  function Find(e: Error): (pe: Error)
    requires HasProviderError(e)
    ensures pe.ProviderError? || pe.ProviderErrorWith?
  {
    if e.Wrapped? then Find(e.inner) else e
  }

  predicate IsRateLimited(e: Error) {
    HasProviderError(e) && (Find(e).rateLimited || Find(e).status == 429)
  }

  predicate IsTransient(e: Error) {
    || IsDeadline(e)
    || (HasProviderError(e) && (Find(e).transient || 500 <= Find(e).status < 600 || Find(e).status == 429))
  }

  predicate IsPermanent(e: Error) {
    HasProviderError(e) && (Find(e).permanent || (400 <= Find(e).status < 500 && Find(e).status != 429))
  }

  /** What the orchestrator retries. */
  predicate Retryable(e: Error) {
    IsTransient(e) && !IsPermanent(e)
  }

  // ------------------------------------------------------------------
  // Classification sees through wrapping.
  // ------------------------------------------------------------------

  /** What ctx.Err() can be. */
  type ContextError = e: Error | e == Canceled || e == DeadlineExceeded witness Canceled

  function WrapTimes(n: nat, e: Error): Error {
    if n == 0 then e else Wrapped(WrapTimes(n - 1, e))
  }

  /** The outermost provider error of the chain is flagged as a rate limit or carries status 429. */
  predicate NamesLimit(e: Error) {
    match e
    case Wrapped(inner) => NamesLimit(inner)
    case ProviderError(status, limited, _, _) => limited || status == 429
    case ProviderErrorWith(status, limited, _, _, _) => limited || status == 429
    case _ => false
  }

  lemma RateLimitedIff(e: Error)
    ensures IsRateLimited(e) <==> NamesLimit(e)
  {
  }

  /** Worth another attempt by status and flags; `late` when a deadline is behind the error. */
  predicate Worth(status: int, transient: bool, permanent: bool, late: bool) {
    && (transient || late || status == 429 || 500 <= status <= 599)
    && !permanent && (status == 429 || status < 400 || status >= 500)
  }

  /** However often it is wrapped, an error is retried by its own status and flags, or for being a deadline. */
  lemma {:induction false} RetriedIff(n: nat, e: Error)
    requires !e.Wrapped?
    ensures Retryable(WrapTimes(n, e)) <==>
              match e
              case DeadlineExceeded => true
              case ProviderError(status, _, transient, permanent) => Worth(status, transient, permanent, false)
              case ProviderErrorWith(status, _, transient, permanent, cause) =>
                Worth(status, transient, permanent, IsDeadline(cause))
              case _ => false
  {
    if n > 0 {
      RetriedIff(n - 1, e);
    }
  }

  /** A wrapped 503 or 429 is retried, a wrapped 404 is not. */
  lemma RetriedByStatus(n: nat, status: int)
    ensures Retryable(WrapTimes(n, ProviderError(status, false, false, false))) <==>
              status == 429 || 500 <= status <= 599
  {
    RetriedIff(n, ProviderError(status, false, false, false));
  }
}
