/**
 * Qualifiers that decide whether a pending request may be sent (again).
 *
 * A qualifier is called with the number of attempts so far, the time of the
 * last attempt and the back-off interval.  The clock Go's `RetryAfterQualifier` reads inside
 * the qualifier is a fourth argument, `now`, here.  Times and durations are
 * nanosecond counts.
 */
module Requester {
  import opened Base

  type Time = int
  type Duration = int

  /** `func(attempts, lastAttempt, retryAfter) bool`, with the current time added. */
  type RequestQualifier = (uint64, Time, Duration, Time) -> bool

  /** Accepts exactly the requests with fewer than `maxAttempts` attempts, whatever the times. */
  function MaxAttemptQualifier(maxAttempts: uint64): (q: RequestQualifier)
    ensures forall attempts: uint64, lastAttempt: Time, retryAfter: Duration, now: Time ::
              q(attempts, lastAttempt, retryAfter, now) <==> attempts < maxAttempts
  {
    (attempts: uint64, _: Time, _: Duration, _: Time) => attempts < maxAttempts
  }

  /** Accepts exactly when the back-off has strictly elapsed, whatever the attempt count. */
  function RetryAfterQualifier(): (q: RequestQualifier)
    ensures forall attempts: uint64, lastAttempt: Time, retryAfter: Duration, now: Time ::
              q(attempts, lastAttempt, retryAfter, now) <==> lastAttempt + retryAfter < now
  {
    (_: uint64, lastAttempt: Time, retryAfter: Duration, now: Time) =>
      var nextTry := lastAttempt + retryAfter;
      nextTry < now
  }

  /** A bound of zero lets nothing through. */
  lemma ZeroMaxAttemptsRejectsAll(attempts: uint64, lastAttempt: Time, retryAfter: Duration, now: Time)
    ensures !MaxAttemptQualifier(0)(attempts, lastAttempt, retryAfter, now)
  {
  }

  /**
   * The attempt bound ignores the times and is monotone: accepting `a`
   * attempts means accepting every smaller count.
   */
  lemma MaxAttemptIgnoresTimeAndIsMonotone(maxAttempts: uint64, a: uint64, a': uint64,
                                           t1: Time, d1: Duration, n1: Time, t2: Time, d2: Duration, n2: Time)
    ensures MaxAttemptQualifier(maxAttempts)(a, t1, d1, n1) == MaxAttemptQualifier(maxAttempts)(a, t2, d2, n2)
    ensures a' <= a && MaxAttemptQualifier(maxAttempts)(a, t1, d1, n1) ==>
              MaxAttemptQualifier(maxAttempts)(a', t2, d2, n2)
  {
  }

  /**
   * The retry check ignores the attempt count, and rejects at the very
   * instant the back-off ends: only a strictly later `now` passes.
   */
  lemma RetryAfterIgnoresAttemptsAndNeedsStrictlyLater(a: uint64, a': uint64, lastAttempt: Time, retryAfter: Duration,
                                                       now: Time)
    ensures RetryAfterQualifier()(a, lastAttempt, retryAfter, now)
         == RetryAfterQualifier()(a', lastAttempt, retryAfter, now)
    ensures !RetryAfterQualifier()(a, lastAttempt, retryAfter, lastAttempt + retryAfter)
    ensures RetryAfterQualifier()(a, lastAttempt, retryAfter, lastAttempt + retryAfter + 1)
  {
  }
}
