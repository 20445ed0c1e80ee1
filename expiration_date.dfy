/**
 * An absolute deadline in epoch milliseconds. The wall clock is not read:
 * every operation that looks at the current time takes it as `now`.
 */
module Expiration {

  /** The amount DeductSlipTime moves a deadline earlier. */
  const SLIP_TIME_MILLIS: int := 50

  datatype ExpirationDate = ExpirationDate(deadlineMs: int) {

    /** Milliseconds left until the deadline; negative once it has passed. */
    function RemainingMs(now: int): (remaining: int)
      ensures remaining >= 0 <==> now <= deadlineMs
      ensures remaining == 0 <==> now == deadlineMs
    {
      deadlineMs - now
    }

    /** The deadline lies strictly before `now` (java.util.Date.before is strict). */
    predicate IsExpired(now: int)
      ensures IsExpired(now) <==> RemainingMs(now) < 0
    {
      deadlineMs < now
    }

    /**
     * A deadline that passes SLIP_TIME_MILLIS earlier, for a dependency that
     * must give up before its caller does.
     */
    function DeductSlipTime(): (d: ExpirationDate)
      ensures forall now :: d.RemainingMs(now) == RemainingMs(now) - SLIP_TIME_MILLIS
      ensures forall now :: IsExpired(now) ==> d.IsExpired(now)
    {
      ExpirationDate(deadlineMs - SLIP_TIME_MILLIS)
    }
  }

  /** The deadline `timeoutMs` after `now`. */
  function ExpiresIn(timeoutMs: int, now: int): (d: ExpirationDate)
    ensures d.RemainingMs(now) == timeoutMs
    ensures d.IsExpired(now) <==> timeoutMs < 0
  {
    ExpirationDate(now + timeoutMs)
  }

  /** The deadline at the instant `instantMs` (epoch milliseconds). */
  function ExpiresOn(instantMs: int): (d: ExpirationDate)
    ensures forall now :: d.RemainingMs(now) == instantMs - now
    ensures forall now :: d.IsExpired(now) <==> instantMs < now
  {
    ExpirationDate(instantMs)
  }

  /** A deadline in the past is expired at once. */
  lemma NegativeTimeoutIsExpired(timeoutMs: int, now: int)
    requires timeoutMs < 0
    ensures ExpiresIn(timeoutMs, now).IsExpired(now)
  {
  }

  /** A deadline in the future is not expired yet, nor is one that is exactly now. */
  lemma NonNegativeTimeoutIsNotExpired(timeoutMs: int, now: int)
    requires timeoutMs >= 0
    ensures !ExpiresIn(timeoutMs, now).IsExpired(now)
  {
  }

  /** Once a deadline has passed it stays passed. */
  lemma ExpiredStaysExpired(d: ExpirationDate, now: int, later: int)
    requires now <= later && d.IsExpired(now)
    ensures d.IsExpired(later)
  {
  }

  /** Deducting slip time leaves the original deadline alone and shortens the remainder by 50 ms. */
  lemma SlipTimeShortensRemaining(d: ExpirationDate, now: int)
    ensures d.DeductSlipTime().RemainingMs(now) == d.RemainingMs(now) - 50
    ensures d.DeductSlipTime().RemainingMs(now) < d.RemainingMs(now)
    ensures d.DeductSlipTime() != d
  {
  }
}
