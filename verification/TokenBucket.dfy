/**
 The documented bucket of golang.org/x/time/rate as the rate limiter uses it: it starts full, refills at
 `limit` tokens a second, holds at most `burst`, and a reservation cancelled at once gives its tokens back.
 Its own code is not part of this model. Times and delays are in seconds, over the reals.
 */
module TokenBucket {

  const INFINITE_DELAY := 9_223_372_036.854775807

  datatype Bucket = Bucket(tokens: real, last: real)

  function Refill(limit: real, elapsed: real): real {
    if limit <= 0.0 || elapsed <= 0.0 then 0.0 else elapsed * limit
  }

  function Min(a: real, b: real): real {
    if a < b then a else b
  }

  /** The tokens in the bucket at time `now`. */
  function Level(b: Bucket, limit: real, burst: int, now: real): real {
    Min(b.tokens + Refill(limit, now - b.last), burst as real)
  }

  function DelayFor(limit: real, missing: real): real {
    if limit <= 0.0 then INFINITE_DELAY else missing / limit
  }

  /** A rate.Limiter: the two calls the rate limiter makes. */
  class Limiter {
    const limit: real
    const burst: int
    var tokens: real
    var last: real

    function State(): Bucket
      reads this
    {
      Bucket(tokens, last)
    }

    constructor (limit: real, burst: int, now: real)
      ensures this.limit == limit && this.burst == burst && State() == Bucket(burst as real, now)
    {
      this.limit, this.burst := limit, burst;
      tokens, last := burst as real, now;
    }

    /** Takes n tokens, going into debt if need be; `delay` is how long until the debt is paid. */
    method ReserveN(now: real, n: int) returns (ok: bool, delay: real)
      modifies this
      ensures ok == (n <= burst)
      ensures !ok ==> State() == old(State())
      ensures ok ==> State() == Bucket(old(Level(State(), limit, burst, now)) - n as real, now)
      ensures ok ==> delay == if tokens < 0.0 then DelayFor(limit, -tokens) else 0.0
    {
      var left := Level(State(), limit, burst, now) - n as real;
      ok := n <= burst;
      delay := if left < 0.0 then DelayFor(limit, -left) else 0.0;
      if ok {
        tokens, last := left, now;
      }
    }

    /** Gives the n tokens of a reservation made at this same moment back. */
    method CancelAt(now: real, n: int)
      requires last == now
      modifies this
      ensures State() == Bucket(Min(old(tokens) + n as real, burst as real), now)
    {
      tokens := Min(tokens + n as real, burst as real);
    }
  }
}
