/** The token bucket that limits the rate of requests; the source's floating-point numbers are
    taken as reals, and the clock is a parameter. */
module RateLimit {

  /** Tokens are refilled at `rate` per second up to `max`. */
  datatype Bucket = Bucket(last: real, tokens: real)

  /** Tokens that come in between two times. */
  function Gain(from: real, to: real, rate: real): real {
    (to - from) * rate
  }

  function Refill(b: Bucket, now: real, rate: real, max: real): real {
    var tokens := b.tokens + Gain(b.last, now, rate);
    if tokens > max then max else tokens
  }

  function Request(b: Bucket, now: real, rate: real, max: real): (Bucket, bool) {
    var tokens := Refill(b, now, rate, max);
    if tokens >= 1.0 then (Bucket(now, tokens - 1.0), true) else (Bucket(now, tokens), false)
  }

  class RateLimiter {
    const maxRequests: real
    const maxInterval: real
    var bucket: Bucket

    /** At most as many tokens as requests are allowed in an interval, and never fewer than none. */
    ghost predicate Valid()
      reads this
    {
      maxRequests >= 0.0 && maxInterval > 0.0 && 0.0 <= bucket.tokens <= maxRequests
    }

    /** An interval refills the whole bucket. */
    function Rate(): (rate: real)
      requires maxInterval > 0.0
      ensures rate * maxInterval == maxRequests
    {
      maxRequests / maxInterval
    }

    constructor (maxRequests: nat, maxInterval: nat, now: real)
      requires maxInterval > 0
      ensures Valid() && bucket == Bucket(now, maxRequests as real)
      ensures this.maxRequests == maxRequests as real && this.maxInterval == maxInterval as real
    {
      this.maxRequests, this.maxInterval := maxRequests as real, maxInterval as real;
      bucket := Bucket(now, maxRequests as real);
    }

    method IsAllowed(now: real) returns (allowed: bool)
      requires Valid() && now >= bucket.last
      modifies this
      ensures Valid()
      ensures (bucket, allowed) == Request(old(bucket), now, Rate(), maxRequests)
    {
      var elapsed := now - bucket.last;
      RateIsPositive(maxRequests, maxInterval);
      GainIsPositive(bucket.last, now, Rate());
      var tokens := bucket.tokens + elapsed * (maxRequests / maxInterval);
      if tokens > maxRequests {
        tokens := maxRequests;
      }
      if tokens >= 1.0 {
        bucket := Bucket(now, tokens - 1.0);
        allowed := true;
      } else {
        bucket := Bucket(now, tokens);
        allowed := false;
      }
    }
  }

  lemma RateIsPositive(max: real, interval: real)
    requires max >= 0.0 && interval > 0.0
    ensures max / interval >= 0.0
  {
  }

  lemma GainIsPositive(from: real, to: real, rate: real)
    requires from <= to && rate >= 0.0
    ensures Gain(from, to, rate) >= 0.0
  {
  }

  lemma GainAdds(from: real, mid: real, to: real, rate: real)
    ensures Gain(from, mid, rate) + Gain(mid, to, rate) == Gain(from, to, rate)
  {
  }

  /** A request leaves a valid number of tokens, and takes one of those there were if admitted. */
  lemma OneRequest(b: Bucket, now: real, rate: real, max: real)
    requires b.last <= now && rate >= 0.0 && 0.0 <= b.tokens <= max
    ensures var (b', admitted) := Request(b, now, rate, max);
            && 0.0 <= b'.tokens <= max
            && b'.tokens + (if admitted then 1.0 else 0.0) <= max
            && b'.tokens + (if admitted then 1.0 else 0.0) <= b.tokens + Gain(b.last, now, rate)
  {
    GainIsPositive(b.last, now, rate);
  }

  // ----- Runs

  /** The bucket after the first `n` requests. */
  function After(b: Bucket, times: seq<real>, n: nat, rate: real, max: real): Bucket
    requires n <= |times|
  {
    if n == 0 then b else Request(After(b, times, n - 1, rate, max), times[n - 1], rate, max).0
  }

  predicate IsAdmitted(b: Bucket, times: seq<real>, i: nat, rate: real, max: real)
    requires i < |times|
  {
    Request(After(b, times, i, rate, max), times[i], rate, max).1
  }

  /** How many of the requests from number `i` up to but not including `j` are admitted. */
  function Admitted(b: Bucket, times: seq<real>, i: nat, j: nat, rate: real, max: real): nat
    requires i <= j <= |times|
    decreases |times| + j - i
  {
    if i == j then 0
    else Admitted(b, times, i, j - 1, rate, max) + if IsAdmitted(b, times, j - 1, rate, max) then 1 else 0
  }

  ghost predicate InOrder(b: Bucket, times: seq<real>) {
    && (forall i :: 0 <= i < |times| ==> b.last <= times[i])
    && (forall i, j :: 0 <= i < j < |times| ==> times[i] <= times[j])
  }

  lemma {:induction false} LastTime(b: Bucket, times: seq<real>, n: nat, rate: real, max: real)
    requires n <= |times|
    ensures After(b, times, n, rate, max).last == if n == 0 then b.last else times[n - 1]
  {
    if n > 0 {
      LastTime(b, times, n - 1, rate, max);
    }
  }

  /** The tokens stay between none and the maximum in every run. */
  lemma {:induction false} TokensInBounds(b: Bucket, times: seq<real>, n: nat, rate: real, max: real)
    requires n <= |times| && InOrder(b, times) && rate >= 0.0 && 0.0 <= b.tokens <= max
    ensures 0.0 <= After(b, times, n, rate, max).tokens <= max
  {
    if n > 0 {
      TokensInBounds(b, times, n - 1, rate, max);
      LastTime(b, times, n - 1, rate, max);
      OneRequest(After(b, times, n - 1, rate, max), times[n - 1], rate, max);
    }
  }

  /** Every admitted request has taken a token that was there at the first of them or came in since. */
  lemma {:induction false} TokensAccounted(b: Bucket, times: seq<real>, i: nat, j: nat, rate: real, max: real)
    requires i < j <= |times| && InOrder(b, times) && rate >= 0.0 && 0.0 <= b.tokens <= max
    ensures Admitted(b, times, i, j, rate, max) as real + After(b, times, j, rate, max).tokens
            <= max + Gain(times[i], times[j - 1], rate)
    decreases j
  {
    TokensInBounds(b, times, j - 1, rate, max);
    LastTime(b, times, j - 1, rate, max);
    OneRequest(After(b, times, j - 1, rate, max), times[j - 1], rate, max);
    if j == i + 1 {
      assert Admitted(b, times, i, i, rate, max) == 0;
      GainIsPositive(times[i], times[i], rate);
    } else {
      TokensAccounted(b, times, i, j - 1, rate, max);
      GainAdds(times[i], times[j - 2], times[j - 1], rate);
    }
  }

  /** The rate limit: over every sequence of requests at non-decreasing times, of any stretch of
      requests that takes `t` seconds at most the maximum plus `t` times the rate are admitted. */
  lemma AdmittedIsBounded(b: Bucket, times: seq<real>, i: nat, j: nat, rate: real, max: real)
    requires i < j <= |times| && InOrder(b, times) && rate >= 0.0 && 0.0 <= b.tokens <= max
    ensures Admitted(b, times, i, j, rate, max) as real <= max + (times[j - 1] - times[i]) * rate
  {
    TokensAccounted(b, times, i, j, rate, max);
    TokensInBounds(b, times, j, rate, max);
  }

  // ----- Which requests are refused

  /** The tokens at request `j`, before it takes one. */
  function Before(b: Bucket, times: seq<real>, j: nat, rate: real, max: real): real
    requires j < |times|
  {
    Refill(After(b, times, j, rate, max), times[j], rate, max)
  }

  /** The admitted requests and one more are more than some tokens and what has come in since. */
  predicate TooMany(admitted: nat, tokens: real, from: real, to: real, rate: real) {
    admitted as real + 1.0 > tokens + (to - from) * rate
  }

  lemma TooManyIs(admitted: nat, tokens: real, from: real, to: real, rate: real)
    ensures TooMany(admitted, tokens, from, to, rate) <==> admitted as real + 1.0 > tokens + Gain(from, to, rate)
  {
  }

  /** The requests admitted from number `i` on, and request `j` itself, are more than the maximum and what has come in
      since request `i`. */
  predicate Exceeds(b: Bucket, times: seq<real>, i: nat, j: nat, rate: real, max: real)
    requires i <= j < |times|
  {
    TooMany(Admitted(b, times, i, j, rate, max), max, times[i], times[j], rate)
  }

  /** All requests admitted so far, and request `j` itself, are more than the tokens at the beginning and what has come
      in since. */
  predicate ExceedsStart(b: Bucket, times: seq<real>, j: nat, rate: real, max: real)
    requires j < |times|
  {
    TooMany(Admitted(b, times, 0, j, rate, max), b.tokens, b.last, times[j], rate)
  }

  lemma BeforeNext(b: Bucket, times: seq<real>, j: nat, rate: real, max: real)
    requires j + 1 < |times|
    ensures var left := Before(b, times, j, rate, max) - if IsAdmitted(b, times, j, rate, max) then 1.0 else 0.0;
            var more := left + Gain(times[j], times[j + 1], rate);
            Before(b, times, j + 1, rate, max) == if more > max then max else more
  {
    LastTime(b, times, j, rate, max);
  }

  lemma {:induction false} BeforeIsBelow(b: Bucket, times: seq<real>, i: nat, j: nat, rate: real, max: real)
    requires i <= j < |times|
    ensures Before(b, times, j, rate, max) + Admitted(b, times, i, j, rate, max) as real
            <= max + Gain(times[i], times[j], rate)
    decreases j
  {
    if i < j {
      BeforeIsBelow(b, times, i, j - 1, rate, max);
      BeforeNext(b, times, j - 1, rate, max);
      GainAdds(times[i], times[j - 1], times[j], rate);
    }
  }

  lemma {:induction false} BeforeIsBelowStart(b: Bucket, times: seq<real>, j: nat, rate: real, max: real)
    requires j < |times|
    ensures Before(b, times, j, rate, max) + Admitted(b, times, 0, j, rate, max) as real
            <= b.tokens + Gain(b.last, times[j], rate)
    decreases j
  {
    if j > 0 {
      BeforeIsBelowStart(b, times, j - 1, rate, max);
      BeforeNext(b, times, j - 1, rate, max);
      GainAdds(b.last, times[j - 1], times[j], rate);
    }
  }

  /** One of the bounds is reached: the bucket was full at request `i` the last time, or never. */
  lemma {:induction false} BeforeIsReached(b: Bucket, times: seq<real>, j: nat, rate: real, max: real)
    returns (full: bool, i: nat)
    requires j < |times|
    ensures i <= j
    ensures Before(b, times, j, rate, max) + Admitted(b, times, i, j, rate, max) as real
         == if full then max + Gain(times[i], times[j], rate) else b.tokens + Gain(b.last, times[j], rate)
    ensures full || i == 0
    decreases j
  {
    if Before(b, times, j, rate, max) == max {
      full, i := true, j;
      assert Admitted(b, times, j, j, rate, max) == 0;
    } else if j == 0 {
      full, i := false, 0;
    } else {
      full, i := BeforeIsReached(b, times, j - 1, rate, max);
      BeforeNext(b, times, j - 1, rate, max);
      GainAdds(times[i], times[j - 1], times[j], rate);
      GainAdds(b.last, times[j - 1], times[j], rate);
    }
  }

  lemma RefusedIs(b: Bucket, times: seq<real>, j: nat, rate: real, max: real)
    requires j < |times|
    ensures IsAdmitted(b, times, j, rate, max) <==> Before(b, times, j, rate, max) >= 1.0
  {
  }

  /** Some earlier request, or this one, from which on too many would be admitted. */
  ghost predicate ExceedsSome(b: Bucket, times: seq<real>, j: nat, rate: real, max: real)
    requires j < |times|
  {
    exists i :: 0 <= i <= j && Exceeds(b, times, i, j, rate, max)
  }

  lemma RefusedIfExceeds(b: Bucket, times: seq<real>, j: nat, rate: real, max: real)
    requires j < |times| && (ExceedsStart(b, times, j, rate, max) || ExceedsSome(b, times, j, rate, max))
    ensures !IsAdmitted(b, times, j, rate, max)
  {
    RefusedIs(b, times, j, rate, max);
    if ExceedsStart(b, times, j, rate, max) {
      TooManyIs(Admitted(b, times, 0, j, rate, max), b.tokens, b.last, times[j], rate);
      BeforeIsBelowStart(b, times, j, rate, max);
    } else {
      var i :| 0 <= i <= j && Exceeds(b, times, i, j, rate, max);
      TooManyIs(Admitted(b, times, i, j, rate, max), max, times[i], times[j], rate);
      BeforeIsBelow(b, times, i, j, rate, max);
    }
  }

  lemma ExceedsIfRefused(b: Bucket, times: seq<real>, j: nat, rate: real, max: real)
    requires j < |times| && !IsAdmitted(b, times, j, rate, max)
    ensures ExceedsStart(b, times, j, rate, max) || ExceedsSome(b, times, j, rate, max)
  {
    RefusedIs(b, times, j, rate, max);
    var full, i := BeforeIsReached(b, times, j, rate, max);
    if full {
      TooManyIs(Admitted(b, times, i, j, rate, max), max, times[i], times[j], rate);
      assert Exceeds(b, times, i, j, rate, max);
    } else {
      TooManyIs(Admitted(b, times, 0, j, rate, max), b.tokens, b.last, times[j], rate);
    }
  }

  /** The exact law of the bucket: a request is refused if and only if with it the requests admitted since some earlier
      one, or since the beginning, would be more than the tokens that there can have been. */
  lemma RefusedExactly(b: Bucket, times: seq<real>, j: nat, rate: real, max: real)
    requires j < |times|
    ensures !IsAdmitted(b, times, j, rate, max) <==>
            ExceedsStart(b, times, j, rate, max) || ExceedsSome(b, times, j, rate, max)
  {
    if !IsAdmitted(b, times, j, rate, max) {
      ExceedsIfRefused(b, times, j, rate, max);
    } else if ExceedsStart(b, times, j, rate, max) || ExceedsSome(b, times, j, rate, max) {
      RefusedIfExceeds(b, times, j, rate, max);
    }
  }

  /** From a full bucket the earlier requests alone decide. */
  lemma RefusedFromFull(b: Bucket, times: seq<real>, j: nat, rate: real, max: real)
    requires j < |times| && InOrder(b, times) && rate >= 0.0 && b.tokens == max
    ensures !IsAdmitted(b, times, j, rate, max) <==> ExceedsSome(b, times, j, rate, max)
  {
    RefusedExactly(b, times, j, rate, max);
    if ExceedsStart(b, times, j, rate, max) {
      TooManyIs(Admitted(b, times, 0, j, rate, max), b.tokens, b.last, times[j], rate);
      TooManyIs(Admitted(b, times, 0, j, rate, max), max, times[0], times[j], rate);
      GainIsPositive(b.last, times[0], rate);
      GainAdds(b.last, times[0], times[j], rate);
      assert Exceeds(b, times, 0, j, rate, max);
    }
  }
}
