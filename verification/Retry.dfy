/** Retrying with exponential backoff and jitter. Delays are reals, in milliseconds. */
module Retry {
  import opened Wrapper

  datatype Outcome<+T, +E> = Value(value: T) | Raised(error: E)

  // The options as given; 0 is falsy in JavaScript and selects the default.
  datatype Options<!E> = Options(maxRetries: int, initialDelay: real, maxDelay: real, shouldRetry: E -> bool)

  function OrDefault<E>(o: Options<E>): Options<E> {
    o.(maxRetries := if o.maxRetries == 0 then 5 else o.maxRetries,
       initialDelay := if o.initialDelay == 0.0 then 3000.0 else o.initialDelay,
       maxDelay := if o.maxDelay == 0.0 then 20000.0 else o.maxDelay)
  }

  function Pow2(n: nat): real {
    if n == 0 then 1.0 else 2.0 * Pow2(n - 1)
  }

  function Min(x: real, y: real): real {
    if x < y then x else y
  }

  // Between half and all of the full backoff; random lies in [0, 1).
  function Jittered(full: real, random: real): real {
    full * (0.5 + random * 0.5)
  }

  // The full backoff after the attempt-th failure.
  function Full<E>(o: Options<E>, attempt: nat): real
    requires attempt > 0
  {
    o.initialDelay * Pow2(attempt - 1)
  }

  // The wait after the attempt-th failure.
  function Unclamped<E>(o: Options<E>, attempt: nat, random: real): real
    requires attempt > 0
  {
    Jittered(Full(o, attempt), random)
  }

  function Delay<E>(o: Options<E>, attempt: nat, random: real): real
    requires attempt > 0
  {
    Min(o.maxDelay, Unclamped(o, attempt, random))
  }

  // Call number i, counting from 0, fails in a way worth retrying.
  predicate Retryable<T, E>(fn: nat -> Outcome<T, E>, o: Options<E>, i: nat) {
    fn(i).Raised? && o.shouldRetry(fn(i).error)
  }

  // fn(i) is what the i-th call would do. The calls before the last one raised errors worth
  // retrying; the last one's outcome is the result; if that is such an error too, then maxRetries + 1
  // calls have been made. Only a negative maxRetries reaches the throw after the loop.
  method RetryWithBackoff<T, E>(fn: nat -> Outcome<T, E>, options: Options<E>, random: nat -> real)
    returns (result: Option<Outcome<T, E>>, calls: nat, waits: seq<real>)
    ensures var maxRetries := if options.maxRetries == 0 then 5 else options.maxRetries;
            && (result == None <==> maxRetries < 0)
            && (maxRetries < 0 ==> calls == 0 && waits == [])
            && (maxRetries >= 0 ==>
                  && 0 < calls <= maxRetries + 1 && result == Some(fn(calls - 1))
                  && (forall i :: 0 <= i < calls - 1 ==> Retryable(fn, options, i))
                  && (Retryable(fn, options, calls - 1) ==> calls == maxRetries + 1)
                  && |waits| == calls - 1
                  && forall i :: 0 <= i < |waits| ==> waits[i] == Delay(OrDefault(options), i + 1, random(i)))
  {
    var o := OrDefault(options);
    var attempt := 0;
    var lastError: Option<Outcome<T, E>> := None;
    calls, waits := 0, [];
    while attempt <= o.maxRetries
      invariant 0 <= attempt == calls == |waits|
      invariant o.maxRetries >= 0 ==> attempt <= o.maxRetries
      invariant o.maxRetries < 0 ==> attempt == 0 && lastError == None
      invariant forall i :: 0 <= i < attempt ==> Retryable(fn, options, i)
      invariant forall i :: 0 <= i < |waits| ==> waits[i] == Delay(o, i + 1, random(i))
    {
      var outcome := fn(calls);
      calls := calls + 1;
      if outcome.Value? {
        return Some(outcome), calls, waits;
      }
      lastError := Some(outcome);
      attempt := attempt + 1;
      if attempt > o.maxRetries || !o.shouldRetry(outcome.error) {
        return Some(outcome), calls, waits;
      }
      waits := waits + [Delay(o, attempt, random(attempt - 1))];
    }
    return lastError, calls, waits;
  }

  // ----- the time spent waiting

  function Total(waits: seq<real>): real {
    if waits == [] then 0.0 else Total(waits[..|waits| - 1]) + waits[|waits| - 1]
  }

  predicate Waited<E>(o: Options<E>, random: nat -> real, waits: seq<real>) {
    forall i :: 0 <= i < |waits| ==> 0.0 <= random(i) < 1.0 && waits[i] == Delay(o, i + 1, random(i))
  }

  predicate NoneClamped<E>(o: Options<E>, random: nat -> real, waits: seq<real>) {
    forall i :: 0 <= i < |waits| ==> Unclamped(o, i + 1, random(i)) <= o.maxDelay
  }

  lemma {:induction false} Pow2Positive(n: nat)
    ensures Pow2(n) >= 1.0
  {
    if n == 0 {
    } else {
      Pow2Positive(n - 1);
    }
  }

  lemma JitteredBounds(full: real, random: real)
    requires full > 0.0 && 0.0 <= random < 1.0
    ensures 0.5 * full <= Jittered(full, random) < full
  {
    var jitter := 0.5 + random * 0.5;
    Scale(full, 0.5, jitter);
    Scale(full, jitter, 1.0);
  }

  lemma Scale(factor: real, x: real, y: real)
    requires factor > 0.0
    ensures x <= y ==> factor * x <= factor * y
    ensures x < y ==> factor * x < factor * y
  {
  }

  lemma FullIsPositive<E>(o: Options<E>, attempt: nat)
    requires attempt > 0 && o.initialDelay > 0.0
    ensures Full(o, attempt) > 0.0
  {
    Pow2Positive(attempt - 1);
    Scale(o.initialDelay, 1.0, Pow2(attempt - 1));
  }

  // The jitter keeps a wait in the upper half of its backoff.
  lemma JitterBounds<E>(o: Options<E>, attempt: nat, random: real)
    requires attempt > 0 && o.initialDelay > 0.0 && 0.0 <= random < 1.0
    ensures 0.5 * Full(o, attempt) <= Unclamped(o, attempt, random) < Full(o, attempt)
  {
    FullIsPositive(o, attempt);
    JitteredBounds(Full(o, attempt), random);
  }

  // The random number for which a backoff of `full` gives this wait.
  function RandomFor(full: real, wait: real): real
    requires full > 0.0
  {
    2.0 * wait / full - 1.0
  }

  // The wait before clamping runs through the upper half of its backoff as random runs through [0, 1):
  // each wait belongs to exactly one random number.
  lemma WaitIsUniform<E>(o: Options<E>, attempt: nat, random: real, wait: real)
    requires attempt > 0 && o.initialDelay > 0.0
    ensures Full(o, attempt) > 0.0
    ensures Unclamped(o, attempt, random) == wait <==> random == RandomFor(Full(o, attempt), wait)
  {
    FullIsPositive(o, attempt);
    Solve(Full(o, attempt), random, wait);
  }

  lemma Solve(full: real, random: real, wait: real)
    requires full > 0.0
    ensures Jittered(full, random) == wait <==> random == RandomFor(full, wait)
  {
    Quotient(full, wait);
    HalfOf(full, random);
    Cancel(full, random + 1.0, RandomFor(full, wait) + 1.0);
  }

  lemma Quotient(full: real, wait: real)
    requires full > 0.0
    ensures (RandomFor(full, wait) + 1.0) * full == 2.0 * wait
  {
    assert 2.0 * wait / full * full == 2.0 * wait;
  }

  lemma HalfOf(full: real, random: real)
    ensures 2.0 * Jittered(full, random) == (random + 1.0) * full
  {
  }

  lemma Cancel(factor: real, x: real, y: real)
    requires factor > 0.0
    ensures x * factor == y * factor <==> x == y
  {
    if x < y {
      Scale(factor, x, y);
    } else if y < x {
      Scale(factor, y, x);
    }
  }

  // A wait is clamped exactly if its backoff and its random number ask for more than maxDelay.
  lemma ClampedIff<E>(o: Options<E>, attempt: nat, random: real)
    requires attempt > 0
    ensures Delay(o, attempt, random) <= o.maxDelay
    ensures Delay(o, attempt, random) == o.maxDelay <==> Unclamped(o, attempt, random) >= o.maxDelay
    ensures Delay(o, attempt, random) < o.maxDelay ==> Delay(o, attempt, random) == Unclamped(o, attempt, random)
  {
  }

  // With the default delays the first four waits lie between half their backoff and the backoff or
  // 20 seconds, and the fifth and last is 20 seconds whatever the random number.
  lemma DefaultWaits<E>(options: Options<E>, attempt: nat, random: real)
    requires options.initialDelay == 0.0 && options.maxDelay == 0.0
    requires 1 <= attempt <= 5 && 0.0 <= random < 1.0
    ensures var wait := Delay(OrDefault(options), attempt, random);
            match attempt
            case 1 => 1500.0 <= wait < 3000.0
            case 2 => 3000.0 <= wait < 6000.0
            case 3 => 6000.0 <= wait < 12000.0
            case 4 => 12000.0 <= wait <= 20000.0
            case _ => wait == 20000.0
  {
    JitterBounds(OrDefault(options), attempt, random);
    assert Pow2(1) == 2.0 && Pow2(2) == 4.0;
    assert Pow2(3) == 8.0 && Pow2(4) == 16.0;
  }

  // The backoff of k waits without jitter.
  function Backoff<E>(o: Options<E>, k: nat): real {
    o.initialDelay * (Pow2(k) - 1.0)
  }

  lemma BackoffStep<E>(o: Options<E>, k: nat)
    requires k > 0
    ensures Backoff(o, k) == Backoff(o, k - 1) + Full(o, k)
  {
    var p, d := Pow2(k - 1), o.initialDelay;
    assert d * (2.0 * p - 1.0) == d * (p - 1.0) + d * p;
  }

  lemma CapStep(k: nat, cap: real)
    requires k > 0
    ensures k as real * cap == (k - 1) as real * cap + cap
  {
  }

  // What k waits add up to.
  predicate Bounded<E>(o: Options<E>, total: real, k: nat, clamped: bool) {
    && total <= k as real * o.maxDelay
    && total <= Backoff(o, k) && (k > 0 ==> total < Backoff(o, k))
    && (!clamped ==> 0.5 * Backoff(o, k) <= total)
  }

  lemma WaitBounds<E>(o: Options<E>, attempt: nat, random: real)
    requires attempt > 0 && o.initialDelay > 0.0 && 0.0 <= random < 1.0
    ensures Delay(o, attempt, random) <= o.maxDelay && Delay(o, attempt, random) < Full(o, attempt)
    ensures Unclamped(o, attempt, random) <= o.maxDelay ==> 0.5 * Full(o, attempt) <= Delay(o, attempt, random)
  {
    JitterBounds(o, attempt, random);
  }

  lemma OneMoreWait<E>(o: Options<E>, total: real, wait: real, k: nat, clamped: bool)
    requires k > 0 && Bounded(o, total, k - 1, clamped) && wait <= o.maxDelay && wait < Full(o, k)
    requires !clamped ==> 0.5 * Full(o, k) <= wait
    ensures Bounded(o, total + wait, k, clamped)
  {
    BackoffStep(o, k);
    CapStep(k, o.maxDelay);
  }

  lemma NoWaits<E>(o: Options<E>, k: nat, clamped: bool)
    requires k == 0
    ensures Bounded(o, 0.0, k, clamped)
  {
    assert Pow2(k) == 1.0;
  }

  // k waits take at most k * maxDelay, less than initialDelay * (2^k - 1) if there are any, and at
  // least half of that if none is clamped.
  lemma {:induction false} TotalWait<E>(o: Options<E>, random: nat -> real, waits: seq<real>)
    requires o.initialDelay > 0.0 && o.maxDelay > 0.0 && Waited(o, random, waits)
    ensures Bounded(o, Total(waits), |waits|, !NoneClamped(o, random, waits))
  {
    var k := |waits|;
    if k == 0 {
      NoWaits(o, k, !NoneClamped(o, random, waits));
    } else {
      TotalWait(o, random, waits[..k - 1]);
      WaitBounds(o, k, random(k - 1));
      assert waits[k - 1] == Delay(o, k, random(k - 1));
      OneMoreWait(o, Total(waits[..k - 1]), waits[k - 1], k, !NoneClamped(o, random, waits));
    }
  }
}
