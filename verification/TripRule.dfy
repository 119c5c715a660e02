/** When the default rule opens a closed breaker, and when it fails to. */
module TripRule {
  import opened Breaker
  import opened Runs
  import opened Accounting

  ghost predicate UsesDefaultRule(cfg: Config) {
    forall c :: cfg.readyToTrip(c) == DefaultRule(c)
  }

  ghost predicate ByDefaultRule(cfg: Config) {
    cfg.width.Exact? && UsesDefaultRule(cfg)
  }

  // The event is a failure that a closed breaker records, so that readyToTrip is consulted.
  predicate Consults(b: Status, e: Event) {
    b.state == Closed && e.Done? && !e.success && !Stale(b, e)
  }

  // Whenever the rule is consulted there is at least one request to divide by, and a trip means
  // at least three requests of which the failures, however leaked since, are at least 60%.
  lemma {:induction false} TripIsSound(cfg: Config, es: seq<Event>, n: nat)
    requires n < |es| && Legal(cfg, INITIAL, es, n + 1) && ByDefaultRule(cfg)
    ensures var b := At(cfg, INITIAL, es, n);
            && (Consults(b, es[n]) ==> CountFailure(cfg, b.counts).requests >= 1)
            && (b.state == Closed && TripsAt(cfg, INITIAL, es, n) ==>
                  var seen := CountFailure(cfg, b.counts);
                  Consults(b, es[n]) && seen.requests >= 3 && 5 * seen.totalFailures >= 3 * seen.requests)
  {
    AlwaysBalanced(cfg, es, n);
    SoundTripStep(cfg, At(cfg, INITIAL, es, n), InFlight(cfg, INITIAL, es, n), es[n]);
  }

  lemma SoundTripStep(cfg: Config, b: Status, inFlight: multiset<nat>, e: Event)
    requires ByDefaultRule(cfg) && Balanced(cfg, b, inFlight) && (e.Done? ==> e.token in inFlight)
    ensures Consults(b, e) ==> CountFailure(cfg, b.counts).requests >= 1
    ensures b.state == Closed && Apply(cfg, b, e).state == Open ==>
              var seen := CountFailure(cfg, b.counts);
              Consults(b, e) && seen.requests >= 3 && 5 * seen.totalFailures >= 3 * seen.requests
  {
  }

  // ----- missed trips: the rule is not consulted on admissions

  predicate Quiet(c: Counts) {
    c.requests < 3 || 5 * c.failures < 3 * c.requests
  }

  predicate Missed(c: Counts) {
    c.requests == 3 && c.failures == 2
  }

  lemma MissedStep(cfg: Config, b: Status, inFlight: multiset<nat>, e: Event)
    requires ByDefaultRule(cfg) && Balanced(cfg, b, inFlight)
    requires e.Done? ==> e.token in inFlight
    requires b.state == Closed ==> Quiet(b.counts) || Missed(b.counts)
    ensures var b' := Apply(cfg, b, e);
            b'.state == Closed ==>
              && (Quiet(b'.counts) || Missed(b'.counts))
              && (Missed(b'.counts) && b' != b ==> e.Call?)
  {
  }

  // In every reachable closed state the rule does not hold, except at three requests and two
  // failures; and only an admission gets the breaker there.
  lemma {:induction false} OnlyMissedTrip(cfg: Config, es: seq<Event>, n: nat)
    requires n <= |es| && Legal(cfg, INITIAL, es, n) && ByDefaultRule(cfg)
    ensures var b := At(cfg, INITIAL, es, n);
            b.state == Closed ==>
              && (DefaultRule(b.counts) <==> Missed(b.counts))
              && (n > 0 && Missed(b.counts) && b != At(cfg, INITIAL, es, n - 1) ==> es[n - 1].Call?)
  {
    NeverWorse(cfg, es, n);
    if n == 0 {
    } else {
      NeverWorse(cfg, es, n - 1);
      AlwaysBalanced(cfg, es, n - 1);
      MissedStep(cfg, At(cfg, INITIAL, es, n - 1), InFlight(cfg, INITIAL, es, n - 1), es[n - 1]);
    }
  }

  lemma {:induction false} NeverWorse(cfg: Config, es: seq<Event>, n: nat)
    requires n <= |es| && Legal(cfg, INITIAL, es, n) && ByDefaultRule(cfg)
    ensures var b := At(cfg, INITIAL, es, n);
            b.state == Closed ==> Quiet(b.counts) || Missed(b.counts)
  {
    if n == 0 {
    } else {
      NeverWorse(cfg, es, n - 1);
      AlwaysBalanced(cfg, es, n - 1);
      MissedStep(cfg, At(cfg, INITIAL, es, n - 1), InFlight(cfg, INITIAL, es, n - 1), es[n - 1]);
    }
  }

  const TWO_FAILURES_AND_A_CALL := [Call(0), Done(0, false, 0), Call(0), Done(0, false, 0), Call(0)]

  // The exception is real: two failing calls and a third admitted leave a closed breaker whose
  // counters satisfy the rule.
  lemma MissedTripHappens(cfg: Config)
    requires ByDefaultRule(cfg)
    ensures var b := At(cfg, INITIAL, TWO_FAILURES_AND_A_CALL, 5);
            Legal(cfg, INITIAL, TWO_FAILURES_AND_A_CALL, 5) && b.state == Closed && DefaultRule(b.counts)
  {
    var es := TWO_FAILURES_AND_A_CALL;
    assert At(cfg, INITIAL, es, 1) == Status(Closed, 0, Counts(1, 0, 0, 0), 0);
    assert At(cfg, INITIAL, es, 2) == Status(Closed, 0, Counts(1, 1, 1, 0), 0);
    assert At(cfg, INITIAL, es, 3) == Status(Closed, 0, Counts(2, 1, 1, 0), 0);
    assert At(cfg, INITIAL, es, 4) == Status(Closed, 0, Counts(2, 2, 2, 0), 0);
    assert InFlight(cfg, INITIAL, es, 1) == multiset{0};
    assert Legal(cfg, INITIAL, es, 2);
    assert InFlight(cfg, INITIAL, es, 2) == multiset{};
    assert InFlight(cfg, INITIAL, es, 3) == multiset{0};
    assert Legal(cfg, INITIAL, es, 4);
  }

  // ----- how long an outage goes unnoticed

  // n failing calls, one after the other; times[i] holds the start and the end of the i-th.
  function FailingCalls(cfg: Config, b: Status, times: seq<(int, int)>, n: nat): Status
    requires n <= |times|
  {
    if n == 0 then b
    else Serial(cfg, FailingCalls(cfg, b, times, n - 1), false, times[n - 1].0, times[n - 1].1)
  }

  function Max(x: int, y: int): int {
    if x > y then x else y
  }

  // 1, 3 - R or (3R - 5F) / 2 rounded up, whichever is greatest.
  function Latency(c: Counts): int {
    Max(1, Max(3 - c.requests, (3 * c.requests - 5 * c.failures + 1) / 2))
  }

  // The counters can take n more without wrapping.
  predicate HasRoom(w: Width, c: Counts, n: nat) {
    w.Exact? || (c.requests + n < WORD && c.failures + n < WORD && c.totalFailures + n < WORD)
  }

  // b after n failures more, not having tripped.
  function AfterFailures(b: Status, n: nat): Status {
    b.(counts := b.counts.(requests := b.counts.requests + n,
                           failures := b.counts.failures + n,
                           totalFailures := b.counts.totalFailures + n))
  }

  lemma OneMoreFailure(cfg: Config, b: Status, n: nat, start: int, finish: int)
    requires UsesDefaultRule(cfg) && HasRoom(cfg.width, b.counts, n)
    requires b.state == Closed && 0 < n <= Latency(b.counts)
    ensures Serial(cfg, AfterFailures(b, n - 1), false, start, finish) ==
            if n < Latency(b.counts) then AfterFailures(b, n)
            else Status(Open, b.generation + 1, ZERO, finish + cfg.timeout)
  {
    var seen := CountFailure(cfg, Before(cfg, AfterFailures(b, n - 1), start).counts);
    assert seen == AfterFailures(b, n).counts;
    assert DefaultRule(seen) <==> n >= Latency(b.counts);
  }

  // A closed breaker needs exactly Latency failing calls in a row to open.
  lemma {:induction false} TripLatency(cfg: Config, b: Status, times: seq<(int, int)>, n: nat)
    requires UsesDefaultRule(cfg) && HasRoom(cfg.width, b.counts, n)
    requires b.state == Closed && n <= |times| && n <= Latency(b.counts)
    ensures FailingCalls(cfg, b, times, n) ==
            if n < Latency(b.counts) then AfterFailures(b, n)
            else Status(Open, b.generation + 1, ZERO, times[n - 1].1 + cfg.timeout)
  {
    if n == 0 {
    } else {
      TripLatency(cfg, b, times, n - 1);
      OneMoreFailure(cfg, b, n, times[n - 1].0, times[n - 1].1);
    }
  }

  // The default settings use the default rule: a service's new breaker stays closed through two
  // failing calls and opens at the third, for 60 seconds.
  lemma {:induction false} DefaultTripsAtThird(w: Width, times: seq<(int, int)>)
    requires |times| == 3
    ensures UsesDefaultRule(DefaultConfig(w))
    ensures forall n :: 0 <= n <= 2 ==>
              FailingCalls(DefaultConfig(w), INITIAL, times, n) == Status(Closed, 0, Counts(n, n, n, 0), 0)
    ensures FailingCalls(DefaultConfig(w), INITIAL, times, 3) == Status(Open, 1, ZERO, times[2].1 + 60 * SECOND)
  {
    forall n | 0 <= n <= 3 ensures n <= 2 ==>
      FailingCalls(DefaultConfig(w), INITIAL, times, n) == Status(Closed, 0, Counts(n, n, n, 0), 0)
    {
      TripLatency(DefaultConfig(w), INITIAL, times, n);
    }
    TripLatency(DefaultConfig(w), INITIAL, times, 3);
  }

  // ----- the ratio in floating point

  const HALF_ULP: real := 1.0 / 9007199254740992.0  // 2 to the power -53

  // Rounding to nearest, near the quotients that occur: monotone, with error at most half an ulp of 1.
  ghost predicate Rounds(rnd: real -> real) {
    && (forall x, y :: x <= y ==> rnd(x) <= rnd(y))
    && (forall x :: 0.0 <= x <= 1.0 ==> x - HALF_ULP <= rnd(x) <= x + HALF_ULP)
  }

  // The source compares the rounded quotient with the rounded literal 0.6. For counters of
  // 32 bits this agrees with the integer test, whatever the rounding.
  lemma FloatTestIsExact(rnd: real -> real, failures: Word32, requests: Word32)
    requires Rounds(rnd) && requests > 0
    ensures rnd(failures as real / requests as real) >= rnd(0.6) <==> 5 * failures >= 3 * requests
  {
    var f, r := failures as real, requests as real;
    var q := f / r;
    if 5 * failures >= 3 * requests {
      AtThreshold(q, f, r);
    } else {
      BelowThreshold(q, f, r);
    }
  }

  lemma AtThreshold(q: real, f: real, r: real)
    requires r > 0.0 && q * r == f && 5.0 * f >= 3.0 * r
    ensures q >= 0.6
  {
    if q < 0.6 {
      RealScale(q, 0.6, r);
    }
  }

  // Below the threshold the quotient misses it by at least 1 / (5 * 2^32), far above an ulp.
  lemma BelowThreshold(q: real, f: real, r: real)
    requires 0.0 < r <= 4294967296.0 && q * r == f && 0.0 <= f && 5.0 * f <= 3.0 * r - 1.0
    ensures 0.0 <= q < 0.6 - 2.0 * HALF_ULP
  {
    var bar := 0.6 - 2.0 * HALF_ULP;
    if q >= bar {
      RealScale(bar, q, r);
    }
    if q < 0.0 {
      RealScale(q, 0.0, r);
    }
  }

  lemma RealScale(x: real, y: real, factor: real)
    requires factor > 0.0
    ensures x < y ==> x * factor < y * factor
    ensures x <= y ==> x * factor <= y * factor
  {
  }
}
