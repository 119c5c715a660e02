/** How often a breaker can trip and how many calls it lets through to a service that stays down.
    Both bounds hold for any events, whether or not the goroutines behave. */
module Timing {
  import opened Breaker
  import opened Runs

  // ----- the distance between trips

  function TripTimes(log: seq<Change>): seq<int> {
    if log == [] then []
    else
      var c := log[|log| - 1];
      TripTimes(log[..|log| - 1]) + if c.to == Open then [c.at] else []
  }

  lemma TripTimesAppend(log: seq<Change>, c: Change)
    ensures TripTimes(log + [c]) == TripTimes(log) + if c.to == Open then [c.at] else []
  {
    assert (log + [c])[..|log|] == log;
  }

  predicate GapAt(timeout: int, times: seq<int>, i: nat)
    requires 0 < i < |times|
  {
    times[i] - times[i - 1] > timeout
  }

  predicate Spaced(timeout: int, times: seq<int>) {
    forall i :: 0 < i < |times| ==> GapAt(timeout, times, i)
  }

  // What the last trip promises about the present.
  predicate AfterLastTrip(cfg: Config, b: Status, times: seq<int>, clock: int) {
    times != [] ==>
      var last := times[|times| - 1];
      if b.state == Open then b.expiry == last + cfg.timeout else clock > last + cfg.timeout
  }

  // A trip adds its time.
  lemma TripTimesNext(cfg: Config, b: Status, log: seq<Change>, e: Event)
    ensures TripTimes(log + Logged(cfg, b, e)) ==
            if b.state != Open && Apply(cfg, b, e).state == Open then TripTimes(log) + [e.now] else TripTimes(log)
  {
    var b' := Apply(cfg, b, e);
    if b'.state == b.state {
      assert log + Logged(cfg, b, e) == log;
    } else {
      TripTimesAppend(log, Change(b.state, b'.state, e.now));
    }
  }

  lemma SpacedStep(cfg: Config, b: Status, times: seq<int>, clock: int, e: Event)
    requires Spaced(cfg.timeout, times) && AfterLastTrip(cfg, b, times, clock) && clock <= e.now
    ensures var b' := Apply(cfg, b, e);
            var times' := if b.state != Open && b'.state == Open then times + [e.now] else times;
            Spaced(cfg.timeout, times') && AfterLastTrip(cfg, b', times', e.now)
  {
    StepTimes(cfg, b, e);
    if b.state != Open && Apply(cfg, b, e).state == Open {
      SpacedAppend(cfg.timeout, times, e.now);
    }
  }

  lemma SpacedAppend(timeout: int, times: seq<int>, now: int)
    requires Spaced(timeout, times) && (times != [] ==> now > times[|times| - 1] + timeout)
    ensures Spaced(timeout, times + [now])
  {
    forall i | 0 < i < |times + [now]| ensures GapAt(timeout, times + [now], i) {
      assert i < |times| ==> GapAt(timeout, times, i);
    }
  }

  // A breaker leaves open only after its expiry, and sets it anew whenever it opens.
  lemma StepTimes(cfg: Config, b: Status, e: Event)
    ensures var b' := Apply(cfg, b, e);
            && (b.state == Open && b'.state != Open ==> e.now > b.expiry)
            && (b.state == Open && b'.state == Open ==> b'.expiry == b.expiry)
            && (b.state != Open && b'.state == Open ==> b'.expiry == e.now + cfg.timeout)
  {
  }

  predicate SpacedUpTo(cfg: Config, b0: Status, es: seq<Event>, n: nat)
    requires n <= |es|
  {
    var times := TripTimes(Log(cfg, b0, es, n));
    && Spaced(cfg.timeout, times)
    && (n > 0 ==> AfterLastTrip(cfg, At(cfg, b0, es, n), times, es[n - 1].now))
  }

  lemma NothingTripped(cfg: Config, b0: Status, es: seq<Event>, n: nat)
    requires n == 0
    ensures SpacedUpTo(cfg, b0, es, n) && TripTimes(Log(cfg, b0, es, n)) == []
  {
  }

  lemma SpacedLater(cfg: Config, b0: Status, es: seq<Event>, n: nat)
    requires 0 < n <= |es| && Ordered(es) && SpacedUpTo(cfg, b0, es, n - 1)
    ensures SpacedUpTo(cfg, b0, es, n)
  {
    var b, e, log := At(cfg, b0, es, n - 1), es[n - 1], Log(cfg, b0, es, n - 1);
    var clock := if n == 1 then e.now else es[n - 2].now;
    LastEvent(cfg, b0, es, n);
    TripTimesNext(cfg, b, log, e);
    if n == 1 {
      NothingTripped(cfg, b0, es, n - 1);
    } else {
      assert NotBefore(es, n - 1);
    }
    SpacedStep(cfg, b, TripTimes(log), clock, e);
  }

  lemma {:induction false} TripsAreSpaced(cfg: Config, b0: Status, es: seq<Event>, n: nat)
    requires n <= |es| && Ordered(es)
    ensures SpacedUpTo(cfg, b0, es, n)
  {
    if n == 0 {
      NothingTripped(cfg, b0, es, n);
    } else {
      TripsAreSpaced(cfg, b0, es, n - 1);
      SpacedLater(cfg, b0, es, n);
    }
  }

  // Trips i and j of any run lie more than (j - i) timeouts apart.
  lemma {:induction false} TripRate(cfg: Config, b0: Status, es: seq<Event>, n: nat, i: nat, j: nat)
    requires n <= |es| && Ordered(es)
    requires i < j < |TripTimes(Log(cfg, b0, es, n))|
    ensures var times := TripTimes(Log(cfg, b0, es, n));
            times[j] - times[i] > (j - i) * cfg.timeout
  {
    TripsAreSpaced(cfg, b0, es, n);
    SpacedApart(cfg.timeout, TripTimes(Log(cfg, b0, es, n)), i, j);
  }

  lemma {:induction false} SpacedApart(timeout: int, times: seq<int>, i: nat, j: nat)
    requires Spaced(timeout, times) && i < j < |times|
    ensures times[j] - times[i] > (j - i) * timeout
    decreases j
  {
    assert GapAt(timeout, times, j);
    if i == j - 1 {
      assert (j - i) * timeout == timeout;
    } else {
      SpacedApart(timeout, times, i, j - 1);
      assert (j - i) * timeout == (j - 1 - i) * timeout + timeout;
    }
  }

  // ----- calls admitted while the breaker never gets back to closed

  // Calls admitted by the events from index i up to n.
  function AdmittedIn(cfg: Config, b0: Status, es: seq<Event>, i: nat, n: nat): nat
    requires i <= n <= |es|
    decreases n
  {
    if n == i then 0
    else
      var e := es[n - 1];
      AdmittedIn(cfg, b0, es, i, n - 1)
      + if e.Call? && Answer(cfg, At(cfg, b0, es, n - 1), e.now).Admitted? then 1 else 0
  }

  // Half-open episodes begun by them.
  function EpisodesIn(cfg: Config, b0: Status, es: seq<Event>, i: nat, n: nat): nat
    requires i <= n <= |es|
    decreases n
  {
    if n == i then 0
    else
      EpisodesIn(cfg, b0, es, i, n - 1)
      + if At(cfg, b0, es, n - 1).state == Open && At(cfg, b0, es, n).state == HalfOpen then 1 else 0
  }

  // a calls in k episodes since a trip at t0, the last of them begun before `clock`.
  predicate Probing(cfg: Config, b: Status, t0: int, clock: int, k: nat, a: nat) {
    && (k == 0 ==> a == 0)
    && (k > 0 ==> clock - t0 > k * cfg.timeout)
    && match b.state
       case Closed => false
       case Open => a <= k * cfg.Limit() && b.expiry - t0 >= (k + 1) * cfg.timeout
       case HalfOpen => k > 0 && b.counts.requests <= cfg.Limit() && a <= (k - 1) * cfg.Limit() + b.counts.requests
  }

  lemma ProbingStep(cfg: Config, b: Status, e: Event, t0: int, clock: int, k: nat, a: nat)
    requires Probing(cfg, b, t0, clock, k, a) && clock <= e.now && Apply(cfg, b, e).state != Closed
    ensures var b' := Apply(cfg, b, e);
            var k' := k + if b.state == Open && b'.state == HalfOpen then 1 else 0;
            var a' := a + if e.Call? && Answer(cfg, b, e.now).Admitted? then 1 else 0;
            Probing(cfg, b', t0, e.now, k', a')
  {
    assert (k + 1) * cfg.timeout == k * cfg.timeout + cfg.timeout;
    assert k * cfg.Limit() == (k - 1) * cfg.Limit() + cfg.Limit();
  }

  // The breaker tripped at event i and is not closed at any point up to n.
  predicate Outage(cfg: Config, b0: Status, es: seq<Event>, i: nat, n: nat) {
    && i < n <= |es| && Ordered(es) && TripsAt(cfg, b0, es, i)
    && forall m :: i < m <= n ==> At(cfg, b0, es, m).state != Closed
  }

  lemma StretchStep(cfg: Config, b0: Status, es: seq<Event>, i: nat, n: nat)
    requires i < n <= |es|
    ensures var b, e := At(cfg, b0, es, n - 1), es[n - 1];
            var b' := At(cfg, b0, es, n);
            && b' == Apply(cfg, b, e)
            && EpisodesIn(cfg, b0, es, i, n) ==
               EpisodesIn(cfg, b0, es, i, n - 1) + (if b.state == Open && b'.state == HalfOpen then 1 else 0)
            && AdmittedIn(cfg, b0, es, i, n) ==
               AdmittedIn(cfg, b0, es, i, n - 1) + if e.Call? && Answer(cfg, b, e.now).Admitted? then 1 else 0
  {
  }

  lemma OutageShrinks(cfg: Config, b0: Status, es: seq<Event>, i: nat, n: nat)
    requires Outage(cfg, b0, es, i, n) && i < n - 1
    ensures Outage(cfg, b0, es, i, n - 1)
    ensures Apply(cfg, At(cfg, b0, es, n - 1), es[n - 1]).state != Closed && es[n - 2].now <= es[n - 1].now
  {
    assert At(cfg, b0, es, n).state != Closed && NotBefore(es, n - 1);
  }

  predicate ProbingUpTo(cfg: Config, b0: Status, es: seq<Event>, i: nat, n: nat)
    requires i < n <= |es|
  {
    Probing(cfg, At(cfg, b0, es, n), es[i].now, es[n - 1].now,
            EpisodesIn(cfg, b0, es, i + 1, n), AdmittedIn(cfg, b0, es, i + 1, n))
  }

  lemma ProbingLater(cfg: Config, b0: Status, es: seq<Event>, i: nat, n: nat)
    requires i + 1 < n <= |es| && ProbingUpTo(cfg, b0, es, i, n - 1) && es[n - 2].now <= es[n - 1].now
    requires Apply(cfg, At(cfg, b0, es, n - 1), es[n - 1]).state != Closed
    ensures ProbingUpTo(cfg, b0, es, i, n)
  {
    StretchStep(cfg, b0, es, i + 1, n);
    ProbingStep(cfg, At(cfg, b0, es, n - 1), es[n - 1], es[i].now, es[n - 2].now,
                EpisodesIn(cfg, b0, es, i + 1, n - 1), AdmittedIn(cfg, b0, es, i + 1, n - 1));
  }

  lemma {:induction false} OutageProbing(cfg: Config, b0: Status, es: seq<Event>, i: nat, n: nat)
    requires Outage(cfg, b0, es, i, n)
    ensures ProbingUpTo(cfg, b0, es, i, n)
    decreases n
  {
    if n == i + 1 {
      StepTimes(cfg, At(cfg, b0, es, i), es[i]);
    } else {
      OutageShrinks(cfg, b0, es, i, n);
      OutageProbing(cfg, b0, es, i, n - 1);
      ProbingLater(cfg, b0, es, i, n);
    }
  }

  // In the stretch from a trip to any later event with no return to closed, the calls let
  // through are at most Limit for each timeout that fits strictly inside the stretch.
  lemma {:induction false} ProbeRate(cfg: Config, b0: Status, es: seq<Event>, i: nat, n: nat)
    requires Outage(cfg, b0, es, i, n) && cfg.timeout > 0
    ensures var elapsed := es[n - 1].now - es[i].now;
            var a := AdmittedIn(cfg, b0, es, i + 1, n);
            && elapsed >= 0
            && (elapsed <= cfg.timeout ==> a == 0)
            && (elapsed > cfg.timeout ==> a <= cfg.Limit() * ((elapsed - 1) / cfg.timeout))
  {
    TimesGrow(es, i, n - 1);
    OutageProbing(cfg, b0, es, i, n);
    var k, a := EpisodesIn(cfg, b0, es, i + 1, n), AdmittedIn(cfg, b0, es, i + 1, n);
    EpisodeBound(cfg, At(cfg, b0, es, n), es[i].now, es[n - 1].now, k, a);
    Rate(k, a, cfg.Limit(), cfg.timeout, es[n - 1].now - es[i].now);
  }

  lemma Rate(k: nat, a: nat, limit: nat, timeout: int, elapsed: int)
    requires timeout > 0 && a <= k * limit && (k > 0 ==> k * timeout < elapsed)
    ensures elapsed <= timeout ==> a == 0
    ensures elapsed > timeout ==> a <= limit * ((elapsed - 1) / timeout)
  {
    if k > 0 {
      Fits(k, timeout, elapsed);
      Scale(k, (elapsed - 1) / timeout, limit);
    } else {
      assert k * limit == 0;
      if elapsed > timeout {
        Scale(0, (elapsed - 1) / timeout, limit);
      }
    }
  }

  lemma EpisodeBound(cfg: Config, b: Status, t0: int, clock: int, k: nat, a: nat)
    requires Probing(cfg, b, t0, clock, k, a)
    ensures a <= k * cfg.Limit() && (k > 0 ==> k * cfg.timeout < clock - t0)
  {
    assert k * cfg.Limit() == (k - 1) * cfg.Limit() + cfg.Limit();
  }

  lemma Fits(k: nat, unit: int, length: int)
    requires k > 0 && unit > 0 && k * unit < length
    ensures unit < length && k <= (length - 1) / unit
  {
    var q := (length - 1) / unit;
    Scale(1, k, unit);
    assert (q + 1) * unit == q * unit + unit;
    Cancel(k, q + 1, unit);
  }

  lemma Cancel(x: int, y: int, factor: int)
    requires factor > 0 && x * factor < factor * y
    ensures x < y
  {
    if x >= y {
      Scale(y, x, factor);
    }
  }

  lemma Scale(x: int, y: int, factor: nat)
    requires x <= y
    ensures x * factor <= factor * y
  {
  }
}
