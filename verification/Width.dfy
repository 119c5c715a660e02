/** The 32-bit counters against unbounded ones. The other modules prove what the counters mean
    for unbounded counters; this one says exactly which runs those results cover. */
module Width {
  import opened Breaker
  import opened Runs
  import opened Accounting
  import opened TripRule

  function Narrow(cfg: Config): Config {
    cfg.(width := Bits32)
  }

  predicate Fits(c: Counts) {
    c.requests < WORD && c.totalFailures < WORD && c.failures < WORD && c.successes < WORD
  }

  lemma {:induction false} NarrowFits(cfg: Config, es: seq<Event>, n: nat)
    requires n <= |es| && cfg.width.Bits32?
    ensures Fits(At(cfg, INITIAL, es, n).counts)
  {
    if n == 0 {
    } else {
      NarrowFits(cfg, es, n - 1);
    }
  }

  lemma SameStep(cfg: Config, b: Status, inFlight: multiset<nat>, e: Event)
    requires cfg.width.Exact? && Balanced(cfg, b, inFlight)
    requires e.Done? ==> e.token in inFlight
    requires b.counts.requests < WORD && Apply(cfg, b, e).counts.requests < WORD
    ensures Apply(Narrow(cfg), b, e) == Apply(cfg, b, e)
  {
    if e.Done? && !Stale(b, e) {
      assert inFlight[b.generation] >= 1;
    }
  }

  lemma {:induction false} SameWhileSmall(cfg: Config, es: seq<Event>, n: nat)
    requires n <= |es| && cfg.width.Exact? && Legal(cfg, INITIAL, es, n)
    requires FewCalls(cfg, es)
    ensures At(Narrow(cfg), INITIAL, es, n) == At(cfg, INITIAL, es, n)
  {
    if n == 0 {
    } else {
      SameWhileSmall(cfg, es, n - 1);
      SameNext(cfg, es, n);
    }
  }

  lemma SameNext(cfg: Config, es: seq<Event>, n: nat)
    requires 0 < n <= |es| && cfg.width.Exact? && Legal(cfg, INITIAL, es, n) && FewCalls(cfg, es)
    ensures Apply(Narrow(cfg), At(cfg, INITIAL, es, n - 1), es[n - 1]) == At(cfg, INITIAL, es, n)
  {
    AlwaysBalanced(cfg, es, n - 1);
    assert At(cfg, INITIAL, es, n - 1).counts.requests < WORD;
    assert At(cfg, INITIAL, es, n).counts.requests < WORD;
    SameStep(cfg, At(cfg, INITIAL, es, n - 1), InFlight(cfg, INITIAL, es, n - 1), es[n - 1]);
  }

  predicate Agree(cfg: Config, es: seq<Event>) {
    forall n :: 0 <= n <= |es| ==> At(Narrow(cfg), INITIAL, es, n) == At(cfg, INITIAL, es, n)
  }

  predicate FewCalls(cfg: Config, es: seq<Event>) {
    forall n :: 0 <= n <= |es| ==> At(cfg, INITIAL, es, n).counts.requests < WORD
  }

  // The two breakers agree all along a run if and only if no episode of it admits 2^32 calls.
  lemma {:induction false} AgreeIffFewCalls(cfg: Config, es: seq<Event>)
    requires cfg.width.Exact? && Legal(cfg, INITIAL, es, |es|)
    ensures Agree(cfg, es) <==> FewCalls(cfg, es)
  {
    if Agree(cfg, es) {
      forall n | 0 <= n <= |es| ensures At(cfg, INITIAL, es, n).counts.requests < WORD {
        NarrowFits(Narrow(cfg), es, n);
        assert At(Narrow(cfg), INITIAL, es, n) == At(cfg, INITIAL, es, n);
      }
    }
    if FewCalls(cfg, es) {
      forall n | 0 <= n <= |es| ensures At(Narrow(cfg), INITIAL, es, n) == At(cfg, INITIAL, es, n) {
        LegalPrefix(cfg, es, n, |es|);
        SameWhileSmall(cfg, es, n);
      }
    }
  }

  lemma OutstandingIgnoresWidth(cfg: Config, b: Status, inFlight: multiset<nat>, e: Event)
    ensures Outstanding(Narrow(cfg), b, inFlight, e) == Outstanding(cfg, b, inFlight, e)
  {
    assert e.Call? ==> Answer(Narrow(cfg), b, e.now) == Answer(cfg, b, e.now);
  }

  // On such runs the goroutines hold the same tokens as well.
  lemma {:induction false} SameTokens(cfg: Config, es: seq<Event>, n: nat)
    requires n <= |es| && cfg.width.Exact? && Legal(cfg, INITIAL, es, n) && FewCalls(cfg, es)
    ensures InFlight(Narrow(cfg), INITIAL, es, n) == InFlight(cfg, INITIAL, es, n)
  {
    if n == 0 {
    } else {
      SameTokens(cfg, es, n - 1);
      SameWhileSmall(cfg, es, n - 1);
      OutstandingIgnoresWidth(cfg, At(cfg, INITIAL, es, n - 1), InFlight(cfg, INITIAL, es, n - 1), es[n - 1]);
      LastEvent(cfg, INITIAL, es, n);
      LastEvent(Narrow(cfg), INITIAL, es, n);
    }
  }

  // What the default rule guarantees therefore holds of the 32-bit breaker: the exact accounting
  // of a closed one, sound trips, and the single missed trip.
  lemma {:induction false} DefaultRuleAt32Bits(cfg: Config, es: seq<Event>, n: nat)
    requires ByDefaultRule(cfg) && n < |es| && Legal(cfg, INITIAL, es, |es|) && FewCalls(cfg, es)
    ensures var b := At(Narrow(cfg), INITIAL, es, n);
            b.state == Closed ==>
              && b.counts.requests ==
                 b.counts.successes + b.counts.totalFailures + InFlight(Narrow(cfg), INITIAL, es, n)[b.generation]
              && b.counts.failures <= b.counts.totalFailures
              && (DefaultRule(b.counts) <==> Missed(b.counts))
              && (TripsAt(Narrow(cfg), INITIAL, es, n) ==>
                    var seen := CountFailure(Narrow(cfg), b.counts);
                    Consults(b, es[n]) && seen.requests >= 3 && 5 * seen.totalFailures >= 3 * seen.requests)
  {
    LegalPrefix(cfg, es, n + 1, |es|);
    SameWhileSmall(cfg, es, n);
    SameTokens(cfg, es, n);
    SameWhileSmall(cfg, es, n + 1);
    AlwaysBalanced(cfg, es, n);
    OnlyMissedTrip(cfg, es, n);
    TripIsSound(cfg, es, n);
    if Consults(At(cfg, INITIAL, es, n), es[n]) {
      CountsFit(cfg, es, n);
    }
  }

  // The counters shown to the rule have not wrapped either.
  lemma {:induction false} CountsFit(cfg: Config, es: seq<Event>, n: nat)
    requires cfg.width.Exact? && n < |es| && Legal(cfg, INITIAL, es, n + 1) && FewCalls(cfg, es)
    requires Consults(At(cfg, INITIAL, es, n), es[n])
    ensures var c := At(cfg, INITIAL, es, n).counts;
            CountFailure(Narrow(cfg), c) == CountFailure(cfg, c)
  {
    AlwaysBalanced(cfg, es, n);
    assert At(cfg, INITIAL, es, n).counts.requests < WORD;
    assert es[n].token in InFlight(cfg, INITIAL, es, n);
  }

  lemma {:induction false} LegalPrefix(cfg: Config, es: seq<Event>, n: nat, m: nat)
    requires n <= m <= |es| && Legal(cfg, INITIAL, es, m)
    ensures Legal(cfg, INITIAL, es, n)
    decreases m
  {
    if n < m {
      LegalPrefix(cfg, es, n, m - 1);
    }
  }

  // A breaker that stays closed does reach the limit: nothing resets its counts.
  lemma {:induction false} CallsAddUp(cfg: Config, es: seq<Event>, n: nat)
    requires n <= |es| && cfg.width.Exact? && forall i :: 0 <= i < n ==> es[i].Call?
    ensures At(cfg, INITIAL, es, n) == Status(Closed, 0, Counts(n, 0, 0, 0), 0)
    ensures n < WORD ==> At(Narrow(cfg), INITIAL, es, n) == At(cfg, INITIAL, es, n)
    ensures n == WORD ==> At(Narrow(cfg), INITIAL, es, n) == INITIAL
  {
    if n == 0 {
    } else {
      CallsAddUp(cfg, es, n - 1);
    }
  }
}
