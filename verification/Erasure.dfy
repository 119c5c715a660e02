/** Late results of an earlier episode leave no trace. */
module Erasure {
  import opened Breaker
  import opened Runs

  // The events among the first n that `keep` retains.
  function Kept(es: seq<Event>, keep: seq<bool>, n: nat): seq<Event>
    requires |keep| == |es| && n <= |es|
  {
    if n == 0 then []
    else Kept(es, keep, n - 1) + if keep[n - 1] then [es[n - 1]] else []
  }

  // Every event left out is a completion whose token was out of date when it happened.
  predicate DropsOnlyStale(cfg: Config, b0: Status, es: seq<Event>, keep: seq<bool>, n: nat)
    requires |keep| == |es| && n <= |es|
  {
    forall i :: 0 <= i < n && !keep[i] ==> Stale(At(cfg, b0, es, i), es[i])
  }

  // The shortened run and the first n events of the whole one end indistinguishably: the same
  // breaker, the same log of state changes, the same answers. Only goroutines whose completion
  // was left out are still waiting.
  predicate Erased(cfg: Config, b0: Status, es: seq<Event>, keep: seq<bool>, n: nat)
    requires |keep| == |es| && n <= |es|
  {
    var kept := Kept(es, keep, n);
    && At(cfg, b0, kept, |kept|) == At(cfg, b0, es, n)
    && Log(cfg, b0, kept, |kept|) == Log(cfg, b0, es, n)
    && Answers(cfg, b0, kept, |kept|) == Answers(cfg, b0, es, n)
    && InFlight(cfg, b0, es, n) <= InFlight(cfg, b0, kept, |kept|)
  }

  lemma StaleIsIgnored(cfg: Config, b: Status, inFlight: multiset<nat>, e: Event)
    requires Stale(b, e)
    ensures Apply(cfg, b, e) == b && Logged(cfg, b, e) == [] && Answered(cfg, b, e) == []
    ensures Outstanding(cfg, b, inFlight, e) <= inFlight
  {
  }

  // A stale completion takes its token back and does nothing else.
  lemma StaleLeavesNoTrace(cfg: Config, b0: Status, es: seq<Event>, n: nat)
    requires 0 < n <= |es| && Stale(At(cfg, b0, es, n - 1), es[n - 1])
    ensures At(cfg, b0, es, n) == At(cfg, b0, es, n - 1) && Log(cfg, b0, es, n) == Log(cfg, b0, es, n - 1)
    ensures Answers(cfg, b0, es, n) == Answers(cfg, b0, es, n - 1)
    ensures InFlight(cfg, b0, es, n) <= InFlight(cfg, b0, es, n - 1)
  {
    LastEvent(cfg, b0, es, n);
    StaleIsIgnored(cfg, At(cfg, b0, es, n - 1), InFlight(cfg, b0, es, n - 1), es[n - 1]);
    assert Log(cfg, b0, es, n - 1) + [] == Log(cfg, b0, es, n - 1);
    assert Answers(cfg, b0, es, n - 1) + [] == Answers(cfg, b0, es, n - 1);
  }

  lemma LastKept(es: seq<Event>, keep: seq<bool>, n: nat)
    requires |keep| == |es| && 0 < n <= |es|
    ensures Kept(es, keep, n) == if keep[n - 1] then Kept(es, keep, n - 1) + [es[n - 1]] else Kept(es, keep, n - 1)
  {
  }

  lemma OutstandingIsMonotone(cfg: Config, b: Status, fewer: multiset<nat>, more: multiset<nat>, e: Event)
    requires fewer <= more
    ensures Outstanding(cfg, b, fewer, e) <= Outstanding(cfg, b, more, e)
  {
  }

  lemma KeepingErases(cfg: Config, b0: Status, es: seq<Event>, keep: seq<bool>, n: nat)
    requires |keep| == |es| && 0 < n <= |es| && Erased(cfg, b0, es, keep, n - 1) && keep[n - 1]
    ensures Erased(cfg, b0, es, keep, n)
  {
    var before, e := Kept(es, keep, n - 1), es[n - 1];
    LastKept(es, keep, n);
    OneMore(cfg, b0, before, e);
    LastEvent(cfg, b0, es, n);
    OutstandingIsMonotone(cfg, At(cfg, b0, es, n - 1), InFlight(cfg, b0, es, n - 1),
                          InFlight(cfg, b0, before, |before|), e);
  }

  lemma DroppingErases(cfg: Config, b0: Status, es: seq<Event>, keep: seq<bool>, n: nat)
    requires |keep| == |es| && 0 < n <= |es| && Erased(cfg, b0, es, keep, n - 1)
    requires !keep[n - 1] && Stale(At(cfg, b0, es, n - 1), es[n - 1])
    ensures Erased(cfg, b0, es, keep, n)
  {
    LastKept(es, keep, n);
    StaleLeavesNoTrace(cfg, b0, es, n);
  }

  // Deleting any choice of stale completions from any run changes neither the final state, nor
  // the log of state changes, nor the answer to any call.
  lemma {:induction false} StaleCompletionsAreErasable(cfg: Config, b0: Status, es: seq<Event>, keep: seq<bool>, n: nat)
    requires |keep| == |es| && n <= |es| && DropsOnlyStale(cfg, b0, es, keep, n)
    ensures Erased(cfg, b0, es, keep, n)
  {
    if n == 0 {
    } else {
      StaleCompletionsAreErasable(cfg, b0, es, keep, n - 1);
      if keep[n - 1] {
        KeepingErases(cfg, b0, es, keep, n);
      } else {
        DroppingErases(cfg, b0, es, keep, n);
      }
    }
  }

  predicate KeptLegal(cfg: Config, b0: Status, es: seq<Event>, keep: seq<bool>, n: nat)
    requires |keep| == |es| && n <= |es|
  {
    var kept := Kept(es, keep, n);
    Legal(cfg, b0, kept, |kept|)
  }

  // A completion that is kept finds its token still out in the shortened run.
  lemma TokenIsKept(cfg: Config, b0: Status, es: seq<Event>, keep: seq<bool>, n: nat)
    requires |keep| == |es| && 0 < n <= |es| && Legal(cfg, b0, es, n) && Erased(cfg, b0, es, keep, n - 1)
    ensures var kept := Kept(es, keep, n - 1);
            es[n - 1].Done? ==> es[n - 1].token in InFlight(cfg, b0, kept, |kept|)
  {
  }

  lemma KeepingStaysLegal(cfg: Config, b0: Status, es: seq<Event>, keep: seq<bool>, n: nat)
    requires |keep| == |es| && 0 < n <= |es| && Legal(cfg, b0, es, n) && keep[n - 1]
    requires Erased(cfg, b0, es, keep, n - 1) && KeptLegal(cfg, b0, es, keep, n - 1)
    ensures KeptLegal(cfg, b0, es, keep, n)
  {
    LastKept(es, keep, n);
    TokenIsKept(cfg, b0, es, keep, n);
    LegalAppend(cfg, b0, Kept(es, keep, n - 1), es[n - 1]);
  }

  lemma DroppingStaysLegal(cfg: Config, b0: Status, es: seq<Event>, keep: seq<bool>, n: nat)
    requires |keep| == |es| && 0 < n <= |es| && !keep[n - 1] && KeptLegal(cfg, b0, es, keep, n - 1)
    ensures KeptLegal(cfg, b0, es, keep, n)
  {
    LastKept(es, keep, n);
  }

  // The shortened run is one the same goroutines could have produced.
  lemma {:induction false} ErasureStaysLegal(cfg: Config, b0: Status, es: seq<Event>, keep: seq<bool>, n: nat)
    requires |keep| == |es| && n <= |es| && DropsOnlyStale(cfg, b0, es, keep, n) && Legal(cfg, b0, es, n)
    ensures KeptLegal(cfg, b0, es, keep, n)
  {
    if n == 0 {
    } else {
      ErasureStaysLegal(cfg, b0, es, keep, n - 1);
      if keep[n - 1] {
        StaleCompletionsAreErasable(cfg, b0, es, keep, n - 1);
        KeepingStaysLegal(cfg, b0, es, keep, n);
      } else {
        DroppingStaysLegal(cfg, b0, es, keep, n);
      }
    }
  }

  lemma LegalAppend(cfg: Config, b0: Status, es: seq<Event>, e: Event)
    requires Legal(cfg, b0, es, |es|) && (e.Done? ==> e.token in InFlight(cfg, b0, es, |es|))
    ensures Legal(cfg, b0, es + [e], |es| + 1)
  {
    LegalIgnoresLater(cfg, b0, es, [e], |es|);
    InFlightIgnoresLater(cfg, b0, es, [e], |es|);
  }
}
