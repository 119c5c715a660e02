/** The leaky failure count has a closed form: it is the worst recent run of results. */
module Leaky {
  import opened Breaker
  import opened Runs

  // Failures minus successes.
  function Net(results: seq<bool>): int {
    if results == [] then 0
    else Net(results[..|results| - 1]) + if results[|results| - 1] then -1 else 1
  }

  lemma NetAppend(results: seq<bool>, r: bool)
    ensures Net(results + [r]) == Net(results) + if r then -1 else 1
  {
    assert (results + [r])[..|results|] == results;
  }

  // m is the greatest Net of a suffix, the empty one included.
  ghost predicate IsWorstSuffix(results: seq<bool>, m: int) {
    && (exists k :: 0 <= k <= |results| && Net(results[k..]) == m)
    && (forall k :: 0 <= k <= |results| ==> Net(results[k..]) <= m)
  }

  lemma WorstSuffixAppend(results: seq<bool>, m: int, r: bool)
    requires IsWorstSuffix(results, m)
    ensures m >= 0
    ensures IsWorstSuffix(results + [r], if !r then m + 1 else if m > 0 then m - 1 else 0)
  {
    var longer := results + [r];
    assert results[|results|..] == [] && longer[|longer|..] == [];
    var best :| 0 <= best <= |results| && Net(results[best..]) == m;
    forall k | 0 <= k <= |results|
      ensures Net(longer[k..]) == Net(results[k..]) + if r then -1 else 1
    {
      assert longer[k..] == results[k..] + [r];
      NetAppend(results[k..], r);
    }
    var m' := if !r then m + 1 else if m > 0 then m - 1 else 0;
    assert Net(longer[if m' == 0 then |longer| else best..]) == m';
    forall k | 0 <= k <= |longer| ensures Net(longer[k..]) <= m' {
      if k == |longer| {
        assert longer[k..] == [];
      }
    }
  }

  lemma {:induction false} NetBound(results: seq<bool>)
    ensures Net(results) <= |results|
  {
    if results == [] {
    } else {
      NetBound(results[..|results| - 1]);
    }
  }

  lemma WorstIsBounded(results: seq<bool>, m: int)
    requires IsWorstSuffix(results, m)
    ensures m <= |results|
  {
    var k :| 0 <= k <= |results| && Net(results[k..]) == m;
    NetBound(results[k..]);
  }

  // A 32-bit failure counter can only wrap in an episode of 2^32 completions or more.
  predicate Countable(w: Width, results: seq<bool>) {
    w.Exact? || |results| < WORD
  }

  ghost predicate WorstWhileClosed(w: Width, b: Status, results: seq<bool>) {
    b.state == Closed && Countable(w, results) ==> IsWorstSuffix(results, b.counts.failures)
  }

  lemma WorstStep(cfg: Config, b: Status, results: seq<bool>, e: Event)
    requires WorstWhileClosed(cfg.width, b, results)
    ensures WorstWhileClosed(cfg.width, Apply(cfg, b, e), Recorded(cfg, b, results, e))
  {
    if b.state == Closed && e.Done? && !Stale(b, e) && Countable(cfg.width, results + [e.success]) {
      WorstIsBounded(results, b.counts.failures);
      WorstSuffixAppend(results, b.counts.failures, e.success);
    }
    EmptySuffix();
  }

  lemma EmptySuffix()
    ensures IsWorstSuffix([], 0)
  {
    var none: seq<bool> := [];
    assert Net(none[0..]) == 0;
  }

  // In every reachable closed state the failure count is the maximum, over all suffixes of the
  // completions recorded since the breaker last closed, of failures minus successes.
  lemma {:induction false} FailuresAreWorstSuffix(cfg: Config, es: seq<Event>, n: nat)
    requires n <= |es| && At(cfg, INITIAL, es, n).state == Closed
    requires Countable(cfg.width, Results(cfg, INITIAL, es, n))
    ensures IsWorstSuffix(Results(cfg, INITIAL, es, n), At(cfg, INITIAL, es, n).counts.failures)
  {
    AlwaysWorst(cfg, es, n);
  }

  lemma {:induction false} AlwaysWorst(cfg: Config, es: seq<Event>, n: nat)
    requires n <= |es|
    ensures WorstWhileClosed(cfg.width, At(cfg, INITIAL, es, n), Results(cfg, INITIAL, es, n))
  {
    if n == 0 {
      EmptySuffix();
    } else {
      AlwaysWorst(cfg, es, n - 1);
      WorstStep(cfg, At(cfg, INITIAL, es, n - 1), Results(cfg, INITIAL, es, n - 1), es[n - 1]);
    }
  }
}
