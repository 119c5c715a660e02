/** What the counters mean, in every state that any interleaving can reach. */
module Accounting {
  import opened Breaker
  import opened Runs

  // What a counter of the given width shows after counting to x.
  function Wrapped(w: Width, x: nat): nat {
    if w.Exact? then x else x % WORD
  }

  lemma IncWrapped(w: Width, x: nat)
    ensures Inc(w, Wrapped(w, x)) == Wrapped(w, x + 1)
  {
  }

  // Counting on in one of two addends shows in the sum.
  lemma IncAddend(w: Width, x: nat, y: nat)
    requires w.Exact? || x < WORD
    ensures Wrapped(w, Inc(w, x) + y) == Wrapped(w, x + 1 + y)
  {
    if w.Bits32? && x + 1 == WORD {
      assert (WORD + y) % WORD == y % WORD;
    }
  }

  // The counters against the calls that are really outstanding.
  predicate Balanced(cfg: Config, b: Status, inFlight: multiset<nat>) {
    && (forall t :: t in inFlight ==> t <= b.generation)
    && match b.state
       case Closed =>
         && b.counts.requests
            == Wrapped(cfg.width, b.counts.successes + b.counts.totalFailures + inFlight[b.generation])
         && (cfg.width.Exact? ==> b.counts.failures <= b.counts.totalFailures)
         && (cfg.width.Bits32? ==> b.counts.successes < WORD && b.counts.totalFailures < WORD)
       case HalfOpen =>
         && b.counts.requests == b.counts.successes + inFlight[b.generation]
         && 1 <= b.counts.requests <= cfg.Limit()
         && b.counts.successes < cfg.Limit()
         && b.counts.failures == b.counts.totalFailures == 0
       case Open =>
         && b.counts == ZERO
         && inFlight[b.generation] == 0
  }

  lemma BalancedCall(cfg: Config, b: Status, inFlight: multiset<nat>, now: int)
    requires Balanced(cfg, b, inFlight)
    ensures Answer(cfg, b, now).Refused? ==> Balanced(cfg, Before(cfg, b, now), inFlight)
    ensures var answer := Answer(cfg, b, now);
            answer.Admitted? ==> Balanced(cfg, Before(cfg, b, now), inFlight + multiset{answer.token})
  {
    match b.state
    case Closed => IncWrapped(cfg.width, b.counts.successes + b.counts.totalFailures + inFlight[b.generation]);
    case HalfOpen =>
    case Open => assert b.generation + 1 !in inFlight;
  }

  lemma BalancedDone(cfg: Config, b: Status, inFlight: multiset<nat>, token: nat, success: bool, now: int)
    requires Balanced(cfg, b, inFlight) && token in inFlight
    ensures Balanced(cfg, After(cfg, b, token, success, now), inFlight - multiset{token})
  {
    if token == b.generation {
      assert b.generation + 1 !in inFlight;
      match b.state
      case Closed => RecordClosed(cfg, b, inFlight, success, now);
      case HalfOpen =>
      case Open =>
    }
  }

  lemma RecordClosed(cfg: Config, b: Status, inFlight: multiset<nat>, success: bool, now: int)
    requires Balanced(cfg, b, inFlight) && b.generation in inFlight && b.state == Closed
    ensures Balanced(cfg, After(cfg, b, b.generation, success, now), inFlight - multiset{b.generation})
  {
    var c, rest := b.counts, inFlight[b.generation] - 1;
    assert b.generation + 1 !in inFlight;
    if success {
      IncAddend(cfg.width, c.successes, c.totalFailures + rest);
    } else {
      IncAddend(cfg.width, c.totalFailures, c.successes + rest);
    }
  }

  // The same two facts for a client that keeps the tokens of its calls: `back` is what the call
  // leaves it holding.
  lemma BalancedBegin(cfg: Config, b: Status, inFlight: multiset<nat>, back: multiset<nat>, now: int)
    requires Balanced(cfg, b, inFlight)
    requires back == if Answer(cfg, b, now).Admitted? then multiset{Answer(cfg, b, now).token} else multiset{}
    ensures Balanced(cfg, Before(cfg, b, now), inFlight - multiset{} + back)
  {
    BalancedCall(cfg, b, inFlight, now);
    assert inFlight - multiset{} + multiset{} == inFlight;
    assert inFlight - multiset{} + back == inFlight + back;
  }

  lemma BalancedEnd(cfg: Config, b: Status, inFlight: multiset<nat>, token: nat, success: bool, now: int)
    requires Balanced(cfg, b, inFlight) && multiset{token} <= inFlight
    ensures Balanced(cfg, After(cfg, b, token, success, now), inFlight - multiset{token} + multiset{})
  {
    assert token in multiset{token};
    BalancedDone(cfg, b, inFlight, token, success, now);
    assert inFlight - multiset{token} + multiset{} == inFlight - multiset{token};
  }

  lemma BalancedIdle(cfg: Config, b: Status, inFlight: multiset<nat>, kept: multiset<nat>)
    requires Balanced(cfg, b, inFlight) && kept <= inFlight
    ensures Balanced(cfg, b, inFlight - kept + kept)
  {
    assert inFlight - kept + kept == inFlight;
  }

  // The accounting invariant of every reachable state.
  lemma {:induction false} AlwaysBalanced(cfg: Config, es: seq<Event>, n: nat)
    requires n <= |es| && Legal(cfg, INITIAL, es, n)
    ensures Balanced(cfg, At(cfg, INITIAL, es, n), InFlight(cfg, INITIAL, es, n))
  {
    if n == 0 {
    } else {
      AlwaysBalanced(cfg, es, n - 1);
      BalancedStep(cfg, At(cfg, INITIAL, es, n - 1), InFlight(cfg, INITIAL, es, n - 1), es[n - 1]);
    }
  }

  lemma BalancedStep(cfg: Config, b: Status, inFlight: multiset<nat>, e: Event)
    requires Balanced(cfg, b, inFlight) && (e.Done? ==> e.token in inFlight)
    ensures Balanced(cfg, Apply(cfg, b, e), Outstanding(cfg, b, inFlight, e))
  {
    match e
    case Call(now) => BalancedCall(cfg, b, inFlight, now);
    case Done(token, success, now) => BalancedDone(cfg, b, inFlight, token, success, now);
  }

  // A half-open breaker turns a call away only while one of its own probes is still out.
  lemma {:induction false} RefusalMeansProbeOut(cfg: Config, es: seq<Event>, n: nat, now: int)
    requires n <= |es| && Legal(cfg, INITIAL, es, n)
    requires Answer(cfg, At(cfg, INITIAL, es, n), now) == Refused(TooManyRequests)
    ensures var b := At(cfg, INITIAL, es, n);
            b.state == HalfOpen && b.generation in InFlight(cfg, INITIAL, es, n)
  {
    AlwaysBalanced(cfg, es, n);
  }

  // A probe's completion ends the episode or brings it one success nearer its end.
  lemma {:induction false} ProbeMakesProgress(cfg: Config, es: seq<Event>, n: nat, success: bool, now: int)
    requires n <= |es| && Legal(cfg, INITIAL, es, n)
    requires At(cfg, INITIAL, es, n).state == HalfOpen
    ensures var b := At(cfg, INITIAL, es, n);
            var b' := After(cfg, b, b.generation, success, now);
            if !success then b'.state == Open
            else if b.counts.successes + 1 == cfg.Limit() then b'.state == Closed
            else && b'.state == HalfOpen && b'.generation == b.generation
                 && cfg.Limit() - b'.counts.successes == cfg.Limit() - b.counts.successes - 1
  {
    AlwaysBalanced(cfg, es, n);
  }

  // A half-open breaker closes exactly at its last outstanding probe, the limit of probes having
  // been admitted and all of them having succeeded.
  lemma {:induction false} ClosingIsUnanimous(cfg: Config, es: seq<Event>, n: nat)
    requires n < |es| && Legal(cfg, INITIAL, es, n + 1)
    requires At(cfg, INITIAL, es, n).state == HalfOpen
    ensures var b := At(cfg, INITIAL, es, n);
            At(cfg, INITIAL, es, n + 1).state == Closed <==>
              && es[n].Done? && es[n].success && es[n].token == b.generation
              && b.counts.requests == cfg.Limit()
              && b.counts.successes == cfg.Limit() - 1
              && b.generation !in InFlight(cfg, INITIAL, es, n + 1)
  {
    AlwaysBalanced(cfg, es, n);
    ClosingStep(cfg, At(cfg, INITIAL, es, n), InFlight(cfg, INITIAL, es, n), es[n]);
  }

  lemma ClosingStep(cfg: Config, b: Status, inFlight: multiset<nat>, e: Event)
    requires Balanced(cfg, b, inFlight) && b.state == HalfOpen && (e.Done? ==> e.token in inFlight)
    ensures Apply(cfg, b, e).state == Closed <==>
              && e.Done? && e.success && e.token == b.generation
              && b.counts.requests == cfg.Limit()
              && b.counts.successes == cfg.Limit() - 1
              && b.generation !in Outstanding(cfg, b, inFlight, e)
  {
  }

  // The results recorded since the last change, counted one way or the other.
  function Tally(results: seq<bool>, which: bool): nat {
    if results == [] then 0
    else Tally(results[..|results| - 1], which) + if results[|results| - 1] == which then 1 else 0
  }

  lemma TallyAppend(results: seq<bool>, r: bool, which: bool)
    ensures Tally(results + [r], which) == Tally(results, which) + if r == which then 1 else 0
  {
    assert (results + [r])[..|results|] == results;
  }

  predicate Tallied(w: Width, c: Counts, results: seq<bool>) {
    c.successes == Wrapped(w, Tally(results, true)) && c.totalFailures == Wrapped(w, Tally(results, false))
  }

  // What one event does to the two counters.
  predicate CountersMove(cfg: Config, b: Status, e: Event, c: Counts) {
    if Apply(cfg, b, e).state != b.state then c.successes == c.totalFailures == 0
    else if e.Done? && !Stale(b, e) && b.state != Open then
      && c.successes == (if e.success then Inc(cfg.width, b.counts.successes) else b.counts.successes)
      && c.totalFailures == (if e.success then b.counts.totalFailures else Inc(cfg.width, b.counts.totalFailures))
    else c.successes == b.counts.successes && c.totalFailures == b.counts.totalFailures
  }

  lemma CountersStep(cfg: Config, b: Status, e: Event)
    ensures CountersMove(cfg, b, e, Apply(cfg, b, e).counts)
  {
  }

  lemma TalliedStep(cfg: Config, b: Status, results: seq<bool>, e: Event, c: Counts)
    requires Tallied(cfg.width, b.counts, results) && CountersMove(cfg, b, e, c)
    ensures Tallied(cfg.width, c, Recorded(cfg, b, results, e))
  {
    if e.Done? {
      TallyAppend(results, e.success, true);
      TallyAppend(results, e.success, false);
      IncWrapped(cfg.width, Tally(results, e.success));
    }
  }

  // The counters are the tallies of the completions recorded since the last state change, up to
  // the width of the counters.
  lemma {:induction false} CountersAreTallies(cfg: Config, es: seq<Event>, n: nat)
    requires n <= |es|
    ensures Tallied(cfg.width, At(cfg, INITIAL, es, n).counts, Results(cfg, INITIAL, es, n))
  {
    if n == 0 {
    } else {
      CountersAreTallies(cfg, es, n - 1);
      var b := At(cfg, INITIAL, es, n - 1);
      CountersStep(cfg, b, es[n - 1]);
      TalliedStep(cfg, b, Results(cfg, INITIAL, es, n - 1), es[n - 1], At(cfg, INITIAL, es, n).counts);
    }
  }
}
