/** The payment pool can always go on: from whatever it has got into, with at least one worker, every
    message can still be settled, and charged unless something has gone wrong with it already. */
module Progress {
  import opened Breaker
  import opened Wrapper
  import opened Accounting
  import opened Counting
  import opened Payment

  function From(cfg: Config, s: Sys, es: seq<Event>): Sys
    decreases |es|
  {
    if es == [] then s else From(cfg, Step(cfg, s, es[0]), es[1..])
  }

  lemma {:induction false} FromAppend(cfg: Config, s: Sys, es: seq<Event>, more: seq<Event>)
    ensures From(cfg, s, es + more) == From(cfg, From(cfg, s, es), more)
    decreases |es|
  {
    if es == [] {
      assert es + more == more;
    } else {
      assert (es + more)[1..] == es[1..] + more;
      FromAppend(cfg, Step(cfg, s, es[0]), es[1..], more);
    }
  }

  lemma {:induction false} SoundFrom(cfg: Config, s: Sys, es: seq<Event>)
    requires Sound(cfg, s)
    ensures Sound(cfg, From(cfg, s, es))
    decreases |es|
  {
    if es == [] {
    } else {
      SoundStep(cfg, s, es[0]);
      SoundFrom(cfg, Step(cfg, s, es[0]), es[1..]);
    }
  }

  // An idle worker can take any queued message.
  lemma IdleTakes(cfg: Config, s: Sys, w: nat, m: Message)
    requires w < |s.workers| && s.workers[w].Idle? && About(s.ledger, m).queued > 0
    ensures var s' := Step(cfg, s, Take(w, m));
            && s'.workers == s.workers[w := Received(m)] && s'.b == s.b
            && About(s'.ledger, m).queued == About(s.ledger, m).queued - 1
  {
  }

  // ----- letting the workers finish

  // Moves of a worker that nothing goes wrong with.
  predicate Helpful(e: Event) {
    e.Begin? || e.End? || (e.Charge? && !e.done && e.stripe == Charged)
  }

  // The message has been published and not been dropped, and no charge of it has failed.
  predicate Promising(s: Sys, m: Message) {
    && m.wellFormed && About(s.ledger, m).published == 1 && About(s.ledger, m).dropped == 0
    && forall i :: 0 <= i < |s.workers| && s.workers[i].Returned? && s.workers[i].m == m ==> s.workers[i].ok
  }

  lemma HelpfulStep(cfg: Config, s: Sys, e: Event, m: Message)
    requires Helpful(e)
    ensures About(Step(cfg, s, e).ledger, m).published == About(s.ledger, m).published
    ensures Promising(s, m) ==> Promising(Step(cfg, s, e), m)
  {
    if Moves(s, e) {
      EntryAt(cfg, s, e, m);
    }
  }

  lemma {:induction false} HelpfulFrom(cfg: Config, s: Sys, es: seq<Event>, m: Message)
    requires forall e :: e in es ==> Helpful(e)
    ensures About(From(cfg, s, es).ledger, m).published == About(s.ledger, m).published
    ensures Promising(s, m) ==> Promising(From(cfg, s, es), m)
    decreases |es|
  {
    if es == [] {
    } else {
      HelpfulStep(cfg, s, es[0], m);
      HelpfulFrom(cfg, Step(cfg, s, es[0]), es[1..], m);
    }
  }

  lemma ThreeSteps(cfg: Config, s: Sys, a: Event, b: Event, c: Event)
    ensures From(cfg, s, [a]) == Step(cfg, s, a)
    ensures From(cfg, s, [a, b]) == Step(cfg, Step(cfg, s, a), b)
    ensures From(cfg, s, [a, b, c]) == Step(cfg, Step(cfg, Step(cfg, s, a), b), c)
  {
    assert [a][1..] == [] && [a, b][1..] == [b] && [a, b, c][1..] == [b, c] && [b, c][1..] == [c];
    assert From(cfg, Step(cfg, Step(cfg, s, a), b), [c]) == Step(cfg, Step(cfg, Step(cfg, s, a), b), c);
    assert From(cfg, Step(cfg, s, a), [b, c]) == From(cfg, Step(cfg, Step(cfg, s, a), b), [c]);
    assert From(cfg, Step(cfg, s, a), [b]) == Step(cfg, Step(cfg, s, a), b);
  }

  // Whatever a worker is at, it can come to its end.
  lemma Finish(cfg: Config, s: Sys, w: nat, now: int) returns (es: seq<Event>)
    requires w < |s.workers|
    ensures forall e :: e in es ==> Helpful(e)
    ensures From(cfg, s, es).workers == s.workers[w := Idle]
  {
    var begin, charge, end := Begin(w, now), Charge(w, false, Charged), End(w, now);
    match s.workers[w]
    case Idle =>
      es := [];
      assert s.workers[w := Idle] == s.workers;
    case Received(_) =>
      ThreeSteps(cfg, s, begin, charge, end);
      if Step(cfg, s, begin).workers[w].Idle? {
        es := [begin];
      } else {
        es := [begin, charge, end];
      }
    case Calling(_, _) =>
      ThreeSteps(cfg, s, charge, end, end);
      es := [charge, end];
    case Returned(_, _, _) =>
      ThreeSteps(cfg, s, end, end, end);
      es := [end];
  }

  predicate IdleFrom(s: Sys, k: nat) {
    forall i :: k <= i < |s.workers| ==> s.workers[i].Idle?
  }

  lemma {:induction false} FinishAll(cfg: Config, s: Sys, k: nat) returns (es: seq<Event>)
    requires k <= |s.workers| && IdleFrom(s, k)
    ensures forall e :: e in es ==> Helpful(e)
    ensures |From(cfg, s, es).workers| == |s.workers| && IdleFrom(From(cfg, s, es), 0)
    decreases k
  {
    if k == 0 {
      es := [];
    } else {
      var first := Finish(cfg, s, k - 1, 0);
      var rest := FinishAll(cfg, From(cfg, s, first), k - 1);
      FromAppend(cfg, s, first, rest);
      es := first + rest;
    }
  }

  // ----- the message itself

  lemma {:induction false} NobodyHolds(workers: seq<Worker>)
    requires forall i :: 0 <= i < |workers| ==> workers[i].Idle?
    ensures Bag(Held, workers) == multiset{} && Bag(Token, workers) == multiset{}
  {
    if workers == [] {
    } else {
      NobodyHolds(workers[..|workers| - 1]);
    }
  }

  // With no call outstanding, a breaker past its expiry admits.
  lemma FreeBreakerAdmits(cfg: Config, b: Status, now: int)
    requires Balanced(cfg, b, multiset{}) && now > b.expiry
    ensures Answer(cfg, b, now).Admitted?
  {
  }

  // With all workers idle, a queued message can be taken and settled: charged, if it is well formed.
  lemma SettleQueued(cfg: Config, s: Sys, m: Message) returns (es: seq<Event>)
    requires Sound(cfg, s) && |s.workers| > 0 && IdleFrom(s, 0) && About(s.ledger, m).queued > 0
    ensures var t := About(From(cfg, s, es).ledger, m);
            if m.wellFormed then t.acked > 0 else t.dropped > 0
  {
    var d := Delivery(m, false, Charged, s.b.expiry + 1, s.b.expiry + 1);
    var s1 := Step(cfg, s, Take(0, m));
    IdleTakes(cfg, s, 0, m);
    NobodyHolds(s.workers);
    FreeBreakerAdmits(cfg, s.b, d.start);
    UninterruptedIsProcessed(cfg, s1, 0, d);
    ThreeSteps(cfg, s1, Begin(0, d.start), Charge(0, false, Charged), End(0, d.finish));
    es := [Take(0, m)] + [Begin(0, d.start), Charge(0, false, Charged), End(0, d.finish)];
    assert es[1..] == [Begin(0, d.start), Charge(0, false, Charged), End(0, d.finish)];
  }

  // From every reachable state of a pool with a worker, every published message can still be settled;
  // and as long as it has not been dropped and no charge of it has failed, it can be acknowledged.
  lemma {:induction false} NothingIsStuck(cfg: Config, workers: nat, es: seq<Event>, n: nat, m: Message)
    returns (more: seq<Event>)
    requires n <= |es| && workers > 0 && About(At(cfg, workers, es, n).ledger, m).published > 0
    ensures var s := At(cfg, workers, es, n);
            var t := About(From(cfg, s, more).ledger, m);
            && t.acked + t.dropped == 1
            && (Promising(s, m) ==> t.acked == 1)
  {
    PoolIsSound(cfg, workers, es, n);
    PoolSize(cfg, workers, es, n);
    var s := At(cfg, workers, es, n);
    var ending := FinishAll(cfg, s, workers);
    var s1 := From(cfg, s, ending);
    HelpfulFrom(cfg, s, ending, m);
    SoundFrom(cfg, s, ending);
    NobodyHolds(s1.workers);
    assert ConservedFor(s1, m);
    if About(s1.ledger, m).queued == 0 {
      more := ending;
    } else {
      var last := SettleQueued(cfg, s1, m);
      more := ending + last;
      FromAppend(cfg, s, ending, last);
      SoundFrom(cfg, s1, last);
      assert ConservedFor(From(cfg, s, more), m);
    }
  }

  lemma {:induction false} PoolSize(cfg: Config, workers: nat, es: seq<Event>, n: nat)
    requires n <= |es|
    ensures |At(cfg, workers, es, n).workers| == workers
  {
    if n == 0 {
    } else {
      PoolSize(cfg, workers, es, n - 1);
      LastEvent(cfg, workers, es, n);
    }
  }
}
