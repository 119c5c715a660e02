/** Runs of one breaker shared by any number of goroutines: every interleaving of the two
    critical sections, with what the goroutines hold and what an observer has seen. */
module Runs {
  import opened Breaker

  // `Call` is a beforeRequest; `Done` is the afterRequest of a goroutine holding `token`.
  datatype Event =
    | Call(now: int)
    | Done(token: nat, success: bool, now: int)

  datatype Change = Change(from: State, to: State, at: int)

  function Apply(cfg: Config, b: Status, e: Event): Status {
    match e
    case Call(now) => Before(cfg, b, now)
    case Done(token, success, now) => After(cfg, b, token, success, now)
  }

  predicate Stale(b: Status, e: Event) {
    e.Done? && e.token != b.generation
  }

  // The breaker after the first n events of es, started from b0.
  function At(cfg: Config, b0: Status, es: seq<Event>, n: nat): Status
    requires n <= |es|
  {
    if n == 0 then b0 else Apply(cfg, At(cfg, b0, es, n - 1), es[n - 1])
  }

  // ----- the goroutines: the tokens of admitted calls that have not completed

  function Outstanding(cfg: Config, b: Status, inFlight: multiset<nat>, e: Event): multiset<nat> {
    match e
    case Call(now) =>
      var answer := Answer(cfg, b, now);
      if answer.Admitted? then inFlight + multiset{answer.token} else inFlight
    case Done(token, _, _) => inFlight - multiset{token}
  }

  function InFlight(cfg: Config, b0: Status, es: seq<Event>, n: nat): multiset<nat>
    requires n <= |es|
  {
    if n == 0 then multiset{}
    else Outstanding(cfg, At(cfg, b0, es, n - 1), InFlight(cfg, b0, es, n - 1), es[n - 1])
  }

  // Only goroutines that were admitted complete, each once.
  predicate Legal(cfg: Config, b0: Status, es: seq<Event>, n: nat)
    requires n <= |es|
  {
    n > 0 ==>
      && Legal(cfg, b0, es, n - 1)
      && (es[n - 1].Done? ==> es[n - 1].token in InFlight(cfg, b0, es, n - 1))
  }

  // The clock never goes back; both sections read it while holding the mutex.
  predicate Ordered(es: seq<Event>) {
    forall i :: 0 < i < |es| ==> NotBefore(es, i)
  }

  predicate NotBefore(es: seq<Event>, i: nat)
    requires 0 < i < |es|
  {
    es[i - 1].now <= es[i].now
  }

  lemma {:induction false} TimesGrow(es: seq<Event>, i: nat, j: nat)
    requires Ordered(es) && i <= j < |es|
    ensures es[i].now <= es[j].now
    decreases j
  {
    if i == j {
    } else {
      TimesGrow(es, i, j - 1);
      assert NotBefore(es, j);
    }
  }

  // ----- what an observer sees

  function Logged(cfg: Config, b: Status, e: Event): seq<Change> {
    var b' := Apply(cfg, b, e);
    if b'.state != b.state then [Change(b.state, b'.state, e.now)] else []
  }

  // Every state change, oldest first.
  function Log(cfg: Config, b0: Status, es: seq<Event>, n: nat): seq<Change>
    requires n <= |es|
  {
    if n == 0 then [] else Log(cfg, b0, es, n - 1) + Logged(cfg, At(cfg, b0, es, n - 1), es[n - 1])
  }

  function Answered(cfg: Config, b: Status, e: Event): seq<Admission> {
    if e.Call? then [Answer(cfg, b, e.now)] else []
  }

  // Every beforeRequest's answer, oldest first.
  function Answers(cfg: Config, b0: Status, es: seq<Event>, n: nat): seq<Admission>
    requires n <= |es|
  {
    if n == 0 then []
    else Answers(cfg, b0, es, n - 1) + Answered(cfg, At(cfg, b0, es, n - 1), es[n - 1])
  }

  // The completions recorded since the last state change.
  function Recorded(cfg: Config, b: Status, results: seq<bool>, e: Event): seq<bool> {
    if Apply(cfg, b, e).state != b.state then []
    else if e.Done? && !Stale(b, e) && b.state != Open then results + [e.success]
    else results
  }

  function Results(cfg: Config, b0: Status, es: seq<Event>, n: nat): seq<bool>
    requires n <= |es|
  {
    if n == 0 then []
    else Recorded(cfg, At(cfg, b0, es, n - 1), Results(cfg, b0, es, n - 1), es[n - 1])
  }

  // Event i trips the breaker.
  predicate TripsAt(cfg: Config, b0: Status, es: seq<Event>, i: nat)
    requires i < |es|
  {
    At(cfg, b0, es, i).state != Open && At(cfg, b0, es, i + 1).state == Open
  }

  // ----- a run's past does not depend on its future

  lemma LastEvent(cfg: Config, b0: Status, es: seq<Event>, n: nat)
    requires 0 < n <= |es|
    ensures var b, e := At(cfg, b0, es, n - 1), es[n - 1];
            && At(cfg, b0, es, n) == Apply(cfg, b, e)
            && InFlight(cfg, b0, es, n) == Outstanding(cfg, b, InFlight(cfg, b0, es, n - 1), e)
            && Log(cfg, b0, es, n) == Log(cfg, b0, es, n - 1) + Logged(cfg, b, e)
            && Answers(cfg, b0, es, n) == Answers(cfg, b0, es, n - 1) + Answered(cfg, b, e)
  {
  }

  lemma {:induction false} AtIgnoresLater(cfg: Config, b0: Status, es: seq<Event>, more: seq<Event>, n: nat)
    requires n <= |es|
    ensures At(cfg, b0, es + more, n) == At(cfg, b0, es, n)
  {
    if n == 0 {
    } else {
      AtIgnoresLater(cfg, b0, es, more, n - 1);
      assert (es + more)[n - 1] == es[n - 1];
    }
  }

  lemma LastInFlight(cfg: Config, b0: Status, es: seq<Event>, n: nat)
    requires 0 < n <= |es|
    ensures InFlight(cfg, b0, es, n)
         == Outstanding(cfg, At(cfg, b0, es, n - 1), InFlight(cfg, b0, es, n - 1), es[n - 1])
  {
  }

  lemma SameInFlight(cfg: Config, b0: Status, es: seq<Event>, es': seq<Event>, n: nat)
    requires 0 < n <= |es| && n <= |es'| && es'[n - 1] == es[n - 1] && At(cfg, b0, es', n - 1) == At(cfg, b0, es, n - 1)
    requires InFlight(cfg, b0, es', n - 1) == InFlight(cfg, b0, es, n - 1)
    ensures InFlight(cfg, b0, es', n) == InFlight(cfg, b0, es, n)
  {
    LastInFlight(cfg, b0, es, n);
    LastInFlight(cfg, b0, es', n);
  }

  lemma {:induction false} InFlightIgnoresLater(cfg: Config, b0: Status, es: seq<Event>, more: seq<Event>, n: nat)
    requires n <= |es|
    ensures InFlight(cfg, b0, es + more, n) == InFlight(cfg, b0, es, n)
  {
    if n == 0 {
    } else {
      InFlightIgnoresLater(cfg, b0, es, more, n - 1);
      AtIgnoresLater(cfg, b0, es, more, n - 1);
      SameInFlight(cfg, b0, es, es + more, n);
    }
  }

  lemma LastLogged(cfg: Config, b0: Status, es: seq<Event>, n: nat)
    requires 0 < n <= |es|
    ensures Log(cfg, b0, es, n) == Log(cfg, b0, es, n - 1) + Logged(cfg, At(cfg, b0, es, n - 1), es[n - 1])
  {
  }

  lemma SameLog(cfg: Config, b0: Status, es: seq<Event>, es': seq<Event>, n: nat)
    requires 0 < n <= |es| && n <= |es'| && es'[n - 1] == es[n - 1] && At(cfg, b0, es', n - 1) == At(cfg, b0, es, n - 1)
    requires Log(cfg, b0, es', n - 1) == Log(cfg, b0, es, n - 1)
    ensures Log(cfg, b0, es', n) == Log(cfg, b0, es, n)
  {
    LastLogged(cfg, b0, es, n);
    LastLogged(cfg, b0, es', n);
  }

  lemma {:induction false} LogIgnoresLater(cfg: Config, b0: Status, es: seq<Event>, more: seq<Event>, n: nat)
    requires n <= |es|
    ensures Log(cfg, b0, es + more, n) == Log(cfg, b0, es, n)
  {
    if n == 0 {
    } else {
      LogIgnoresLater(cfg, b0, es, more, n - 1);
      AtIgnoresLater(cfg, b0, es, more, n - 1);
      SameLog(cfg, b0, es, es + more, n);
    }
  }

  lemma LastAnswered(cfg: Config, b0: Status, es: seq<Event>, n: nat)
    requires 0 < n <= |es|
    ensures Answers(cfg, b0, es, n)
         == Answers(cfg, b0, es, n - 1) + Answered(cfg, At(cfg, b0, es, n - 1), es[n - 1])
  {
  }

  lemma {:induction false} AnswersIgnoreLater(cfg: Config, b0: Status, es: seq<Event>, more: seq<Event>, n: nat)
    requires n <= |es|
    ensures Answers(cfg, b0, es + more, n) == Answers(cfg, b0, es, n)
  {
    if n == 0 {
    } else {
      AnswersIgnoreLater(cfg, b0, es, more, n - 1);
      AtIgnoresLater(cfg, b0, es, more, n - 1);
      LastAnswered(cfg, b0, es, n);
      LastAnswered(cfg, b0, es + more, n);
    }
  }

  lemma {:induction false} LegalIgnoresLater(cfg: Config, b0: Status, es: seq<Event>, more: seq<Event>, n: nat)
    requires n <= |es|
    ensures Legal(cfg, b0, es + more, n) == Legal(cfg, b0, es, n)
  {
    if n == 0 {
    } else {
      LegalIgnoresLater(cfg, b0, es, more, n - 1);
      InFlightIgnoresLater(cfg, b0, es, more, n - 1);
      assert (es + more)[n - 1] == es[n - 1];
    }
  }

  lemma OneMore(cfg: Config, b0: Status, es: seq<Event>, e: Event)
    ensures var b, more := At(cfg, b0, es, |es|), es + [e];
            && At(cfg, b0, more, |more|) == Apply(cfg, b, e)
            && InFlight(cfg, b0, more, |more|) == Outstanding(cfg, b, InFlight(cfg, b0, es, |es|), e)
            && Log(cfg, b0, more, |more|) == Log(cfg, b0, es, |es|) + Logged(cfg, b, e)
            && Answers(cfg, b0, more, |more|) == Answers(cfg, b0, es, |es|) + Answered(cfg, b, e)
  {
    LastEvent(cfg, b0, es + [e], |es| + 1);
    AtIgnoresLater(cfg, b0, es, [e], |es|);
    InFlightIgnoresLater(cfg, b0, es, [e], |es|);
    LogIgnoresLater(cfg, b0, es, [e], |es|);
    AnswersIgnoreLater(cfg, b0, es, [e], |es|);
  }
}
