/** The two limiters on one key as registered in the gateway, the concurrency limiter in front:
    any number of requests, interleaved at every Redis command. */
module Gateway {
  import opened Counting
  import RateLimiter

  const MAX_CONCURRENT := 3
  const EXPIRATION := 15000

  // The concurrency limiter when its commands are not interleaved. An absent key reads zero and has
  // no expiry; `dropped` says that Redis has let the key expire since the last command.
  class ConcurrencyLimiter {
    var counter: int
    var expireAt: int

    constructor ()
      ensures counter == 0 && expireAt == 0
    {
      counter, expireAt := 0, 0;
    }

    function Found(dropped: bool): int
      reads this
    {
      if dropped then 0 else counter
    }

    // Only the increment that creates the key gives it an expiry.
    method Enter(now: int, dropped: bool) returns (admitted: bool)
      modifies this
      ensures admitted <==> old(Found(dropped)) < 3
      ensures counter == old(Found(dropped)) + if admitted then 1 else 0
      ensures expireAt == if old(Found(dropped)) == 0 then now + 15_000 else old(expireAt)
    {
      counter := Found(dropped) + 1;
      var active := counter;
      if active == 1 {
        expireAt := now + EXPIRATION;
      }
      if active > MAX_CONCURRENT {
        counter := counter - 1;
        return false;
      }
      return true;
    }

    // The response's finish handler.
    method Finish(dropped: bool)
      modifies this
      ensures counter == if old(Found(dropped)) > 1 then old(Found(dropped)) - 1 else 0
      ensures expireAt == if old(Found(dropped)) > 1 then old(expireAt) else 0
    {
      counter := Found(dropped) - 1;
      var remaining := counter;
      if remaining <= 0 {
        counter, expireAt := 0, 0;
      }
    }
  }

  // The next Redis command of a request.
  datatype Phase =
    | Rejected             // decr of a request that found too many others
    | Pruning(now: int)    // zremrangebyscore
    | Reading(now: int)    // zrange, and the decision
    | Adding(now: int)     // zadd
    | Touching(now: int)   // pexpire
    | Serving              // decr when the response has been sent
    | Deleting             // del after a decr that left nothing
    | Gone

  datatype Sys = Sys(counter: int, scores: seq<int>, phases: seq<Phase>)

  datatype Event =
    | Arrive(now: int)     // incr of a new request; the rate limiter reads the clock on admission
    | Advance(r: nat)      // request r's next command
    | CounterExpires
    | ScoresExpire

  const IDLE := Sys(0, [], [])

  // Advancing a request that does not exist or has no command left does nothing.
  function Step(s: Sys, e: Event): Sys {
    match e
    case Arrive(now) =>
      var active := s.counter + 1;
      s.(counter := active, phases := s.phases + [if active > MAX_CONCURRENT then Rejected else Pruning(now)])
    case CounterExpires => s.(counter := 0)
    case ScoresExpire => s.(scores := [])
    case Advance(r) =>
      if r >= |s.phases| then s else
      match s.phases[r]
      case Rejected => s.(counter := s.counter - 1, phases := s.phases[r := Gone])
      case Pruning(now) =>
        s.(scores := RateLimiter.RemoveRange(s.scores, 0, now - RateLimiter.WINDOW),
           phases := s.phases[r := Reading(now)])
      case Reading(now) =>
        var passes := RateLimiter.Decide(s.scores, now) == RateLimiter.Accepted;
        s.(phases := s.phases[r := if passes then Adding(now) else Serving])
      case Adding(now) => s.(scores := RateLimiter.Insert(s.scores, now), phases := s.phases[r := Touching(now)])
      case Touching(_) => s.(phases := s.phases[r := Serving])
      case Serving =>
        var remaining := s.counter - 1;
        s.(counter := remaining, phases := s.phases[r := if remaining <= 0 then Deleting else Gone])
      case Deleting => s.(counter := 0, phases := s.phases[r := Gone])
      case Gone => s
  }

  function At(es: seq<Event>, n: nat): Sys
    requires n <= |es|
  {
    if n == 0 then IDLE else Step(At(es, n - 1), es[n - 1])
  }

  // ----- the concurrency counter

  predicate Admitted(p: Phase) {
    p.Pruning? || p.Reading? || p.Adding? || p.Touching? || p.Serving?
  }

  // Has incremented the counter and not yet taken that back.
  predicate Holds(p: Phase) {
    Admitted(p) || p.Rejected?
  }

  predicate IsRejected(p: Phase) {
    p.Rejected?
  }

  predicate Exact(s: Sys) {
    s.counter == Count(Holds, s.phases)
  }

  // The command removes the counter's key.
  predicate Deletes(s: Sys, e: Event) {
    e.CounterExpires? || (e.Advance? && e.r < |s.phases| && s.phases[e.r].Deleting?)
  }

  // The move of one request, and the arrival of another, in any count over the phases.
  lemma AdvanceCounts(p: Phase -> bool, s: Sys, r: nat)
    requires r < |s.phases|
    ensures var s' := Step(s, Advance(r));
            && |s'.phases| == |s.phases|
            && Count(p, s'.phases) == Count(p, s.phases) - (if p(s.phases[r]) then 1 else 0)
                                      + if p(s'.phases[r]) then 1 else 0
  {
    var s' := Step(s, Advance(r));
    assert s'.phases == s.phases[r := s'.phases[r]];
    CountUpdate(p, s.phases, r, s'.phases[r]);
  }

  function Entrance(counter: int, now: int): Phase {
    if counter < MAX_CONCURRENT then Pruning(now) else Rejected
  }

  lemma ArriveCounts(p: Phase -> bool, s: Sys, now: int)
    ensures Count(p, Step(s, Arrive(now)).phases)
         == Count(p, s.phases) + if p(Entrance(s.counter, now)) then 1 else 0
  {
    CountAppend(p, s.phases, Entrance(s.counter, now));
  }

  // The counter and the holders move together, except when the key is removed.
  lemma HoldersFollow(s: Sys, e: Event)
    ensures var s' := Step(s, e);
            Count(Holds, s'.phases) - Count(Holds, s.phases)
            == if Deletes(s, e) then 0 else s'.counter - s.counter
    ensures Deletes(s, e) ==> Step(s, e).counter == 0
  {
    match e
    case Arrive(now) => ArriveCounts(Holds, s, now);
    case Advance(r) =>
      if r < |s.phases| {
        AdvanceCounts(Holds, s, r);
      }
    case _ =>
  }

  lemma StepExactness(s: Sys, e: Event)
    requires Exact(s)
    ensures Exact(Step(s, e)) <==> (Deletes(s, e) ==> s.counter == 0)
  {
    HoldersFollow(s, e);
  }

  // In each of the first n + 1 states.
  predicate AlwaysExact(es: seq<Event>, n: nat)
    requires n <= |es|
  {
    Exact(At(es, n)) && (n > 0 ==> AlwaysExact(es, n - 1))
  }

  // By each of the first n events.
  predicate CleanDeletes(es: seq<Event>, n: nat)
    requires n <= |es|
  {
    n > 0 ==>
      && CleanDeletes(es, n - 1)
      && (Deletes(At(es, n - 1), es[n - 1]) ==> At(es, n - 1).counter == 0)
  }

  lemma LastEvent(es: seq<Event>, n: nat)
    requires 0 < n <= |es|
    ensures At(es, n) == Step(At(es, n - 1), es[n - 1])
  {
  }

  // The counter counts the requests in progress all along a run if and only if its key is only
  // ever removed, by del or by expiry, while it reads zero.
  lemma {:induction false} CounterExactIff(es: seq<Event>, n: nat)
    requires n <= |es|
    ensures AlwaysExact(es, n) <==> CleanDeletes(es, n)
  {
    if n == 0 {
    } else {
      CounterExactIff(es, n - 1);
      LastEvent(es, n);
      if Exact(At(es, n - 1)) {
        StepExactness(At(es, n - 1), es[n - 1]);
      }
    }
  }

  // ----- at most three at once

  // The counter misses nobody. It may count too many: that only refuses more.
  predicate Covered(s: Sys) {
    Count(Holds, s.phases) <= s.counter
  }

  // A removal finds nobody between the limiter and the end of its response.
  predicate HarmlessDelete(s: Sys, e: Event) {
    Deletes(s, e) ==> Count(Holds, s.phases) == 0
  }

  lemma CoveredStep(s: Sys, e: Event)
    requires Covered(s)
    ensures Covered(Step(s, e)) <==> HarmlessDelete(s, e)
  {
    HoldersFollow(s, e);
  }

  predicate AlwaysCovered(es: seq<Event>, n: nat)
    requires n <= |es|
  {
    Covered(At(es, n)) && (n > 0 ==> AlwaysCovered(es, n - 1))
  }

  predicate HarmlessDeletes(es: seq<Event>, n: nat)
    requires n <= |es|
  {
    n > 0 ==> HarmlessDeletes(es, n - 1) && HarmlessDelete(At(es, n - 1), es[n - 1])
  }

  // The counter misses nobody all along a run if and only if every removal of its key finds nobody
  // in progress.
  lemma {:induction false} CoveredIff(es: seq<Event>, n: nat)
    requires n <= |es|
    ensures AlwaysCovered(es, n) <==> HarmlessDeletes(es, n)
  {
    if n == 0 {
    } else {
      CoveredIff(es, n - 1);
      LastEvent(es, n);
      if Covered(At(es, n - 1)) {
        CoveredStep(At(es, n - 1), es[n - 1]);
      }
    }
  }

  // A removal while an exact counter reads zero is one.
  lemma {:induction false} CleanIsHarmless(es: seq<Event>, n: nat)
    requires n <= |es| && CleanDeletes(es, n)
    ensures HarmlessDeletes(es, n)
  {
    if n == 0 {
    } else {
      CleanIsHarmless(es, n - 1);
      CounterExactIff(es, n - 1);
    }
  }

  predicate AtMostThree(s: Sys) {
    Count(Admitted, s.phases) <= MAX_CONCURRENT
  }

  lemma {:induction false} HoldersSplit(phases: seq<Phase>)
    ensures Count(Holds, phases) == Count(Admitted, phases) + Count(IsRejected, phases)
  {
    if phases == [] {
    } else {
      HoldersSplit(phases[..|phases| - 1]);
    }
  }

  // Only an arrival that finds the counter below three adds to those past the limiter.
  lemma AdmittedStep(s: Sys, e: Event)
    ensures Count(Admitted, Step(s, e).phases)
         <= Count(Admitted, s.phases) + if e.Arrive? && s.counter < MAX_CONCURRENT then 1 else 0
  {
    match e
    case Arrive(now) => ArriveCounts(Admitted, s, now);
    case Advance(r) =>
      if r < |s.phases| {
        AdvanceCounts(Admitted, s, r);
      }
    case _ =>
  }

  lemma AtMostThreeStep(s: Sys, e: Event)
    requires Covered(s) && AtMostThree(s)
    ensures AtMostThree(Step(s, e))
  {
    HoldersSplit(s.phases);
    AdmittedStep(s, e);
  }

  // As long as no removal catches a request in progress, at most three requests are ever past the
  // concurrency limiter.
  lemma {:induction false} ConcurrencyBound(es: seq<Event>, n: nat)
    requires n <= |es| && HarmlessDeletes(es, n)
    ensures Covered(At(es, n)) && AtMostThree(At(es, n))
  {
    if n == 0 {
    } else {
      ConcurrencyBound(es, n - 1);
      LastEvent(es, n);
      CoveredStep(At(es, n - 1), es[n - 1]);
      AtMostThreeStep(At(es, n - 1), es[n - 1]);
    }
  }

  // ----- the exact condition for three

  function From(s: Sys, es: seq<Event>): Sys
    decreases |es|
  {
    if es == [] then s else From(Step(s, es[0]), es[1..])
  }

  predicate HarmlessFrom(s: Sys, es: seq<Event>)
    decreases |es|
  {
    es == [] || (HarmlessDelete(s, es[0]) && HarmlessFrom(Step(s, es[0]), es[1..]))
  }

  lemma {:induction false} StaysAtThree(s: Sys, es: seq<Event>)
    requires Covered(s) && AtMostThree(s) && HarmlessFrom(s, es)
    ensures AtMostThree(From(s, es))
    decreases |es|
  {
    if es == [] {
    } else {
      CoveredStep(s, es[0]);
      AtMostThreeStep(s, es[0]);
      StaysAtThree(Step(s, es[0]), es[1..]);
    }
  }

  lemma {:induction false} FindRejected(phases: seq<Phase>) returns (r: nat)
    requires Count(IsRejected, phases) > 0
    ensures r < |phases| && phases[r].Rejected?
  {
    var n := |phases| - 1;
    if phases[n].Rejected? {
      r := n;
    } else {
      r := FindRejected(phases[..n]);
    }
  }

  // Four minus those already past the limiter.
  function Missing(s: Sys): nat {
    if AtMostThree(s) then MAX_CONCURRENT + 1 - Count(Admitted, s.phases) else 0
  }

  lemma RejectedLeaves(s: Sys, r: nat)
    requires r < |s.phases| && s.phases[r].Rejected?
    ensures var s' := Step(s, Advance(r));
            && s'.counter == s.counter - 1
            && Count(Holds, s'.phases) == Count(Holds, s.phases) - 1
            && Count(IsRejected, s'.phases) == Count(IsRejected, s.phases) - 1
  {
    AdvanceCounts(Holds, s, r);
    AdvanceCounts(IsRejected, s, r);
  }

  lemma NextIsAdmitted(s: Sys, now: int)
    requires s.counter < MAX_CONCURRENT
    ensures var s' := Step(s, Arrive(now));
            && s'.counter == s.counter + 1
            && Count(Holds, s'.phases) == Count(Holds, s.phases) + 1
            && Count(Admitted, s'.phases) == Count(Admitted, s.phases) + 1
            && Count(IsRejected, s'.phases) == Count(IsRejected, s.phases)
  {
    ArriveCounts(Holds, s, now);
    ArriveCounts(Admitted, s, now);
    ArriveCounts(IsRejected, s, now);
  }

  // A counter that misses somebody lets a fourth in without any further removal: the rejected take
  // their increments back, and then new requests arrive.
  lemma {:induction false} Overshoot(s: Sys) returns (es: seq<Event>)
    requires !Covered(s)
    ensures HarmlessFrom(s, es) && !AtMostThree(From(s, es))
    decreases Count(IsRejected, s.phases), Missing(s)
  {
    HoldersSplit(s.phases);
    if !AtMostThree(s) {
      es := [];
    } else {
      var e := Arrive(0);
      if Count(IsRejected, s.phases) > 0 {
        var r := FindRejected(s.phases);
        e := Advance(r);
        RejectedLeaves(s, r);
      } else {
        NextIsAdmitted(s, 0);
      }
      var rest := Overshoot(Step(s, e));
      es := [e] + rest;
      assert es[1..] == rest;
    }
  }

  // With at most three past the limiter, they stay at most three whatever happens without a
  // harmful removal, if and only if the counter misses nobody.
  lemma {:induction false} BoundIsSafeIff(s: Sys)
    requires AtMostThree(s)
    ensures Covered(s) <==> forall es :: HarmlessFrom(s, es) ==> AtMostThree(From(s, es))
  {
    if Covered(s) {
      forall es | HarmlessFrom(s, es) ensures AtMostThree(From(s, es)) {
        StaysAtThree(s, es);
      }
    } else {
      var es := Overshoot(s);
    }
  }

  // ----- the overshoot of the check-then-add

  predicate IsAdding(p: Phase) {
    p.Adding?
  }

  function Pending(s: Sys): nat {
    |s.scores| + Count(IsAdding, s.phases)
  }

  lemma {:induction false} RemoveRangeShrinks(scores: seq<int>, lo: int, hi: int)
    ensures |RateLimiter.RemoveRange(scores, lo, hi)| <= |scores|
  {
    if scores == [] {
    } else {
      RemoveRangeShrinks(scores[..|scores| - 1], lo, hi);
    }
  }

  lemma {:induction false} InsertGrows(scores: seq<int>, t: int)
    ensures |RateLimiter.Insert(scores, t)| == |scores| + 1
  {
    if scores == [] {
    } else {
      InsertGrows(scores[..|scores| - 1], t);
    }
  }

  // The command is a zadd.
  predicate IsAdd(s: Sys, e: Event) {
    e.Advance? && e.r < |s.phases| && s.phases[e.r].Adding?
  }

  // The command is a zrange whose request goes on to add itself.
  predicate Passes(s: Sys, e: Event) {
    && e.Advance? && e.r < |s.phases| && s.phases[e.r].Reading?
    && RateLimiter.Decide(s.scores, s.phases[e.r].now) == RateLimiter.Accepted
  }

  lemma AddingStep(s: Sys, e: Event)
    ensures Count(IsAdding, Step(s, e).phases)
         == Count(IsAdding, s.phases) - (if IsAdd(s, e) then 1 else 0) + if Passes(s, e) then 1 else 0
  {
    match e
    case Arrive(now) => ArriveCounts(IsAdding, s, now);
    case Advance(r) =>
      if r < |s.phases| {
        AdvanceCounts(IsAdding, s, r);
      }
    case _ =>
  }

  lemma ScoresStep(s: Sys, e: Event)
    ensures |Step(s, e).scores| <= |s.scores| + if IsAdd(s, e) then 1 else 0
    ensures Passes(s, e) ==> |Step(s, e).scores| == |s.scores| < RateLimiter.MAX_REQUESTS
  {
    if e.Advance? && e.r < |s.phases| {
      match s.phases[e.r]
      case Pruning(now) => RemoveRangeShrinks(s.scores, 0, now - RateLimiter.WINDOW);
      case Adding(now) => InsertGrows(s.scores, now);
      case _ =>
    }
  }

  lemma OvershootStep(s: Sys, e: Event, k: nat)
    requires Pending(s) <= RateLimiter.MAX_REQUESTS - 1 + k
    requires Count(IsAdding, Step(s, e).phases) <= k
    ensures Pending(Step(s, e)) <= RateLimiter.MAX_REQUESTS - 1 + k
  {
    AddingStep(s, e);
    ScoresStep(s, e);
  }

  predicate Narrow(es: seq<Event>, i: nat, k: nat)
    requires i <= |es|
  {
    Count(IsAdding, At(es, i).phases) <= k
  }

  // In each of the first n + 1 states.
  predicate NarrowGap(es: seq<Event>, n: nat, k: nat)
    requires n <= |es|
  {
    forall i :: 0 <= i <= n ==> Narrow(es, i, k)
  }

  predicate WithinOvershoot(es: seq<Event>, n: nat, k: nat)
    requires n <= |es|
  {
    Pending(At(es, n)) <= RateLimiter.MAX_REQUESTS - 1 + k
  }

  lemma OvershootStart(es: seq<Event>, n: nat, k: nat)
    requires n == 0
    ensures WithinOvershoot(es, n, k)
  {
    assert At(es, n) == IDLE;
  }

  lemma OvershootNext(es: seq<Event>, n: nat, k: nat)
    requires 0 < n <= |es| && WithinOvershoot(es, n - 1, k) && Narrow(es, n, k)
    ensures WithinOvershoot(es, n, k)
  {
    LastEvent(es, n);
    OvershootStep(At(es, n - 1), es[n - 1], k);
  }

  // With at most k requests between passing the check and adding themselves, the set and those
  // requests together never exceed 4 + k.
  lemma {:induction false} OvershootBound(es: seq<Event>, n: nat, k: nat)
    requires n <= |es| && NarrowGap(es, n, k)
    ensures WithinOvershoot(es, n, k)
  {
    if n == 0 {
      OvershootStart(es, n, k);
    } else {
      OvershootBound(es, n - 1, k);
      OvershootNext(es, n, k);
    }
  }

  lemma {:induction false} AddingAreAdmitted(phases: seq<Phase>)
    ensures Count(IsAdding, phases) <= Count(Admitted, phases)
  {
    if phases == [] {
    } else {
      AddingAreAdmitted(phases[..|phases| - 1]);
    }
  }

  lemma {:induction false} HarmlessPrefix(es: seq<Event>, n: nat, i: nat)
    requires i <= n <= |es| && HarmlessDeletes(es, n)
    ensures HarmlessDeletes(es, i)
    decreases n
  {
    if i == n {
    } else {
      HarmlessPrefix(es, n - 1, i);
    }
  }

  lemma GapIsThree(es: seq<Event>, n: nat)
    requires n <= |es| && HarmlessDeletes(es, n)
    ensures NarrowGap(es, n, MAX_CONCURRENT)
  {
    forall i | 0 <= i <= n ensures Narrow(es, i, MAX_CONCURRENT) {
      HarmlessPrefix(es, n, i);
      ConcurrencyBound(es, i);
      AddingAreAdmitted(At(es, i).phases);
    }
  }

  // Behind the concurrency limiter the set never holds more than seven entries.
  lemma {:induction false} SevenAtMost(es: seq<Event>, n: nat)
    requires n <= |es| && HarmlessDeletes(es, n)
    ensures |At(es, n).scores| <= 7
  {
    GapIsThree(es, n);
    OvershootBound(es, n, MAX_CONCURRENT);
  }

  // ----- removals that nothing interleaves

  // No expiry, and no command between a decr that left nothing and its del.
  predicate Uncut(s: Sys, e: Event) {
    !e.CounterExpires? && forall r :: 0 <= r < |s.phases| && s.phases[r].Deleting? ==> e == Advance(r)
  }

  predicate AlwaysUncut(es: seq<Event>, n: nat)
    requires n <= |es|
  {
    n > 0 ==> AlwaysUncut(es, n - 1) && Uncut(At(es, n - 1), es[n - 1])
  }

  // Whoever is about to delete the key has found it used up.
  predicate UsedUp(s: Sys) {
    Exact(s) && forall r :: 0 <= r < |s.phases| && s.phases[r].Deleting? ==> s.counter == 0
  }

  // Who is about to delete the key after an uncut step has just taken the last count.
  lemma JustUsedUp(s: Sys, e: Event, r: nat)
    requires Uncut(s, e) && r < |Step(s, e).phases| && Step(s, e).phases[r].Deleting?
    ensures e == Advance(r) && Step(s, e).counter <= 0
  {
    assert r < |s.phases| && s.phases[r].Deleting? ==> e == Advance(r);
  }

  lemma ClearedAtZero(s: Sys, e: Event)
    requires UsedUp(s) && Uncut(s, e)
    ensures Deletes(s, e) ==> s.counter == 0
  {
  }

  lemma UsedUpStep(s: Sys, e: Event)
    requires UsedUp(s) && Uncut(s, e)
    ensures UsedUp(Step(s, e))
  {
    ClearedAtZero(s, e);
    StepExactness(s, e);
    forall r | 0 <= r < |Step(s, e).phases| && Step(s, e).phases[r].Deleting? ensures Step(s, e).counter == 0 {
      JustUsedUp(s, e, r);
    }
  }

  lemma {:induction false} UncutIsClean(es: seq<Event>, n: nat)
    requires n <= |es| && AlwaysUncut(es, n)
    ensures CleanDeletes(es, n) && UsedUp(At(es, n))
  {
    if n == 0 {
    } else {
      UncutIsClean(es, n - 1);
      LastEvent(es, n);
      ClearedAtZero(At(es, n - 1), es[n - 1]);
      UsedUpStep(At(es, n - 1), es[n - 1]);
    }
  }

  // The code's own removals are harmless as long as nothing comes between a finishing request's
  // decr and its del and the key does not expire: then at most three requests are past the limiter
  // and at most seven entries are in the set, in any interleaving of everything else.
  lemma {:induction false} UncutBounds(es: seq<Event>, n: nat)
    requires n <= |es| && AlwaysUncut(es, n)
    ensures Exact(At(es, n)) && AtMostThree(At(es, n)) && |At(es, n).scores| <= 7
  {
    UncutIsClean(es, n);
    CleanIsHarmless(es, n);
    ConcurrencyBound(es, n);
    SevenAtMost(es, n);
  }

  // ----- what an unclean delete costs

  lemma Reaches(es: seq<Event>, n: nat, s: Sys, s': Sys)
    requires n < |es| && At(es, n) == s && Step(s, es[n]) == s'
    ensures At(es, n + 1) == s'
  {
  }

  // The key expires under a request in progress: four requests end up in progress.
  lemma ExpiryBreaksTheBound()
    ensures var es := [Arrive(1), CounterExpires, Arrive(2), Arrive(3), Arrive(4)];
            Count(Admitted, At(es, 5).phases) == 4
  {
    var es := [Arrive(1), CounterExpires, Arrive(2), Arrive(3), Arrive(4)];
    var s3 := Sys(1, [], [Pruning(1), Pruning(2)]);
    var s4 := Sys(2, [], [Pruning(1), Pruning(2), Pruning(3)]);
    var s5 := Sys(3, [], [Pruning(1), Pruning(2), Pruning(3), Pruning(4)]);
    Reaches(es, 0, IDLE, Sys(1, [], [Pruning(1)]));
    Reaches(es, 1, Sys(1, [], [Pruning(1)]), Sys(0, [], [Pruning(1)]));
    Reaches(es, 2, Sys(0, [], [Pruning(1)]), s3);
    Reaches(es, 3, s3, s4);
    Reaches(es, 4, s4, s5);
    CountAppend(Admitted, [], Pruning(1));
    CountAppend(Admitted, [Pruning(1)], Pruning(2));
    CountAppend(Admitted, [Pruning(1), Pruning(2)], Pruning(3));
    CountAppend(Admitted, s4.phases, Pruning(4));
  }

  const RACE := [Arrive(1), Advance(0), Advance(0), Advance(0), Advance(0), Advance(0),
                 Arrive(2), Advance(0), Arrive(3), Arrive(4), Arrive(5)]

  // The first request runs alone up to its del.
  lemma RaceBegins(es: seq<Event>)
    requires |es| >= 6 && es[0] == Arrive(1) && forall i :: 1 <= i < 6 ==> es[i] == Advance(0)
    ensures At(es, 6) == Sys(0, [1], [Deleting])
  {
    Reaches(es, 0, IDLE, Sys(1, [], [Pruning(1)]));
    Reaches(es, 1, Sys(1, [], [Pruning(1)]), Sys(1, [], [Reading(1)]));
    Reaches(es, 2, Sys(1, [], [Reading(1)]), Sys(1, [], [Adding(1)]));
    Reaches(es, 3, Sys(1, [], [Adding(1)]), Sys(1, [1], [Touching(1)]));
    Reaches(es, 4, Sys(1, [1], [Touching(1)]), Sys(1, [1], [Serving]));
    Reaches(es, 5, Sys(1, [1], [Serving]), Sys(0, [1], [Deleting]));
  }

  lemma RaceEnds()
    ensures At(RACE, 11) == Sys(3, [1], [Gone, Pruning(2), Pruning(3), Pruning(4), Pruning(5)])
  {
    RaceBegins(RACE);
    var s9 := Sys(1, [1], [Gone, Pruning(2), Pruning(3)]);
    var s10 := Sys(2, [1], [Gone, Pruning(2), Pruning(3), Pruning(4)]);
    Reaches(RACE, 6, Sys(0, [1], [Deleting]), Sys(1, [1], [Deleting, Pruning(2)]));
    Reaches(RACE, 7, Sys(1, [1], [Deleting, Pruning(2)]), Sys(0, [1], [Gone, Pruning(2)]));
    Reaches(RACE, 8, Sys(0, [1], [Gone, Pruning(2)]), s9);
    Reaches(RACE, 9, s9, s10);
    Reaches(RACE, 10, s10, Sys(3, [1], [Gone, Pruning(2), Pruning(3), Pruning(4), Pruning(5)]));
  }

  // The del of a finishing request lands after the incr of the next one: again four.
  lemma LateDelBreaksTheBound()
    ensures Count(Admitted, At(RACE, 11).phases) == 4
  {
    RaceEnds();
    FourAdmitted(Gone, Pruning(2), Pruning(3), Pruning(4), Pruning(5));
  }

  lemma FourAdmitted(a: Phase, b: Phase, c: Phase, d: Phase, e: Phase)
    requires !Admitted(a) && Admitted(b) && Admitted(c) && Admitted(d) && Admitted(e)
    ensures Count(Admitted, [a, b, c, d, e]) == 4
  {
    var none: seq<Phase> := [];
    CountAppend(Admitted, none, a);
    CountAppend(Admitted, none + [a], b);
    CountAppend(Admitted, none + [a] + [b], c);
    CountAppend(Admitted, none + [a] + [b] + [c], d);
    CountAppend(Admitted, none + [a] + [b] + [c] + [d], e);
    assert [a, b, c, d, e] == none + [a] + [b] + [c] + [d] + [e];
  }

  // ----- the interleaved limiters and the serial ones agree

  // An arrival whose commands are not interleaved is admitted, and counts, as Enter says.
  lemma UninterruptedEnter(s: Sys, now: int)
    ensures var s1, r := Step(s, Arrive(now)), |s.phases|;
            if s.counter < MAX_CONCURRENT
            then s1 == Sys(s.counter + 1, s.scores, s.phases + [Pruning(now)])
            else Step(s1, Advance(r)) == Sys(s.counter, s.scores, s.phases + [Gone])
  {
    var phases := s.phases + [Rejected];
    assert phases[|s.phases| := Gone] == s.phases + [Gone];
  }

  // A finishing request whose commands are not interleaved leaves what Finish leaves.
  lemma UninterruptedFinish(s: Sys, r: nat)
    requires r < |s.phases| && s.phases[r].Serving?
    ensures Step(Step(s, Advance(r)), Advance(r)) ==
            Sys(if s.counter > 1 then s.counter - 1 else 0, s.scores, s.phases[r := Gone])
  {
    var s1 := Step(s, Advance(r));
    assert s1.phases[r := Gone] == s.phases[r := Gone];
  }

  // An admitted request left alone passes the rate limiter as a serial one does.
  lemma UninterruptedIsSerial(s: Sys, r: nat, now: int, expireAt: int)
    requires r < |s.phases| && s.phases[r] == Pruning(now)
    ensures var key := RateLimiter.Key(s.scores, expireAt);
            var s2 := Step(Step(s, Advance(r)), Advance(r));
            if RateLimiter.Decide(RateLimiter.Pruned(key, now), now) == RateLimiter.Accepted
            then Step(Step(s2, Advance(r)), Advance(r)) ==
                 Sys(s.counter, RateLimiter.Next(key, now).scores, s.phases[r := Serving])
            else s2 == Sys(s.counter, RateLimiter.Next(key, now).scores, s.phases[r := Serving])
  {
    var s1 := Step(s, Advance(r));
    var s2 := Step(s1, Advance(r));
    assert s2.phases == s.phases[r := s2.phases[r]];
    if s2.phases[r].Adding? {
      var s3 := Step(s2, Advance(r));
      assert s3.phases == s.phases[r := Touching(now)];
      assert Step(s3, Advance(r)).phases == s.phases[r := Serving];
    }
  }
}
