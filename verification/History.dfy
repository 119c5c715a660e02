/** The breaker without its counters: what it answers and when it changes state, told from what an
    observer has seen of the run so far. */
module History {
  import opened Breaker
  import opened Runs
  import opened Accounting
  import opened Leaky

  // The state changes so far, the calls let through since the last of them, and the completions
  // recorded since then.
  datatype Seen = Seen(log: seq<Change>, letThrough: nat, results: seq<bool>)

  function LetThroughNext(cfg: Config, b: Status, letThrough: nat, e: Event): nat {
    (if Logged(cfg, b, e) == [] then letThrough else 0)
    + if e.Call? && Answer(cfg, b, e.now).Admitted? then 1 else 0
  }

  function LetThrough(cfg: Config, es: seq<Event>, n: nat): nat
    requires n <= |es|
  {
    if n == 0 then 0 else LetThroughNext(cfg, At(cfg, INITIAL, es, n - 1), LetThrough(cfg, es, n - 1), es[n - 1])
  }

  function SeenAt(cfg: Config, es: seq<Event>, n: nat): Seen
    requires n <= |es|
  {
    Seen(Log(cfg, INITIAL, es, n), LetThrough(cfg, es, n), Results(cfg, INITIAL, es, n))
  }

  // ----- what follows from it

  function StateOf(log: seq<Change>): State {
    if log == [] then Closed else log[|log| - 1].to
  }

  // The number of state changes is the token. An open breaker waits for a timeout after its trip; a
  // half-open one lets a limited number of calls through, finished or not.
  function Verdict(cfg: Config, seen: Seen, now: int): Admission {
    match StateOf(seen.log)
    case Closed => Admitted(|seen.log|)
    case Open =>
      if seen.log != [] && now - seen.log[|seen.log| - 1].at > cfg.timeout then Admitted(|seen.log| + 1)
      else Refused(BreakerOpen)
    case HalfOpen =>
      if seen.letThrough < cfg.Limit() then Admitted(|seen.log|) else Refused(TooManyRequests)
  }

  // The greatest excess of failures over successes among the latest results, however many.
  function Worst(results: seq<bool>): (m: nat)
    ensures IsWorstSuffix(results, m)
  {
    if results == [] then
      EmptySuffix(); 0
    else
      WorstPrepend(results, Worst(results[1..]));
      if Net(results) > Worst(results[1..]) then Net(results) else Worst(results[1..])
  }

  lemma WorstPrepend(results: seq<bool>, m: nat)
    requires results != [] && IsWorstSuffix(results[1..], m)
    ensures IsWorstSuffix(results, if Net(results) > m then Net(results) else m)
  {
    var tail := results[1..];
    assert results[0..] == results;
    forall k | 0 <= k <= |tail| ensures tail[k..] == results[k + 1..] {
    }
    var best :| 0 <= best <= |tail| && Net(tail[best..]) == m;
    assert Net(results[best + 1..]) == m;
    forall k | 0 <= k <= |results| ensures Net(results[k..]) <= if Net(results) > m then Net(results) else m {
      if k > 0 {
        assert results[k..] == tail[k - 1..];
      }
    }
  }

  lemma WorstIsUnique(results: seq<bool>, m: int, m': int)
    requires IsWorstSuffix(results, m) && IsWorstSuffix(results, m')
    ensures m == m'
  {
  }

  // What a closed breaker shows readyToTrip as it records one more failure.
  function Shown(w: Width, seen: Seen): Counts {
    Counts(Wrapped(w, seen.letThrough), Wrapped(w, Tally(seen.results, false) + 1),
           Worst(seen.results) + 1, Wrapped(w, Tally(seen.results, true)))
  }

  // The state the event leads to. Only a result of the present episode can trip or close.
  function Destination(cfg: Config, seen: Seen, e: Event): State {
    var state := StateOf(seen.log);
    match e
    case Call(now) =>
      if state == Open && Verdict(cfg, seen, now).Admitted? then HalfOpen else state
    case Done(token, success, _) =>
      if token != |seen.log| then state
      else if !success && (state == HalfOpen || (state == Closed && cfg.readyToTrip(Shown(cfg.width, seen)))) then Open
      else if success && state == HalfOpen && Tally(seen.results, true) + 1 == cfg.Limit() then Closed
      else state
  }

  // ----- the breaker agrees

  predicate Agrees(cfg: Config, b: Status, seen: Seen) {
    && b.generation == |seen.log| && b.state == StateOf(seen.log)
    && match b.state
       case Closed =>
         && b.counts.requests == Wrapped(cfg.width, seen.letThrough)
       case Open =>
         && b.counts == ZERO && seen.letThrough == 0
         && seen.log != [] && b.expiry == seen.log[|seen.log| - 1].at + cfg.timeout
       case HalfOpen =>
         && b.counts.requests == seen.letThrough && 1 <= seen.letThrough <= cfg.Limit()
         && b.counts.successes == Tally(seen.results, true) < cfg.Limit()
  }

  function SeenNext(cfg: Config, b: Status, seen: Seen, e: Event): Seen {
    Seen(seen.log + Logged(cfg, b, e), LetThroughNext(cfg, b, seen.letThrough, e), Recorded(cfg, b, seen.results, e))
  }

  lemma CallAgrees(cfg: Config, b: Status, seen: Seen, now: int)
    requires Agrees(cfg, b, seen)
    ensures Agrees(cfg, Before(cfg, b, now), SeenNext(cfg, b, seen, Call(now)))
  {
    IncWrapped(cfg.width, seen.letThrough);
  }

  lemma DoneAgrees(cfg: Config, b: Status, seen: Seen, e: Event)
    requires Agrees(cfg, b, seen) && e.Done?
    ensures Agrees(cfg, Apply(cfg, b, e), SeenNext(cfg, b, seen, e))
  {
    if e.token == b.generation {
      match b.state
      case Closed => ClosedAgrees(cfg, b, seen, e);
      case HalfOpen => ProbeAgrees(cfg, b, seen, e);
      case Open =>
    }
  }

  lemma ClosedAgrees(cfg: Config, b: Status, seen: Seen, e: Event)
    requires Agrees(cfg, b, seen) && e.Done? && e.token == b.generation && b.state == Closed
    ensures Agrees(cfg, Apply(cfg, b, e), SeenNext(cfg, b, seen, e))
  {
  }

  lemma ProbeAgrees(cfg: Config, b: Status, seen: Seen, e: Event)
    requires Agrees(cfg, b, seen) && e.Done? && e.token == b.generation && b.state == HalfOpen
    ensures Agrees(cfg, Apply(cfg, b, e), SeenNext(cfg, b, seen, e))
  {
    if !e.success {
      ProbeFails(cfg, b, seen, e);
    } else if b.counts.successes + 1 < cfg.Limit() {
      ProbeSucceeds(cfg, b, seen, e);
    } else {
      LastProbeSucceeds(cfg, b, seen, e);
    }
  }

  lemma ProbeFails(cfg: Config, b: Status, seen: Seen, e: Event)
    requires Agrees(cfg, b, seen) && e.Done? && e.token == b.generation && b.state == HalfOpen && !e.success
    ensures Agrees(cfg, Apply(cfg, b, e), SeenNext(cfg, b, seen, e))
  {
    assert Apply(cfg, b, e) == Status(Open, b.generation + 1, ZERO, e.now + cfg.timeout);
    assert SeenNext(cfg, b, seen, e) == Seen(seen.log + [Change(HalfOpen, Open, e.now)], 0, []);
  }

  // A step that changes no state and lets nothing through adds at most its result.
  lemma QuietSeen(cfg: Config, b: Status, seen: Seen, e: Event)
    requires e.Done? && Apply(cfg, b, e).state == b.state
    ensures SeenNext(cfg, b, seen, e).log == seen.log && SeenNext(cfg, b, seen, e).letThrough == seen.letThrough
  {
    assert Logged(cfg, b, e) == [] && seen.log + [] == seen.log;
  }

  lemma ProbeSucceeds(cfg: Config, b: Status, seen: Seen, e: Event)
    requires Agrees(cfg, b, seen) && e.Done? && e.token == b.generation && b.state == HalfOpen && e.success
    requires b.counts.successes + 1 < cfg.Limit()
    ensures Agrees(cfg, Apply(cfg, b, e), SeenNext(cfg, b, seen, e))
  {
    QuietSeen(cfg, b, seen, e);
    TallyAppend(seen.results, e.success, true);
  }

  lemma LastProbeSucceeds(cfg: Config, b: Status, seen: Seen, e: Event)
    requires Agrees(cfg, b, seen) && e.Done? && e.token == b.generation && b.state == HalfOpen && e.success
    requires b.counts.successes + 1 >= cfg.Limit()
    ensures Agrees(cfg, Apply(cfg, b, e), SeenNext(cfg, b, seen, e))
  {
    assert Apply(cfg, b, e) == Status(Closed, b.generation + 1, ZERO, b.expiry);
    assert SeenNext(cfg, b, seen, e) == Seen(seen.log + [Change(HalfOpen, Closed, e.now)], 0, []);
  }

  lemma LastSeen(cfg: Config, es: seq<Event>, n: nat)
    requires 0 < n <= |es|
    ensures SeenAt(cfg, es, n) == SeenNext(cfg, At(cfg, INITIAL, es, n - 1), SeenAt(cfg, es, n - 1), es[n - 1])
    ensures At(cfg, INITIAL, es, n) == Apply(cfg, At(cfg, INITIAL, es, n - 1), es[n - 1])
  {
  }

  predicate AgreesAt(cfg: Config, es: seq<Event>, n: nat)
    requires n <= |es|
  {
    Agrees(cfg, At(cfg, INITIAL, es, n), SeenAt(cfg, es, n))
  }

  lemma AgreesNext(cfg: Config, es: seq<Event>, n: nat)
    requires 0 < n <= |es| && AgreesAt(cfg, es, n - 1)
    ensures AgreesAt(cfg, es, n)
  {
    var b, seen, e := At(cfg, INITIAL, es, n - 1), SeenAt(cfg, es, n - 1), es[n - 1];
    LastSeen(cfg, es, n);
    if e.Call? {
      CallAgrees(cfg, b, seen, e.now);
    } else {
      DoneAgrees(cfg, b, seen, e);
    }
  }

  lemma {:induction false} AlwaysAgrees(cfg: Config, es: seq<Event>, n: nat)
    requires n <= |es|
    ensures AgreesAt(cfg, es, n)
  {
    if n == 0 {
    } else {
      AlwaysAgrees(cfg, es, n - 1);
      AgreesNext(cfg, es, n);
    }
  }

  // After any run, a call is answered as what has been seen says. In particular a half-open breaker
  // admits a call if and only if fewer than its limit have been let through since it half opened.
  lemma {:induction false} AnswerFollows(cfg: Config, es: seq<Event>, n: nat, now: int)
    requires n <= |es|
    ensures Answer(cfg, At(cfg, INITIAL, es, n), now) == Verdict(cfg, SeenAt(cfg, es, n), now)
    ensures At(cfg, INITIAL, es, n).state == HalfOpen ==>
              (Answer(cfg, At(cfg, INITIAL, es, n), now).Admitted? <==> LetThrough(cfg, es, n) < cfg.Limit())
  {
    AlwaysAgrees(cfg, es, n);
  }

  lemma ShownIsCounted(cfg: Config, es: seq<Event>, n: nat)
    requires n <= |es| && At(cfg, INITIAL, es, n).state == Closed
    requires cfg.width.Exact? || |Results(cfg, INITIAL, es, n)| + 1 < WORD
    ensures CountFailure(cfg, At(cfg, INITIAL, es, n).counts) == Shown(cfg.width, SeenAt(cfg, es, n))
  {
    var results, counts := Results(cfg, INITIAL, es, n), At(cfg, INITIAL, es, n).counts;
    AlwaysAgrees(cfg, es, n);
    CountersAreTallies(cfg, es, n);
    IncWrapped(cfg.width, Tally(results, false));
    FailuresAreWorstSuffix(cfg, es, n);
    WorstIsUnique(results, counts.failures, Worst(results));
    WorstIsBounded(results, counts.failures);
  }

  lemma ArrivesThere(cfg: Config, b: Status, seen: Seen, e: Event)
    requires Agrees(cfg, b, seen)
    requires b.state == Closed && e.Done? ==> CountFailure(cfg, b.counts) == Shown(cfg.width, seen)
    ensures Apply(cfg, b, e).state == Destination(cfg, seen, e)
  {
  }

  // Every event leads to the state, and is logged as the change, that what has been seen says. The
  // 32-bit counters may have wrapped, short of 2^32 completions in one closed episode.
  lemma {:induction false} ChangeFollows(cfg: Config, es: seq<Event>, n: nat)
    requires n < |es| && (cfg.width.Exact? || |Results(cfg, INITIAL, es, n)| + 1 < WORD)
    ensures var seen := SeenAt(cfg, es, n);
            var to := Destination(cfg, seen, es[n]);
            && At(cfg, INITIAL, es, n + 1).state == to
            && Log(cfg, INITIAL, es, n + 1) == seen.log
                 + if to == StateOf(seen.log) then [] else [Change(StateOf(seen.log), to, es[n].now)]
  {
    AlwaysAgrees(cfg, es, n);
    if At(cfg, INITIAL, es, n).state == Closed {
      ShownIsCounted(cfg, es, n);
    }
    LastEvent(cfg, INITIAL, es, n + 1);
    ArrivesThere(cfg, At(cfg, INITIAL, es, n), SeenAt(cfg, es, n), es[n]);
  }

  // ----- the log

  // The only ways from one state to another.
  predicate Permitted(c: Change) {
    || (c.from == Closed && c.to == Open) || (c.from == Open && c.to == HalfOpen)
    || (c.from == HalfOpen && (c.to == Open || c.to == Closed))
  }

  predicate Chain(log: seq<Change>) {
    log == []
    || (var last, before := log[|log| - 1], log[..|log| - 1];
        Chain(before) && Permitted(last) && last.from == StateOf(before))
  }

  lemma ChainAppend(log: seq<Change>, c: Change)
    requires Chain(log) && Permitted(c) && c.from == StateOf(log)
    ensures Chain(log + [c])
  {
    assert (log + [c])[..|log|] == log;
  }

  lemma LoggedIsPermitted(cfg: Config, b: Status, e: Event)
    ensures Logged(cfg, b, e) == [] ==> Apply(cfg, b, e).state == b.state
    ensures Logged(cfg, b, e) != [] ==>
              var c := Change(b.state, Apply(cfg, b, e).state, e.now);
              Logged(cfg, b, e) == [c] && Permitted(c)
  {
  }

  lemma ChainNext(cfg: Config, b: Status, log: seq<Change>, e: Event)
    requires Chain(log) && StateOf(log) == b.state
    ensures Chain(log + Logged(cfg, b, e))
  {
    LoggedIsPermitted(cfg, b, e);
    if Logged(cfg, b, e) == [] {
      assert log + [] == log;
    } else {
      ChainAppend(log, Change(b.state, Apply(cfg, b, e).state, e.now));
    }
  }

  lemma ChainLater(cfg: Config, es: seq<Event>, n: nat)
    requires 0 < n <= |es| && Chain(Log(cfg, INITIAL, es, n - 1)) && AgreesAt(cfg, es, n - 1)
    ensures Chain(Log(cfg, INITIAL, es, n))
  {
    LastLogged(cfg, INITIAL, es, n);
    ChainNext(cfg, At(cfg, INITIAL, es, n - 1), Log(cfg, INITIAL, es, n - 1), es[n - 1]);
  }

  lemma NothingLogged(cfg: Config, es: seq<Event>, n: nat)
    requires n == 0
    ensures Chain(Log(cfg, INITIAL, es, n))
  {
  }

  // The log of any run starts at closed, and each entry goes on where the one before it ended, by one
  // of the four permitted changes. It ends at the present state, as AlwaysAgrees says.
  lemma {:induction false} LogIsChain(cfg: Config, es: seq<Event>, n: nat)
    requires n <= |es|
    ensures Chain(Log(cfg, INITIAL, es, n))
  {
    if n == 0 {
      NothingLogged(cfg, es, n);
    } else {
      LogIsChain(cfg, es, n - 1);
      AlwaysAgrees(cfg, es, n - 1);
      ChainLater(cfg, es, n);
    }
  }

  function Heard(log: seq<Change>): seq<(State, State)> {
    if log == [] then [] else Heard(log[..|log| - 1]) + [(log[|log| - 1].from, log[|log| - 1].to)]
  }

  // The callback hears what is logged: of one critical section ...
  lemma NoticeIsLogged(cfg: Config, b: Status, e: Event)
    ensures Notice(b.state, Apply(cfg, b, e).state) == Heard(Logged(cfg, b, e))
  {
    assert Logged(cfg, b, e) != [] ==> Logged(cfg, b, e)[..0] == [];
  }

  // ... and of a call that runs alone.
  lemma NoticesAreLogged(cfg: Config, b: Status, success: bool, start: int, finish: int)
    ensures var answer := Answer(cfg, b, start);
            var es := [Call(start)] + if answer.Admitted? then [Done(answer.token, success, finish)] else [];
            Notices(cfg, b, success, start, finish) == Heard(Log(cfg, b, es, |es|))
            && Serial(cfg, b, success, start, finish) == At(cfg, b, es, |es|)
  {
    var answer, b1 := Answer(cfg, b, start), Before(cfg, b, start);
    NoticeIsLogged(cfg, b, Call(start));
    var e0, none := Call(start), [];
    assert Log(cfg, b, [e0], 1) == none + Logged(cfg, b, e0);
    if answer.Admitted? {
      var e1 := Done(answer.token, success, finish);
      var es := [e0] + [e1];
      NoticeIsLogged(cfg, b1, e1);
      OneMore(cfg, b, [e0], e1);
      assert At(cfg, b, [e0], 1) == b1;
      HeardAppend(Logged(cfg, b, e0), Logged(cfg, b1, e1));
    }
  }

  lemma HeardAppend(log: seq<Change>, more: seq<Change>)
    requires |more| <= 1
    ensures Heard(log + more) == Heard(log) + Heard(more)
  {
    if more == [] {
      assert log + more == log;
    } else {
      assert (log + more)[..|log|] == log && more[..0] == [];
    }
  }

  // ----- a burst of probes

  // Calls in a row at an open breaker past its expiry, with no completion in between: exactly the
  // first ones up to the limit are admitted.
  lemma {:induction false} BurstOfProbes(cfg: Config, b: Status, es: seq<Event>, n: nat)
    requires b.state == Open && n < |es| && es[0].now > b.expiry && forall i :: 0 <= i <= n ==> es[i].Call?
    ensures Answer(cfg, At(cfg, b, es, n), es[n].now) ==
            if n < cfg.Limit() then Admitted(b.generation + 1) else Refused(TooManyRequests)
    ensures At(cfg, b, es, n + 1) ==
            Status(HalfOpen, b.generation + 1,
                   Counts(if n < cfg.Limit() then n + 1 else cfg.Limit(), 0, 0, 0), b.expiry)
  {
    if n == 0 {
      assert At(cfg, b, es, 0) == b;
    } else {
      BurstOfProbes(cfg, b, es, n - 1);
    }
  }
}
