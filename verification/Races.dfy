/** The sliding window under interleaved requests: when the set in Redis keeps its spacing and its
    size, and when the times added to it keep the promise made for serial requests. */
module Races {
  import opened Gateway
  import opened RateLimiter

  // ----- the set

  predicate Apart(x: int, now: int) {
    now - x >= MIN_INTERVAL || x - now >= MIN_INTERVAL
  }

  predicate Spread(scores: seq<int>) {
    forall i, j :: 0 <= i < j < |scores| ==> scores[j] - scores[i] >= MIN_INTERVAL
  }

  // At most five entries, any two of them spaced.
  predicate Well(scores: seq<int>) {
    |scores| <= MAX_REQUESTS && Spread(scores)
  }

  // There is room for one more at this instant.
  predicate Room(scores: seq<int>, now: int) {
    |scores| < MAX_REQUESTS && forall x :: x in scores ==> Apart(x, now)
  }

  lemma {:induction false} InsertSplits(scores: seq<int>, t: int) returns (k: nat)
    ensures k <= |scores| && Insert(scores, t) == scores[..k] + [t] + scores[k..]
    ensures (k > 0 ==> scores[k - 1] <= t) && forall i :: k <= i < |scores| ==> scores[i] > t
  {
    if scores == [] || scores[|scores| - 1] <= t {
      k := |scores|;
      assert scores[..k] == scores && scores[k..] == [];
    } else {
      k := InsertSplits(scores[..|scores| - 1], t);
      SplitLonger(scores, k, t);
    }
  }

  lemma SplitLonger(scores: seq<int>, k: nat, t: int)
    requires k < |scores|
    ensures var front, last := scores[..|scores| - 1], scores[|scores| - 1];
            front[..k] + [t] + front[k..] + [last] == scores[..k] + [t] + scores[k..]
  {
    var front := scores[..|scores| - 1];
    assert front[..k] == scores[..k] && front[k..] + [scores[|scores| - 1]] == scores[k..];
  }

  lemma SpreadWithout(scores: seq<int>, k: nat, t: int)
    requires k <= |scores| && Spread(scores[..k] + [t] + scores[k..])
    ensures Spread(scores) && forall x :: x in scores ==> Apart(x, t)
  {
    var more := scores[..k] + [t] + scores[k..];
    forall i, j | 0 <= i < j < |scores| ensures scores[j] - scores[i] >= MIN_INTERVAL {
      assert more[if i < k then i else i + 1] == scores[i] && more[if j < k then j else j + 1] == scores[j];
    }
    forall x | x in scores ensures Apart(x, t) {
      var i :| 0 <= i < |scores| && scores[i] == x;
      assert more[if i < k then i else i + 1] == x && more[k] == t;
    }
  }

  lemma SpreadWith(scores: seq<int>, k: nat, t: int)
    requires k <= |scores| && Spread(scores) && forall x :: x in scores ==> Apart(x, t)
    requires (k > 0 ==> scores[k - 1] <= t) && forall i :: k <= i < |scores| ==> scores[i] > t
    ensures Spread(scores[..k] + [t] + scores[k..])
  {
    forall i | 0 <= i < k ensures t - scores[i] >= MIN_INTERVAL {
      assert scores[i] in scores && scores[i] <= scores[k - 1];
    }
    forall i | k <= i < |scores| ensures scores[i] - t >= MIN_INTERVAL {
      assert scores[i] in scores;
    }
  }

  // An added entry leaves the set well formed if and only if it was, and had room.
  lemma {:induction false} InsertIsWellIff(scores: seq<int>, now: int)
    ensures Well(Insert(scores, now)) <==> Well(scores) && Room(scores, now)
  {
    var k := InsertSplits(scores, now);
    if Spread(Insert(scores, now)) {
      SpreadWithout(scores, k, now);
    }
    if Well(scores) && Room(scores, now) {
      SpreadWith(scores, k, now);
    }
  }

  lemma {:induction false} RemovedFrom(scores: seq<int>, lo: int, hi: int)
    ensures forall x :: x in RemoveRange(scores, lo, hi) ==> x in scores
  {
    if scores == [] {
    } else {
      RemovedFrom(scores[..|scores| - 1], lo, hi);
    }
  }

  lemma {:induction false} RemoveKeepsSpread(scores: seq<int>, lo: int, hi: int)
    requires Spread(scores)
    ensures Spread(RemoveRange(scores, lo, hi))
  {
    if scores == [] {
    } else {
      var front := scores[..|scores| - 1];
      RemoveKeepsSpread(front, lo, hi);
      RemovedFrom(front, lo, hi);
      forall i | 0 <= i < |RemoveRange(front, lo, hi)|
        ensures scores[|scores| - 1] - RemoveRange(front, lo, hi)[i] >= MIN_INTERVAL
      {
        assert RemoveRange(front, lo, hi)[i] in RemoveRange(front, lo, hi);
        var j :| 0 <= j < |front| && front[j] == RemoveRange(front, lo, hi)[i];
        assert scores[|scores| - 1] - scores[j] >= MIN_INTERVAL;
      }
    }
  }

  // ----- every interleaving

  predicate FindsRoom(s: Sys, e: Event) {
    IsAdd(s, e) ==> Room(s.scores, s.phases[e.r].now)
  }

  // Commands other than zadd take from the set, if they touch it at all.
  lemma ScoresShrink(s: Sys, e: Event)
    requires !IsAdd(s, e)
    ensures |Step(s, e).scores| <= |s.scores|
    ensures forall x :: x in Step(s, e).scores ==> x in s.scores
    ensures Spread(s.scores) ==> Spread(Step(s, e).scores)
  {
    if e.Advance? && e.r < |s.phases| && s.phases[e.r].Pruning? {
      var hi := s.phases[e.r].now - WINDOW;
      RemoveRangeShrinks(s.scores, 0, hi);
      RemovedFrom(s.scores, 0, hi);
      if Spread(s.scores) {
        RemoveKeepsSpread(s.scores, 0, hi);
      }
    }
  }

  lemma WellStep(s: Sys, e: Event)
    requires Well(s.scores)
    ensures Well(Step(s, e).scores) <==> FindsRoom(s, e)
  {
    if IsAdd(s, e) {
      InsertIsWellIff(s.scores, s.phases[e.r].now);
    } else {
      ScoresShrink(s, e);
    }
  }

  // In each of the first n + 1 states.
  predicate AlwaysWell(es: seq<Event>, n: nat)
    requires n <= |es|
  {
    Well(At(es, n).scores) && (n > 0 ==> AlwaysWell(es, n - 1))
  }

  // For each of the first n events.
  predicate AddsFindRoom(es: seq<Event>, n: nat)
    requires n <= |es|
  {
    n > 0 ==> AddsFindRoom(es, n - 1) && FindsRoom(At(es, n - 1), es[n - 1])
  }

  // Over any run, the set keeps its spacing and its five entries at most if and only if every zadd
  // finds fewer than five entries and none within the minimum interval of its own time.
  lemma {:induction false} SpacedIff(es: seq<Event>, n: nat)
    requires n <= |es|
    ensures AlwaysWell(es, n) <==> AddsFindRoom(es, n)
  {
    if n == 0 {
    } else {
      SpacedIff(es, n - 1);
      LastEvent(es, n);
      if Well(At(es, n - 1).scores) {
        WellStep(At(es, n - 1), es[n - 1]);
      }
    }
  }

  // ----- requests that nobody races

  predicate PositiveTimes(es: seq<Event>) {
    forall i :: 0 <= i < |es| && es[i].Arrive? ==> es[i].now > 0
  }

  // The request still has a command to run that uses its time.
  predicate Timed(p: Phase) {
    p.Pruning? || p.Reading? || p.Adding?
  }

  predicate Positive(s: Sys) {
    && (forall x :: x in s.scores ==> x > 0)
    && (forall r :: 0 <= r < |s.phases| && Timed(s.phases[r]) ==> s.phases[r].now > 0)
  }

  lemma InsertedFrom(scores: seq<int>, t: int)
    ensures forall x :: x in Insert(scores, t) <==> x in scores || x == t
  {
    var k := InsertSplits(scores, t);
    assert scores == scores[..k] + scores[k..];
  }

  lemma PositiveStep(s: Sys, e: Event)
    requires Positive(s) && (e.Arrive? ==> e.now > 0)
    ensures Positive(Step(s, e))
  {
    if IsAdd(s, e) {
      InsertedFrom(s.scores, s.phases[e.r].now);
    } else {
      ScoresShrink(s, e);
    }
  }

  lemma {:induction false} AlwaysPositive(es: seq<Event>, n: nat)
    requires n <= |es| && PositiveTimes(es)
    ensures Positive(At(es, n))
  {
    if n == 0 {
    } else {
      AlwaysPositive(es, n - 1);
      LastEvent(es, n);
      PositiveStep(At(es, n - 1), es[n - 1]);
    }
  }

  // Another request has added itself since the last command of request r.
  predicate Raced(es: seq<Event>, n: nat, r: nat)
    requires n <= |es|
  {
    && n > 0
    && es[n - 1] != Advance(r)
    && (IsAdd(At(es, n - 1), es[n - 1]) || Raced(es, n - 1, r))
  }

  // No request adds itself after another one has since its zrange.
  predicate Unraced(es: seq<Event>, n: nat)
    requires n <= |es|
  {
    n > 0 ==> Unraced(es, n - 1) && (IsAdd(At(es, n - 1), es[n - 1]) ==> !Raced(es, n - 1, es[n - 1].r))
  }

  lemma LastRaced(es: seq<Event>, n: nat, r: nat)
    requires 0 < n <= |es|
    ensures es[n - 1] == Advance(r) ==> !Raced(es, n, r)
    ensures !es[n - 1].Advance? ==> Raced(es, n, r) == Raced(es, n - 1, r)
    ensures !Raced(es, n, r) && es[n - 1] != Advance(r) ==>
              !IsAdd(At(es, n - 1), es[n - 1]) && !Raced(es, n - 1, r)
  {
  }

  predicate AddsItself(s: Sys, r: nat) {
    r < |s.phases| && s.phases[r].Adding?
  }

  predicate HasRoom(s: Sys, r: nat)
    requires AddsItself(s, r)
  {
    Room(s.scores, s.phases[r].now)
  }

  // What the limiter accepts fits, its times being positive.
  lemma AcceptedFits(scores: seq<int>, now: int)
    requires Well(scores) && (forall x :: x in scores ==> x > 0) && Decide(scores, now) == Accepted
    ensures Room(scores, now)
  {
    if scores != [] {
      assert scores[|scores| - 1] in scores;
    }
  }

  // One step on, for a request that nobody races.
  lemma RoomStep(s: Sys, e: Event, r: nat)
    requires Well(s.scores) && Positive(s)
    requires e != Advance(r) ==> !IsAdd(s, e) && (AddsItself(s, r) ==> HasRoom(s, r))
    requires AddsItself(Step(s, e), r)
    ensures HasRoom(Step(s, e), r)
  {
    if e == Advance(r) {
      AcceptedFits(s.scores, s.phases[r].now);
    } else {
      ScoresShrink(s, e);
    }
  }

  // Who has passed the check and not been raced since still has room.
  lemma {:induction false} UnracedHaveRoom(es: seq<Event>, n: nat, r: nat)
    requires n <= |es| && PositiveTimes(es) && AlwaysWell(es, n)
    requires AddsItself(At(es, n), r) && !Raced(es, n, r)
    ensures HasRoom(At(es, n), r)
  {
    if n == 0 {
      assert false;
    } else {
      var s, e := At(es, n - 1), es[n - 1];
      LastEvent(es, n);
      LastRaced(es, n, r);
      AlwaysPositive(es, n - 1);
      if e != Advance(r) && AddsItself(s, r) {
        UnracedHaveRoom(es, n - 1, r);
      }
      RoomStep(s, e, r);
    }
  }

  // If no request is raced, the set stays spaced and within five entries.
  lemma {:induction false} UnracedIsSpaced(es: seq<Event>, n: nat)
    requires n <= |es| && PositiveTimes(es) && Unraced(es, n)
    ensures AlwaysWell(es, n)
  {
    if n == 0 {
    } else {
      var s, e := At(es, n - 1), es[n - 1];
      UnracedIsSpaced(es, n - 1);
      LastEvent(es, n);
      if IsAdd(s, e) {
        UnracedHaveRoom(es, n - 1, e.r);
      }
      WellStep(s, e);
    }
  }

  // ----- the times added

  function Added(es: seq<Event>, n: nat): seq<int>
    requires n <= |es|
  {
    if n == 0 then [] else AddedNext(Added(es, n - 1), At(es, n - 1), es[n - 1])
  }

  function AddedNext(times: seq<int>, s: Sys, e: Event): seq<int> {
    if IsAdd(s, e) then times + [s.phases[e.r].now] else times
  }

  lemma LastAdded(es: seq<Event>, n: nat)
    requires 0 < n <= |es|
    ensures Added(es, n) == AddedNext(Added(es, n - 1), At(es, n - 1), es[n - 1])
  {
  }

  predicate IsDue(times: seq<int>, s: Sys, e: Event) {
    IsAdd(s, e) ==> Due(times, s.phases[e.r].now)
  }

  predicate AddsAreDue(es: seq<Event>, n: nat)
    requires n <= |es|
  {
    n > 0 ==> AddsAreDue(es, n - 1) && IsDue(Added(es, n - 1), At(es, n - 1), es[n - 1])
  }

  lemma GappedFront(times: seq<int>, now: int)
    requires Gapped(times + [now])
    ensures Gapped(times) && Due(times, now)
  {
    var n := |times|;
    assert n >= 1 ==> (times + [now])[n] - (times + [now])[n - 1] >= MIN_INTERVAL;
    assert n >= MAX_REQUESTS ==> (times + [now])[n] - (times + [now])[n - MAX_REQUESTS] >= WINDOW;
    GappedPrefix(times + [now], |times|);
    assert (times + [now])[..|times|] == times;
  }

  // Over any run, the times added keep the window and the spacing of the serial limiter if and only
  // if each was due, judged by all the times added before it.
  lemma {:induction false} GappedIff(es: seq<Event>, n: nat)
    requires n <= |es|
    ensures Gapped(Added(es, n)) <==> AddsAreDue(es, n)
  {
    if n == 0 {
    } else {
      var s, e, times := At(es, n - 1), es[n - 1], Added(es, n - 1);
      GappedIff(es, n - 1);
      LastAdded(es, n);
      if IsAdd(s, e) {
        var now := s.phases[e.r].now;
        if Gapped(times + [now]) {
          GappedFront(times, now);
        } else if Gapped(times) && Due(times, now) {
          GappedAppend(times, now);
        }
      }
    }
  }

  // ----- the serial promise without serial requests

  function Max(a: int, b: int): int {
    if a < b then b else a
  }

  // When a key last touched by the latest zadd expires.
  function Expiry(times: seq<int>): int {
    if times == [] then 0 else times[|times| - 1] + WINDOW
  }

  predicate IsTimed(s: Sys, e: Event) {
    e.Advance? && e.r < |s.phases| && Timed(s.phases[e.r])
  }

  function ClockNext(clock: int, times: seq<int>, s: Sys, e: Event): int {
    if IsTimed(s, e) then Max(clock, s.phases[e.r].now)
    else if e.ScoresExpire? then Max(clock, Expiry(times))
    else clock
  }

  // The latest instant that the commands so far bear witness to.
  function Clock(es: seq<Event>, n: nat): int
    requires n <= |es|
  {
    if n == 0 then 0 else ClockNext(Clock(es, n - 1), Added(es, n - 1), At(es, n - 1), es[n - 1])
  }

  // No command goes by an earlier time than one before it, and none runs after an expiry that came
  // less than a window after the latest zadd.
  predicate InOrder(es: seq<Event>, n: nat)
    requires n <= |es|
  {
    n > 0 ==>
      && InOrder(es, n - 1)
      && (IsTimed(At(es, n - 1), es[n - 1]) ==>
            At(es, n - 1).phases[es[n - 1].r].now >= Clock(es, n - 1))
  }

  lemma LastClock(es: seq<Event>, n: nat)
    requires 0 < n <= |es|
    ensures Clock(es, n) == ClockNext(Clock(es, n - 1), Added(es, n - 1), At(es, n - 1), es[n - 1])
  {
  }

  // The set answers like all the times added, from the clock on.
  predicate Faithful(scores: seq<int>, times: seq<int>, clock: int) {
    Agrees(Key(scores, Expiry(times)), times, clock)
  }

  lemma AddIsFaithful(scores: seq<int>, times: seq<int>, now: int)
    requires Faithful(scores, times, now) && now > 0
    ensures Faithful(Insert(scores, now), times + [now], now)
  {
    WithinAppend(scores, now);
    WithinAppend(times, now);
    LaterAppend(scores, now, now - WINDOW);
    LaterAppend(times, now, now - WINDOW);
  }

  lemma ExpiryIsFaithful(scores: seq<int>, times: seq<int>, clock: int)
    requires Faithful(scores, times, clock)
    ensures Faithful([], times, Max(clock, Expiry(times)))
  {
    DropAgrees(Key(scores, Expiry(times)), times, clock, Max(clock, Expiry(times)));
  }

  lemma PruneIsFaithful(scores: seq<int>, times: seq<int>, now: int)
    requires Faithful(scores, times, now)
    ensures Faithful(RemoveRange(scores, 0, now - WINDOW), times, now)
  {
    RefusedAgrees(Key(scores, Expiry(times)), times, now);
  }

  lemma FaithfulStep(s: Sys, e: Event, times: seq<int>, clock: int)
    requires Faithful(s.scores, times, clock) && Positive(s)
    requires IsTimed(s, e) ==> s.phases[e.r].now >= clock
    ensures Faithful(Step(s, e).scores, AddedNext(times, s, e), ClockNext(clock, times, s, e))
  {
    if IsTimed(s, e) {
      var now := s.phases[e.r].now;
      WaitAgrees(Key(s.scores, Expiry(times)), times, clock, now);
      TimedIsFaithful(s, e.r, times);
    } else if e.ScoresExpire? {
      ExpiryIsFaithful(s.scores, times, clock);
    }
  }

  lemma TimedIsFaithful(s: Sys, r: nat, times: seq<int>)
    requires Positive(s) && IsTimed(s, Advance(r)) && Faithful(s.scores, times, s.phases[r].now)
    ensures Faithful(Step(s, Advance(r)).scores, AddedNext(times, s, Advance(r)), s.phases[r].now)
  {
    match s.phases[r]
    case Pruning(now) => PruneIsFaithful(s.scores, times, now);
    case Reading(_) =>
    case Adding(now) => AddIsFaithful(s.scores, times, now);
  }

  // In a run in order, the set and the times added agree on the current window.
  lemma {:induction false} AlwaysFaithful(es: seq<Event>, n: nat)
    requires n <= |es| && PositiveTimes(es) && InOrder(es, n)
    ensures Faithful(At(es, n).scores, Added(es, n), Clock(es, n))
  {
    if n == 0 {
    } else {
      AlwaysFaithful(es, n - 1);
      AlwaysPositive(es, n - 1);
      LastEvent(es, n);
      LastAdded(es, n);
      LastClock(es, n);
      FaithfulStep(At(es, n - 1), es[n - 1], Added(es, n - 1), Clock(es, n - 1));
    }
  }

  lemma SpreadIsSorted(scores: seq<int>)
    requires Spread(scores)
    ensures Sorted(scores)
  {
  }

  lemma AcceptedIsDue(scores: seq<int>, times: seq<int>, now: int)
    requires Faithful(scores, times, now) && Spread(scores) && Decide(scores, now) == Accepted
    ensures Due(times, now)
  {
    var since := now - WINDOW;
    SpreadIsSorted(scores);
    LaterBound(scores, since);
    LaterKeepsLast(scores, since);
    LaterKeepsLast(times, since);
    AcceptedIffDue(times, now);
  }

  lemma PassingIsDue(s: Sys, r: nat, times: seq<int>, clock: int)
    requires Faithful(s.scores, times, clock) && Spread(s.scores)
    requires Passes(s, Advance(r)) && s.phases[r].now >= clock
    ensures Due(times, s.phases[r].now)
  {
    var now := s.phases[r].now;
    WaitAgrees(Key(s.scores, Expiry(times)), times, clock, now);
    AcceptedIsDue(s.scores, times, now);
  }

  // One step on, for a request that nobody races.
  lemma DueStep(s: Sys, e: Event, r: nat, times: seq<int>, clock: int)
    requires Faithful(s.scores, times, clock) && Spread(s.scores)
    requires IsTimed(s, e) ==> s.phases[e.r].now >= clock
    requires e != Advance(r) ==> !IsAdd(s, e) && (AddsItself(s, r) ==> Due(times, s.phases[r].now))
    requires AddsItself(Step(s, e), r)
    ensures Due(AddedNext(times, s, e), Step(s, e).phases[r].now)
  {
    if e == Advance(r) {
      PassingIsDue(s, r, times, clock);
    }
  }

  predicate DueNext(times: seq<int>, s: Sys, r: nat)
    requires r < |s.phases| && s.phases[r].Adding?
  {
    Due(times, s.phases[r].now)
  }

  // Who has passed the check and not been raced since is due.
  lemma {:induction false} UnracedAreDue(es: seq<Event>, n: nat, r: nat)
    requires n <= |es| && PositiveTimes(es) && AlwaysWell(es, n) && InOrder(es, n)
    requires AddsItself(At(es, n), r) && !Raced(es, n, r)
    ensures DueNext(Added(es, n), At(es, n), r)
  {
    if n == 0 {
      assert false;
    } else {
      var s, e := At(es, n - 1), es[n - 1];
      LastEvent(es, n);
      LastAdded(es, n);
      AlwaysFaithful(es, n - 1);
      if e != Advance(r) && AddsItself(s, r) {
        UnracedAreDue(es, n - 1, r);
      }
      DueStep(s, e, r, Added(es, n - 1), Clock(es, n - 1));
    }
  }

  lemma {:induction false} UnracedAddsAreDue(es: seq<Event>, n: nat)
    requires n <= |es| && PositiveTimes(es) && Unraced(es, n) && InOrder(es, n)
    ensures AddsAreDue(es, n)
  {
    if n == 0 {
    } else {
      UnracedAddsAreDue(es, n - 1);
      UnracedIsSpaced(es, n - 1);
      if IsAdd(At(es, n - 1), es[n - 1]) {
        UnracedAreDue(es, n - 1, es[n - 1].r);
      }
    }
  }

  // At most five per window in every k windows in a row, and the minimum interval between two.
  predicate Promised(times: seq<int>, lo: int, hi: int, k: nat) {
    && (hi - lo <= k * WINDOW ==> InInterval(times, lo, hi) <= MAX_REQUESTS * k)
    && (forall i :: 1 <= i < |times| ==> times[i] - times[i - 1] >= MIN_INTERVAL)
  }

  lemma GappedIsPromised(times: seq<int>, lo: int, hi: int, k: nat)
    requires Gapped(times)
    ensures Promised(times, lo, hi, k)
  {
    if hi - lo <= k * WINDOW {
      GappedIntervals(times, lo, hi, k);
    }
  }

  // The serial promise, for requests interleaved in any way without races and in order: it holds
  // of the times added, and the set holds those of the current window.
  lemma {:induction false} UnracedWindowGuarantee(es: seq<Event>, n: nat, lo: int, hi: int, k: nat)
    requires n <= |es| && PositiveTimes(es) && Unraced(es, n) && InOrder(es, n)
    ensures Promised(Added(es, n), lo, hi, k)
    ensures Faithful(At(es, n).scores, Added(es, n), Clock(es, n))
  {
    UnracedAddsAreDue(es, n);
    GappedIff(es, n);
    GappedIsPromised(Added(es, n), lo, hi, k);
    AlwaysFaithful(es, n);
  }

  // ----- requests that do not overlap

  predicate LatestIsTimed(s: Sys) {
    s.phases != [] && Timed(s.phases[|s.phases| - 1])
  }

  // Only the latest request runs commands, requests arrive in the order of their times, and the set
  // expires only between them.
  predicate InTurn(s: Sys, clock: int, e: Event) {
    match e
    case Arrive(now) => now >= clock
    case Advance(r) => r + 1 == |s.phases|
    case ScoresExpire => !LatestIsTimed(s)
    case CounterExpires => true
  }

  predicate OneAtATime(es: seq<Event>, n: nat)
    requires n <= |es|
  {
    n > 0 ==> OneAtATime(es, n - 1) && InTurn(At(es, n - 1), Clock(es, n - 1), es[n - 1])
  }

  // The latest request is up to date and has not been raced.
  predicate UpToDate(s: Sys, clock: int, raced: bool) {
    LatestIsTimed(s) ==>
      clock <= s.phases[|s.phases| - 1].now && (s.phases[|s.phases| - 1].Adding? ==> !raced)
  }

  lemma AdvanceUpToDate(s: Sys, r: nat, clock: int, times: seq<int>)
    requires r + 1 == |s.phases| && (LatestIsTimed(s) ==> clock <= s.phases[r].now)
    ensures UpToDate(Step(s, Advance(r)), ClockNext(clock, times, s, Advance(r)), false)
  {
    var s' := Step(s, Advance(r));
    assert |s'.phases| == |s.phases|;
    assert Timed(s'.phases[r]) ==> Timed(s.phases[r]) && s'.phases[r].now == s.phases[r].now;
  }

  lemma UpToDateStep(s: Sys, e: Event, clock: int, times: seq<int>, raced: bool, raced': bool)
    requires InTurn(s, clock, e) && UpToDate(s, clock, raced)
    requires (e.Advance? ==> !raced') && (e.CounterExpires? || e.ScoresExpire? ==> raced' == raced)
    ensures UpToDate(Step(s, e), ClockNext(clock, times, s, e), raced')
  {
    if e.Advance? {
      AdvanceUpToDate(s, e.r, clock, times);
    }
  }

  predicate LatestIsFresh(es: seq<Event>, n: nat)
    requires n <= |es|
  {
    UpToDate(At(es, n), Clock(es, n), At(es, n).phases != [] && Raced(es, n, |At(es, n).phases| - 1))
  }

  lemma LatestStaysFresh(es: seq<Event>, n: nat)
    requires 0 < n <= |es| && LatestIsFresh(es, n - 1)
    requires InTurn(At(es, n - 1), Clock(es, n - 1), es[n - 1])
    ensures LatestIsFresh(es, n)
  {
    var s, s', e := At(es, n - 1), At(es, n), es[n - 1];
    var raced := s.phases != [] && Raced(es, n - 1, |s.phases| - 1);
    var raced' := s'.phases != [] && Raced(es, n, |s'.phases| - 1);
    LastEvent(es, n);
    LastClock(es, n);
    if s'.phases != [] {
      LastRaced(es, n, |s'.phases| - 1);
    }
    assert !e.Arrive? ==> |s'.phases| == |s.phases|;
    UpToDateStep(s, e, Clock(es, n - 1), Added(es, n - 1), raced, raced');
  }

  // The conditions of the promise hold of one more event.
  lemma UnracedNext(es: seq<Event>, n: nat)
    requires 0 < n <= |es| && LatestIsFresh(es, n - 1) && Unraced(es, n - 1) && InOrder(es, n - 1)
    requires InTurn(At(es, n - 1), Clock(es, n - 1), es[n - 1])
    ensures Unraced(es, n) && InOrder(es, n)
  {
  }

  // Requests that do not overlap and arrive in the order of their times meet the conditions of the
  // promise, so that it covers all serial runs.
  lemma {:induction false} OneAtATimeIsUnraced(es: seq<Event>, n: nat)
    requires n <= |es| && OneAtATime(es, n)
    ensures Unraced(es, n) && InOrder(es, n) && LatestIsFresh(es, n)
  {
    if n == 0 {
    } else {
      OneAtATimeIsUnraced(es, n - 1);
      UnracedNext(es, n);
      LatestStaysFresh(es, n);
    }
  }

  // ----- what a race costs

  const TWINS := [Arrive(1), Arrive(1), Advance(0), Advance(1), Advance(0), Advance(1), Advance(0), Advance(1)]

  lemma TwinsPass()
    ensures At(TWINS, 6) == Sys(2, [], [Adding(1), Adding(1)])
  {
    assert At(TWINS, 2) == Sys(2, [], [Pruning(1), Pruning(1)]);
    assert At(TWINS, 4) == Sys(2, [], [Reading(1), Reading(1)]);
  }

  // Two requests of the same instant both pass the spacing check.
  lemma RacingRequestsIgnoreSpacing()
    ensures At(TWINS, 8).scores == [1, 1]
  {
    TwinsPass();
    assert At(TWINS, 7) == Sys(2, [1], [Touching(1), Adding(1)]);
  }
}
