/** The sliding-window rate limiter of one key: the sorted set kept in Redis, request by request,
    against a reference that never forgets an accepted request. Times are in milliseconds. */
module RateLimiter {
  const WINDOW := 60000
  const MAX_REQUESTS := 5
  const MIN_INTERVAL := 2000

  datatype Reply = Accepted | LimitReached | SlowDown(retryIn: int)

  // A sorted set, by its scores in order, with the instant its key expires. Redis drops an empty
  // set together with its expiry.
  datatype Key = Key(scores: seq<int>, expireAt: int)

  const ABSENT := Key([], 0)

  // ----- the Redis commands

  // zremrangebyscore
  function RemoveRange(scores: seq<int>, lo: int, hi: int): seq<int> {
    if scores == [] then []
    else
      var last := scores[|scores| - 1];
      RemoveRange(scores[..|scores| - 1], lo, hi) + if lo <= last <= hi then [] else [last]
  }

  // zadd of a fresh member
  function Insert(scores: seq<int>, t: int): seq<int> {
    if scores == [] || scores[|scores| - 1] <= t then scores + [t]
    else Insert(scores[..|scores| - 1], t) + [scores[|scores| - 1]]
  }

  // ----- one request

  // The decision on the scores that survive pruning. The last score is a JavaScript number used
  // as a condition, so 0 counts as missing.
  function Decide(scores: seq<int>, now: int): Reply {
    if |scores| >= MAX_REQUESTS then LimitReached
    else
      var last := if scores == [] then 0 else scores[|scores| - 1];
      if last != 0 && now - last < MIN_INTERVAL then SlowDown(MIN_INTERVAL - (now - last))
      else Accepted
  }

  function Pruned(key: Key, now: int): seq<int> {
    RemoveRange(key.scores, 0, now - WINDOW)
  }

  function Next(key: Key, now: int): Key {
    if Decide(Pruned(key, now), now) == Accepted
    then Key(Insert(Pruned(key, now), now), now + WINDOW)
    else key.(scores := Pruned(key, now))
  }

  // What a request finds; Redis may drop the key from its expiry on.
  function Found(key: Key, dropped: bool): Key {
    if dropped then ABSENT else key
  }

  // The middleware, with the state it keeps in Redis.
  class SlidingWindow {
    var key: Key

    constructor ()
      ensures key == ABSENT
    {
      key := ABSENT;
    }

    method Expire()
      modifies this
      ensures key == Found(old(key), true)
    {
      key := ABSENT;
    }

    method Handle(now: int, dropped: bool) returns (reply: Reply)
      modifies this
      ensures reply == Decide(Pruned(Found(old(key), dropped), now), now)
      ensures key == Next(Found(old(key), dropped), now)
    {
      if dropped {
        Expire();
      }
      var windowStart := now - WINDOW;
      key := key.(scores := RemoveRange(key.scores, 0, windowStart));
      var recentRequests := key.scores;
      if |recentRequests| >= MAX_REQUESTS {
        return LimitReached;
      }
      var lastRequestTime := if recentRequests == [] then 0 else recentRequests[|recentRequests| - 1];
      if lastRequestTime != 0 && now - lastRequestTime < MIN_INTERVAL {
        return SlowDown(MIN_INTERVAL - (now - lastRequestTime));
      }
      key := key.(scores := Insert(key.scores, now));
      key := key.(expireAt := now + WINDOW);
      return Accepted;
    }
  }

  // ----- the reference

  // The entries later than `since`.
  function Later(times: seq<int>, since: int): seq<int> {
    if times == [] then []
    else
      var last := times[|times| - 1];
      Later(times[..|times| - 1], since) + if last > since then [last] else []
  }

  // What a limiter remembering every accepted request would say.
  function Reference(history: seq<int>, now: int): Reply {
    if |Later(history, now - WINDOW)| >= MAX_REQUESTS then LimitReached
    else if history != [] && now - history[|history| - 1] < MIN_INTERVAL
    then SlowDown(MIN_INTERVAL - (now - history[|history| - 1]))
    else Accepted
  }

  // ----- serial runs

  // A request, and whether Redis had dropped the key by the time it arrived.
  datatype Arrival = Arrival(now: int, dropped: bool)

  function KeyAfter(run: seq<Arrival>, n: nat): Key
    requires n <= |run|
    decreases n, 0
  {
    if n == 0 then ABSENT else Next(KeyFor(run, n - 1), run[n - 1].now)
  }

  // The key that request n finds.
  function KeyFor(run: seq<Arrival>, n: nat): Key
    requires n < |run|
    decreases n, 1
  {
    Found(KeyAfter(run, n), run[n].dropped)
  }

  function ReplyTo(run: seq<Arrival>, n: nat): Reply
    requires n < |run|
  {
    Decide(Pruned(KeyFor(run, n), run[n].now), run[n].now)
  }

  // The times the reference accepts.
  function History(run: seq<Arrival>, n: nat): seq<int>
    requires n <= |run|
  {
    if n == 0 then []
    else
      var h, now := History(run, n - 1), run[n - 1].now;
      if Reference(h, now) == Accepted then h + [now] else h
  }

  // Positive times that never go back, and no key dropped before it expires.
  predicate Serial(run: seq<Arrival>) {
    forall i :: 0 <= i < |run| ==> InTime(run, i)
  }

  predicate InTime(run: seq<Arrival>, i: nat)
    requires i < |run|
  {
    && run[i].now > 0
    && (i > 0 ==> run[i - 1].now <= run[i].now)
    && (run[i].dropped ==> run[i].now >= KeyAfter(run, i).expireAt)
  }

  lemma {:induction false} TimesGrow(run: seq<Arrival>, i: nat, j: nat)
    requires Serial(run) && i <= j < |run|
    ensures run[i].now <= run[j].now
    decreases j
  {
    if i == j {
    } else {
      TimesGrow(run, i, j - 1);
      assert InTime(run, j);
    }
  }

  predicate Sorted(times: seq<int>) {
    forall i, j :: 0 <= i < j < |times| ==> times[i] <= times[j]
  }

  predicate Within(times: seq<int>, clock: int) {
    forall i :: 0 <= i < |times| ==> 0 < times[i] <= clock
  }

  // The key answers like the history from `clock` on.
  predicate Agrees(key: Key, history: seq<int>, clock: int) {
    && Sorted(history) && Within(history, clock) && Within(key.scores, clock)
    && (key.scores != [] ==> history != [] && key.expireAt == history[|history| - 1] + WINDOW)
    && Later(key.scores, clock - WINDOW) == Later(history, clock - WINDOW)
  }

  lemma {:induction false} LaterTwice(times: seq<int>, a: int, b: int)
    requires a <= b
    ensures Later(Later(times, a), b) == Later(times, b)
  {
    if times == [] {
    } else {
      var front, last := times[..|times| - 1], times[|times| - 1];
      LaterTwice(front, a, b);
      if last > a {
        LaterAppend(Later(front, a), last, b);
      } else {
        assert Later(times, a) == Later(front, a);
      }
    }
  }

  lemma LaterAppend(times: seq<int>, t: int, since: int)
    ensures Later(times + [t], since) == Later(times, since) + if t > since then [t] else []
  {
    assert (times + [t])[..|times|] == times;
  }

  lemma {:induction false} RemoveRangeIsLater(scores: seq<int>, clock: int, hi: int)
    requires Within(scores, clock)
    ensures RemoveRange(scores, 0, hi) == Later(scores, hi)
  {
    if scores == [] {
    } else {
      RemoveRangeIsLater(scores[..|scores| - 1], clock, hi);
    }
  }

  function Times(scores: seq<int>, x: int): nat {
    if scores == [] then 0
    else Times(scores[..|scores| - 1], x) + if scores[|scores| - 1] == x then 1 else 0
  }

  lemma TimesAppend(scores: seq<int>, t: int, x: int)
    ensures Times(scores + [t], x) == Times(scores, x) + if t == x then 1 else 0
  {
    assert (scores + [t])[..|scores|] == scores;
  }

  // What is removed is what lies in the range, bounds included; everything else stays as often as it
  // was there.
  lemma {:induction false} RemoveRangeKeeps(scores: seq<int>, lo: int, hi: int, x: int)
    ensures Times(RemoveRange(scores, lo, hi), x) == if lo <= x <= hi then 0 else Times(scores, x)
  {
    if scores == [] {
    } else {
      var front, last := scores[..|scores| - 1], scores[|scores| - 1];
      RemoveRangeKeeps(front, lo, hi, x);
      if lo <= last <= hi {
        assert RemoveRange(scores, lo, hi) == RemoveRange(front, lo, hi);
      } else {
        TimesAppend(RemoveRange(front, lo, hi), last, x);
      }
    }
  }

  lemma {:induction false} LaterWithin(times: seq<int>, clock: int, since: int)
    requires Within(times, clock)
    ensures Within(Later(times, since), clock)
  {
    if times == [] {
    } else {
      LaterWithin(times[..|times| - 1], clock, since);
    }
  }

  // In a sorted history the latest entry is the last to drop out.
  lemma {:induction false} LaterKeepsLast(times: seq<int>, since: int)
    requires Sorted(times)
    ensures var later := Later(times, since);
            if times == [] || times[|times| - 1] <= since then later == []
            else later != [] && later[|later| - 1] == times[|times| - 1]
  {
    if times == [] {
    } else {
      LaterKeepsLast(times[..|times| - 1], since);
    }
  }

  // A dropped key had nothing left to say.
  lemma DropAgrees(key: Key, history: seq<int>, clock: int, now: int)
    requires Agrees(key, history, clock) && clock <= now && now >= key.expireAt
    ensures Agrees(ABSENT, history, now)
  {
    LaterKeepsLast(history, now - WINDOW);
    if key.scores == [] {
      LaterTwice(history, clock - WINDOW, now - WINDOW);
    }
  }

  lemma WaitAgrees(key: Key, history: seq<int>, clock: int, now: int)
    requires Agrees(key, history, clock) && clock <= now
    ensures Agrees(key, history, now)
  {
    LaterTwice(key.scores, clock - WINDOW, now - WINDOW);
    LaterTwice(history, clock - WINDOW, now - WINDOW);
  }

  lemma AgreeingDecides(key: Key, history: seq<int>, now: int)
    requires Agrees(key, history, now)
    ensures Pruned(key, now) == Later(history, now - WINDOW)
    ensures Decide(Pruned(key, now), now) == Reference(history, now)
  {
    RemoveRangeIsLater(key.scores, now, now - WINDOW);
    LaterKeepsLast(history, now - WINDOW);
  }

  lemma RefusedAgrees(key: Key, history: seq<int>, now: int)
    requires Agrees(key, history, now)
    ensures Agrees(key.(scores := Pruned(key, now)), history, now)
  {
    AgreeingDecides(key, history, now);
    LaterWithin(history, now, now - WINDOW);
    LaterTwice(history, now - WINDOW, now - WINDOW);
  }

  lemma WithinAppend(times: seq<int>, now: int)
    requires Within(times, now) && now > 0
    ensures Within(times + [now], now) && Insert(times, now) == times + [now]
    ensures Sorted(times) ==> Sorted(times + [now])
  {
  }

  lemma AcceptedAgrees(key: Key, history: seq<int>, now: int)
    requires Agrees(key, history, now) && now > 0
    ensures Agrees(Key(Insert(Pruned(key, now), now), now + WINDOW), history + [now], now)
  {
    var since := now - WINDOW;
    AgreeingDecides(key, history, now);
    var later := Later(history, since);
    LaterWithin(history, now, since);
    WithinAppend(later, now);
    WithinAppend(history, now);
    assert Later(later + [now], since) == Later(history + [now], since) by {
      LaterTwice(history, since, since);
      LaterAppend(later, now, since);
      LaterAppend(history, now, since);
    }
  }

  lemma NextAgrees(key: Key, history: seq<int>, now: int)
    requires Agrees(key, history, now) && now > 0
    ensures Agrees(Next(key, now), if Reference(history, now) == Accepted then history + [now] else history, now)
  {
    AgreeingDecides(key, history, now);
    if Reference(history, now) == Accepted {
      AcceptedAgrees(key, history, now);
    } else {
      RefusedAgrees(key, history, now);
    }
  }

  // What the key and the history say of each other as request n arrives.
  lemma FoundAgrees(key: Key, history: seq<int>, clock: int, arrival: Arrival)
    requires Agrees(key, history, clock) && clock <= arrival.now
    requires arrival.dropped ==> arrival.now >= key.expireAt
    ensures Agrees(Found(key, arrival.dropped), history, arrival.now)
  {
    if arrival.dropped {
      DropAgrees(key, history, clock, arrival.now);
    } else {
      WaitAgrees(key, history, clock, arrival.now);
    }
  }

  // The time of the latest request.
  function Latest(run: seq<Arrival>, n: nat): int
    requires n <= |run|
  {
    if n == 0 then 0 else run[n - 1].now
  }

  lemma HistoryStep(run: seq<Arrival>, n: nat)
    requires 0 < n <= |run|
    ensures var h, now := History(run, n - 1), run[n - 1].now;
            History(run, n) == if Reference(h, now) == Accepted then h + [now] else h
    ensures KeyAfter(run, n) == Next(KeyFor(run, n - 1), run[n - 1].now)
  {
  }

  predicate AgreesAfter(run: seq<Arrival>, n: nat)
    requires n <= |run|
  {
    Agrees(KeyAfter(run, n), History(run, n), Latest(run, n))
  }

  predicate AgreesFor(run: seq<Arrival>, n: nat)
    requires n < |run|
  {
    Agrees(KeyFor(run, n), History(run, n), run[n].now)
  }

  lemma AnsweredAgrees(run: seq<Arrival>, n: nat)
    requires 0 < n <= |run| && AgreesFor(run, n - 1) && run[n - 1].now > 0
    ensures AgreesAfter(run, n)
  {
    NextAgrees(KeyFor(run, n - 1), History(run, n - 1), run[n - 1].now);
    HistoryStep(run, n);
  }

  lemma ArrivingAgrees(run: seq<Arrival>, n: nat)
    requires n < |run| && AgreesAfter(run, n) && Latest(run, n) <= run[n].now
    requires run[n].dropped ==> run[n].now >= KeyAfter(run, n).expireAt
    ensures AgreesFor(run, n)
  {
    FoundAgrees(KeyAfter(run, n), History(run, n), Latest(run, n), run[n]);
  }

  lemma {:induction false} KeyAgrees(run: seq<Arrival>, n: nat)
    requires n <= |run| && Serial(run)
    ensures AgreesAfter(run, n) && (n < |run| ==> AgreesFor(run, n))
    decreases n
  {
    if n == 0 {
    } else {
      KeyAgrees(run, n - 1);
      assert InTime(run, n - 1);
      AnsweredAgrees(run, n);
    }
    if n < |run| {
      assert InTime(run, n);
      ArrivingAgrees(run, n);
    }
  }

  // The pruned, expiring sorted set answers every request as the full history would, whether or
  // not Redis drops expired keys.
  lemma {:induction false} LimiterRefinesReference(run: seq<Arrival>, n: nat)
    requires n < |run| && Serial(run)
    ensures ReplyTo(run, n) == Reference(History(run, n), run[n].now)
  {
    KeyAgrees(run, n);
    AgreeingDecides(KeyFor(run, n), History(run, n), run[n].now);
  }

  // The times the limiter itself accepted.
  function AcceptedTimes(run: seq<Arrival>, n: nat): seq<int>
    requires n <= |run|
  {
    if n == 0 then []
    else AcceptedTimes(run, n - 1) + if ReplyTo(run, n - 1) == Accepted then [run[n - 1].now] else []
  }

  lemma AcceptedNext(run: seq<Arrival>, n: nat)
    requires 0 < n <= |run| && AcceptedTimes(run, n - 1) == History(run, n - 1)
    requires ReplyTo(run, n - 1) == Reference(History(run, n - 1), run[n - 1].now)
    ensures AcceptedTimes(run, n) == History(run, n)
  {
    HistoryStep(run, n);
  }

  lemma {:induction false} AcceptedTimesAreHistory(run: seq<Arrival>, n: nat)
    requires n <= |run| && Serial(run)
    ensures AcceptedTimes(run, n) == History(run, n)
  {
    if n == 0 {
    } else {
      AcceptedTimesAreHistory(run, n - 1);
      LimiterRefinesReference(run, n - 1);
      AcceptedNext(run, n);
    }
  }

  lemma HistoryIsSane(run: seq<Arrival>, n: nat)
    requires n < |run| && Serial(run)
    ensures Sorted(History(run, n)) && Within(History(run, n), run[n].now)
  {
    KeyAgrees(run, n);
  }

  // ----- what acceptance means

  lemma {:induction false} LaterCounts(times: seq<int>, since: int, k: nat)
    requires Sorted(times) && k < |times|
    ensures |Later(times, since)| > k <==> times[|times| - 1 - k] > since
    decreases k
  {
    var front := times[..|times| - 1];
    if k == 0 {
      LaterKeepsLast(times, since);
    } else {
      LaterCounts(front, since, k - 1);
      LaterKeepsLast(times, since);
    }
  }

  lemma {:induction false} LaterBound(times: seq<int>, since: int)
    ensures |Later(times, since)| <= |times|
  {
    if times == [] {
    } else {
      LaterBound(times[..|times| - 1], since);
    }
  }

  // A request is accepted exactly when the fifth latest acceptance is a window old and the latest
  // is a spacing old.
  predicate Due(history: seq<int>, now: int) {
    && (|history| >= MAX_REQUESTS ==> now - history[|history| - MAX_REQUESTS] >= WINDOW)
    && (history != [] ==> now - history[|history| - 1] >= MIN_INTERVAL)
  }

  lemma AcceptedIffDue(history: seq<int>, now: int)
    requires Sorted(history)
    ensures Reference(history, now) == Accepted <==> Due(history, now)
  {
    LaterBound(history, now - WINDOW);
    if |history| >= MAX_REQUESTS {
      LaterCounts(history, now - WINDOW, MAX_REQUESTS - 1);
    }
  }

  // The limiter itself, after any serial run.
  lemma {:induction false} LimiterAcceptsIffDue(run: seq<Arrival>, n: nat)
    requires n < |run| && Serial(run)
    ensures ReplyTo(run, n) == Accepted <==> Due(AcceptedTimes(run, n), run[n].now)
  {
    AcceptedTimesAreHistory(run, n);
    LimiterRefinesReference(run, n);
    HistoryIsSane(run, n);
    AcceptedIffDue(History(run, n), run[n].now);
  }

  // Once the window has room, only the spacing can refuse.
  lemma SpacingIsAllThatIsLeft(history: seq<int>, now: int, later: int)
    requires Sorted(history) && now <= later && Reference(history, now).SlowDown?
    ensures var due := now + Reference(history, now).retryIn;
            Reference(history, later) == if later < due then SlowDown(due - later) else Accepted
  {
    LaterTwice(history, now - WINDOW, later - WINDOW);
    LaterBound(Later(history, now - WINDOW), later - WINDOW);
  }

  // retryIn is exact: as long as nothing is accepted meanwhile, every later request is refused
  // with the remaining wait before that instant and accepted from it on.
  lemma {:induction false} RetryInIsExact(run: seq<Arrival>, n: nat, m: nat)
    requires n < m < |run| && Serial(run)
    requires ReplyTo(run, n).SlowDown? && AcceptedTimes(run, m) == AcceptedTimes(run, n)
    ensures var due := run[n].now + ReplyTo(run, n).retryIn;
            ReplyTo(run, m) == if run[m].now < due then SlowDown(due - run[m].now) else Accepted
  {
    TimesGrow(run, n, m);
    AcceptedTimesAreHistory(run, n);
    AcceptedTimesAreHistory(run, m);
    LimiterRefinesReference(run, n);
    LimiterRefinesReference(run, m);
    HistoryIsSane(run, n);
    SpacingIsAllThatIsLeft(History(run, n), run[n].now, run[m].now);
  }

  // ----- window guarantees

  predicate Windowed(times: seq<int>) {
    forall i :: MAX_REQUESTS <= i < |times| ==> times[i] - times[i - MAX_REQUESTS] >= WINDOW
  }

  predicate Spaced(times: seq<int>) {
    forall i :: 1 <= i < |times| ==> times[i] - times[i - 1] >= MIN_INTERVAL
  }

  predicate Gapped(times: seq<int>) {
    Sorted(times) && Windowed(times) && Spaced(times)
  }

  lemma GappedAppend(times: seq<int>, now: int)
    requires Gapped(times) && Due(times, now)
    ensures Gapped(times + [now])
  {
    WindowedAppend(times, now);
    SpacedAppend(times, now);
  }

  lemma WindowedAppend(times: seq<int>, now: int)
    requires Windowed(times) && Due(times, now)
    ensures Windowed(times + [now])
  {
    var more := times + [now];
    forall i | MAX_REQUESTS <= i < |more| ensures more[i] - more[i - MAX_REQUESTS] >= WINDOW {
      assert i < |times| ==> times[i] - times[i - MAX_REQUESTS] >= WINDOW;
    }
  }

  lemma SpacedAppend(times: seq<int>, now: int)
    requires Spaced(times) && Sorted(times) && Due(times, now)
    ensures Spaced(times + [now]) && Sorted(times + [now])
  {
    var more := times + [now];
    forall i | 1 <= i < |more| ensures more[i] - more[i - 1] >= MIN_INTERVAL {
      assert i < |times| ==> times[i] - times[i - 1] >= MIN_INTERVAL;
    }
  }

  lemma GappedNext(history: seq<int>, now: int)
    requires Gapped(history) && Within(history, now)
    ensures Gapped(if Reference(history, now) == Accepted then history + [now] else history)
  {
    if Reference(history, now) == Accepted {
      AcceptedIffDue(history, now);
      GappedAppend(history, now);
    }
  }

  // Accepted requests keep their distance, the older ones being forgotten or not.
  lemma {:induction false} AcceptancesAreGapped(run: seq<Arrival>, n: nat)
    requires n <= |run| && Serial(run)
    ensures Gapped(History(run, n))
  {
    if n == 0 {
    } else {
      AcceptancesAreGapped(run, n - 1);
      HistoryIsSane(run, n - 1);
      GappedNext(History(run, n - 1), run[n - 1].now);
      HistoryStep(run, n);
    }
  }

  // How many of the times lie in the interval open at lo and closed at hi.
  function InInterval(times: seq<int>, lo: int, hi: int): nat {
    if times == [] then 0
    else
      var last := times[|times| - 1];
      InInterval(times[..|times| - 1], lo, hi) + if lo < last <= hi then 1 else 0
  }

  lemma {:induction false} InIntervalBound(times: seq<int>, lo: int, hi: int, aged: nat)
    requires Sorted(times) && aged <= |times| && (aged > 0 ==> times[aged - 1] <= lo)
    ensures InInterval(times, lo, hi) <= |times| - aged
    decreases |times|
  {
    if times == [] {
    } else if |times| > aged {
      InIntervalBound(times[..|times| - 1], lo, hi, aged);
    } else {
      InIntervalBound(times[..|times| - 1], lo, hi, aged - 1);
    }
  }

  lemma {:induction false} GapOfWindows(times: seq<int>, i: nat, n: nat)
    requires Gapped(times) && MAX_REQUESTS * n <= i < |times|
    ensures times[i] - times[i - MAX_REQUESTS * n] >= n * WINDOW
    decreases n
  {
    if n == 0 {
    } else {
      GapOfWindows(times, i, n - 1);
      assert times[i - MAX_REQUESTS * (n - 1)] - times[i - MAX_REQUESTS * n] >= WINDOW;
    }
  }

  lemma GappedPrefix(times: seq<int>, n: nat)
    requires Gapped(times) && n <= |times|
    ensures Gapped(times[..n])
  {
  }

  // More than 5n times, the last no later than hi: the last 5n are all that can lie in it.
  lemma IntervalIsFull(times: seq<int>, lo: int, hi: int, n: nat)
    requires Gapped(times) && hi - lo <= n * WINDOW
    requires |times| > MAX_REQUESTS * n && times[|times| - 1] <= hi
    ensures InInterval(times, lo, hi) <= MAX_REQUESTS * n
  {
    GapOfWindows(times, |times| - 1, n);
    InIntervalBound(times, lo, hi, |times| - MAX_REQUESTS * n);
  }

  lemma TooLateToCount(times: seq<int>, lo: int, hi: int)
    requires times != [] && times[|times| - 1] > hi
    ensures InInterval(times, lo, hi) == InInterval(times[..|times| - 1], lo, hi)
  {
  }

  lemma {:induction false} GappedIntervals(times: seq<int>, lo: int, hi: int, n: nat)
    requires Gapped(times) && hi - lo <= n * WINDOW
    ensures InInterval(times, lo, hi) <= MAX_REQUESTS * n
    decreases |times|
  {
    if |times| <= MAX_REQUESTS * n {
      InIntervalBound(times, lo, hi, 0);
    } else if times[|times| - 1] <= hi {
      IntervalIsFull(times, lo, hi, n);
    } else {
      GappedPrefix(times, |times| - 1);
      GappedIntervals(times[..|times| - 1], lo, hi, n);
      TooLateToCount(times, lo, hi);
    }
  }

  // Any k minutes in a row see at most 5k accepted requests, and two of them are never closer than
  // two seconds.
  lemma {:induction false} WindowGuarantee(run: seq<Arrival>, lo: int, hi: int, k: nat)
    requires Serial(run) && hi - lo <= k * 60_000
    ensures InInterval(AcceptedTimes(run, |run|), lo, hi) <= 5 * k
    ensures var times := AcceptedTimes(run, |run|);
            forall i :: 1 <= i < |times| ==> times[i] - times[i - 1] >= 2000
  {
    AcceptedTimesAreHistory(run, |run|);
    AcceptancesAreGapped(run, |run|);
    GappedIntervals(History(run, |run|), lo, hi, k);
  }

  // Times must be positive: at time 0 the spacing check is skipped.
  lemma ZeroIsNotSpaced()
    ensures Decide(Pruned(Next(ABSENT, 0), 0), 0) == Accepted
  {
  }
}
