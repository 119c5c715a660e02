/** One circuit breaker: the effect of each of its critical sections as a function on values,
    and the mutable object whose methods compute those functions. */
module Breaker {
  const WORD := 0x1_0000_0000

  // A Go uint32.
  type Word32 = x: nat | x < WORD

  datatype State = Closed | Open | HalfOpen

  datatype Counts = Counts(requests: nat, totalFailures: nat, failures: nat, successes: nat)

  const ZERO := Counts(0, 0, 0, 0)

  // The counters either have the source's 32 bits or are unbounded; module Width relates the two.
  datatype Width = Exact | Bits32

  datatype Config = Config(width: Width, maxRequests: Word32, timeout: int, readyToTrip: Counts -> bool) {
    // How many probes a half-open episode may admit. The first probe is admitted whatever
    // maxRequests says, so 0 acts as 1.
    function Limit(): nat {
      if maxRequests == 0 then 1 else maxRequests
    }
  }

  datatype Status = Status(state: State, generation: nat, counts: Counts, expiry: int)

  const INITIAL := Status(Closed, 0, ZERO, 0)

  datatype Refusal = BreakerOpen | TooManyRequests

  datatype Admission = Admitted(token: nat) | Refused(reason: Refusal)

  // ----- the critical sections as functions

  function Inc(w: Width, x: nat): nat {
    if w.Bits32? && x + 1 >= WORD then 0 else x + 1
  }

  function SetState(cfg: Config, b: Status, to: State, now: int): Status {
    if b.state == to then b
    else Status(to, b.generation + 1, ZERO, if to == Open then now + cfg.timeout else b.expiry)
  }

  // What beforeRequest answers ...
  function Answer(cfg: Config, b: Status, now: int): Admission {
    match b.state
    case Closed => Admitted(b.generation)
    case Open => if now > b.expiry then Admitted(b.generation + 1) else Refused(BreakerOpen)
    case HalfOpen =>
      if b.counts.requests >= cfg.maxRequests then Refused(TooManyRequests) else Admitted(b.generation)
  }

  // ... and what it leaves behind.
  function Before(cfg: Config, b: Status, now: int): Status {
    if Answer(cfg, b, now).Refused? then b
    else
      var b' := if b.state == Open then SetState(cfg, b, HalfOpen, now) else b;
      b'.(counts := b'.counts.(requests := Inc(cfg.width, b'.counts.requests)))
  }

  function OnSuccess(cfg: Config, b: Status, now: int): Status {
    match b.state
    case Closed =>
      b.(counts := b.counts.(
        successes := Inc(cfg.width, b.counts.successes),
        failures := if b.counts.failures > 0 then b.counts.failures - 1 else 0))
    case HalfOpen =>
      var b' := b.(counts := b.counts.(successes := Inc(cfg.width, b.counts.successes)));
      if b'.counts.successes >= cfg.maxRequests then SetState(cfg, b', Closed, now) else b'
    case Open => b
  }

  function OnFailure(cfg: Config, b: Status, now: int): Status {
    match b.state
    case Closed =>
      var b' := b.(counts := CountFailure(cfg, b.counts));
      if cfg.readyToTrip(b'.counts) then SetState(cfg, b', Open, now) else b'
    case HalfOpen => SetState(cfg, b, Open, now)
    case Open => b
  }

  // The counters shown to readyToTrip.
  function CountFailure(cfg: Config, c: Counts): Counts {
    c.(failures := Inc(cfg.width, c.failures), totalFailures := Inc(cfg.width, c.totalFailures))
  }

  function After(cfg: Config, b: Status, token: nat, success: bool, now: int): Status {
    if b.generation != token then b
    else if success then OnSuccess(cfg, b, now)
    else OnFailure(cfg, b, now)
  }

  // One Execute with no other goroutine in between.
  function Serial(cfg: Config, b: Status, success: bool, start: int, finish: int): Status {
    match Answer(cfg, b, start)
    case Refused(_) => b
    case Admitted(token) => After(cfg, Before(cfg, b, start), token, success, finish)
  }

  // What onStateChange hears of a step from one state to another ...
  function Notice(from: State, to: State): seq<(State, State)> {
    if from == to then [] else [(from, to)]
  }

  // ... and of one serial call.
  function Notices(cfg: Config, b: Status, success: bool, start: int, finish: int): seq<(State, State)> {
    Notice(b.state, Before(cfg, b, start).state)
    + Notice(Before(cfg, b, start).state, Serial(cfg, b, success, start, finish).state)
  }

  // ----- the default settings

  const SECOND := 1_000_000_000

  // failures/requests >= 0.6 in integers; TripRule.FloatTestIsExact justifies the form.
  predicate DefaultRule(c: Counts) {
    c.requests >= 3 && 5 * c.failures >= 3 * c.requests
  }

  function DefaultConfig(w: Width): Config {
    Config(w, 5, 60 * SECOND, c => DefaultRule(c))
  }

  // ----- the object

  // How the protected call ended.
  datatype Outcome = Succeeded | Failed | Panicked

  // What Execute hands to its caller.
  datatype Ended = NotRun(reason: Refusal) | Ran(outcome: Outcome)

  class CircuitBreaker {
    const maxRequests: Word32
    const interval: int  // stored and never read, as in the source
    const timeout: int
    const readyToTrip: Counts -> bool

    var state: State
    var generation: nat
    var counts: Counts
    var expiry: int
    var changes: seq<(State, State)>  // the calls onStateChange has received

    function Cfg(): Config {
      Config(Bits32, maxRequests, timeout, readyToTrip)
    }

    function View(): Status
      reads this
    {
      Status(state, generation, counts, expiry)
    }

    constructor (maxRequests: Word32, interval: int, timeout: int, readyToTrip: Counts -> bool)
      ensures View() == INITIAL && changes == []
      ensures this.maxRequests == maxRequests && this.readyToTrip == readyToTrip
      ensures this.timeout == if timeout == 0 then 60 * SECOND else timeout
    {
      this.maxRequests := maxRequests;
      this.interval := if interval == 0 then 60 * SECOND else interval;
      this.timeout := if timeout == 0 then 60 * SECOND else timeout;
      this.readyToTrip := readyToTrip;
      state, generation, counts, expiry, changes := Closed, 0, ZERO, 0, [];
    }

    method BeforeRequest(now: int) returns (answer: Admission)
      modifies this
      ensures answer == Answer(Cfg(), old(View()), now)
      ensures View() == Before(Cfg(), old(View()), now)
      ensures changes == old(changes) + Notice(old(state), state)
    {
      match state {
        case Closed =>
          counts := counts.(requests := Inc(Bits32, counts.requests));
          return Admitted(generation);
        case Open =>
          if now > expiry {
            ChangeState(HalfOpen, now);
            counts := counts.(requests := Inc(Bits32, counts.requests));
            return Admitted(generation);
          }
          return Refused(BreakerOpen);
        case HalfOpen =>
          if counts.requests >= maxRequests {
            return Refused(TooManyRequests);
          }
          counts := counts.(requests := Inc(Bits32, counts.requests));
          return Admitted(generation);
      }
    }

    method AfterRequest(token: nat, success: bool, now: int)
      modifies this
      ensures View() == After(Cfg(), old(View()), token, success, now)
      ensures changes == old(changes) + Notice(old(state), state)
    {
      if generation != token {
        return;
      }
      if success {
        Succeed(now);
      } else {
        Fail(now);
      }
    }

    method Succeed(now: int)
      modifies this
      ensures View() == OnSuccess(Cfg(), old(View()), now)
      ensures changes == old(changes) + Notice(old(state), state)
    {
      if state == Closed {
        counts := counts.(successes := Inc(Bits32, counts.successes));
        if counts.failures > 0 {
          counts := counts.(failures := counts.failures - 1);
        }
      } else if state == HalfOpen {
        counts := counts.(successes := Inc(Bits32, counts.successes));
        if counts.successes >= maxRequests {
          ChangeState(Closed, now);
        }
      }
    }

    method Fail(now: int)
      modifies this
      ensures View() == OnFailure(Cfg(), old(View()), now)
      ensures changes == old(changes) + Notice(old(state), state)
    {
      if state == Closed {
        counts := counts.(failures := Inc(Bits32, counts.failures));
        counts := counts.(totalFailures := Inc(Bits32, counts.totalFailures));
        if readyToTrip(counts) {
          ChangeState(Open, now);
        }
      } else if state == HalfOpen {
        ChangeState(Open, now);
      }
    }

    method ChangeState(to: State, now: int)
      modifies this
      ensures View() == SetState(Cfg(), old(View()), to, now)
      ensures changes == old(changes) + Notice(old(state), to)
    {
      if state == to {
        return;
      }
      var prev := state;
      state := to;
      generation := generation + 1;
      if state == Open {
        expiry := now + timeout;
      }
      changes := changes + [(prev, to)];
      counts := ZERO;
    }

    // Execute with no other call in between. A panic is recorded as a failure and raised again.
    method Execute(outcome: Outcome, start: int, finish: int) returns (ended: Ended)
      modifies this
      ensures ended == match Answer(Cfg(), old(View()), start)
                       case Refused(reason) => NotRun(reason)
                       case Admitted(_) => Ran(outcome)
      ensures View() == Serial(Cfg(), old(View()), outcome == Succeeded, start, finish)
      ensures changes == old(changes) + Notices(Cfg(), old(View()), outcome == Succeeded, start, finish)
    {
      var answer := BeforeRequest(start);
      if answer.Refused? {
        return NotRun(answer.reason);
      }
      AfterRequest(answer.token, outcome == Succeeded, finish);
      return Ran(outcome);
    }
  }
}
