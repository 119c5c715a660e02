/** The payment consumer: a pool of workers that take messages from a queue with manual
    acknowledgement, charge through one breaker, and settle every delivery. */
module Payment {
  import opened Breaker
  import opened Wrapper
  import opened Accounting
  import opened Counting

  datatype Message = Message(id: nat, wellFormed: bool)

  // How an attempt to charge ends. Lost: Stripe charged, but the consumer sees an error.
  datatype Stripe = Charged | Lost | Declined

  // Ack, Reject without requeueing, Reject with requeueing.
  datatype Settlement = Acked | Dropped | Requeued

  // A delivery with everything its processing meets.
  datatype Delivery = Delivery(message: Message, contextDone: bool, stripe: Stripe, start: int, finish: int)

  function Settle(cfg: Config, b: Status, d: Delivery): Settlement {
    if !d.message.wellFormed then Dropped
    else if Answer(cfg, b, d.start).Refused? then Requeued
    else if !d.contextDone && d.stripe == Charged then Acked
    else Dropped
  }

  predicate Attempts(cfg: Config, b: Status, d: Delivery) {
    d.message.wellFormed && Answer(cfg, b, d.start).Admitted? && !d.contextDone
  }

  function BreakerAfter(cfg: Config, b: Status, ds: seq<Delivery>, n: nat): Status
    requires n <= |ds|
  {
    if n == 0 then b
    else
      var b1, d := BreakerAfter(cfg, b, ds, n - 1), ds[n - 1];
      if d.message.wellFormed
      then Serial(cfg, b1, !d.contextDone && d.stripe == Charged, d.start, d.finish)
      else b1
  }

  // How the i-th of a series of deliveries is settled, and the attempts the first n lead to.
  function SettledAs(cfg: Config, b: Status, ds: seq<Delivery>, i: nat): Settlement
    requires i < |ds|
  {
    Settle(cfg, BreakerAfter(cfg, b, ds, i), ds[i])
  }

  function AttemptsOf(cfg: Config, b: Status, ds: seq<Delivery>, n: nat): seq<Message>
    requires n <= |ds|
  {
    if n == 0 then []
    else
      AttemptsOf(cfg, b, ds, n - 1)
      + if Attempts(cfg, BreakerAfter(cfg, b, ds, n - 1), ds[n - 1]) then [ds[n - 1].message] else []
  }

  // One consumer whose worker runs alone; the pool is below.
  class PaymentConsumer {
    const guard: Guard
    var inProgress: int        // the WaitGroup's counter
    var attempts: seq<Message> // charge attempts made

    constructor ()
      ensures fresh(guard) && fresh(guard.cb) && guard.cb.View() == INITIAL
      ensures inProgress == 0 && attempts == []
    {
      guard := new Guard();
      inProgress, attempts := 0, [];
    }

    // Every delivery is settled exactly once: requeued if and only if the breaker refused, and
    // then nothing was charged; acknowledged if and only if the one attempt succeeded.
    method ProcessMessage(d: Delivery) returns (settlement: Settlement)
      modifies this, guard.cb
      ensures settlement == Settle(guard.cb.Cfg(), old(guard.cb.View()), d)
      ensures attempts == old(attempts) + if Attempts(guard.cb.Cfg(), old(guard.cb.View()), d) then [d.message] else []
      ensures guard.cb.View() == BreakerAfter(guard.cb.Cfg(), old(guard.cb.View()), [d], 1)
      ensures inProgress == old(inProgress) - 1
    {
      if !d.message.wellFormed {
        inProgress := inProgress - 1;
        return Dropped;
      }
      var call := if d.stripe == Charged then Result(Some(d.message.id), None)
                  else Result(None, Some(Other("failed to create payment intent")));
      var over := if d.contextDone then Some("context deadline exceeded") else None;
      var result, ran := guard.ExecuteContext(over, call, d.start, d.finish);
      if ran {
        attempts := attempts + [d.message];
      }
      inProgress := inProgress - 1;
      if result.error != None {
        if IsCircuitBreakerError(result.error) {
          return Requeued;
        } else {
          return Dropped;
        }
      }
      return Acked;
    }

    // The worker loop. It takes messages until the channel is closed or it picks the cancelled
    // context instead, leaving the rest of the channel alone; `taken` is when.
    method StartWorker(messages: seq<Delivery>, taken: nat) returns (settled: seq<Settlement>)
      requires taken <= |messages|
      modifies this, guard.cb
      ensures |settled| == taken && inProgress == old(inProgress)
      ensures forall i :: 0 <= i < taken ==>
                settled[i] == SettledAs(guard.cb.Cfg(), old(guard.cb.View()), messages, i)
      ensures attempts == old(attempts) + AttemptsOf(guard.cb.Cfg(), old(guard.cb.View()), messages, taken)
      ensures guard.cb.View() == BreakerAfter(guard.cb.Cfg(), old(guard.cb.View()), messages, taken)
    {
      ghost var cfg, b0 := guard.cb.Cfg(), guard.cb.View();
      settled := [];
      var i := 0;
      while i < taken
        invariant 0 <= i == |settled| <= taken
        invariant inProgress == old(inProgress)
        invariant guard.cb.View() == BreakerAfter(cfg, b0, messages, i)
        invariant attempts == old(attempts) + AttemptsOf(cfg, b0, messages, i)
        invariant forall j :: 0 <= j < i ==> settled[j] == SettledAs(cfg, b0, messages, j)
      {
        inProgress := inProgress + 1;
        ghost var b := guard.cb.View();
        var settlement := ProcessMessage(messages[i]);
        BreakerAfterOne(cfg, b, messages[i]);
        settled := settled + [settlement];
        i := i + 1;
      }
    }
  }

  lemma BreakerAfterOne(cfg: Config, b: Status, d: Delivery)
    ensures BreakerAfter(cfg, b, [d], 1) ==
            if d.message.wellFormed
            then Serial(cfg, b, !d.contextDone && d.stripe == Charged, d.start, d.finish)
            else b
  {
    assert BreakerAfter(cfg, b, [d], 0) == b;
  }

  // ----- the pool: any number of workers and requeues, interleaved

  datatype Worker =
    | Idle
    | Received(m: Message)
    | Calling(m: Message, token: nat)
    | Returned(m: Message, token: nat, ok: bool)

  // What has happened to one message. `attempts` counts the charge attempts that reached Stripe,
  // `charges` those that charged, and `lost` those of them whose reply was lost.
  datatype Entry = Entry(published: nat, queued: nat, acked: nat, dropped: nat, attempts: nat, charges: nat, lost: nat)

  const BLANK := Entry(0, 0, 0, 0, 0, 0, 0)

  type Ledger = map<Message, Entry>

  function About(l: Ledger, m: Message): Entry {
    if m in l then l[m] else BLANK
  }

  datatype Sys = Sys(b: Status, workers: seq<Worker>, ledger: Ledger)

  datatype Event =
    | Publish(m: Message)
    | Take(w: nat, m: Message)                     // the broker delivers to worker w
    | Begin(w: nat, now: int)                      // parse, then beforeRequest
    | Charge(w: nat, done: bool, stripe: Stripe)   // the protected call
    | End(w: nat, now: int)                        // afterRequest, then the settlement

  function Held(x: Worker): multiset<Message> {
    if x.Idle? then multiset{} else multiset{x.m}
  }

  function Token(x: Worker): multiset<nat> {
    if x.Calling? || x.Returned? then multiset{x.token} else multiset{}
  }

  // The event is the next thing that can happen to a worker in state x.
  predicate Applies(l: Ledger, x: Worker, e: Event) {
    match e
    case Publish(_) => false
    case Take(_, m) => x.Idle? && About(l, m).queued > 0
    case Begin(_, _) => x.Received?
    case Charge(_, _, _) => x.Calling?
    case End(_, _) => x.Returned?
  }

  predicate IsRefused(cfg: Config, b: Status, x: Worker, e: Event) {
    e.Begin? && x.Received? && x.m.wellFormed && Answer(cfg, b, e.now).Refused?
  }

  function NextBreaker(cfg: Config, b: Status, x: Worker, e: Event): Status {
    if e.Begin? && x.Received? && x.m.wellFormed then Before(cfg, b, e.now)
    else if e.End? && x.Returned? then After(cfg, b, x.token, x.ok, e.now)
    else b
  }

  function NextWorker(cfg: Config, b: Status, l: Ledger, x: Worker, e: Event): Worker
    requires Applies(l, x, e)
  {
    match e
    case Take(_, m) => Received(m)
    case Begin(_, now) =>
      if !x.m.wellFormed || Answer(cfg, b, now).Refused? then Idle
      else Calling(x.m, Answer(cfg, b, now).token)
    case Charge(_, done, stripe) => Returned(x.m, x.token, !done && stripe == Charged)
    case End(_, _) => Idle
  }

  // The message the event is about, and what becomes of its entry t.
  function Subject(l: Ledger, x: Worker, e: Event): Message
    requires Applies(l, x, e)
  {
    if e.Take? then e.m else x.m
  }

  function Attempted(t: Entry, stripe: Stripe): Entry {
    match stripe
    case Charged => t.(attempts := t.attempts + 1, charges := t.charges + 1)
    case Lost => t.(attempts := t.attempts + 1, charges := t.charges + 1, lost := t.lost + 1)
    case Declined => t.(attempts := t.attempts + 1)
  }

  function NextEntry(x: Worker, e: Event, refused: bool, t: Entry): Entry {
    match e
    case Publish(_) => t
    case Take(_, _) => t.(queued := if t.queued > 0 then t.queued - 1 else 0)
    case Begin(_, _) =>
      if refused then t.(queued := t.queued + 1)
      else if x.Received? && !x.m.wellFormed then t.(dropped := t.dropped + 1)
      else t
    case Charge(_, done, stripe) =>
      if done then t else Attempted(t, stripe)
    case End(_, _) =>
      if x.Returned? && x.ok then t.(acked := t.acked + 1) else t.(dropped := t.dropped + 1)
  }

  // Events that do not apply change nothing. A published message is new.
  function Step(cfg: Config, s: Sys, e: Event): Sys {
    var l := s.ledger;
    if e.Publish? then
      var t := About(l, e.m);
      if t.published > 0 then s
      else s.(ledger := l[e.m := t.(published := 1, queued := t.queued + 1)])
    else if e.w < |s.workers| && Applies(l, s.workers[e.w], e) then
      var x := s.workers[e.w];
      var m := Subject(l, x, e);
      Sys(NextBreaker(cfg, s.b, x, e),
          s.workers[e.w := NextWorker(cfg, s.b, l, x, e)],
          l[m := NextEntry(x, e, IsRefused(cfg, s.b, x, e), About(l, m))])
    else s
  }

  function Pool(workers: nat): Sys {
    Sys(INITIAL, seq(workers, _ => Idle), map[])
  }

  function At(cfg: Config, workers: nat, es: seq<Event>, n: nat): Sys
    requires n <= |es|
  {
    if n == 0 then Pool(workers) else Step(cfg, At(cfg, workers, es, n - 1), es[n - 1])
  }

  // Worker e.w makes a move.
  predicate Moves(s: Sys, e: Event) {
    !e.Publish? && e.w < |s.workers| && Applies(s.ledger, s.workers[e.w], e)
  }

  function Holders(s: Sys, m: Message): nat {
    Bag(Held, s.workers)[m]
  }

  function Holds(x: Worker, m: Message): nat {
    if !x.Idle? && x.m == m then 1 else 0
  }

  // Worker x gives its message up.
  predicate Leaves(x: Worker, e: Event, refused: bool) {
    e.End? || (e.Begin? && x.Received? && (refused || !x.m.wellFormed))
  }

  // What the move e of worker x does to the entry t of m and to the number of its holders.
  predicate Moved(l: Ledger, x: Worker, e: Event, refused: bool, m: Message,
                  t: Entry, holders: nat, t': Entry, holders': nat)
    requires Applies(l, x, e)
  {
    && t == About(l, m)
    && (if m == Subject(l, x, e) then
          && t' == NextEntry(x, e, refused, t)
          && holders' + (if e.Take? then 0 else 1) == holders + if Leaves(x, e, refused) then 0 else 1
        else
          t' == t && holders' == holders)
  }

  lemma EntryAt(cfg: Config, s: Sys, e: Event, m: Message)
    requires Moves(s, e)
    ensures var x, t := s.workers[e.w], About(s.ledger, m);
            About(Step(cfg, s, e).ledger, m)
            == if m == Subject(s.ledger, x, e) then NextEntry(x, e, IsRefused(cfg, s.b, x, e), t) else t
    ensures Step(cfg, s, e).workers == s.workers[e.w := NextWorker(cfg, s.b, s.ledger, s.workers[e.w], e)]
  {
  }

  lemma HoldersAt(s: Sys, w: nat, x': Worker, s': Sys, m: Message)
    requires w < |s.workers| && s'.workers == s.workers[w := x']
    ensures Holders(s', m) + Holds(s.workers[w], m) == Holders(s, m) + Holds(x', m)
  {
    BagUpdate(Held, s.workers, w, x');
  }

  lemma HoldsAfter(cfg: Config, b: Status, l: Ledger, x: Worker, e: Event, m: Message)
    requires Applies(l, x, e)
    ensures Holds(x, m) == if m == Subject(l, x, e) && !e.Take? then 1 else 0
    ensures Holds(NextWorker(cfg, b, l, x, e), m)
         == if m == Subject(l, x, e) && !Leaves(x, e, IsRefused(cfg, b, x, e)) then 1 else 0
  {
  }

  lemma MoveAt(cfg: Config, s: Sys, e: Event, m: Message)
    requires Moves(s, e)
    ensures var x, s' := s.workers[e.w], Step(cfg, s, e);
            && |s'.workers| == |s.workers|
            && s'.workers[e.w] == NextWorker(cfg, s.b, s.ledger, x, e)
            && Moved(s.ledger, x, e, IsRefused(cfg, s.b, x, e), m,
                     About(s.ledger, m), Holders(s, m), About(s'.ledger, m), Holders(s', m))
            && forall j :: 0 <= j < |s.workers| && j != e.w ==> s'.workers[j] == s.workers[j]
  {
    var x := s.workers[e.w];
    EntryAt(cfg, s, e, m);
    HoldersAt(s, e.w, NextWorker(cfg, s.b, s.ledger, x, e), Step(cfg, s, e), m);
    HoldsAfter(cfg, s.b, s.ledger, x, e, m);
  }

  // Without a move only a new publication changes anything.
  lemma RestAt(cfg: Config, s: Sys, e: Event, m: Message)
    requires !Moves(s, e)
    ensures var s' := Step(cfg, s, e);
            var t := About(s.ledger, m);
            && s'.workers == s.workers
            && Holders(s', m) == Holders(s, m)
            && About(s'.ledger, m) == if e.Publish? && e.m == m && t.published == 0
                                      then t.(published := 1, queued := t.queued + 1) else t
  {
  }

  // ----- conservation

  predicate ConservedAbout(t: Entry, holders: nat) {
    t.published == t.acked + t.dropped + t.queued + holders <= 1
  }

  predicate ConservedFor(s: Sys, m: Message) {
    ConservedAbout(About(s.ledger, m), Holders(s, m))
  }

  ghost predicate Conserved(s: Sys) {
    forall m :: ConservedFor(s, m)
  }

  lemma EntryConserves(l: Ledger, x: Worker, e: Event, refused: bool, m: Message,
                       t: Entry, holders: nat, t': Entry, holders': nat)
    requires Applies(l, x, e) && (refused ==> x.Received? && x.m.wellFormed)
    requires Moved(l, x, e, refused, m, t, holders, t', holders') && ConservedAbout(t, holders)
    ensures ConservedAbout(t', holders')
  {
  }

  lemma ConservedAt(cfg: Config, s: Sys, e: Event, m: Message)
    requires ConservedFor(s, m)
    ensures ConservedFor(Step(cfg, s, e), m)
  {
    var s' := Step(cfg, s, e);
    if Moves(s, e) {
      MoveAt(cfg, s, e, m);
      EntryConserves(s.ledger, s.workers[e.w], e, IsRefused(cfg, s.b, s.workers[e.w], e), m,
                     About(s.ledger, m), Holders(s, m), About(s'.ledger, m), Holders(s', m));
    } else {
      RestAt(cfg, s, e, m);
    }
  }

  lemma ConservedStep(cfg: Config, s: Sys, e: Event)
    requires Conserved(s)
    ensures Conserved(Step(cfg, s, e))
  {
    forall m ensures ConservedFor(Step(cfg, s, e), m) {
      assert ConservedFor(s, m);
      ConservedAt(cfg, s, e, m);
    }
  }

  // ----- the breaker

  lemma MoveBalances(cfg: Config, b: Status, tokens: multiset<nat>, l: Ledger, x: Worker, e: Event)
    requires Applies(l, x, e) && Balanced(cfg, b, tokens) && Token(x) <= tokens
    ensures Balanced(cfg, NextBreaker(cfg, b, x, e), tokens - Token(x) + Token(NextWorker(cfg, b, l, x, e)))
  {
    if e.Begin? && x.m.wellFormed {
      BeginBalances(cfg, b, tokens, l, x, e);
    } else if e.End? {
      EndBalances(cfg, b, tokens, l, x, e);
    } else {
      KeepsToken(cfg, b, l, x, e);
      BalancedIdle(cfg, b, tokens, Token(x));
    }
  }

  lemma BeginBalances(cfg: Config, b: Status, tokens: multiset<nat>, l: Ledger, x: Worker, e: Event)
    requires Applies(l, x, e) && e.Begin? && x.m.wellFormed && Balanced(cfg, b, tokens)
    ensures Balanced(cfg, NextBreaker(cfg, b, x, e), tokens - Token(x) + Token(NextWorker(cfg, b, l, x, e)))
  {
    BalancedBegin(cfg, b, tokens, Token(NextWorker(cfg, b, l, x, e)), e.now);
  }

  lemma EndBalances(cfg: Config, b: Status, tokens: multiset<nat>, l: Ledger, x: Worker, e: Event)
    requires Applies(l, x, e) && e.End? && Balanced(cfg, b, tokens) && Token(x) <= tokens
    ensures Balanced(cfg, NextBreaker(cfg, b, x, e), tokens - Token(x) + Token(NextWorker(cfg, b, l, x, e)))
  {
    BalancedEnd(cfg, b, tokens, x.token, x.ok, e.now);
  }

  lemma KeepsToken(cfg: Config, b: Status, l: Ledger, x: Worker, e: Event)
    requires Applies(l, x, e) && !e.End? && (e.Begin? ==> !x.m.wellFormed)
    ensures Token(NextWorker(cfg, b, l, x, e)) == Token(x) && NextBreaker(cfg, b, x, e) == b
  {
  }

  // The breaker keeps its own invariant, the workers' tokens being the outstanding ones.
  predicate Guarded(cfg: Config, s: Sys) {
    Balanced(cfg, s.b, Bag(Token, s.workers))
  }

  lemma GuardedStep(cfg: Config, s: Sys, e: Event)
    requires Guarded(cfg, s)
    ensures Guarded(cfg, Step(cfg, s, e))
  {
    if Moves(s, e) {
      BagUpdate(Token, s.workers, e.w, NextWorker(cfg, s.b, s.ledger, s.workers[e.w], e));
      MoveBalances(cfg, s.b, Bag(Token, s.workers), s.ledger, s.workers[e.w], e);
    }
  }

  // ----- at most one charge

  // The entry of the message worker x holds.
  predicate HonestWorker(t: Entry, x: Worker) {
    match x
    case Idle => true
    case Received(_) => t.attempts == t.charges == t.lost == 0
    case Calling(_, _) => t.attempts == t.charges == t.lost == 0
    case Returned(_, _, ok) => if ok then t.attempts == t.charges == 1 && t.lost == 0
                               else t.charges == t.lost <= t.attempts <= 1
  }

  predicate HonestEntry(t: Entry) {
    && (t.published == 0 || t.queued > 0 ==> t.attempts == t.charges == t.lost == 0)
    && (t.acked > 0 ==> t.attempts == t.charges == 1 && t.lost == 0)
    && (t.dropped > 0 ==> t.charges == t.lost <= t.attempts <= 1)
  }

  function EntryOf(l: Ledger, x: Worker): Entry {
    if x.Idle? then BLANK else About(l, x.m)
  }

  predicate HonestFor(s: Sys, m: Message) {
    HonestEntry(About(s.ledger, m))
  }

  predicate HonestAt(s: Sys, i: nat)
    requires i < |s.workers|
  {
    HonestWorker(EntryOf(s.ledger, s.workers[i]), s.workers[i])
  }

  ghost predicate Honest(s: Sys) {
    && (forall m :: HonestFor(s, m))
    && (forall i :: 0 <= i < |s.workers| ==> HonestAt(s, i))
  }

  // A message a worker holds is nowhere else, nor with another worker.
  lemma Apart(s: Sys, i: nat, m: Message)
    requires Conserved(s) && i < |s.workers| && !s.workers[i].Idle? && s.workers[i].m == m
    ensures var t := About(s.ledger, m);
            t.published == 1 && t.acked == t.dropped == t.queued == 0
    ensures forall j :: 0 <= j < |s.workers| && j != i && !s.workers[j].Idle? ==> s.workers[j].m != m
  {
    BagUpdate(Held, s.workers, i, Idle);
    assert ConservedFor(s, m);
    forall j | 0 <= j < |s.workers| && j != i && !s.workers[j].Idle? ensures s.workers[j].m != m {
      if s.workers[j].m == m {
        BagTwice(Held, s.workers, if i < j then i else j, if i < j then j else i, m);
      }
    }
  }

  // A message in the queue is with no worker.
  lemma QueuedIsFree(s: Sys, m: Message)
    requires Conserved(s) && About(s.ledger, m).queued > 0
    ensures forall j :: 0 <= j < |s.workers| && !s.workers[j].Idle? ==> s.workers[j].m != m
  {
    forall j | 0 <= j < |s.workers| && !s.workers[j].Idle? ensures s.workers[j].m != m {
      if s.workers[j].m == m {
        Apart(s, j, m);
      }
    }
  }

  lemma EntryStaysHonest(cfg: Config, b: Status, l: Ledger, x: Worker, e: Event)
    requires Applies(l, x, e)
    requires var t := About(l, Subject(l, x, e));
             && HonestEntry(t) && (x.Idle? || HonestWorker(t, x))
             && (x.Idle? || (t.published == 1 && t.acked == t.dropped == t.queued == 0))
    ensures var t' := NextEntry(x, e, IsRefused(cfg, b, x, e), About(l, Subject(l, x, e)));
            HonestEntry(t') && HonestWorker(t', NextWorker(cfg, b, l, x, e))
  {
  }

  // No other worker holds the message of e.w's move.
  lemma SubjectIsAlone(s: Sys, e: Event)
    requires Conserved(s) && Moves(s, e)
    ensures var m := Subject(s.ledger, s.workers[e.w], e);
            forall j :: 0 <= j < |s.workers| && j != e.w && !s.workers[j].Idle? ==> s.workers[j].m != m
    ensures var x := s.workers[e.w];
            var t := About(s.ledger, Subject(s.ledger, x, e));
            x.Idle? || (t.published == 1 && t.acked == t.dropped == t.queued == 0)
  {
    var x := s.workers[e.w];
    if x.Idle? {
      QueuedIsFree(s, e.m);
    } else {
      Apart(s, e.w, x.m);
    }
  }

  // The worker that moves, and its message.
  lemma HonestMover(cfg: Config, s: Sys, e: Event)
    requires Conserved(s) && Honest(s) && Moves(s, e)
    ensures HonestFor(Step(cfg, s, e), Subject(s.ledger, s.workers[e.w], e)) && HonestAt(Step(cfg, s, e), e.w)
  {
    var x := s.workers[e.w];
    var k := Subject(s.ledger, x, e);
    SubjectIsAlone(s, e);
    assert HonestFor(s, k) && HonestAt(s, e.w);
    EntryStaysHonest(cfg, s.b, s.ledger, x, e);
    MoveAt(cfg, s, e, k);
  }

  // Another worker, whose message is another one.
  lemma HonestBystander(cfg: Config, s: Sys, e: Event, j: nat)
    requires Conserved(s) && Moves(s, e) && j < |s.workers| && j != e.w && HonestAt(s, j)
    ensures HonestAt(Step(cfg, s, e), j)
  {
    SubjectIsAlone(s, e);
    MoveAt(cfg, s, e, if s.workers[j].Idle? then Message(0, true) else s.workers[j].m);
  }

  lemma HonestMove(cfg: Config, s: Sys, e: Event)
    requires Conserved(s) && Honest(s) && Moves(s, e)
    ensures Honest(Step(cfg, s, e))
  {
    var s' := Step(cfg, s, e);
    HonestMover(cfg, s, e);
    forall m ensures HonestFor(s', m) {
      assert HonestFor(s, m);
      MoveAt(cfg, s, e, m);
    }
    forall j | 0 <= j < |s'.workers| ensures HonestAt(s', j) {
      if j != e.w {
        HonestBystander(cfg, s, e, j);
      }
    }
  }

  lemma HonestRest(cfg: Config, s: Sys, e: Event)
    requires Conserved(s) && Honest(s) && !Moves(s, e)
    ensures Honest(Step(cfg, s, e))
  {
    var s' := Step(cfg, s, e);
    forall m ensures HonestFor(s', m) {
      assert HonestFor(s, m);
      RestAt(cfg, s, e, m);
    }
    forall j | 0 <= j < |s'.workers| ensures HonestAt(s', j) {
      RestAt(cfg, s, e, if s.workers[j].Idle? then Message(0, true) else s.workers[j].m);
      assert HonestAt(s, j);
    }
  }

  ghost predicate Sound(cfg: Config, s: Sys) {
    Conserved(s) && Honest(s) && Guarded(cfg, s)
  }

  lemma SoundStep(cfg: Config, s: Sys, e: Event)
    requires Sound(cfg, s)
    ensures Sound(cfg, Step(cfg, s, e))
  {
    ConservedStep(cfg, s, e);
    GuardedStep(cfg, s, e);
    if Moves(s, e) {
      HonestMove(cfg, s, e);
    } else {
      HonestRest(cfg, s, e);
    }
  }

  lemma LastEvent(cfg: Config, workers: nat, es: seq<Event>, n: nat)
    requires 0 < n <= |es|
    ensures At(cfg, workers, es, n) == Step(cfg, At(cfg, workers, es, n - 1), es[n - 1])
  {
  }

  // Every reachable state of the pool is sound.
  lemma {:induction false} PoolIsSound(cfg: Config, workers: nat, es: seq<Event>, n: nat)
    requires n <= |es|
    ensures Sound(cfg, At(cfg, workers, es, n))
  {
    if n == 0 {
      PoolStartsSound(cfg, workers);
    } else {
      PoolIsSound(cfg, workers, es, n - 1);
      SoundStep(cfg, At(cfg, workers, es, n - 1), es[n - 1]);
      LastEvent(cfg, workers, es, n);
    }
  }

  lemma PoolStartsSound(cfg: Config, workers: nat)
    ensures Sound(cfg, Pool(workers))
  {
    EmptyPool(workers);
    GuardedAtStart(cfg, Pool(workers));
    ConservedAtStart(workers);
    HonestAtStart(workers);
  }

  lemma GuardedAtStart(cfg: Config, s: Sys)
    requires s.b == INITIAL && Bag(Token, s.workers) == multiset{}
    ensures Guarded(cfg, s)
  {
  }

  lemma ConservedAtStart(workers: nat)
    ensures Conserved(Pool(workers))
  {
    EmptyPool(workers);
    forall m ensures ConservedFor(Pool(workers), m) {
    }
  }

  lemma HonestAtStart(workers: nat)
    ensures Honest(Pool(workers))
  {
    forall m ensures HonestFor(Pool(workers), m) {
    }
    forall i | 0 <= i < workers ensures HonestAt(Pool(workers), i) {
    }
  }

  lemma {:induction false} EmptyPool(workers: nat)
    ensures Bag(Held, Pool(workers).workers) == multiset{}
    ensures Bag(Token, Pool(workers).workers) == multiset{}
  {
    if workers == 0 {
    } else {
      EmptyPool(workers - 1);
      assert Pool(workers).workers[..workers - 1] == Pool(workers - 1).workers;
    }
  }

  // Whatever the interleaving and however often a message is requeued: at most one charge is
  // attempted for it; it is acknowledged only after exactly one attempt, a successful one; for a
  // message still queued nothing was attempted; a dropped one has been charged exactly if the reply
  // to its charge was lost; and a charged message is acknowledged, dropped with its reply lost, or
  // held by the worker that charged it.
  lemma {:induction false} AtMostOneCharge(cfg: Config, workers: nat, es: seq<Event>, n: nat, m: Message)
    requires n <= |es|
    ensures var s := At(cfg, workers, es, n);
            var t := About(s.ledger, m);
            && t.lost <= t.charges <= t.attempts <= 1
            && (t.acked > 0 ==> t.attempts == t.charges == 1 && t.lost == 0)
            && (t.queued > 0 ==> t.attempts == 0)
            && (t.dropped > 0 ==> (t.charges > 0 <==> t.lost > 0))
            && (t.charges > 0 ==>
                  || t.acked > 0
                  || (t.dropped > 0 && t.lost > 0)
                  || exists i :: 0 <= i < |s.workers| && s.workers[i].Returned? && s.workers[i].m == m)
  {
    PoolIsSound(cfg, workers, es, n);
    OneCharge(At(cfg, workers, es, n), m);
  }

  predicate OneChargeOf(s: Sys, m: Message, t: Entry) {
    && HonestEntry(t)
    && t.lost <= t.charges <= t.attempts <= 1
    && (t.charges > 0 ==>
          || t.acked > 0
          || (t.dropped > 0 && t.lost > 0)
          || exists i :: 0 <= i < |s.workers| && s.workers[i].Returned? && s.workers[i].m == m)
  }

  lemma OneCharge(s: Sys, m: Message)
    requires Conserved(s) && Honest(s)
    ensures OneChargeOf(s, m, About(s.ledger, m))
  {
    assert HonestFor(s, m) && ConservedFor(s, m);
    if Holders(s, m) > 0 {
      var i := Holder(s.workers, m);
      assert HonestAt(s, i);
      HeldOnce(s, m, About(s.ledger, m), i);
    } else {
      SettledOnce(s, m, About(s.ledger, m));
    }
  }

  lemma HeldOnce(s: Sys, m: Message, t: Entry, i: nat)
    requires i < |s.workers| && !s.workers[i].Idle? && s.workers[i].m == m
    requires HonestEntry(t) && HonestWorker(t, s.workers[i])
    ensures OneChargeOf(s, m, t)
  {
  }

  lemma SettledOnce(s: Sys, m: Message, t: Entry)
    requires HonestEntry(t) && ConservedAbout(t, 0)
    ensures OneChargeOf(s, m, t)
  {
  }

  lemma {:induction false} Holder(workers: seq<Worker>, m: Message) returns (i: nat)
    requires m in Bag(Held, workers)
    ensures i < |workers| && !workers[i].Idle? && workers[i].m == m
  {
    var n := |workers| - 1;
    if m in Held(workers[n]) {
      i := n;
    } else {
      i := Holder(workers[..n], m);
    }
  }

  // Every published message is acknowledged, dropped, queued or held by a worker: in exactly one
  // of these places, and once; and there are no other messages.
  lemma {:induction false} MessagesAreConserved(cfg: Config, workers: nat, es: seq<Event>, n: nat, m: Message)
    requires n <= |es|
    ensures var s := At(cfg, workers, es, n);
            var t := About(s.ledger, m);
            t.published == t.acked + t.dropped + t.queued + Holders(s, m) <= 1
  {
    PoolIsSound(cfg, workers, es, n);
    assert ConservedFor(At(cfg, workers, es, n), m);
  }

  // ----- how often a message travels

  predicate RefusedNow(cfg: Config, s: Sys, e: Event, m: Message) {
    e.Begin? && e.w < |s.workers| && IsRefused(cfg, s.b, s.workers[e.w], e) && s.workers[e.w].m == m
  }

  predicate DeliveredNow(s: Sys, e: Event, m: Message) {
    e.Take? && e.m == m && Moves(s, e)
  }

  predicate RequeuedNow(cfg: Config, s: Sys, e: Event, m: Message) {
    !e.Publish? && About(Step(cfg, s, e).ledger, m).queued > About(s.ledger, m).queued
  }

  // Over the first n events: the deliveries of m to a worker, the refusals it met with, and the
  // times it was put back.
  function Deliveries(cfg: Config, workers: nat, es: seq<Event>, n: nat, m: Message): nat
    requires n <= |es|
  {
    if n == 0 then 0
    else
      Deliveries(cfg, workers, es, n - 1, m)
      + if DeliveredNow(At(cfg, workers, es, n - 1), es[n - 1], m) then 1 else 0
  }

  function Refusals(cfg: Config, workers: nat, es: seq<Event>, n: nat, m: Message): nat
    requires n <= |es|
  {
    if n == 0 then 0
    else
      Refusals(cfg, workers, es, n - 1, m)
      + if RefusedNow(cfg, At(cfg, workers, es, n - 1), es[n - 1], m) then 1 else 0
  }

  function Requeues(cfg: Config, workers: nat, es: seq<Event>, n: nat, m: Message): nat
    requires n <= |es|
  {
    if n == 0 then 0
    else
      Requeues(cfg, workers, es, n - 1, m)
      + if RequeuedNow(cfg, At(cfg, workers, es, n - 1), es[n - 1], m) then 1 else 0
  }

  // Settled for good, or with a worker.
  function Out(t: Entry, holders: nat): nat {
    t.acked + t.dropped + holders
  }

  lemma EntryFlows(l: Ledger, x: Worker, e: Event, refused: bool, m: Message,
                   t: Entry, holders: nat, t': Entry, holders': nat)
    requires Applies(l, x, e) && (refused ==> e.Begin? && x.Received? && x.m.wellFormed)
    requires Moved(l, x, e, refused, m, t, holders, t', holders')
    ensures Out(t', holders') + (if refused && x.m == m then 1 else 0)
         == Out(t, holders) + (if e.Take? && e.m == m then 1 else 0)
    ensures t'.queued > t.queued <==> refused && x.m == m
  {
  }

  // A message goes back to the queue exactly when the breaker refuses it, and each delivery is
  // matched by a refusal, a settlement or a holder.
  lemma StepFlows(cfg: Config, s: Sys, e: Event, m: Message)
    ensures var s' := Step(cfg, s, e);
            && Out(About(s'.ledger, m), Holders(s', m)) + (if RefusedNow(cfg, s, e, m) then 1 else 0)
               == Out(About(s.ledger, m), Holders(s, m)) + (if DeliveredNow(s, e, m) then 1 else 0)
            && (RequeuedNow(cfg, s, e, m) <==> RefusedNow(cfg, s, e, m))
  {
    if Moves(s, e) {
      var s' := Step(cfg, s, e);
      MoveAt(cfg, s, e, m);
      EntryFlows(s.ledger, s.workers[e.w], e, IsRefused(cfg, s.b, s.workers[e.w], e), m,
                 About(s.ledger, m), Holders(s, m), About(s'.ledger, m), Holders(s', m));
    } else {
      RestAt(cfg, s, e, m);
    }
  }

  lemma LastFlows(cfg: Config, workers: nat, es: seq<Event>, n: nat, m: Message)
    requires 0 < n <= |es|
    ensures var s, e := At(cfg, workers, es, n - 1), es[n - 1];
            && Deliveries(cfg, workers, es, n, m)
               == Deliveries(cfg, workers, es, n - 1, m) + (if DeliveredNow(s, e, m) then 1 else 0)
            && Refusals(cfg, workers, es, n, m)
               == Refusals(cfg, workers, es, n - 1, m) + (if RefusedNow(cfg, s, e, m) then 1 else 0)
            && Requeues(cfg, workers, es, n, m)
               == Requeues(cfg, workers, es, n - 1, m) + (if RequeuedNow(cfg, s, e, m) then 1 else 0)
  {
  }

  function OutAt(cfg: Config, workers: nat, es: seq<Event>, n: nat, m: Message): nat
    requires n <= |es|
  {
    var s := At(cfg, workers, es, n);
    Out(About(s.ledger, m), Holders(s, m))
  }

  lemma LastOut(cfg: Config, workers: nat, es: seq<Event>, n: nat, m: Message)
    requires 0 < n <= |es|
    ensures var s, e := At(cfg, workers, es, n - 1), es[n - 1];
            && OutAt(cfg, workers, es, n, m) + (if RefusedNow(cfg, s, e, m) then 1 else 0)
               == OutAt(cfg, workers, es, n - 1, m) + (if DeliveredNow(s, e, m) then 1 else 0)
            && (RequeuedNow(cfg, s, e, m) <==> RefusedNow(cfg, s, e, m))
  {
    LastEvent(cfg, workers, es, n);
    StepFlows(cfg, At(cfg, workers, es, n - 1), es[n - 1], m);
  }

  lemma NothingOut(workers: nat, m: Message)
    ensures Out(About(Pool(workers).ledger, m), Holders(Pool(workers), m)) == 0
  {
    ConservedAtStart(workers);
    assert ConservedFor(Pool(workers), m);
  }

  predicate Flows(cfg: Config, workers: nat, es: seq<Event>, n: nat, m: Message)
    requires n <= |es|
  {
    && Deliveries(cfg, workers, es, n, m) == Refusals(cfg, workers, es, n, m) + OutAt(cfg, workers, es, n, m)
    && Requeues(cfg, workers, es, n, m) == Refusals(cfg, workers, es, n, m)
  }

  lemma FlowsNext(cfg: Config, workers: nat, es: seq<Event>, n: nat, m: Message)
    requires 0 < n <= |es| && Flows(cfg, workers, es, n - 1, m)
    ensures Flows(cfg, workers, es, n, m)
  {
    LastFlows(cfg, workers, es, n, m);
    LastOut(cfg, workers, es, n, m);
  }

  lemma NothingOutYet(cfg: Config, workers: nat, es: seq<Event>, n: nat, m: Message)
    requires n == 0
    ensures OutAt(cfg, workers, es, n, m) == 0
  {
    assert At(cfg, workers, es, n) == Pool(workers);
    NothingOut(workers, m);
  }

  lemma NoFlowsYet(cfg: Config, workers: nat, es: seq<Event>, n: nat, m: Message)
    requires n == 0
    ensures Deliveries(cfg, workers, es, n, m) == 0
    ensures Refusals(cfg, workers, es, n, m) == Requeues(cfg, workers, es, n, m) == 0
  {
  }

  lemma {:induction false} FlowIsConserved(cfg: Config, workers: nat, es: seq<Event>, n: nat, m: Message)
    requires n <= |es|
    ensures Flows(cfg, workers, es, n, m)
  {
    if n == 0 {
      NothingOutYet(cfg, workers, es, n, m);
      NoFlowsYet(cfg, workers, es, n, m);
    } else {
      FlowIsConserved(cfg, workers, es, n - 1, m);
      FlowsNext(cfg, workers, es, n, m);
    }
  }

  // Over any run, a message is put back exactly as often as the breaker refuses it, and every
  // delivery of it ends in such a refusal or in its one final settlement, or is still with a worker.
  lemma {:induction false} EveryDeliveryEnds(cfg: Config, workers: nat, es: seq<Event>, n: nat, m: Message)
    requires n <= |es|
    ensures var s := At(cfg, workers, es, n);
            var t := About(s.ledger, m);
            var deliveries, refusals := Deliveries(cfg, workers, es, n, m), Refusals(cfg, workers, es, n, m);
            && Requeues(cfg, workers, es, n, m) == refusals
            && deliveries == refusals + t.acked + t.dropped + Holders(s, m)
            && t.queued + deliveries == t.published + refusals
            && refusals <= deliveries <= refusals + 1
  {
    FlowIsConserved(cfg, workers, es, n, m);
    MessagesAreConserved(cfg, workers, es, n, m);
  }

  // A refusal comes from a breaker that is not closed and does not notice it, and leaves the message
  // as new: queued, with nothing attempted.
  lemma {:induction false} RefusedIsAsNew(cfg: Config, workers: nat, es: seq<Event>, n: nat, m: Message)
    requires n < |es| && RefusedNow(cfg, At(cfg, workers, es, n), es[n], m)
    ensures var s, s' := At(cfg, workers, es, n), At(cfg, workers, es, n + 1);
            && s.b.state != Closed && s'.b == s.b
            && About(s'.ledger, m) == Entry(1, 1, 0, 0, 0, 0, 0) && Holders(s', m) == 0
  {
    PoolIsSound(cfg, workers, es, n);
    PoolIsSound(cfg, workers, es, n + 1);
    LastEvent(cfg, workers, es, n + 1);
    RefusedAsNew(cfg, At(cfg, workers, es, n), es[n], m);
    var s' := At(cfg, workers, es, n + 1);
    assert ConservedFor(s', m);
  }

  lemma RefusedAsNew(cfg: Config, s: Sys, e: Event, m: Message)
    requires Conserved(s) && Honest(s) && RefusedNow(cfg, s, e, m)
    ensures s.b.state != Closed && Step(cfg, s, e).b == s.b
    ensures About(Step(cfg, s, e).ledger, m) == Entry(1, 1, 0, 0, 0, 0, 0)
  {
    Apart(s, e.w, m);
    assert HonestAt(s, e.w);
    EntryAt(cfg, s, e, m);
  }

  // ----- the pool and the single worker agree

  // What a delivery settled this way adds to its message's entry.
  function Settled(cfg: Config, b: Status, d: Delivery, t: Entry): Entry {
    var attempted := if Attempts(cfg, b, d) then 1 else 0;
    var t' := t.(attempts := t.attempts + attempted,
                 charges := t.charges + (if d.stripe == Declined then 0 else attempted),
                 lost := t.lost + (if d.stripe == Lost then attempted else 0));
    match Settle(cfg, b, d)
    case Acked => t'.(acked := t'.acked + 1)
    case Dropped => t'.(dropped := t'.dropped + 1)
    case Requeued => t'.(queued := t'.queued + 1)
  }

  // What a delivery to worker w makes of the pool.
  predicate Processed(cfg: Config, s: Sys, s': Sys, w: nat, d: Delivery)
    requires w < |s.workers|
  {
    && s'.workers == s.workers[w := Idle]
    && s'.b == BreakerAfter(cfg, s.b, [d], 1)
    && s'.ledger == s.ledger[d.message := Settled(cfg, s.b, d, About(s.ledger, d.message))]
  }

  // A worker left alone settles a delivery as ProcessMessage does.
  lemma UninterruptedIsProcessed(cfg: Config, s: Sys, w: nat, d: Delivery)
    requires w < |s.workers| && s.workers[w] == Received(d.message)
    ensures var s1 := Step(cfg, s, Begin(w, d.start));
            var s2 := Step(cfg, s1, Charge(w, d.contextDone, d.stripe));
            Processed(cfg, s, Step(cfg, s2, End(w, d.finish)), w, d)
  {
    BreakerAfterOne(cfg, s.b, d);
    if d.message.wellFormed && Answer(cfg, s.b, d.start).Admitted? {
      AdmittedIsProcessed(cfg, s, w, d);
    } else {
      TurnedAwayIsProcessed(cfg, s, w, d);
    }
  }

  lemma TurnedAwayIsProcessed(cfg: Config, s: Sys, w: nat, d: Delivery)
    requires w < |s.workers| && s.workers[w] == Received(d.message)
    requires !d.message.wellFormed || Answer(cfg, s.b, d.start).Refused?
    ensures var s1 := Step(cfg, s, Begin(w, d.start));
            && Step(cfg, Step(cfg, s1, Charge(w, d.contextDone, d.stripe)), End(w, d.finish)) == s1
            && Processed(cfg, s, s1, w, d)
  {
    BreakerAfterOne(cfg, s.b, d);
  }

  lemma AdmittedIsProcessed(cfg: Config, s: Sys, w: nat, d: Delivery)
    requires w < |s.workers| && s.workers[w] == Received(d.message)
    requires d.message.wellFormed && Answer(cfg, s.b, d.start).Admitted?
    ensures var s1 := Step(cfg, s, Begin(w, d.start));
            var s2 := Step(cfg, s1, Charge(w, d.contextDone, d.stripe));
            Processed(cfg, s, Step(cfg, s2, End(w, d.finish)), w, d)
  {
    var m, b1, t := d.message, Before(cfg, s.b, d.start), About(s.ledger, d.message);
    var x1 := Calling(m, Answer(cfg, s.b, d.start).token);
    BeginAdmitted(cfg, s, w, m, d.start);
    var t2 := if d.contextDone then t else Attempted(t, d.stripe);
    ChargeCalled(cfg, s, b1, w, x1, t, d.contextDone, d.stripe);
    EndReturned(cfg, s, b1, w, Returned(m, x1.token, !d.contextDone && d.stripe == Charged), t2, d.finish);
    BreakerAfterOne(cfg, s.b, d);
    AdmittedSettles(cfg, s.b, d, t);
  }

  // s with worker w and the entry of its message replaced.
  function With(s: Sys, b: Status, w: nat, x: Worker, m: Message, t: Entry): Sys
    requires w < |s.workers|
  {
    Sys(b, s.workers[w := x], s.ledger[m := t])
  }

  lemma AdmittedSettles(cfg: Config, b: Status, d: Delivery, t: Entry)
    requires d.message.wellFormed && Answer(cfg, b, d.start).Admitted?
    ensures var t2 := if d.contextDone then t else Attempted(t, d.stripe);
            Settled(cfg, b, d, t) == Final(t2, !d.contextDone && d.stripe == Charged)
  {
  }

  function Final(t: Entry, ok: bool): Entry {
    if ok then t.(acked := t.acked + 1) else t.(dropped := t.dropped + 1)
  }

  lemma BeginAdmitted(cfg: Config, s: Sys, w: nat, m: Message, now: int)
    requires w < |s.workers| && s.workers[w] == Received(m) && m.wellFormed && Answer(cfg, s.b, now).Admitted?
    ensures Step(cfg, s, Begin(w, now))
         == With(s, Before(cfg, s.b, now), w, Calling(m, Answer(cfg, s.b, now).token), m, About(s.ledger, m))
  {
  }

  lemma ChargeCalled(cfg: Config, s: Sys, b: Status, w: nat, x: Worker, t: Entry, done: bool, stripe: Stripe)
    requires w < |s.workers| && x.Calling?
    ensures Step(cfg, With(s, b, w, x, x.m, t), Charge(w, done, stripe))
         == With(s, b, w, Returned(x.m, x.token, !done && stripe == Charged), x.m,
                 if done then t else Attempted(t, stripe))
  {
    var t' := if done then t else Attempted(t, stripe);
    assert s.ledger[x.m := t][x.m := t'] == s.ledger[x.m := t'];
  }

  lemma EndReturned(cfg: Config, s: Sys, b: Status, w: nat, x: Worker, t: Entry, now: int)
    requires w < |s.workers| && x.Returned?
    ensures Step(cfg, With(s, b, w, x, x.m, t), End(w, now))
         == With(s, After(cfg, b, x.token, x.ok, now), w, Idle, x.m, Final(t, x.ok))
  {
    assert s.ledger[x.m := t][x.m := Final(t, x.ok)] == s.ledger[x.m := Final(t, x.ok)];
  }
}
