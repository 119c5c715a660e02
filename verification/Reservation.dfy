/** Ticket reservations: a saga of five calls behind one shared breaker, with early exits and no
    compensation. Any number of reservations run at once, interleaved at every critical section of
    the breaker and every effect, and any call may fail, even after its effect was committed. */
module Reservation {
  import opened Breaker
  import opened Wrapper
  import opened Accounting
  import opened Counting

  datatype Stage = FetchEvent | FetchUser | CreateTicket | CreatePurchase | Publish

  // Lost: committed, but reported as failed.
  datatype Effect = Done | Lost | Undone

  datatype Phase =
    | AtStage(stage: Stage)
    | InCall(stage: Stage, token: nat)
    | Emailing(token: nat)               // still in the publishing call, "topay" having succeeded
    | Returned(stage: Stage, token: nat, ok: bool)
    | Over(created: bool)                // answered, with 201 or with an error

  // One request, with what it has learnt: its ticket, its purchase row, its "topay" message.
  datatype Run = Run(event: nat, user: nat, phase: Phase,
                     ticket: Option<nat>, purchase: Option<nat>, topay: Option<nat>)

  // `run` records which reservation wrote a row; the tables do not hold it.
  datatype Ticket = Ticket(event: nat, user: nat, run: nat)
  datatype Purchase = Purchase(ticket: nat, user: nat, event: nat, run: nat)
  datatype Message = ToPay(ticket: nat, run: nat) | Email(run: nat)

  // Ticket ids are positions in the table; purchases are created "confirmed".
  datatype Store = Store(tickets: seq<Ticket>, purchases: seq<Purchase>, messages: seq<Message>)

  // `others` are the tokens held by calls of other endpoints, which share the breaker.
  datatype Sys = Sys(b: Status, others: multiset<nat>, runs: seq<Run>, store: Store)

  datatype Event =
    | Arrive(event: nat, user: nat)
    | Begin(r: nat, now: int)        // beforeRequest of the next stage
    | Skip(r: nat)                   // there is no message broker to publish to
    | Act(r: nat, effect: Effect)    // the protected call
    | End(r: nat, now: int)          // afterRequest, then on to the next stage or out
    | OtherBegin(now: int)           // the same two for a call of another endpoint
    | OtherEnd(token: nat, ok: bool, now: int)

  const NOTHING := Sys(INITIAL, multiset{}, [], Store([], [], []))

  function Token(x: Run): multiset<nat> {
    if x.phase.InCall? || x.phase.Emailing? || x.phase.Returned? then multiset{x.phase.token} else multiset{}
  }

  // After the stage: failures end the reservation, except that publishing is best effort.
  function Onward(stage: Stage, ok: bool): Phase {
    match stage
    case FetchEvent => if ok then AtStage(FetchUser) else Over(false)
    case FetchUser => if ok then AtStage(CreateTicket) else Over(false)
    case CreateTicket => if ok then AtStage(CreatePurchase) else Over(false)
    case CreatePurchase => if ok then AtStage(Publish) else Over(false)
    case Publish => Over(true)
  }

  predicate Applies(x: Run, e: Event) {
    match e
    case Arrive(_, _) => false
    case Begin(_, _) => x.phase.AtStage?
    case Skip(_) => x.phase == AtStage(Publish)
    case Act(_, _) => x.phase.InCall? || x.phase.Emailing?
    case End(_, _) => x.phase.Returned?
    case OtherBegin(_) => false
    case OtherEnd(_, _, _) => false
  }

  function NextBreaker(cfg: Config, b: Status, x: Run, e: Event): Status {
    if e.Begin? && x.phase.AtStage? then Before(cfg, b, e.now)
    else if e.End? && x.phase.Returned? then After(cfg, b, x.phase.token, x.phase.ok, e.now)
    else b
  }

  function NextRun(cfg: Config, b: Status, st: Store, x: Run, e: Event): Run
    requires Applies(x, e)
  {
    match e
    case Begin(_, now) =>
      var answer := Answer(cfg, b, now);
      x.(phase := if answer.Refused? then Onward(x.phase.stage, false) else InCall(x.phase.stage, answer.token))
    case Skip(_) => x.(phase := Over(true))
    case End(_, _) => x.(phase := Onward(x.phase.stage, x.phase.ok))
    case Act(_, effect) =>
      var token := x.phase.token;
      if x.phase.Emailing? then x.(phase := Returned(Publish, token, effect == Done))
      else
        match x.phase.stage
        case CreateTicket =>
          x.(phase := Returned(CreateTicket, token, effect == Done),
             ticket := if effect == Done then Some(|st.tickets|) else x.ticket)
        case CreatePurchase =>
          x.(phase := Returned(CreatePurchase, token, effect == Done),
             purchase := if effect == Done then Some(|st.purchases|) else x.purchase)
        case Publish =>
          if effect == Done then x.(phase := Emailing(token), topay := Some(|st.messages|))
          else x.(phase := Returned(Publish, token, false))
        case _ => x.(phase := Returned(x.phase.stage, token, effect == Done))
  }

  function NextStore(st: Store, r: nat, x: Run, e: Event): Store {
    if !e.Act? || e.effect == Undone then st
    else if x.phase.Emailing? then st.(messages := st.messages + [Email(r)])
    else if !x.phase.InCall? then st
    else
      match x.phase.stage
      case CreateTicket => st.(tickets := st.tickets + [Ticket(x.event, x.user, r)])
      case CreatePurchase =>
        st.(purchases := st.purchases + [Purchase(x.ticket.GetOr(0), x.user, x.event, r)])
      case Publish => st.(messages := st.messages + [ToPay(x.ticket.GetOr(0), r)])
      case _ => st
  }

  // What an admitted call of another endpoint holds.
  function TokenOf(answer: Admission): multiset<nat> {
    if answer.Admitted? then multiset{answer.token} else multiset{}
  }

  predicate Moves(s: Sys, e: Event) {
    !e.Arrive? && !e.OtherBegin? && !e.OtherEnd? && e.r < |s.runs| && Applies(s.runs[e.r], e)
  }

  // Events that do not apply change nothing.
  function Step(cfg: Config, s: Sys, e: Event): Sys {
    if e.Arrive? then
      s.(runs := s.runs + [Run(e.event, e.user, AtStage(FetchEvent), None, None, None)])
    else if e.OtherBegin? then
      s.(b := Before(cfg, s.b, e.now), others := s.others + TokenOf(Answer(cfg, s.b, e.now)))
    else if e.OtherEnd? then
      if e.token in s.others
      then s.(b := After(cfg, s.b, e.token, e.ok, e.now), others := s.others - multiset{e.token})
      else s
    else if Moves(s, e) then
      var x := s.runs[e.r];
      Sys(NextBreaker(cfg, s.b, x, e), s.others,
          s.runs[e.r := NextRun(cfg, s.b, s.store, x, e)],
          NextStore(s.store, e.r, x, e))
    else s
  }

  function At(cfg: Config, es: seq<Event>, n: nat): Sys
    requires n <= |es|
  {
    if n == 0 then NOTHING else Step(cfg, At(cfg, es, n - 1), es[n - 1])
  }

  // ----- what a reservation knows is true

  function Rank(p: Phase): nat {
    match p
    case AtStage(stage) => 4 * StageRank(stage)
    case InCall(stage, _) => 4 * StageRank(stage) + 1
    case Emailing(_) => 18
    case Returned(stage, _, _) => 4 * StageRank(stage) + 3
    case Over(_) => 20
  }

  function StageRank(s: Stage): nat {
    match s case FetchEvent => 0 case FetchUser => 1 case CreateTicket => 2 case CreatePurchase => 3 case Publish => 4
  }

  // The reservation has gone past the effect of its stage.
  predicate Past(x: Run, s: Stage) {
    Rank(x.phase) > 4 * StageRank(s) + 1
  }

  // It can only be where it is because the stage succeeded.
  predicate Owes(x: Run, s: Stage) {
    !x.phase.Over? && Past(x, s) && !(x.phase.Returned? && x.phase.stage == s && !x.phase.ok)
  }

  predicate Informed(st: Store, r: nat, x: Run) {
    && (Owes(x, CreateTicket) ==> x.ticket.Some?)
    && (Owes(x, CreatePurchase) ==> x.purchase.Some?)
    && (x.phase.Emailing? ==> x.topay.Some?)
    && (x.ticket.Some? ==>
          && Past(x, CreateTicket) && x.ticket.value < |st.tickets|
          && st.tickets[x.ticket.value] == Ticket(x.event, x.user, r))
    && (x.purchase.Some? ==>
          && Past(x, CreatePurchase) && x.ticket.Some? && x.purchase.value < |st.purchases|
          && st.purchases[x.purchase.value] == Purchase(x.ticket.value, x.user, x.event, r))
    && (x.topay.Some? ==>
          && Past(x, Publish) && x.purchase.Some? && x.topay.value < |st.messages|
          && st.messages[x.topay.value] == ToPay(x.ticket.value, r))
  }

  // ----- what the tables say is true

  predicate PurchaseBacked(runs: seq<Run>, p: Purchase) {
    && p.run < |runs| && Past(runs[p.run], CreatePurchase)
    && runs[p.run].ticket == Some(p.ticket) && runs[p.run].user == p.user && runs[p.run].event == p.event
  }

  predicate MessageBacked(runs: seq<Run>, m: Message, j: nat) {
    && m.run < |runs|
    && match m
       case ToPay(ticket, run) =>
         Past(runs[run], Publish) && runs[run].ticket == Some(ticket) && runs[run].purchase.Some?
       case Email(run) => runs[run].topay.Some? && runs[run].topay.value < j
  }

  predicate Backed(runs: seq<Run>, st: Store) {
    && (forall i :: 0 <= i < |st.purchases| ==> PurchaseBacked(runs, st.purchases[i]))
    && (forall j :: 0 <= j < |st.messages| ==> MessageBacked(runs, st.messages[j], j))
  }

  // One purchase and one payment order per reservation.
  predicate Single(st: Store) {
    && (forall i, j :: 0 <= i < j < |st.purchases| ==> st.purchases[i].run != st.purchases[j].run)
    && (forall i, j :: 0 <= i < j < |st.messages| && st.messages[i].ToPay? && st.messages[j].ToPay? ==>
          st.messages[i].run != st.messages[j].run)
  }

  predicate Coherent(runs: seq<Run>, st: Store) {
    && Backed(runs, st) && Single(st)
    && forall r :: 0 <= r < |runs| ==> Informed(st, r, runs[r])
  }

  // A reservation forgets nothing and never goes back.
  predicate Grown(x: Run, x': Run) {
    && x'.event == x.event && x'.user == x.user && Rank(x'.phase) >= Rank(x.phase)
    && (x.ticket.Some? ==> x'.ticket == x.ticket)
    && (x.purchase.Some? ==> x'.purchase == x.purchase)
    && (x.topay.Some? ==> x'.topay == x.topay)
  }

  predicate Extends(st: Store, st': Store) {
    st.tickets <= st'.tickets && st.purchases <= st'.purchases && st.messages <= st'.messages
  }

  lemma MoveGrows(cfg: Config, b: Status, st: Store, r: nat, x: Run, e: Event)
    requires Applies(x, e) && Informed(st, r, x)
    ensures Grown(x, NextRun(cfg, b, st, x, e)) && Extends(st, NextStore(st, r, x, e))
  {
  }

  lemma MoverInformed(cfg: Config, b: Status, st: Store, r: nat, x: Run, e: Event)
    requires Applies(x, e) && Informed(st, r, x)
    ensures Informed(NextStore(st, r, x, e), r, NextRun(cfg, b, st, x, e))
  {
    match e
    case Begin(_, _) => BeginInformed(cfg, b, st, r, x, e);
    case Act(_, _) =>
      if x.phase.InCall? && x.phase.stage == Publish {
        PublisherInformed(cfg, b, st, r, x, e);
      } else {
        ActorInformed(cfg, b, st, r, x, e);
      }
    case _ =>
  }

  lemma BeginInformed(cfg: Config, b: Status, st: Store, r: nat, x: Run, e: Event)
    requires Applies(x, e) && Informed(st, r, x) && e.Begin?
    ensures Informed(NextStore(st, r, x, e), r, NextRun(cfg, b, st, x, e))
  {
  }

  lemma ActorInformed(cfg: Config, b: Status, st: Store, r: nat, x: Run, e: Event)
    requires Applies(x, e) && Informed(st, r, x) && e.Act?
    requires x.phase.Emailing? || x.phase.stage != Publish
    ensures Informed(NextStore(st, r, x, e), r, NextRun(cfg, b, st, x, e))
  {
  }

  lemma PublisherInformed(cfg: Config, b: Status, st: Store, r: nat, x: Run, e: Event)
    requires Applies(x, e) && Informed(st, r, x) && e.Act? && x.phase.InCall? && x.phase.stage == Publish
    ensures Informed(NextStore(st, r, x, e), r, NextRun(cfg, b, st, x, e))
  {
  }

  lemma OthersInformed(st: Store, st': Store, q: nat, y: Run)
    requires Extends(st, st') && Informed(st, q, y)
    ensures Informed(st', q, y)
  {
  }

  lemma OldRowsBacked(runs: seq<Run>, st: Store, r: nat, x: Run)
    requires Backed(runs, st) && r < |runs| && Grown(runs[r], x)
    ensures Backed(runs[r := x], st)
  {
    forall i | 0 <= i < |st.purchases| ensures PurchaseBacked(runs[r := x], st.purchases[i]) {
      assert PurchaseBacked(runs, st.purchases[i]);
    }
    forall j | 0 <= j < |st.messages| ensures MessageBacked(runs[r := x], st.messages[j], j) {
      assert MessageBacked(runs, st.messages[j], j);
    }
  }

  lemma NewRowsBacked(cfg: Config, b: Status, runs: seq<Run>, st: Store, r: nat, x: Run, e: Event)
    requires Applies(x, e) && Informed(st, r, x) && r < |runs| && runs[r] == NextRun(cfg, b, st, x, e)
    requires Backed(runs, st)
    ensures Backed(runs, NextStore(st, r, x, e))
  {
    var st' := NextStore(st, r, x, e);
    forall i | 0 <= i < |st'.purchases| ensures PurchaseBacked(runs, st'.purchases[i]) {
      if i < |st.purchases| {
        assert PurchaseBacked(runs, st.purchases[i]);
      }
    }
    forall j | 0 <= j < |st'.messages| ensures MessageBacked(runs, st'.messages[j], j) {
      if j < |st.messages| {
        assert MessageBacked(runs, st.messages[j], j);
      }
    }
  }

  // A reservation about to write has not written before.
  lemma StaysSingle(runs: seq<Run>, st: Store, r: nat, e: Event)
    requires r < |runs| && Applies(runs[r], e) && Backed(runs, st) && Single(st)
    ensures Single(NextStore(st, r, runs[r], e))
  {
    forall i | 0 <= i < |st.purchases| ensures st.purchases[i].run == r ==> Past(runs[r], CreatePurchase) {
      assert PurchaseBacked(runs, st.purchases[i]);
    }
    forall j | 0 <= j < |st.messages|
      ensures st.messages[j].ToPay? && st.messages[j].run == r ==> Past(runs[r], Publish)
    {
      assert MessageBacked(runs, st.messages[j], j);
    }
  }

  lemma MoveCoherent(cfg: Config, b: Status, runs: seq<Run>, st: Store, r: nat, e: Event)
    requires Coherent(runs, st) && r < |runs| && Applies(runs[r], e)
    ensures Coherent(runs[r := NextRun(cfg, b, st, runs[r], e)], NextStore(st, r, runs[r], e))
  {
    var x := runs[r];
    var x', st' := NextRun(cfg, b, st, x, e), NextStore(st, r, x, e);
    var runs' := runs[r := x'];
    MoveGrows(cfg, b, st, r, x, e);
    OldRowsBacked(runs, st, r, x');
    NewRowsBacked(cfg, b, runs', st, r, x, e);
    StaysSingle(runs, st, r, e);
    MoverInformed(cfg, b, st, r, x, e);
    forall q | 0 <= q < |runs'| ensures Informed(st', q, runs'[q]) {
      if q != r {
        OthersInformed(st, st', q, runs[q]);
      }
    }
  }

  lemma ArriveCoherent(runs: seq<Run>, st: Store, event: nat, user: nat)
    requires Coherent(runs, st)
    ensures Coherent(runs + [Run(event, user, AtStage(FetchEvent), None, None, None)], st)
  {
    var runs' := runs + [Run(event, user, AtStage(FetchEvent), None, None, None)];
    forall i | 0 <= i < |st.purchases| ensures PurchaseBacked(runs', st.purchases[i]) {
      assert PurchaseBacked(runs, st.purchases[i]);
    }
    forall j | 0 <= j < |st.messages| ensures MessageBacked(runs', st.messages[j], j) {
      assert MessageBacked(runs, st.messages[j], j);
    }
  }

  lemma LastEvent(cfg: Config, es: seq<Event>, n: nat)
    requires 0 < n <= |es|
    ensures At(cfg, es, n) == Step(cfg, At(cfg, es, n - 1), es[n - 1])
  {
  }

  lemma {:induction false} AlwaysCoherent(cfg: Config, es: seq<Event>, n: nat)
    requires n <= |es|
    ensures Coherent(At(cfg, es, n).runs, At(cfg, es, n).store)
  {
    if n == 0 {
    } else {
      AlwaysCoherent(cfg, es, n - 1);
      CoherentStep(cfg, At(cfg, es, n - 1), es[n - 1]);
      LastEvent(cfg, es, n);
    }
  }

  lemma {:induction false} CoherentStep(cfg: Config, s: Sys, e: Event)
    requires Coherent(s.runs, s.store)
    ensures Coherent(Step(cfg, s, e).runs, Step(cfg, s, e).store)
  {
    if e.Arrive? {
      ArriveCoherent(s.runs, s.store, e.event, e.user);
    } else if Moves(s, e) {
      MoveCoherent(cfg, s.b, s.runs, s.store, e.r, e);
    }
  }

  // ----- the guarantees

  // Every purchase is for a ticket that the same reservation created for the same user and event,
  // and no other purchase is for that ticket.
  lemma {:induction false} PurchasesMatchTickets(cfg: Config, es: seq<Event>, n: nat, i: nat)
    requires n <= |es| && i < |At(cfg, es, n).store.purchases|
    ensures var st := At(cfg, es, n).store;
            var p := st.purchases[i];
            && p.ticket < |st.tickets| && st.tickets[p.ticket] == Ticket(p.event, p.user, p.run)
            && forall j :: 0 <= j < |st.purchases| && j != i ==> st.purchases[j].ticket != p.ticket
  {
    AlwaysCoherent(cfg, es, n);
    var s := At(cfg, es, n);
    PurchaseMatches(s.runs, s.store, i);
    forall j | 0 <= j < |s.store.purchases| && j != i
      ensures s.store.purchases[j].ticket != s.store.purchases[i].ticket
    {
      PurchaseMatches(s.runs, s.store, j);
    }
  }

  lemma PurchaseMatches(runs: seq<Run>, st: Store, i: nat)
    requires Coherent(runs, st) && i < |st.purchases|
    ensures var p := st.purchases[i];
            p.ticket < |st.tickets| && st.tickets[p.ticket] == Ticket(p.event, p.user, p.run)
  {
    assert PurchaseBacked(runs, st.purchases[i]);
    assert Informed(st, st.purchases[i].run, runs[st.purchases[i].run]);
  }

  // Every payment order is for a ticket with exactly one purchase, made by the same reservation,
  // and is the only order for that ticket.
  lemma {:induction false} PaymentsArePurchased(cfg: Config, es: seq<Event>, n: nat, j: nat)
    requires n <= |es| && j < |At(cfg, es, n).store.messages| && At(cfg, es, n).store.messages[j].ToPay?
    ensures var st := At(cfg, es, n).store;
            var m := st.messages[j];
            && (exists i :: 0 <= i < |st.purchases|
                            && st.purchases[i].ticket == m.ticket && st.purchases[i].run == m.run)
            && (forall i, k :: 0 <= i < k < |st.purchases| && st.purchases[i].ticket == m.ticket ==>
                  st.purchases[k].ticket != m.ticket)
            && (forall k :: 0 <= k < |st.messages| && k != j && st.messages[k].ToPay? ==>
                  st.messages[k].ticket != m.ticket)
  {
    AlwaysCoherent(cfg, es, n);
    var s := At(cfg, es, n);
    var st, m := s.store, s.store.messages[j];
    OrderMatches(s.runs, st, j);
    forall i, k | 0 <= i < k < |st.purchases| && st.purchases[i].ticket == m.ticket
      ensures st.purchases[k].ticket != m.ticket
    {
      PurchaseMatches(s.runs, st, i);
      PurchaseMatches(s.runs, st, k);
    }
    forall k | 0 <= k < |st.messages| && k != j && st.messages[k].ToPay?
      ensures st.messages[k].ticket != m.ticket
    {
      OrderMatches(s.runs, st, k);
    }
  }

  lemma OrderMatches(runs: seq<Run>, st: Store, j: nat)
    requires Coherent(runs, st) && j < |st.messages| && st.messages[j].ToPay?
    ensures var m := st.messages[j];
            && m.ticket < |st.tickets| && st.tickets[m.ticket].run == m.run
            && exists i :: 0 <= i < |st.purchases| && st.purchases[i].ticket == m.ticket && st.purchases[i].run == m.run
  {
    var m := st.messages[j];
    assert MessageBacked(runs, m, j);
    assert Informed(st, m.run, runs[m.run]);
    var i := runs[m.run].purchase.value;
    assert st.purchases[i].ticket == m.ticket && st.purchases[i].run == m.run;
  }

  // Every e-mail comes after its own reservation's payment order, whose publication succeeded.
  lemma {:induction false} EmailsFollowPayments(cfg: Config, es: seq<Event>, n: nat, j: nat)
    requires n <= |es| && j < |At(cfg, es, n).store.messages| && At(cfg, es, n).store.messages[j].Email?
    ensures var s := At(cfg, es, n);
            var r := s.store.messages[j].run;
            && r < |s.runs| && s.runs[r].ticket.Some? && s.runs[r].topay.Some?
            && s.runs[r].topay.value < j
            && s.store.messages[s.runs[r].topay.value] == ToPay(s.runs[r].ticket.value, r)
  {
    AlwaysCoherent(cfg, es, n);
    var s := At(cfg, es, n);
    assert MessageBacked(s.runs, s.store.messages[j], j);
    assert Informed(s.store, s.store.messages[j].run, s.runs[s.store.messages[j].run]);
  }

  // The shared breaker keeps its accounting, the reservations and the calls of other endpoints
  // holding the outstanding tokens between them.
  predicate Guarded(cfg: Config, s: Sys) {
    Balanced(cfg, s.b, s.others + Bag(Token, s.runs))
  }

  lemma {:induction false} AlwaysGuarded(cfg: Config, es: seq<Event>, n: nat)
    requires n <= |es|
    ensures Guarded(cfg, At(cfg, es, n))
  {
    if n == 0 {
      GuardedAtStart(cfg);
    } else {
      AlwaysGuarded(cfg, es, n - 1);
      GuardedStep(cfg, At(cfg, es, n - 1), es[n - 1]);
      LastEvent(cfg, es, n);
    }
  }

  lemma GuardedAtStart(cfg: Config)
    ensures Guarded(cfg, NOTHING)
  {
    assert NOTHING.others + Bag(Token, NOTHING.runs) == multiset{};
  }

  lemma ArrivalHasNoToken(runs: seq<Run>, event: nat, user: nat)
    ensures Bag(Token, runs + [Run(event, user, AtStage(FetchEvent), None, None, None)]) == Bag(Token, runs)
  {
    BagAppend(Token, runs, Run(event, user, AtStage(FetchEvent), None, None, None));
    assert Bag(Token, runs) + multiset{} == Bag(Token, runs);
  }

  lemma GuardedStep(cfg: Config, s: Sys, e: Event)
    requires Guarded(cfg, s)
    ensures Guarded(cfg, Step(cfg, s, e))
  {
    if e.Arrive? {
      ArrivalHasNoToken(s.runs, e.event, e.user);
    } else if e.OtherBegin? {
      OtherBegins(cfg, s.b, s.others, Bag(Token, s.runs), e.now);
    } else if e.OtherEnd? {
      if e.token in s.others {
        OtherEnds(cfg, s.b, s.others, Bag(Token, s.runs), e.token, e.ok, e.now);
      }
    } else if Moves(s, e) {
      GuardedMove(cfg, s, e);
    }
  }

  lemma OtherBegins(cfg: Config, b: Status, others: multiset<nat>, tokens: multiset<nat>, now: int)
    requires Balanced(cfg, b, others + tokens)
    ensures Balanced(cfg, Before(cfg, b, now), others + TokenOf(Answer(cfg, b, now)) + tokens)
  {
    BalancedCall(cfg, b, others + tokens, now);
    assert others + TokenOf(Answer(cfg, b, now)) + tokens == others + tokens + TokenOf(Answer(cfg, b, now));
    assert others + tokens + multiset{} == others + tokens;
  }

  lemma OtherEnds(cfg: Config, b: Status, others: multiset<nat>, tokens: multiset<nat>, token: nat, ok: bool, now: int)
    requires Balanced(cfg, b, others + tokens) && token in others
    ensures Balanced(cfg, After(cfg, b, token, ok, now), others - multiset{token} + tokens)
  {
    BalancedDone(cfg, b, others + tokens, token, ok, now);
    assert others - multiset{token} + tokens == others + tokens - multiset{token};
  }

  lemma GuardedMove(cfg: Config, s: Sys, e: Event)
    requires Guarded(cfg, s) && Moves(s, e)
    ensures Guarded(cfg, Step(cfg, s, e))
  {
    var x, tokens := s.runs[e.r], Bag(Token, s.runs);
    var x' := NextRun(cfg, s.b, s.store, x, e);
    BagUpdate(Token, s.runs, e.r, x');
    MoveBalances(cfg, s.b, s.others + tokens, s.store, x, e);
    Regroup(s.others, tokens, Token(x), Token(x'));
  }

  lemma Regroup(others: multiset<nat>, tokens: multiset<nat>, mine: multiset<nat>, mine': multiset<nat>)
    requires mine <= tokens
    ensures others + tokens - mine + mine' == others + (tokens - mine + mine')
  {
  }

  // A reservation takes a token when admitted, keeps it through the call, and gives it back.
  lemma MoveBalances(cfg: Config, b: Status, tokens: multiset<nat>, st: Store, x: Run, e: Event)
    requires Applies(x, e) && Balanced(cfg, b, tokens) && Token(x) <= tokens
    ensures Balanced(cfg, NextBreaker(cfg, b, x, e), tokens - Token(x) + Token(NextRun(cfg, b, st, x, e)))
  {
    if e.Begin? {
      BeginBalances(cfg, b, tokens, st, x, e);
    } else if e.End? {
      EndBalances(cfg, b, tokens, st, x, e);
    } else {
      KeepsToken(cfg, b, st, x, e);
      BalancedIdle(cfg, b, tokens, Token(x));
    }
  }

  lemma BeginBalances(cfg: Config, b: Status, tokens: multiset<nat>, st: Store, x: Run, e: Event)
    requires Applies(x, e) && e.Begin? && Balanced(cfg, b, tokens)
    ensures Balanced(cfg, NextBreaker(cfg, b, x, e), tokens - Token(x) + Token(NextRun(cfg, b, st, x, e)))
  {
    BeginTokens(cfg, b, st, x, e);
    BalancedBegin(cfg, b, tokens, Token(NextRun(cfg, b, st, x, e)), e.now);
  }

  lemma EndBalances(cfg: Config, b: Status, tokens: multiset<nat>, st: Store, x: Run, e: Event)
    requires Applies(x, e) && e.End? && Balanced(cfg, b, tokens) && Token(x) <= tokens
    ensures Balanced(cfg, NextBreaker(cfg, b, x, e), tokens - Token(x) + Token(NextRun(cfg, b, st, x, e)))
  {
    BalancedEnd(cfg, b, tokens, x.phase.token, x.phase.ok, e.now);
  }

  lemma BeginTokens(cfg: Config, b: Status, st: Store, x: Run, e: Event)
    requires Applies(x, e) && e.Begin?
    ensures Token(NextRun(cfg, b, st, x, e)) ==
            if Answer(cfg, b, e.now).Admitted? then multiset{Answer(cfg, b, e.now).token} else multiset{}
  {
  }

  lemma KeepsToken(cfg: Config, b: Status, st: Store, x: Run, e: Event)
    requires Applies(x, e) && (e.Act? || e.Skip?)
    ensures Token(NextRun(cfg, b, st, x, e)) == Token(x) && NextBreaker(cfg, b, x, e) == b
  {
  }

  // ----- one reservation left alone

  // The commands of one stage, with nothing in between; `email` matters to the last stage only.
  function Served(cfg: Config, s: Sys, r: nat, effect: Effect, email: Effect, start: int, finish: int): Sys {
    var acted := Step(cfg, Step(cfg, Step(cfg, s, Begin(r, start)), Act(r, effect)), Act(r, email));
    Step(cfg, acted, End(r, finish))
  }

  // Whether the breaker records a success for the stage.
  predicate Succeeds(stage: Stage, effect: Effect, email: Effect) {
    effect == Done && (stage == Publish ==> email == Done)
  }

  // The rows that the stage's call writes.
  function Written(st: Store, r: nat, x: Run, stage: Stage, effect: Effect, email: Effect): Store {
    if effect == Undone then st
    else
      match stage
      case CreateTicket => st.(tickets := st.tickets + [Ticket(x.event, x.user, r)])
      case CreatePurchase => st.(purchases := st.purchases + [Purchase(x.ticket.GetOr(0), x.user, x.event, r)])
      case Publish =>
        st.(messages := st.messages + [ToPay(x.ticket.GetOr(0), r)]
                        + if effect == Done && email != Undone then [Email(r)] else [])
      case _ => st
  }

  // What the reservation learns from it.
  function Learnt(st: Store, x: Run, stage: Stage, effect: Effect): Run {
    if effect != Done then x
    else
      match stage
      case CreateTicket => x.(ticket := Some(|st.tickets|))
      case CreatePurchase => x.(purchase := Some(|st.purchases|))
      case Publish => x.(topay := Some(|st.messages|))
      case _ => x
  }

  function With(s: Sys, b: Status, r: nat, x: Run, st: Store): Sys
    requires r < |s.runs|
  {
    Sys(b, s.others, s.runs[r := x], st)
  }

  lemma BeginAlone(cfg: Config, s: Sys, r: nat, now: int)
    requires r < |s.runs| && s.runs[r].phase.AtStage?
    ensures var stage, answer := s.runs[r].phase.stage, Answer(cfg, s.b, now);
            Step(cfg, s, Begin(r, now)) ==
            With(s, Before(cfg, s.b, now), r,
                 s.runs[r].(phase := if answer.Refused? then Onward(stage, false) else InCall(stage, answer.token)),
                 s.store)
  {
  }

  // A reservation that is between stages, or over, has no call to make or to end.
  lemma NothingToEnd(cfg: Config, s: Sys, r: nat, effect: Effect, now: int)
    requires r < |s.runs| && (s.runs[r].phase.AtStage? || s.runs[r].phase.Over?)
    ensures Step(cfg, s, Act(r, effect)) == s && Step(cfg, s, End(r, now)) == s
  {
  }

  lemma OverIsOver(cfg: Config, s: Sys, r: nat, effect: Effect, email: Effect, start: int, finish: int)
    requires r < |s.runs| && s.runs[r].phase.Over?
    ensures Served(cfg, s, r, effect, email, start, finish) == s && Step(cfg, s, Skip(r)) == s
  {
    NothingToEnd(cfg, s, r, effect, finish);
    NothingToEnd(cfg, s, r, email, finish);
    assert Step(cfg, s, Begin(r, start)) == s;
  }

  lemma ActAlone(cfg: Config, s: Sys, b: Status, r: nat, x: Run, effect: Effect)
    requires r < |s.runs| && x.phase.InCall?
    ensures var stage, token := x.phase.stage, x.phase.token;
            Step(cfg, With(s, b, r, x, s.store), Act(r, effect)) ==
            With(s, b, r,
                 Learnt(s.store, x, stage, effect).(
                   phase := if stage == Publish && effect == Done then Emailing(token)
                            else Returned(stage, token, effect == Done)),
                 Written(s.store, r, x, stage, effect, Undone))
  {
    var s1 := With(s, b, r, x, s.store);
    UpdatedTwice(s.runs, r, x, Step(cfg, s1, Act(r, effect)).runs[r]);
  }

  lemma UpdatedTwice(runs: seq<Run>, r: nat, x: Run, y: Run)
    requires r < |runs|
    ensures runs[r := x][r := y] == runs[r := y]
  {
  }

  // The second publication, if there is one.
  lemma EmailAlone(cfg: Config, s: Sys, b: Status, r: nat, x: Run, st: Store, email: Effect)
    requires r < |s.runs| && (x.phase.Emailing? || x.phase.Returned?)
    ensures Step(cfg, With(s, b, r, x, st), Act(r, email)) ==
            if x.phase.Returned? then With(s, b, r, x, st)
            else With(s, b, r, x.(phase := Returned(Publish, x.phase.token, email == Done)),
                      if email == Undone then st else st.(messages := st.messages + [Email(r)]))
  {
    var s1 := With(s, b, r, x, st);
    UpdatedTwice(s.runs, r, x, Step(cfg, s1, Act(r, email)).runs[r]);
  }

  lemma EndAlone(cfg: Config, s: Sys, b: Status, r: nat, x: Run, st: Store, now: int)
    requires r < |s.runs| && x.phase.Returned?
    ensures Step(cfg, With(s, b, r, x, st), End(r, now)) ==
            With(s, After(cfg, b, x.phase.token, x.phase.ok, now), r,
                 x.(phase := Onward(x.phase.stage, x.phase.ok)), st)
  {
    var s1 := With(s, b, r, x, st);
    UpdatedTwice(s.runs, r, x, Step(cfg, s1, End(r, now)).runs[r]);
  }

  // A call of another endpoint left alone is one serial call of the breaker and holds nothing after.
  lemma OtherAlone(cfg: Config, s: Sys, ok: bool, start: int, finish: int)
    ensures var s1, answer := Step(cfg, s, OtherBegin(start)), Answer(cfg, s.b, start);
            var s2 := if answer.Refused? then s1 else Step(cfg, s1, OtherEnd(answer.token, ok, finish));
            s2 == s.(b := Serial(cfg, s.b, ok, start, finish))
  {
    assert s.others + multiset{} == s.others;
    if Answer(cfg, s.b, start).Admitted? {
      var token := multiset{Answer(cfg, s.b, start).token};
      assert s.others + token - token == s.others;
    }
  }

  // A reservation left alone takes a stage as one serial call of the breaker: refused, it goes on
  // as after a failure and nothing is written; admitted, it writes what the stage writes and goes
  // on according to the outcome.
  lemma UninterruptedIsSerial(cfg: Config, s: Sys, r: nat, effect: Effect, email: Effect, start: int, finish: int)
    requires r < |s.runs| && s.runs[r].phase.AtStage?
    ensures var x := s.runs[r];
            var stage, ok := x.phase.stage, Succeeds(x.phase.stage, effect, email);
            Served(cfg, s, r, effect, email, start, finish) ==
            With(s, Serial(cfg, s.b, ok, start, finish), r,
                 if Answer(cfg, s.b, start).Refused? then x.(phase := Onward(stage, false))
                 else Learnt(s.store, x, stage, effect).(phase := Onward(stage, ok)),
                 if Answer(cfg, s.b, start).Refused? then s.store
                 else Written(s.store, r, x, stage, effect, email))
  {
    BeginAlone(cfg, s, r, start);
    var s1 := Step(cfg, s, Begin(r, start));
    if Answer(cfg, s.b, start).Refused? {
      NothingToEnd(cfg, s1, r, effect, finish);
      NothingToEnd(cfg, s1, r, email, finish);
    } else {
      AdmittedIsSerial(cfg, s, r, effect, email, start, finish);
    }
  }

  lemma AdmittedIsSerial(cfg: Config, s: Sys, r: nat, effect: Effect, email: Effect, start: int, finish: int)
    requires r < |s.runs| && s.runs[r].phase.AtStage? && Answer(cfg, s.b, start).Admitted?
    ensures var x := s.runs[r];
            var stage, ok := x.phase.stage, Succeeds(x.phase.stage, effect, email);
            Served(cfg, s, r, effect, email, start, finish) ==
            With(s, Serial(cfg, s.b, ok, start, finish), r,
                 Learnt(s.store, x, stage, effect).(phase := Onward(stage, ok)),
                 Written(s.store, r, x, stage, effect, email))
  {
    var x := s.runs[r];
    var stage, token, b := x.phase.stage, Answer(cfg, s.b, start).token, Before(cfg, s.b, start);
    var x1 := x.(phase := InCall(stage, token));
    BeginAlone(cfg, s, r, start);
    ActAlone(cfg, s, b, r, x1, effect);
    var x2 := Learnt(s.store, x1, stage, effect).(
                phase := if stage == Publish && effect == Done then Emailing(token)
                         else Returned(stage, token, effect == Done));
    EmailAlone(cfg, s, b, r, x2, Written(s.store, r, x1, stage, effect, Undone), email);
    var ok := Succeeds(stage, effect, email);
    var x3 := Learnt(s.store, x, stage, effect).(phase := Returned(stage, token, ok));
    var st := Written(s.store, r, x, stage, effect, email);
    EmailWritten(s.store, r, x, x1, stage, effect, email);
    EndAlone(cfg, s, b, r, x3, st, finish);
  }

  lemma EmailWritten(st: Store, r: nat, x: Run, x1: Run, stage: Stage, effect: Effect, email: Effect)
    requires x1 == x.(phase := x1.phase)
    ensures Written(st, r, x, stage, effect, email) ==
            var first := Written(st, r, x1, stage, effect, Undone);
            if stage == Publish && effect == Done && email != Undone
            then first.(messages := first.messages + [Email(r)]) else first
  {
  }
}
