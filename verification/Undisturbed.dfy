/** A reservation that nothing disturbs: the handler of one request and the interleaved saga agree. */
module Undisturbed {
  import opened Breaker
  import opened Wrapper
  import opened Reservation
  import Handler

  // How the five calls end, with the e-mail's publication apart, and when they start and end.
  datatype Plan = Plan(event: Effect, user: Effect, ticket: Effect, purchase: Effect, topay: Effect, email: Effect,
                       broker: bool, clock: seq<(int, int)>)
  {
    predicate Valid() {
      |clock| == 5
    }

    function EffectOf(stage: Stage): Effect {
      match stage
      case FetchEvent => event
      case FetchUser => user
      case CreateTicket => ticket
      case CreatePurchase => purchase
      case Publish => topay
    }

    // The outcomes the breaker sees.
    function Oks(): seq<bool> {
      [event == Done, user == Done, ticket == Done, purchase == Done]
      + if broker then [topay == Done && email == Done] else []
    }
  }

  function StageAt(i: nat): Stage
    requires i < 5
  {
    if i == 0 then FetchEvent else if i == 1 then FetchUser else if i == 2 then CreateTicket
    else if i == 3 then CreatePurchase else Publish
  }

  // The reservation's commands of stage i; those that do not apply change nothing.
  function StageAlone(cfg: Config, s: Sys, r: nat, p: Plan, i: nat): Sys
    requires i < 5 && p.Valid()
  {
    if i == 4 && !p.broker then Step(cfg, s, Skip(r))
    else Served(cfg, s, r, p.EffectOf(StageAt(i)), p.email, p.clock[i].0, p.clock[i].1)
  }

  // From stage i on.
  function Rest(cfg: Config, s: Sys, r: nat, p: Plan, i: nat): Sys
    requires i <= 5 && p.Valid()
    decreases 5 - i
  {
    if i == 5 then s else Rest(cfg, StageAlone(cfg, s, r, p, i), r, p, i + 1)
  }

  // The rows written from stage i on, `made` calls having been made in all, for the given ticket.
  function Rows(st: Store, r: nat, x: Run, ticket: nat, p: Plan, i: nat, made: nat): Store {
    Store(
      st.tickets + (if i <= 2 < made && p.ticket != Undone then [Ticket(x.event, x.user, r)] else []),
      st.purchases + (if i <= 3 < made && p.purchase != Undone then [Purchase(ticket, x.user, x.event, r)] else []),
      st.messages + (if i <= 4 < made && p.topay != Undone then [ToPay(ticket, r)] else [])
                  + (if i <= 4 < made && p.topay == Done && p.email != Undone then [Email(r)] else []))
  }

  // The ticket that a purchase or a payment order would be for.
  function TicketOf(st: Store, x: Run, i: nat): nat {
    if i <= 2 then |st.tickets| else x.ticket.GetOr(0)
  }

  // From stage i on, reservation x becomes x' and the tables st become st', as they should when
  // `made` calls have been made in all.
  predicate Fits(st: Store, x: Run, st': Store, x': Run, r: nat, p: Plan, i: nat, made: nat) {
    && st' == Rows(st, r, x, TicketOf(st, x, i), p, i, made)
    && x'.phase == Over(made >= 4 && p.purchase == Done)
  }

  // The stage's call fails, or is the last one.
  lemma EndsAfter(st: Store, x: Run, r: nat, p: Plan, i: nat)
    requires i < 5 && (i == 4 ==> p.broker && p.purchase == Done) && (p.Oks()[i] ==> i == 4)
    ensures var stage := StageAt(i);
            Fits(st, x, Written(st, r, x, stage, p.EffectOf(stage), p.email),
                 Learnt(st, x, stage, p.EffectOf(stage)).(phase := Onward(stage, p.Oks()[i])), r, p, i, i + 1)
  {
  }

  // The stage is refused or skipped.
  lemma EndsBefore(st: Store, x: Run, r: nat, p: Plan, i: nat)
    requires i < 5 && (i == 4 ==> p.purchase == Done)
    ensures Fits(st, x, st, x.(phase := Onward(StageAt(i), false)), r, p, i, i)
  {
  }

  lemma GoesOn(st: Store, x: Run, st': Store, x': Run, r: nat, p: Plan, i: nat, made: nat)
    requires i < 4 && p.Oks()[i] && made > i
    requires var stage := StageAt(i);
             Fits(Written(st, r, x, stage, Done, p.email), Learnt(st, x, stage, Done).(phase := Onward(stage, true)),
                  st', x', r, p, i + 1, made)
    ensures Fits(st, x, st', x', r, p, i, made)
  {
  }

  lemma RestOver(cfg: Config, s: Sys, r: nat, p: Plan, i: nat)
    requires i <= 5 && p.Valid() && r < |s.runs| && s.runs[r].phase.Over?
    ensures Rest(cfg, s, r, p, i) == s
    decreases 5 - i
  {
    if i == 5 {
    } else {
      OverIsOver(cfg, s, r, p.EffectOf(StageAt(i)), p.email, p.clock[i].0, p.clock[i].1);
      RestOver(cfg, s, r, p, i + 1);
    }
  }

  predicate Matches(s: Sys, s': Sys, r: nat, p: Plan, i: nat, outcome: (Status, nat))
    requires r < |s.runs|
  {
    && |s'.runs| == |s.runs| && Fits(s.store, s.runs[r], s'.store, s'.runs[r], r, p, i, outcome.1)
    && s'.b == outcome.0 && s'.others == s.others
    && forall q :: 0 <= q < |s.runs| && q != r ==> s'.runs[q] == s.runs[q]
  }

  lemma LastStage(cfg: Config, s: Sys, r: nat, p: Plan, i: nat)
    requires i < 5 && p.Valid() && r < |s.runs| && s.runs[r].phase == AtStage(StageAt(i))
    requires i == 4 ==> p.purchase == Done
    requires (i < |p.Oks()| && Answer(cfg, s.b, p.clock[i].0).Admitted?) ==> !p.Oks()[i] || i == 4
    ensures Matches(s, StageAlone(cfg, s, r, p, i), r, p, i, Handler.Chain(cfg, s.b, p.Oks(), p.clock, i))
  {
    EndsBefore(s.store, s.runs[r], r, p, i);
    if i == 4 && !p.broker {
    } else {
      UninterruptedIsSerial(cfg, s, r, p.EffectOf(StageAt(i)), p.email, p.clock[i].0, p.clock[i].1);
      if Answer(cfg, s.b, p.clock[i].0).Admitted? {
        EndsAfter(s.store, s.runs[r], r, p, i);
      }
    }
  }

  // The stage's call succeeds and is not the last one.
  lemma OneStage(cfg: Config, s: Sys, r: nat, p: Plan, i: nat)
    requires i < 4 && p.Valid() && r < |s.runs| && s.runs[r].phase == AtStage(StageAt(i))
    requires p.Oks()[i] && Answer(cfg, s.b, p.clock[i].0).Admitted?
    ensures var stage, x, s1 := StageAt(i), s.runs[r], StageAlone(cfg, s, r, p, i);
            && s1 == With(s, Serial(cfg, s.b, true, p.clock[i].0, p.clock[i].1), r,
                          Learnt(s.store, x, stage, Done).(phase := Onward(stage, true)),
                          Written(s.store, r, x, stage, Done, p.email))
            && s1.runs[r].phase == AtStage(StageAt(i + 1))
  {
    UninterruptedIsSerial(cfg, s, r, p.EffectOf(StageAt(i)), p.email, p.clock[i].0, p.clock[i].1);
  }

  lemma MatchesOn(cfg: Config, s: Sys, s': Sys, r: nat, p: Plan, i: nat, outcome: (Status, nat))
    requires i < 4 && p.Valid() && r < |s.runs| && s.runs[r].phase == AtStage(StageAt(i))
    requires p.Oks()[i] && Answer(cfg, s.b, p.clock[i].0).Admitted? && outcome.1 > i
    requires var s1 := StageAlone(cfg, s, r, p, i); |s1.runs| == |s.runs| && Matches(s1, s', r, p, i + 1, outcome)
    ensures Matches(s, s', r, p, i, outcome)
  {
    OneStage(cfg, s, r, p, i);
    GoesOn(s.store, s.runs[r], s'.store, s'.runs[r], r, p, i, outcome.1);
  }

  lemma RestUnfolds(cfg: Config, s: Sys, r: nat, p: Plan, i: nat)
    requires i < 5 && p.Valid()
    ensures Rest(cfg, s, r, p, i) == Rest(cfg, StageAlone(cfg, s, r, p, i), r, p, i + 1)
  {
  }

  predicate GoesOnFrom(cfg: Config, s: Sys, p: Plan, i: nat)
    requires i < 5 && p.Valid()
  {
    i < 4 && p.Oks()[i] && Answer(cfg, s.b, p.clock[i].0).Admitted?
  }

  lemma RestStops(cfg: Config, s: Sys, r: nat, p: Plan, i: nat)
    requires i < 5 && p.Valid() && r < |s.runs| && s.runs[r].phase == AtStage(StageAt(i))
    requires (i == 4 ==> p.purchase == Done) && !GoesOnFrom(cfg, s, p, i)
    ensures Matches(s, Rest(cfg, s, r, p, i), r, p, i, Handler.Chain(cfg, s.b, p.Oks(), p.clock, i))
  {
    RestUnfolds(cfg, s, r, p, i);
    LastStage(cfg, s, r, p, i);
    RestOver(cfg, StageAlone(cfg, s, r, p, i), r, p, i + 1);
  }

  lemma RestGoesOn(cfg: Config, s: Sys, s1: Sys, r: nat, p: Plan, i: nat)
    requires i < 4 && p.Valid() && r < |s.runs| && s.runs[r].phase == AtStage(StageAt(i))
    requires GoesOnFrom(cfg, s, p, i) && forall j :: 0 <= j <= i ==> p.Oks()[j]
    requires s1 == StageAlone(cfg, s, r, p, i) && |s1.runs| == |s.runs|
    requires s1.b == Serial(cfg, s.b, true, p.clock[i].0, p.clock[i].1)
    requires Matches(s1, Rest(cfg, s1, r, p, i + 1), r, p, i + 1, Handler.Chain(cfg, s1.b, p.Oks(), p.clock, i + 1))
    ensures Matches(s, Rest(cfg, s, r, p, i), r, p, i, Handler.Chain(cfg, s.b, p.Oks(), p.clock, i))
  {
    RestUnfolds(cfg, s, r, p, i);
    Handler.ChainGoesOn(cfg, s.b, p.Oks(), p.clock, i);
    Handler.ChainStops(cfg, s1.b, p.Oks(), p.clock, i + 1);
    MatchesOn(cfg, s, Rest(cfg, s1, r, p, i + 1), r, p, i, Handler.Chain(cfg, s1.b, p.Oks(), p.clock, i + 1));
  }

  lemma {:induction false} RestIsChain(cfg: Config, s: Sys, r: nat, p: Plan, i: nat)
    requires i < 5 && p.Valid() && r < |s.runs| && s.runs[r].phase == AtStage(StageAt(i))
    requires forall j :: 0 <= j < i ==> p.Oks()[j]
    ensures Matches(s, Rest(cfg, s, r, p, i), r, p, i, Handler.Chain(cfg, s.b, p.Oks(), p.clock, i))
    decreases 5 - i
  {
    if GoesOnFrom(cfg, s, p, i) {
      OneStage(cfg, s, r, p, i);
      var s1 := StageAlone(cfg, s, r, p, i);
      RestIsChain(cfg, s1, r, p, i + 1);
      RestGoesOn(cfg, s, s1, r, p, i);
    } else {
      assert i == 4 ==> p.Oks()[3];
      RestStops(cfg, s, r, p, i);
    }
  }

  // A reservation left alone leaves the breaker, and makes the calls, of the handler's chain, and
  // writes exactly the rows of those calls: a call whose reply is lost writes its row all the same.
  lemma {:induction false} UndisturbedReservation(cfg: Config, s: Sys, event: nat, user: nat, p: Plan)
    requires p.Valid()
    ensures var r := |s.runs|;
            var s' := Rest(cfg, Step(cfg, s, Arrive(event, user)), r, p, 0);
            var (b, made) := Handler.Chain(cfg, s.b, p.Oks(), p.clock, 0);
            && s'.b == b && s'.others == s.others
            && |s'.runs| == r + 1 && s'.runs[..r] == s.runs
            && s'.runs[r].phase == Over(made >= 4 && p.purchase == Done)
            && s'.store.tickets == s.store.tickets
                 + (if made >= 3 && p.ticket != Undone then [Ticket(event, user, r)] else [])
            && s'.store.purchases == s.store.purchases
                 + (if made >= 4 && p.purchase != Undone then [Purchase(|s.store.tickets|, user, event, r)] else [])
            && s'.store.messages == s.store.messages
                 + (if made >= 5 && p.topay != Undone then [ToPay(|s.store.tickets|, r)] else [])
                 + (if made >= 5 && p.topay == Done && p.email != Undone then [Email(r)] else [])
  {
    RestIsChain(cfg, Step(cfg, s, Arrive(event, user)), |s.runs|, p, 0);
  }
}
