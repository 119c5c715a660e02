/** The ticket inventory of one event: a read, a check and a write with nothing to hold them
    together, under any number of buyers. */
module Inventory {
  import opened Wrapper

  // Go's int, and PostgreSQL's INT columns.
  type Int64 = x: int | -0x8000_0000_0000_0000 <= x < 0x8000_0000_0000_0000
  type Int32 = x: int | -0x8000_0000 <= x < 0x8000_0000

  predicate InColumn(x: int) {
    -0x8000_0000 <= x < 0x8000_0000
  }

  // Go arithmetic wraps around; a sum or difference of two ints does so at most once.
  function Wrap(x: int): (r: Int64)
    requires -0x1_0000_0000_0000_0000 <= x < 0x1_0000_0000_0000_0000
    ensures (r - x) % 0x1_0000_0000_0000_0000 == 0
  {
    if x >= 0x8000_0000_0000_0000 then x - 0x1_0000_0000_0000_0000
    else if x < -0x8000_0000_0000_0000 then x + 0x1_0000_0000_0000_0000
    else x
  }

  datatype Row = Row(total: Int32, sold: Int32, left: Option<Int32>)

  predicate Consistent(row: Row) {
    && 0 <= row.sold <= row.total
    && (row.left.Some? ==> row.left.value == row.total - row.sold)
  }

  // What the SELECT lets the buyer write, if anything.
  datatype Plan = Reject | Write(base: Int32, sold: Int64, left: Int64)

  function Check(row: Row, tickets: Int64): Plan {
    if tickets <= 0 then Reject
    else if Wrap(row.sold + tickets) > row.total then Reject
    else Write(row.sold, Wrap(row.sold + tickets), Wrap(row.total - Wrap(row.sold + tickets)))
  }

  // The UPDATE fails on values its columns cannot hold.
  predicate Storable(p: Plan) {
    p.Write? && InColumn(p.sold) && InColumn(p.left)
  }

  // The wrap-around of Go is caught by the column's range: what gets stored is the plain sum.
  lemma StorablePlanIsExact(row: Row, tickets: Int64)
    requires Storable(Check(row, tickets))
    ensures var p := Check(row, tickets);
            p.sold == row.sold + tickets <= row.total && p.left == row.total - p.sold
  {
  }

  // A request so large that the sum wraps around passes the check, and only the column refuses it.
  lemma HugeRequestPassesTheCheck(row: Row, tickets: Int64)
    requires row.sold + tickets >= 0x8000_0000_0000_0000
    ensures var p := Check(row, tickets);
            p.Write? && p.sold == row.sold + tickets - 0x1_0000_0000_0000_0000 && !Storable(p)
  {
  }

  // A row plans a storable write exactly for a positive number of tickets it still has, as long as
  // the rest fits its column. It always does in a consistent row.
  lemma StorableIffAvailable(row: Row, tickets: Int64)
    ensures Storable(Check(row, tickets)) <==>
            0 < tickets <= row.total - row.sold && InColumn(row.total - row.sold - tickets)
    ensures Consistent(row) && 0 < tickets <= row.total - row.sold ==> InColumn(row.total - row.sold - tickets)
  {
  }

  // One event's row, updated by one buyer at a time.
  class EventRow {
    var row: Row

    constructor (row: Row)
      ensures this.row == row
    {
      this.row := row;
    }

    // `down` says that the UPDATE fails for reasons of its own.
    method UpdateTicketsSold(tickets: Int64, down: bool) returns (ok: bool)
      modifies this
      ensures Consistent(old(row)) ==> Consistent(row)
      ensures ok <==> !down && 0 < tickets <= old(row).total - old(row).sold
                      && InColumn(old(row).total - old(row).sold - tickets)
      ensures ok ==> row.total == old(row).total && row.sold == old(row).sold + tickets
                     && row.left == Some(row.total - row.sold)
      ensures !ok ==> row == old(row)
    {
      var total, sold := row.total, row.sold;
      StorableIffAvailable(row, tickets);
      if tickets <= 0 {
        return false;
      }
      if Wrap(sold + tickets) > total {
        return false;
      }
      var newSold := Wrap(sold + tickets);
      var left := Wrap(total - newSold);
      if down || !InColumn(newSold) || !InColumn(left) {
        return false;
      }
      StorablePlanIsExact(row, tickets);
      row := Row(total, newSold, Some(left));
      return true;
    }
  }

  // ----- interleaved buyers

  datatype Buyer = Asking(tickets: Int64) | Holding(tickets: Int64, plan: Plan) | Finished

  // `accepted` adds up the tickets of all committed purchases.
  datatype Sys = Sys(row: Row, buyers: seq<Buyer>, accepted: int)

  datatype Event = Arrive(tickets: Int64) | Select(i: nat) | Update(i: nat, down: bool)

  // Buyer i's UPDATE commits.
  predicate Commits(s: Sys, e: Event) {
    && e.Update? && !e.down && e.i < |s.buyers| && s.buyers[e.i].Holding?
    && Storable(s.buyers[e.i].plan)
  }

  function Step(s: Sys, e: Event): Sys {
    match e
    case Arrive(tickets) => s.(buyers := s.buyers + [Asking(tickets)])
    case Select(i) =>
      if i < |s.buyers| && s.buyers[i].Asking? then
        var tickets := s.buyers[i].tickets;
        s.(buyers := s.buyers[i := Holding(tickets, Check(s.row, tickets))])
      else s
    case Update(i, down) =>
      if Commits(s, e) then
        var plan := s.buyers[i].plan;
        Sys(Row(s.row.total, plan.sold, Some(plan.left)), s.buyers[i := Finished], s.accepted + s.buyers[i].tickets)
      else if i < |s.buyers| && s.buyers[i].Holding? then s.(buyers := s.buyers[i := Finished])
      else s
  }

  function At(row: Row, es: seq<Event>, n: nat): Sys
    requires n <= |es|
  {
    if n == 0 then Sys(row, [], 0) else Step(At(row, es, n - 1), es[n - 1])
  }

  // What a buyer may write was right when it was read.
  predicate Honest(initial: Row, s: Sys, buyer: Buyer) {
    buyer.Holding? && Storable(buyer.plan) ==>
      && buyer.tickets > 0 && 0 <= buyer.plan.base <= initial.sold + s.accepted
      && buyer.plan.sold == buyer.plan.base + buyer.tickets <= initial.total
      && buyer.plan.left == initial.total - buyer.plan.sold
  }

  predicate Sound(initial: Row, s: Sys) {
    && Consistent(s.row) && s.row.total == initial.total && s.row.sold <= initial.sold + s.accepted
    && forall i :: 0 <= i < |s.buyers| ==> Honest(initial, s, s.buyers[i])
  }

  lemma SoundStep(initial: Row, s: Sys, e: Event)
    requires Sound(initial, s)
    ensures Sound(initial, Step(s, e))
  {
    if e.Select? && e.i < |s.buyers| && s.buyers[e.i].Asking? && Storable(Check(s.row, s.buyers[e.i].tickets)) {
      StorablePlanIsExact(s.row, s.buyers[e.i].tickets);
    }
  }

  lemma LastEvent(row: Row, es: seq<Event>, n: nat)
    requires 0 < n <= |es|
    ensures At(row, es, n) == Step(At(row, es, n - 1), es[n - 1])
  {
  }

  // Whatever the interleaving, the row stays consistent and never counts more tickets than were sold.
  lemma {:induction false} RowStaysConsistent(initial: Row, es: seq<Event>, n: nat)
    requires n <= |es| && Consistent(initial)
    ensures var s := At(initial, es, n);
            Sound(initial, s) && Consistent(s.row) && s.row.sold <= initial.sold + s.accepted
  {
    if n == 0 {
    } else {
      RowStaysConsistent(initial, es, n - 1);
      LastEvent(initial, es, n);
      SoundStep(initial, At(initial, es, n - 1), es[n - 1]);
    }
  }

  // Whatever was read and however long ago, a failed UPDATE sells nothing.
  lemma FailedUpdateSellsNothing(s: Sys, i: nat)
    ensures var s' := Step(s, Update(i, true));
            && s'.row == s.row && s'.accepted == s.accepted
            && (i < |s.buyers| && s.buyers[i].Holding? ==> s'.buyers == s.buyers[i := Finished])
  {
  }

  // Sales that the row has lost track of.
  function Lost(initial: Row, s: Sys): int {
    initial.sold + s.accepted - s.row.sold
  }

  // What others have sold between the SELECT and the UPDATE of the buyer that commits.
  function Overwrites(s: Sys, e: Event): int {
    if Commits(s, e) then s.row.sold - s.buyers[e.i].plan.base else 0
  }

  // Each commit loses exactly what others have sold since the buyer's SELECT.
  lemma LossPerCommit(initial: Row, s: Sys, e: Event)
    requires Sound(initial, s)
    ensures Lost(initial, Step(s, e)) == Lost(initial, s) + Overwrites(s, e)
  {
    if Commits(s, e) {
      assert Honest(initial, s, s.buyers[e.i]);
    }
  }

  function Overwritten(initial: Row, es: seq<Event>, n: nat): int
    requires n <= |es|
  {
    if n == 0 then 0 else Overwritten(initial, es, n - 1) + Overwrites(At(initial, es, n - 1), es[n - 1])
  }

  // Over any run, what the row has lost track of is what the commits together have overwritten.
  lemma {:induction false} LostIsOverwritten(initial: Row, es: seq<Event>, n: nat)
    requires n <= |es| && Consistent(initial)
    ensures 0 <= Lost(initial, At(initial, es, n)) == Overwritten(initial, es, n)
  {
    RowStaysConsistent(initial, es, n);
    if n == 0 {
    } else {
      LostIsOverwritten(initial, es, n - 1);
      RowStaysConsistent(initial, es, n - 1);
      LastEvent(initial, es, n);
      LossPerCommit(initial, At(initial, es, n - 1), es[n - 1]);
    }
  }

  // In each of the first n + 1 states.
  predicate NothingLost(initial: Row, es: seq<Event>, n: nat)
    requires n <= |es|
  {
    Lost(initial, At(initial, es, n)) == 0 && (n > 0 ==> NothingLost(initial, es, n - 1))
  }

  // A commit finds the row as its SELECT saw it.
  predicate NoClash(s: Sys, e: Event) {
    Commits(s, e) ==> s.buyers[e.i].plan.base == s.row.sold
  }

  // By each of the first n events.
  predicate NoOverlap(initial: Row, es: seq<Event>, n: nat)
    requires n <= |es|
  {
    n > 0 ==> NoOverlap(initial, es, n - 1) && NoClash(At(initial, es, n - 1), es[n - 1])
  }

  // The row accounts for every accepted purchase all along a run if and only if no purchase
  // commits over a count that has changed since it was read.
  lemma {:induction false} NothingLostIffNoOverlap(initial: Row, es: seq<Event>, n: nat)
    requires n <= |es| && Consistent(initial)
    ensures NothingLost(initial, es, n) <==> NoOverlap(initial, es, n)
  {
    if n == 0 {
    } else {
      NothingLostIffNoOverlap(initial, es, n - 1);
      RowStaysConsistent(initial, es, n - 1);
      LastEvent(initial, es, n);
      LossPerCommit(initial, At(initial, es, n - 1), es[n - 1]);
    }
  }

  // ----- overselling

  predicate Oversold(initial: Row, s: Sys) {
    initial.sold + s.accepted > initial.total
  }

  // An event is oversold if and only if the commits have overwritten more than the row still offers.
  lemma {:induction false} OversoldIff(initial: Row, es: seq<Event>, n: nat)
    requires n <= |es| && Consistent(initial)
    ensures var s := At(initial, es, n);
            Oversold(initial, s) <==> Overwritten(initial, es, n) > s.row.total - s.row.sold
  {
    LostIsOverwritten(initial, es, n);
    RowStaysConsistent(initial, es, n);
  }

  // Without overlap an event is never oversold.
  lemma {:induction false} NeverOversold(initial: Row, es: seq<Event>, n: nat)
    requires n <= |es| && Consistent(initial) && NoOverlap(initial, es, n)
    ensures !Oversold(initial, At(initial, es, n))
  {
    NothingLostIffNoOverlap(initial, es, n);
    RowStaysConsistent(initial, es, n);
  }

  function From(s: Sys, es: seq<Event>): Sys
    decreases |es|
  {
    if es == [] then s else From(Step(s, es[0]), es[1..])
  }

  predicate NoClashFrom(s: Sys, es: seq<Event>)
    decreases |es|
  {
    es == [] || (NoClash(s, es[0]) && NoClashFrom(Step(s, es[0]), es[1..]))
  }

  lemma {:induction false} LosesNothingMore(initial: Row, s: Sys, es: seq<Event>)
    requires Sound(initial, s) && NoClashFrom(s, es)
    ensures Sound(initial, From(s, es)) && Lost(initial, From(s, es)) == Lost(initial, s)
    decreases |es|
  {
    if es == [] {
    } else {
      SoundStep(initial, s, es[0]);
      LossPerCommit(initial, s, es[0]);
      LosesNothingMore(initial, Step(s, es[0]), es[1..]);
    }
  }

  // A new buyer, undisturbed, takes all that the row offers, if anything.
  lemma BuyTheRest(initial: Row, s: Sys) returns (es: seq<Event>)
    requires Sound(initial, s)
    ensures NoClashFrom(s, es) && From(s, es).accepted == s.accepted + s.row.total - s.row.sold
  {
    var i, rest := |s.buyers|, s.row.total - s.row.sold;
    if rest == 0 {
      return [];
    }
    var s1 := Step(s, Arrive(rest));
    var s2 := Step(s1, Select(i));
    StorableIffAvailable(s.row, rest);
    UninterruptedIsSerial(s1, i, false);
    ThreeSteps(s, Arrive(rest), Select(i), Update(i, false));
    es := [Arrive(rest), Select(i), Update(i, false)];
  }

  lemma ThreeSteps(s: Sys, a: Event, b: Event, c: Event)
    ensures From(s, [a, b, c]) == Step(Step(Step(s, a), b), c)
    ensures NoClashFrom(s, [a, b, c]) <==>
            NoClash(s, a) && NoClash(Step(s, a), b) && NoClash(Step(Step(s, a), b), c)
  {
    var s2 := Step(Step(s, a), b);
    assert [a, b, c][1..] == [b, c] && [b, c][1..] == [c];
    assert From(s2, [c]) == Step(s2, c) && (NoClashFrom(s2, [c]) <==> NoClash(s2, c));
    assert From(Step(s, a), [b, c]) == From(s2, [c]);
  }

  // From any reachable state, buyers that do not overlap can never oversell the event if and only
  // if nothing has been lost so far: a buyer of all the rest is enough to oversell what was lost.
  lemma {:induction false} NeverOversoldIff(initial: Row, s: Sys)
    requires Sound(initial, s)
    ensures Lost(initial, s) == 0 <==>
            forall es :: NoClashFrom(s, es) ==> !Oversold(initial, From(s, es))
  {
    if Lost(initial, s) == 0 {
      forall es | NoClashFrom(s, es) ensures !Oversold(initial, From(s, es)) {
        LosesNothingMore(initial, s, es);
      }
    } else {
      var es := BuyTheRest(initial, s);
      assert Oversold(initial, From(s, es));
    }
  }

  const LAST_TICKET := Row(1, 0, None)

  const TWO_BUYERS := [Arrive(1), Arrive(1), Select(0), Select(1), Update(0, false), Update(1, false)]

  lemma BothSelect()
    ensures Check(LAST_TICKET, 1) == Write(0, 1, 0)
    ensures At(LAST_TICKET, TWO_BUYERS, 4) ==
            Sys(LAST_TICKET, [Holding(1, Write(0, 1, 0)), Holding(1, Write(0, 1, 0))], 0)
  {
    assert At(LAST_TICKET, TWO_BUYERS, 1) == Sys(LAST_TICKET, [Asking(1)], 0);
    assert At(LAST_TICKET, TWO_BUYERS, 2) == Sys(LAST_TICKET, [Asking(1), Asking(1)], 0);
    assert At(LAST_TICKET, TWO_BUYERS, 3) == Sys(LAST_TICKET, [Holding(1, Write(0, 1, 0)), Asking(1)], 0);
  }

  // With overlap it can be: two buyers get the last ticket, and the row shows nothing wrong.
  lemma LastTicketSoldTwice()
    ensures var s := At(LAST_TICKET, TWO_BUYERS, 6);
            s.accepted == 2 && Consistent(s.row) && s.row.sold == s.row.total == 1
  {
    BothSelect();
    assert At(LAST_TICKET, TWO_BUYERS, 5) == Sys(Row(1, 1, Some(0)), [Finished, Holding(1, Write(0, 1, 0))], 1);
  }

  // A buyer left alone between SELECT and UPDATE buys what UpdateTicketsSold buys: nothing if the
  // UPDATE fails.
  lemma UninterruptedIsSerial(s: Sys, i: nat, down: bool)
    requires Consistent(s.row) && i < |s.buyers| && s.buyers[i].Asking?
    ensures var n := s.buyers[i].tickets;
            Step(Step(s, Select(i)), Update(i, down)) ==
            if !down && 0 < n <= s.row.total - s.row.sold
            then Sys(Row(s.row.total, s.row.sold + n, Some(s.row.total - (s.row.sold + n))),
                     s.buyers[i := Finished], s.accepted + n)
            else Sys(s.row, s.buyers[i := Finished], s.accepted)
  {
    var s1 := Step(s, Select(i));
    StorableIffAvailable(s.row, s.buyers[i].tickets);
    if Storable(Check(s.row, s.buyers[i].tickets)) {
      StorablePlanIsExact(s.row, s.buyers[i].tickets);
    }
    assert s1.buyers[i := Finished] == s.buyers[i := Finished];
  }
}
