/** Reservations and the payment consumer together: what a buyer can be charged for. */
module EndToEnd {
  import Breaker
  import Payment
  import Reservation

  // The consumer is fed from the payment orders of the reservations; a message's id is its place
  // among the messages published.
  ghost predicate FedBy(messages: seq<Reservation.Message>, ledger: Payment.Ledger) {
    forall m :: Payment.About(ledger, m).published > 0 ==>
      m.wellFormed && m.id < |messages| && messages[m.id].ToPay?
  }

  // Over any run of reservations and any run of the consumer fed by it, each with its own breaker:
  // at most one charge is attempted for a ticket, over all its payment orders and all their requeues,
  // and only if the ticket has been purchased by the reservation that created it.
  lemma {:induction false} OneChargePerTicket(
      saga: Breaker.Config, reservations: seq<Reservation.Event>,
      consumer: Breaker.Config, workers: nat, payments: seq<Payment.Event>, m: Payment.Message)
    requires var messages := Reservation.At(saga, reservations, |reservations|).store.messages;
             var ledger := Payment.At(consumer, workers, payments, |payments|).ledger;
             FedBy(messages, ledger) && Payment.About(ledger, m).attempts > 0
    ensures var st := Reservation.At(saga, reservations, |reservations|).store;
            var ledger := Payment.At(consumer, workers, payments, |payments|).ledger;
            && Payment.About(ledger, m).attempts == 1
            && m.id < |st.messages| && st.messages[m.id].ToPay?
            && (forall k :: Payment.About(ledger, k).attempts > 0 && k != m ==>
                  k.id < |st.messages| && st.messages[k.id].ToPay?
                  && st.messages[k.id].ticket != st.messages[m.id].ticket)
            && var order := st.messages[m.id];
               && order.ticket < |st.tickets| && st.tickets[order.ticket].run == order.run
               && exists i :: 0 <= i < |st.purchases| && st.purchases[i].ticket == order.ticket
                              && st.purchases[i].run == order.run
  {
    var st := Reservation.At(saga, reservations, |reservations|).store;
    var ledger := Payment.At(consumer, workers, payments, |payments|).ledger;
    Payment.AtMostOneCharge(consumer, workers, payments, |payments|, m);
    Attempted(consumer, workers, payments, m);
    Reservation.PaymentsArePurchased(saga, reservations, |reservations|, m.id);
    Reservation.AlwaysCoherent(saga, reservations, |reservations|);
    Reservation.OrderMatches(Reservation.At(saga, reservations, |reservations|).runs, st, m.id);
    forall k | Payment.About(ledger, k).attempts > 0 && k != m
      ensures k.id < |st.messages| && st.messages[k.id].ToPay?
              && st.messages[k.id].ticket != st.messages[m.id].ticket
    {
      Attempted(consumer, workers, payments, k);
      assert k.id != m.id;
    }
  }

  lemma {:induction false} Attempted(cfg: Breaker.Config, workers: nat, payments: seq<Payment.Event>,
                                     m: Payment.Message)
    requires Payment.About(Payment.At(cfg, workers, payments, |payments|).ledger, m).attempts > 0
    ensures Payment.About(Payment.At(cfg, workers, payments, |payments|).ledger, m).published > 0
  {
    Payment.PoolIsSound(cfg, workers, payments, |payments|);
    Payment.OneCharge(Payment.At(cfg, workers, payments, |payments|), m);
  }
}
