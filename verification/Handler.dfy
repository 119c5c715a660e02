/** One reservation request at a time: the handler's five guarded calls with their early exits,
    and what a single request does to a breaker that is due for a probe. */
module Handler {
  import opened Breaker
  import opened Wrapper

  // What a protected call returns when it is made.
  datatype Reply<+T> = Good(value: T) | Bad(error: string)

  // The replies of the five stages. The price stays a parameter: turning it into cents is not modelled.
  datatype Replies = Replies(event: Reply<real>, user: Reply<string>, ticket: Reply<nat>,
                             purchase: Reply<nat>, publish: Reply<()>)

  datatype Response = Created(purchase: nat) | ServiceUnavailable | TooMany | ServerError

  function ToResult<T>(reply: Reply<T>): Result<T> {
    match reply
    case Good(v) => Result(Some(v), None)
    case Bad(e) => Result(None, Some(Other(e)))
  }

  function ErrorResponse(error: Option<Error>): Response {
    if error == Some(BreakerOpenError) then ServiceUnavailable
    else if error == Some(TooManyRequestsError) then TooMany
    else ServerError
  }

  // Which of the guarded calls succeed, in order; without a message broker the fifth is skipped.
  function Oks(replies: Replies, broker: bool): seq<bool> {
    [replies.event.Good?, replies.user.Good?, replies.ticket.Good?, replies.purchase.Good?]
    + if broker then [replies.publish.Good?] else []
  }

  // A chain of guarded calls that stops at the first refusal or failure: the breaker it leaves
  // and the number of calls made. clock[i] holds the start and the end of call i.
  function Chain(cfg: Config, b: Status, oks: seq<bool>, clock: seq<(int, int)>, i: nat): (Status, nat)
    requires i <= |oks| <= |clock|
    decreases |oks| - i
  {
    if i == |oks| || Answer(cfg, b, clock[i].0).Refused? then (b, i)
    else
      var b' := Serial(cfg, b, oks[i], clock[i].0, clock[i].1);
      if oks[i] then Chain(cfg, b', oks, clock, i + 1) else (b', i + 1)
  }

  // What the client is told, by how its last call ended; b is the breaker as the request left it,
  // which a refusal does not change. Created once the purchase is, whatever becomes of the
  // publication; a server error exactly if a call made before that failed; otherwise a call was turned
  // away: by an open breaker not past its expiry, or by a half-open one at its limit.
  predicate Told(cfg: Config, b: Status, replies: Replies, clock: seq<(int, int)>, made: nat, response: Response)
    requires |clock| == 5
  {
    var ok := [replies.event.Good?, replies.user.Good?, replies.ticket.Good?, replies.purchase.Good?];
    var turnedAway := made < 4 && (made > 0 ==> ok[made - 1]);
    && (response.Created? <==> made >= 4 && ok[3])
    && (response.Created? ==> response.purchase == replies.purchase.value)
    && (response == ServerError <==> 0 < made <= 4 && !ok[made - 1])
    && (response == ServiceUnavailable <==> turnedAway && b.state == Open && clock[made].0 <= b.expiry)
    && (response == TooMany <==> turnedAway && b.state == HalfOpen && b.counts.requests >= cfg.maxRequests)
  }

  lemma ChainGoesOn(cfg: Config, b: Status, oks: seq<bool>, clock: seq<(int, int)>, i: nat)
    requires i < |oks| <= |clock| && oks[i] && Answer(cfg, b, clock[i].0).Admitted?
    ensures Chain(cfg, b, oks, clock, i)
         == Chain(cfg, Serial(cfg, b, true, clock[i].0, clock[i].1), oks, clock, i + 1)
  {
  }

  // What a request that finds breaker b makes of it and answers, `made` calls having run.
  predicate Handled(cfg: Config, b: Status, replies: Replies, broker: bool, clock: seq<(int, int)>,
                    b': Status, made: nat, response: Response)
    requires |clock| == 5
  {
    && (b', made) == Chain(cfg, b, Oks(replies, broker), clock, 0)
    && Told(cfg, b', replies, clock, made, response)
  }

  // A request that found breaker b0 has come to its i-th call, with breaker b.
  predicate ComesTo(cfg: Config, b0: Status, oks: seq<bool>, clock: seq<(int, int)>, i: nat, b: Status) {
    && i <= |oks| <= |clock| && (i > 0 ==> oks[i - 1])
    && Chain(cfg, b0, oks, clock, 0) == Chain(cfg, b, oks, clock, i)
  }

  lemma CallSucceeds(cfg: Config, b0: Status, oks: seq<bool>, clock: seq<(int, int)>, i: nat, b: Status, b': Status)
    requires ComesTo(cfg, b0, oks, clock, i, b) && i < |oks| && oks[i]
    requires Answer(cfg, b, clock[i].0).Admitted? && b' == Serial(cfg, b, true, clock[i].0, clock[i].1)
    ensures ComesTo(cfg, b0, oks, clock, i + 1, b')
  {
    ChainGoesOn(cfg, b, oks, clock, i);
  }

  // The i-th call does not succeed: the chain ends with it, or before it if it is refused.
  lemma CallFails(cfg: Config, b0: Status, replies: Replies, broker: bool, clock: seq<(int, int)>, i: nat,
                  b: Status, b': Status, ran: bool, made: nat, error: Option<Error>)
    requires |clock| == 5 && i < 4 && ComesTo(cfg, b0, Oks(replies, broker), clock, i, b)
    requires made == i + (if ran then 1 else 0) && (ran <==> Answer(cfg, b, clock[i].0).Admitted?)
    requires b' == Serial(cfg, b, false, clock[i].0, clock[i].1)
    requires if ran then !Oks(replies, broker)[i] && error.Some? && error.value.Other?
             else error == Some(ErrorOf(Answer(cfg, b, clock[i].0).reason))
    ensures Handled(cfg, b0, replies, broker, clock, b', made, ErrorResponse(error))
  {
  }

  // The purchase is created; the outcome of publishing does not show in the response.
  lemma PurchaseCreated(cfg: Config, b0: Status, replies: Replies, broker: bool, clock: seq<(int, int)>,
                        b': Status, made: nat)
    requires |clock| == 5 && replies.purchase.Good? && made >= 4
    requires (b', made) == Chain(cfg, b0, Oks(replies, broker), clock, 0)
    ensures Handled(cfg, b0, replies, broker, clock, b', made, Created(replies.purchase.value))
  {
  }

  class ReservationHandler {
    const guard: Guard
    const hasBroker: bool

    constructor (hasBroker: bool)
      ensures fresh(guard) && fresh(guard.cb) && guard.cb.View() == INITIAL && this.hasBroker == hasBroker
    {
      this.hasBroker := hasBroker;
      guard := new Guard();
    }

    // The i-th guarded call of a request that found breaker b0. A failure before the publication
    // decides the response.
    method Call<T>(reply: Reply<T>, ghost b0: Status, replies: Replies, clock: seq<(int, int)>, i: nat)
      returns (result: Result<T>, made: nat)
      requires |clock| == 5 && i < |Oks(replies, hasBroker)| && reply.Good? == Oks(replies, hasBroker)[i]
      requires ComesTo(guard.cb.Cfg(), b0, Oks(replies, hasBroker), clock, i, guard.cb.View())
      modifies guard.cb
      ensures result.error == None ==>
                && reply.Good? && result.data == Some(reply.value) && made == i + 1
                && ComesTo(guard.cb.Cfg(), b0, Oks(replies, hasBroker), clock, i + 1, guard.cb.View())
      ensures result.error != None && i < 4 ==>
                Handled(guard.cb.Cfg(), b0, replies, hasBroker, clock,
                        guard.cb.View(), made, ErrorResponse(result.error))
      ensures i == 4 ==>
                made >= 4
                && (guard.cb.View(), made) == Chain(guard.cb.Cfg(), b0, Oks(replies, hasBroker), clock, 0)
    {
      ghost var cfg, oks, b := guard.cb.Cfg(), Oks(replies, hasBroker), guard.cb.View();
      var ran;
      result, ran := guard.Execute(ToResult(reply), clock[i].0, clock[i].1);
      made := i + if ran then 1 else 0;
      if result.error == None {
        CallSucceeds(cfg, b0, oks, clock, i, b, guard.cb.View());
      } else if i < 4 {
        CallFails(cfg, b0, replies, hasBroker, clock, i, b, guard.cb.View(), ran, made, result.error);
      }
    }

    // `made` counts the protected calls that ran.
    method ReserveTicket(replies: Replies, clock: seq<(int, int)>) returns (response: Response, made: nat)
      requires |clock| == 5
      modifies guard.cb
      ensures Handled(guard.cb.Cfg(), old(guard.cb.View()), replies, hasBroker, clock,
                      guard.cb.View(), made, response)
    {
      ghost var b0 := guard.cb.View();
      var event;
      event, made := Call(replies.event, b0, replies, clock, 0);
      if event.error != None {
        return ErrorResponse(event.error), made;
      }
      var user;
      user, made := Call(replies.user, b0, replies, clock, 1);
      if user.error != None {
        return ErrorResponse(user.error), made;
      }
      var ticket;
      ticket, made := Call(replies.ticket, b0, replies, clock, 2);
      if ticket.error != None {
        return ErrorResponse(ticket.error), made;
      }
      var purchase;
      purchase, made := Call(replies.purchase, b0, replies, clock, 3);
      if purchase.error != None {
        return ErrorResponse(purchase.error), made;
      }
      if hasBroker {
        // A failed publication is only logged.
        var published;
        published, made := Call(replies.publish, b0, replies, clock, 4);
      }
      PurchaseCreated(guard.cb.Cfg(), b0, replies, hasBroker, clock, guard.cb.View(), made);
      return Created(purchase.data.value), made;
    }
  }

  // From any breaker: a call is made only after all earlier ones succeeded, and the chain ends
  // early only at a failed call or because the breaker, untouched by it, refuses the next one.
  lemma {:induction false} ChainStops(cfg: Config, b: Status, oks: seq<bool>, clock: seq<(int, int)>, i: nat)
    requires i <= |oks| <= |clock| && forall j :: 0 <= j < i ==> oks[j]
    ensures var (b', made) := Chain(cfg, b, oks, clock, i);
            && i <= made <= |oks|
            && (forall j :: 0 <= j < made - 1 ==> oks[j])
            && (made < |oks| ==> (made > i && !oks[made - 1]) || Answer(cfg, b', clock[made].0).Refused?)
    decreases |oks| - i
  {
    if i == |oks| || Answer(cfg, b, clock[i].0).Refused? || !oks[i] {
    } else {
      ChainStops(cfg, Serial(cfg, b, oks[i], clock[i].0, clock[i].1), oks, clock, i + 1);
    }
  }

  // ----- healing

  // A half-open breaker all of whose probes have succeeded.
  predicate AllGood(cfg: Config, b: Status, i: nat) {
    b.state == HalfOpen && b.counts == Counts(i, 0, 0, i) && 0 < i < cfg.Limit()
  }

  // What a chain of `length` calls makes of a breaker waiting for probes: a failure at call j
  // opens it on the spot, and success all along closes it if there were as many calls as probes.
  predicate Verdict(cfg: Config, oks: seq<bool>, clock: seq<(int, int)>, outcome: (Status, nat))
    requires |oks| <= |clock|
  {
    var (b, made) := outcome;
    && 0 < made <= |oks|
    && (forall j :: 0 <= j < made - 1 ==> oks[j])
    && (b.state == Open <==> !oks[made - 1])
    && (b.state == Open ==> b.counts == ZERO && b.expiry == clock[made - 1].1 + cfg.timeout)
    && (b.state != Open ==> made == |oks| && forall j :: 0 <= j < |oks| ==> oks[j])
    && (b.state == Closed <==> (forall j :: 0 <= j < |oks| ==> oks[j]) && |oks| == cfg.Limit())
    && (b.state == Closed ==> b.counts == ZERO)
    && (b.state == HalfOpen ==> AllGood(cfg, b, |oks|))
  }

  lemma GoodProbe(cfg: Config, b: Status, i: nat, ok: bool, start: int, finish: int)
    requires cfg.maxRequests > 0
    requires AllGood(cfg, b, i) || (i == 0 && b.state == Open && start > b.expiry)
    ensures Answer(cfg, b, start).Admitted?
    ensures var b' := Serial(cfg, b, ok, start, finish);
            if !ok then b'.state == Open && b'.counts == ZERO && b'.expiry == finish + cfg.timeout
            else if i + 1 == cfg.Limit() then b'.state == Closed && b'.counts == ZERO
            else AllGood(cfg, b', i + 1)
  {
  }

  lemma {:induction false} ChainVerdict(cfg: Config, b: Status, oks: seq<bool>, clock: seq<(int, int)>, i: nat)
    requires cfg.maxRequests > 0 && 0 < |oks| <= |clock| && |oks| <= cfg.Limit() && i < |oks|
    requires AllGood(cfg, b, i) || (i == 0 && b.state == Open && clock[0].0 > b.expiry)
    requires forall j :: 0 <= j < i ==> oks[j]
    ensures Verdict(cfg, oks, clock, Chain(cfg, b, oks, clock, i))
    decreases |oks| - i
  {
    GoodProbe(cfg, b, i, oks[i], clock[i].0, clock[i].1);
    var b' := Serial(cfg, b, oks[i], clock[i].0, clock[i].1);
    if oks[i] && i + 1 < |oks| {
      ChainVerdict(cfg, b', oks, clock, i + 1);
    } else {
      assert Chain(cfg, b, oks, clock, i) == (b', i + 1);
    }
  }

  // With the default settings, one undisturbed reservation that meets an open breaker past its
  // expiry closes it exactly if it publishes and all five calls succeed, reopens it at the first
  // failure, after which no call is made, and otherwise leaves it half open: that is, only when
  // there is no message broker and its four calls succeed.
  lemma OneReservationDecides(w: Width, b: Status, replies: Replies, broker: bool, clock: seq<(int, int)>)
    requires |clock| == 5 && b.state == Open && clock[0].0 > b.expiry
    ensures var oks := Oks(replies, broker);
            var (b', made) := Chain(DefaultConfig(w), b, oks, clock, 0);
            var allGood := forall j :: 0 <= j < |oks| ==> oks[j];
            && 0 < made <= |oks| && (forall j :: 0 <= j < made - 1 ==> oks[j])
            && (b'.state == Closed <==> allGood && broker)
            && (b'.state == HalfOpen <==> allGood && !broker)
            && (b'.state == Open <==> !allGood)
            && (b'.state == Closed ==> b'.counts == ZERO)
            && (b'.state == Open ==> b'.expiry == clock[made - 1].1 + 60 * SECOND && !oks[made - 1])
  {
    ChainVerdict(DefaultConfig(w), b, Oks(replies, broker), clock, 0);
  }
}
