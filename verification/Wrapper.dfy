/** The wrapper services call the breaker through, and how they tell a refusal from a failed call. */
module Wrapper {
  import opened Breaker

  datatype Option<+T> = None | Some(value: T) {
    function GetOr(default: T): T {
      if Some? then value else default
    }
  }

  datatype Error = BreakerOpenError | TooManyRequestsError | Other(text: string)

  // A Go pair of a value and an error, either of which may be nil.
  datatype Result<+T> = Result(data: Option<T>, error: Option<Error>)

  predicate IsCircuitBreakerError(error: Option<Error>) {
    error == Some(BreakerOpenError) || error == Some(TooManyRequestsError)
  }

  function ErrorOf(reason: Refusal): Error {
    match reason
    case BreakerOpen => BreakerOpenError
    case TooManyRequests => TooManyRequestsError
  }

  class Guard {
    const cb: CircuitBreaker

    constructor ()
      ensures fresh(cb) && cb.View() == INITIAL && cb.Cfg() == DefaultConfig(Bits32)
    {
      cb := new CircuitBreaker(5, 60 * SECOND, 60 * SECOND, DefaultConfig(Bits32).readyToTrip);
    }

    // `call` is what the protected call returns if it is made; `ran` says whether it was.
    method Execute<T>(call: Result<T>, start: int, finish: int) returns (result: Result<T>, ran: bool)
      modifies cb
      ensures ran <==> Answer(cb.Cfg(), old(cb.View()), start).Admitted?
      ensures ran ==> result == call
      ensures !ran ==> result == Result(None, Some(ErrorOf(Answer(cb.Cfg(), old(cb.View()), start).reason)))
      ensures !ran ==> (result.error == Some(BreakerOpenError) <==> old(cb.state) == Open && start <= old(cb.expiry))
      ensures !ran ==> (result.error == Some(TooManyRequestsError) <==>
                          old(cb.state) == HalfOpen && old(cb.counts).requests >= cb.maxRequests)
      ensures IsCircuitBreakerError(result.error) <==> !ran || IsCircuitBreakerError(call.error)
      ensures cb.View() == Serial(cb.Cfg(), old(cb.View()), call.error == None, start, finish)
      ensures cb.changes == old(cb.changes) + Notices(cb.Cfg(), old(cb.View()), call.error == None, start, finish)
    {
      var ended := cb.Execute(if call.error == None then Succeeded else Failed, start, finish);
      match ended {
        case NotRun(reason) => return Result(None, Some(ErrorOf(reason))), false;
        case Ran(_) => return call, true;
      }
    }

    // A call whose context is over by the time it is admitted fails with the context's error,
    // whose text is `over`, without being made.
    method ExecuteContext<T>(over: Option<string>, call: Result<T>, start: int, finish: int)
      returns (result: Result<T>, ran: bool)
      modifies cb
      ensures ran <==> over.None? && Answer(cb.Cfg(), old(cb.View()), start).Admitted?
      ensures ran ==> result == call
      ensures !ran ==>
                var answer := Answer(cb.Cfg(), old(cb.View()), start);
                result == Result(None, Some(if answer.Refused? then ErrorOf(answer.reason) else Other(over.value)))
      ensures !ran ==> (result.error == Some(BreakerOpenError) <==> old(cb.state) == Open && start <= old(cb.expiry))
      ensures !ran ==> (result.error == Some(TooManyRequestsError) <==>
                          old(cb.state) == HalfOpen && old(cb.counts).requests >= cb.maxRequests)
      ensures IsCircuitBreakerError(result.error) <==>
              Answer(cb.Cfg(), old(cb.View()), start).Refused? || (ran && IsCircuitBreakerError(call.error))
      ensures cb.View() == Serial(cb.Cfg(), old(cb.View()), over.None? && call.error == None, start, finish)
      ensures cb.changes == old(cb.changes)
                            + Notices(cb.Cfg(), old(cb.View()), over.None? && call.error == None, start, finish)
    {
      if over.Some? {
        result, ran := Execute(Result(None, Some(Other(over.value))), start, finish);
        ran := false;
      } else {
        result, ran := Execute(call, start, finish);
      }
    }
  }
}
