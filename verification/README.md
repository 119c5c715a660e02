# Tixie: the resilience layer, modelled and proved

Tixie is a ticketing system made of Go services behind a Node gateway. This project models the
parts that keep it standing when something is slow or down, and proves what they guarantee:

- the **circuit breaker** every service calls its neighbours through (`Breaker`, `Runs`,
  `Accounting`, `History`, `Timing`, `Erasure`, `Leaky`, `TripRule`, `Width`);
- the **rate limiter** and the **concurrency limiter** of the gateway: one request at a time
  (`RateLimiter`), both interleaved (`Gateway`), and what interleaving does to the window (`Races`);
- the breaker's **clients**: the wrapper (`Wrapper`), the payment consumer (`Payment`, and
  `Progress` for what it can always still do), the reservation saga (`Handler` for one request, `Reservation` for many, `Undisturbed` for the two
  compared), and the consumer fed by the saga (`EndToEnd`);
- the gateway's **retry loop** (`Retry`) and the **ticket inventory** (`Inventory`).

Each mutable object is a class whose methods are proved against functions on values. Concurrency is
modelled on those functions: a run is a sequence of events, each one critical section, one Redis
command, one SQL statement or one effect of a remote call, in any order. Theorems about runs hold for
every run of every length. Events that do not apply to a state change nothing, so no theorem depends
on a scheduler. The `UninterruptedIsSerial`, `UninterruptedIsProcessed` and `UndisturbedReservation`
lemmas tie the interleaved models to the sequential ones. `Counting` holds the generic lemmas on counts and multisets.

## Assumptions

- Clock readings, random numbers, and the outcome of every network, database, broker and Stripe call
  are parameters. Where time matters it does not go back, as `Ordered` and `Serial` say.
- `readyToTrip` is a total function and the state-change callback does not call the breaker;
  `changes` in the class records its calls.
- A breaker's generation is unbounded; the source's is a `uint64`.
- The breaker's counters have 32 bits in the class and wrap around; the invariants say what they
  mean after wrapping. Four results read counters as plain numbers: `Leaky.FailuresAreWorstSuffix`
  and `TripRule.TripLatency` say how far the counters may have come, and `TripRule.TripIsSound` and
  `TripRule.OnlyMissedTrip` carry over to 32 bits (`Width.DefaultRuleAt32Bits`) in the runs of
  `Width.AgreeIffFewCalls`, in which no episode admits 2^32 calls. `maxRequests = 0` needs no
  exclusion: it acts as 1.
- The default trip rule compares integers; `TripRule.FloatTestIsExact` shows that the source's
  floating-point test is the same test for 32-bit counters.
- The message queue acknowledges manually, which is what the payment consumer is written for
  (`src/services/broker/broker.go:138` subscribes with automatic acknowledgement), every message is
  distinct, and no worker crashes.
- One Redis key per limiter, and sorted-set members that do not collide. Both limiters are registered
  (`src/gateway/index.js:163-164`) before the verification that sets `req.user`
  (`src/gateway/jwt/jwt.js:20`), so the key they compute is the same for all users.

## What turned out false

- *A closed breaker never sits at 60% failures.* It does, at three requests and two failures, because
  admissions do not consult the rule (`TripRule.MissedTripHappens`), and nowhere else
  (`TripRule.OnlyMissedTrip`).
- *At most three requests run at once.* From a state with at most three past the limiter, that stays so
  whatever happens without a removal of the key under a request in progress, if and only if the counter
  reads at least the number of requests that have incremented it and not yet decremented it
  (`Gateway.BoundIsSafeIff`). That holds all along a run if and only if every removal of the key finds
  no request in progress (`Gateway.CoveredIff`). The code removes it otherwise too: by expiry under a
  running request (`Gateway.ExpiryBreaksTheBound`) and by a late `del` (`Gateway.LateDelBreaksTheBound`).
- *Accepted requests are spaced, and at most five per window.* True of serial requests. Interleaved, the
  set keeps its spacing and its five entries if and only if each `zadd` finds fewer than five entries
  and none within the minimum interval (`Races.SpacedIff`), as it does when no other request has added
  itself since its `zrange` (`Races.UnracedIsSpaced`). The times added keep the promise if and only if
  each is due by all those before it (`Races.GappedIff`); without races, and with no command by a time
  earlier than those before it, they do (`Races.UnracedWindowGuarantee`). Two requests of the same
  instant show the other case (`Races.RacingRequestsIgnoreSpacing`). With races, the
  set still never exceeds seven entries behind a sound concurrency limiter (`Gateway.SevenAtMost`). At
  time 0 the spacing check is skipped (`RateLimiter.ZeroIsNotSpaced`).
- *A payment message that is dropped has not been charged.* It has, exactly if Stripe charged and its reply
  was lost (`Payment.AtMostOneCharge`); even then it is charged only once.
- *An event is never oversold.* It is oversold if and only if commits have overwritten more sales than the
  row still offers (`Inventory.OversoldIff`), an overwritten sale being one committed between another
  buyer's read and write. Buyers that do not overlap can never oversell from here on if and only if
  nothing has been overwritten so far (`Inventory.NeverOversoldIff`), which all along a run is the same as
  that no purchase commits over a count that changed since it was read
  (`Inventory.NothingLostIffNoOverlap`). `Inventory.LastTicketSoldTwice` is an oversold event.

## Model

| member | source | states |
|---|---|---|
| `Breaker.CircuitBreaker.constructor` | src/services/common/circuitbreaker.go:75-95 | A new breaker is closed at generation 0 with zero counts; a zero timeout becomes 60 seconds |
| `Breaker.CircuitBreaker.BeforeRequest` | src/services/common/circuitbreaker.go:116-146 | Admits or refuses a call with the token or the error of the source, leaves exactly the new state, and notifies the callback exactly when the state changes |
| `Breaker.CircuitBreaker.AfterRequest` | src/services/common/circuitbreaker.go:148-161 | A result whose token is out of date changes nothing; any other has exactly the effect of a success or a failure |
| `Breaker.CircuitBreaker.Succeed` | src/services/common/circuitbreaker.go:163-178 | The whole new state after a success: the failure count leaks in a closed breaker, the last awaited success closes a half-open one |
| `Breaker.CircuitBreaker.Fail` | src/services/common/circuitbreaker.go:180-192 | The whole new state after a failure: trips a closed breaker when the rule says so and a half-open one always |
| `Breaker.CircuitBreaker.ChangeState` | src/services/common/circuitbreaker.go:194-213 | A real change bumps the generation, resets the counts, sets the expiry when opening and is reported once; a change to the same state is none |
| `Breaker.CircuitBreaker.Execute` | src/services/common/circuitbreaker.go:98-114 | A refused call does not run; an admitted one is recorded as a success, or as a failure if it errs or panics |
| `History.AnswerFollows` | src/services/common/circuitbreaker.go:116-146 | After any run, a call gets the number of state changes as its token: always when closed; when open, if and only if more than a timeout has passed since the trip; when half open, if and only if fewer than the limit have been let through since it half opened |
| `History.ChangeFollows` | src/services/common/circuitbreaker.go:148-213 | After any run, whether and how an event changes the state follows from the log, the calls let through and the results of the episode alone: no counter is needed to tell; 32-bit counters may have wrapped, short of 2^32 completions in one closed episode |
| `History.BurstOfProbes` | src/services/common/circuitbreaker.go:128-141 | Calls in a row at an open breaker past its expiry, with no completion in between: exactly the first ones up to the limit are admitted, all with the same new token |
| `History.NoticesAreLogged` | src/services/common/circuitbreaker.go:98-114 | What the callback hears of a call that runs alone is the log of its two critical sections, old state first |
| `History.LogIsChain` | src/services/common/circuitbreaker.go:194-209 | Over any run, the logged state changes start at closed, each goes on where the one before it ended, and each is of one of the four permitted kinds |
| `Accounting.AlwaysBalanced` | src/services/common/circuitbreaker.go:123-213 | In every reachable interleaving: no token is ahead of the generation; closed, requests = successes + failures + own calls outstanding, modulo 2^32 for the 32-bit counters; half open, the same without wrapping, with 1 <= requests <= limit, fewer successes than the limit and no failure; open, all counts zero and no own call outstanding |
| `Accounting.CountersAreTallies` | src/services/common/circuitbreaker.go:163-192 | The success and total-failure counters are the numbers of successful and failed completions recorded since the last state change, modulo 2^32 for the 32-bit counters |
| `Accounting.RefusalMeansProbeOut` | src/services/common/circuitbreaker.go:136-141 | "Too many requests" is answered only while one of the half-open episode's own probes is outstanding |
| `Accounting.ProbeMakesProgress` | src/services/common/circuitbreaker.go:171-175 | A probe's completion opens the breaker, closes it, or brings it exactly one success nearer to closing |
| `Accounting.ClosingIsUnanimous` | src/services/common/circuitbreaker.go:171-175 | A half-open breaker closes if and only if its last outstanding probe succeeds, the full number of probes having been admitted and all having succeeded |
| `Timing.TripRate` | src/services/common/circuitbreaker.go:194-205 | In any run, trips i and j are more than (j - i) timeouts apart |
| `Timing.ProbeRate` | src/services/common/circuitbreaker.go:128-141 | From a trip until the breaker next closes, the calls let through in a stretch of length T are at most limit * ((T - 1) / timeout), and none if T <= timeout |
| `Erasure.StaleCompletionsAreErasable` | src/services/common/circuitbreaker.go:148-154 | Deleting any choice of out-of-date completions from any run leaves the final state, the log of state changes and every answer as they were |
| `Erasure.ErasureStaysLegal` | src/services/common/circuitbreaker.go:148-154 | What remains is again a run that the same goroutines could have produced |
| `Leaky.FailuresAreWorstSuffix` | src/services/common/circuitbreaker.go:163-187 | In every reachable closed state the failure count is the maximum over all suffixes of the episode's results of failures minus successes; for the 32-bit counters, as long as the episode has recorded fewer than 2^32 results |
| `TripRule.TripIsSound` | src/services/common/circuitbreaker.go:66-69 | The ratio is never taken over zero requests, and a trip means at least three requests of which at least 60% failed, in any interleaving, with unbounded counters |
| `TripRule.OnlyMissedTrip` | src/services/common/circuitbreaker.go:124-126 | In every reachable closed state the default rule does not hold, except at three requests and two failures, which only an admission can reach, with unbounded counters |
| `TripRule.MissedTripHappens` | src/services/common/circuitbreaker.go:124-126 | That exception is reachable: two failing calls and a third admitted |
| `TripRule.TripLatency` | src/services/common/circuitbreaker.go:66-69 | From any closed state with R requests and F failures, failing calls in a row open the breaker at exactly max(1, 3 - R, ceil((3R - 5F) / 2)) and not before; for the 32-bit counters, if these calls do not make them wrap |
| `TripRule.DefaultTripsAtThird` | src/services/common/circuitbreaker.go:59-72 | With the default settings a new breaker, of either width, is closed after none, one and two failing calls and opens at the third, for 60 seconds |
| `TripRule.FloatTestIsExact` | src/services/common/circuitbreaker.go:67-68 | For 32-bit counters and any monotone rounding with error up to half an ulp, the floating-point test against 0.6 is the integer test 5F >= 3R |
| `Width.AgreeIffFewCalls` | src/services/common/circuitbreaker.go:19-24 | The 32-bit breaker and the unbounded one agree all along a run if and only if the requests counter stays below 2^32 |
| `Width.DefaultRuleAt32Bits` | src/services/common/circuitbreaker.go:66-69 | In those runs the 32-bit breaker has the exact accounting, trips only on at least three requests of which at least 60% failed, and misses no trip but the one at three requests and two failures |
| `Width.CallsAddUp` | src/services/common/circuitbreaker.go:124-126 | Nothing resets a closed breaker's counts: after 2^32 admissions the 32-bit counter is back at zero |
| `Wrapper.Guard.Execute` | src/services/common/wrapper.go:42-54 | The caller gets the call's own result if it ran; otherwise "open" exactly from an open breaker not past its expiry and "too many" exactly from a half-open one at its limit |
| `Wrapper.Guard.ExecuteContext` | src/services/common/wrapper.go:57-74 | The same when the context may already be over: then an admitted call does not run, its caller gets the context's error and no data, and it counts as a failure; a refusal gives the breaker's error |
| `RateLimiter.SlidingWindow.Handle` | src/gateway/limiters/rate_limiter.js:8-33 | Reply and stored key after one request, the key having expired before it or not: prune, count, spacing check, add, expiry |
| `RateLimiter.RemoveRangeKeeps` | src/gateway/limiters/rate_limiter.js:13 | Pruning takes exactly the scores in the range, bounds included, and keeps every other as often as it was there |
| `RateLimiter.LimiterRefinesReference` | src/gateway/limiters/rate_limiter.js:12-32 | For every serial run the pruned and expiring set answers each request as a reference that keeps all accepted times; whether Redis drops an expired key never matters |
| `RateLimiter.LimiterAcceptsIffDue` | src/gateway/limiters/rate_limiter.js:19-31 | A request is accepted if and only if the fifth latest acceptance is at least 60000 ms and the latest at least 2000 ms old |
| `RateLimiter.RetryInIsExact` | src/gateway/limiters/rate_limiter.js:22-29 | With nothing accepted in between, a later request is refused with the remaining wait before the announced instant and accepted from that instant on |
| `RateLimiter.WindowGuarantee` | src/gateway/limiters/rate_limiter.js:9-31 | Any interval of k windows, open on the left, holds at most 5k accepted requests, and accepted requests are at least 2000 ms apart even when older ones have been pruned |
| `RateLimiter.ZeroIsNotSpaced` | src/gateway/limiters/rate_limiter.js:22-23 | At time 0 the spacing check does not apply: 0 is a falsy score |
| `Gateway.ConcurrencyLimiter.Enter` | src/gateway/limiters/concurrency_limiter.js:12-22 | Uninterrupted, the key having expired before it or not: admits exactly while fewer than three are counted, counts exactly the admitted, and sets the expiry exactly when it creates the key |
| `Gateway.ConcurrencyLimiter.Finish` | src/gateway/limiters/concurrency_limiter.js:25-28 | Uninterrupted: takes one off, never goes below zero, and leaves no key and no expiry at zero |
| `Gateway.UninterruptedEnter` | src/gateway/limiters/concurrency_limiter.js:12-22 | The interleaved commands of an arrival left alone admit it, and count it, as Enter does |
| `Gateway.UninterruptedFinish` | src/gateway/limiters/concurrency_limiter.js:25-28 | The interleaved decr and del of a request left alone leave what Finish leaves |
| `Gateway.CounterExactIff` | src/gateway/limiters/concurrency_limiter.js:12-28 | At every Redis command, counter = admitted and unfinished + rejected and not yet rolled back, all along a run if and only if the key is only removed while it reads zero |
| `Gateway.CoveredIff` | src/gateway/limiters/concurrency_limiter.js:12-28 | The counter reads at least the number of requests in progress all along a run if and only if every removal of its key finds none in progress |
| `Gateway.ConcurrencyBound` | src/gateway/limiters/concurrency_limiter.js:12-22 | As long as every removal of the key finds no request in progress, the counter misses nobody and at most three requests are ever past the limiter |
| `Gateway.BoundIsSafeIff` | src/gateway/limiters/concurrency_limiter.js:12-28 | With at most three past the limiter, they stay at most three in every continuation without such a removal if and only if the counter reads at least the number of requests in progress: otherwise pending rollbacks and then new arrivals lead to four |
| `Gateway.ExpiryBreaksTheBound` | src/gateway/limiters/concurrency_limiter.js:14-16 | The key expiring under a request in progress lets four run at once |
| `Gateway.LateDelBreaksTheBound` | src/gateway/limiters/concurrency_limiter.js:25-28 | A del landing after the next request's incr lets four run at once |
| `Gateway.OvershootBound` | src/gateway/limiters/rate_limiter.js:13-31 | With at most k requests between passing the check and zadd, set size plus those requests never exceeds 4 + k |
| `Gateway.SevenAtMost` | src/gateway/index.js:163-164 | With the concurrency limiter registered first and its key removed only with no request in progress, the set never holds more than seven entries |
| `Gateway.UncutBounds` | src/gateway/limiters/concurrency_limiter.js:12-28 | With no expiry and nothing between a decr that leaves nothing and its del, in any interleaving of everything else: the counter is exact, at most three are past the limiter and at most seven entries in the set, with no assumption about removals |
| `Gateway.UninterruptedIsSerial` | src/gateway/limiters/rate_limiter.js:12-32 | A request whose commands are not interleaved leaves the set as the serial limiter does |
| `Races.InsertIsWellIff` | src/gateway/limiters/rate_limiter.js:31 | One zadd: the set is well formed afterwards if and only if it was before and had room |
| `Races.SpacedIff` | src/gateway/limiters/rate_limiter.js:16-31 | Over any run, the set has at most five entries and all of them 2000 ms apart in every state if and only if every zadd finds fewer than five entries and none within 2000 ms of its own time |
| `Races.UnracedIsSpaced` | src/gateway/limiters/rate_limiter.js:16-31 | With positive times, if no request adds itself after another one has since its zrange, the set keeps its spacing and at most five entries |
| `Races.GappedIff` | src/gateway/limiters/rate_limiter.js:19-31 | Over any run, the times added are 2000 ms apart with at most five per window if and only if each zadd is due, judged by all times added before it |
| `Races.UnracedWindowGuarantee` | src/gateway/limiters/rate_limiter.js:9-32 | If, besides, no command goes by an earlier time than one before it and no expiry comes early, then the times added keep the serial promise (5k per k windows, 2000 ms apart) and the set holds those of the current window |
| `Races.OneAtATimeIsUnraced` | src/gateway/limiters/rate_limiter.js:8-32 | Requests that do not overlap and arrive in the order of their times meet those conditions, so the promise covers every serial run |
| `Races.RacingRequestsIgnoreSpacing` | src/gateway/limiters/rate_limiter.js:22-31 | Two interleaved requests of the same instant both pass the spacing check |
| `Payment.PaymentConsumer.ProcessMessage` | src/services/payment/internal/consumer/consumer.go:66-112 | Requeued if and only if the breaker refused, and then nothing was attempted; acknowledged if and only if the single attempt succeeded; dropped otherwise |
| `Payment.PaymentConsumer.StartWorker` | src/services/payment/internal/consumer/consumer.go:114-129 | The loop settles every delivery it takes once, each by the breaker as the previous ones left it, leaves the rest when it picks the cancelled context, and leaves the WaitGroup balanced |
| `Payment.AtMostOneCharge` | src/services/payment/internal/consumer/consumer.go:83-111 | For any number of workers, requeues and interleavings: at most one charge attempt per message; acknowledged only after one successful attempt; nothing attempted for a queued message; a dropped one has been charged exactly if the reply to its charge was lost; a charged one is acknowledged, dropped with its reply lost, or about to be either |
| `Payment.MessagesAreConserved` | src/services/payment/internal/consumer/consumer.go:75-111 | published = acknowledged + dropped + queued + held by workers, each message once |
| `Payment.PoolIsSound` | src/services/payment/internal/consumer/consumer.go:66-111 | In every reachable state of the pool: messages conserved, attempts, charges and lost replies right for wherever each message is, and the breaker balanced with the workers holding its tokens |
| `Payment.EveryDeliveryEnds` | src/services/payment/internal/consumer/consumer.go:66-111 | Over any run, a message is requeued exactly as often as the breaker refuses it, and its deliveries are those refusals, its final settlement and its present holder |
| `Payment.RefusedIsAsNew` | src/services/payment/internal/consumer/consumer.go:98-107 | In any run, a refusal comes from a breaker that is not closed, leaves it as it was, and leaves the message as new: queued once, held by nobody, with no charge attempted |
| `Payment.UninterruptedIsProcessed` | src/services/payment/internal/consumer/consumer.go:66-112 | A worker left alone settles a delivery as ProcessMessage does, with the same attempt, charge and breaker, and touches no other message |
| `Progress.IdleTakes` | src/services/payment/internal/consumer/consumer.go:117-124 | An idle worker can take any queued message |
| `Progress.NothingIsStuck` | src/services/payment/internal/consumer/consumer.go:66-129 | From every reachable state of a pool with a worker, every published message can still be settled, and acknowledged unless it was dropped or a charge of it failed |
| `Handler.ReservationHandler.ReserveTicket` | src/services/reservation-service/internal/api/handlers.go:90-262 | Which calls are made, the breaker they leave, and the response: created exactly if the purchase is, whatever publishing does; 500 exactly if a call before that failed; 503 exactly if an open breaker not past its expiry turned a call away; 429 exactly if a half-open one at its limit did |
| `Handler.ReservationHandler.Call` | src/services/reservation-service/internal/api/handlers.go:90-106 | One guarded call: success goes on, a failure or a refusal before the publication ends the request with the response of its kind |
| `Handler.ChainStops` | src/services/reservation-service/internal/api/handlers.go:108-231 | From any breaker state, a step runs only after all earlier ones succeeded; the chain ends early only at a failed step or a refusal |
| `Handler.OneReservationDecides` | src/services/reservation-service/internal/api/handlers.go:90-260 | One undisturbed reservation on an open breaker past its expiry closes it iff it publishes and all five calls succeed, reopens it at the first failure, and leaves it half open iff there is no broker and all four succeed |
| `Reservation.PurchasesMatchTickets` | src/services/reservation-service/internal/api/handlers.go:159-215 | In every interleaving, with any call failing before or after its effect: each purchase is for a ticket created by the same run for the same user and event, and no two purchases share a ticket |
| `Reservation.PaymentsArePurchased` | src/services/reservation-service/internal/api/handlers.go:233-245 | Every "topay" message names a ticket with exactly one purchase, made by the same run, and no other "topay" names it |
| `Reservation.EmailsFollowPayments` | src/services/reservation-service/internal/api/handlers.go:243-254 | Every "email" message comes after a "topay" of its own run that was published without error |
| `Reservation.AlwaysGuarded` | src/services/reservation-service/internal/api/handlers.go:90-255 | The breaker shared by all reservations and the calls of other endpoints keeps its accounting invariant, the calls outstanding being its tokens |
| `Reservation.UninterruptedIsSerial` | src/services/reservation-service/internal/api/handlers.go:90-260 | A step taken without interruption, the publication included, is one serial call of the breaker; refused, it writes nothing; admitted, it writes exactly the rows of its effect, a lost reply not undoing them |
| `Reservation.OtherAlone` | src/services/common/circuitbreaker.go:98-114 | A call of another endpoint left alone is one serial call of the shared breaker |
| `Undisturbed.UndisturbedReservation` | src/services/reservation-service/internal/api/handlers.go:90-262 | A reservation left alone makes the calls and leaves the breaker of the handler's chain, and writes exactly the rows those calls imply, whatever others are doing |
| `EndToEnd.OneChargePerTicket` | src/services/reservation-service/internal/api/handlers.go:213-245 | Over any run of reservations and any run of a consumer fed by their "topay" messages: at most one charge is attempted per ticket, and only for a ticket purchased by the run that created it |
| `Retry.RetryWithBackoff` | src/gateway/utils/retry.js:7-33 | Every call but the last raised an error worth retrying; the last one's outcome is returned or thrown; if it too is such an error, maxRetries + 1 calls were made, 6 by default; the final throw is reached only if maxRetries is negative; each wait is the clamped, jittered backoff |
| `Retry.TotalWait` | src/gateway/utils/retry.js:23-28 | k waits take at most k * maxDelay, less than initialDelay * (2^k - 1), and at least half of that when none is clamped |
| `Retry.WaitIsUniform` | src/gateway/utils/retry.js:23-26 | Before clamping, the wait is spread over the upper half of its backoff: each length comes from exactly one random number |
| `Retry.DefaultWaits` | src/gateway/utils/retry.js:2-28 | With the default delays the five waits lie in [1.5, 3), [3, 6), [6, 12), [12, 20] and at exactly 20 seconds |
| `Inventory.EventRow.UpdateTicketsSold` | src/services/event-service/internal/db/repos/event_repository.go:65-95 | One at a time, from any row: succeeds exactly for a positive number of tickets still available whose remainder fits its column, then adds them; otherwise the row is untouched; consistency is kept |
| `Inventory.StorableIffAvailable` | src/services/event-service/internal/db/repos/event_repository.go:78-90 | Despite 64-bit wrap-around, what passes the check and fits the columns is exactly 0 < tickets <= total - sold, if the remainder fits its column, as in a consistent row it does |
| `Inventory.HugeRequestPassesTheCheck` | src/services/event-service/internal/db/repos/event_repository.go:81-83 | A request so large that the 64-bit sum wraps around passes the availability check; only the 32-bit column refuses it |
| `Inventory.RowStaysConsistent` | src/services/event-service/internal/db/repos/event_repository.go:72-92 | In every interleaving of reads and writes: 0 <= sold <= total, tickets_left is unset or total - sold, and sold never exceeds the initial count plus accepted purchases |
| `Inventory.FailedUpdateSellsNothing` | src/services/event-service/internal/db/repos/event_repository.go:85-92 | A write that fails changes neither the row nor what has been sold, whatever was read before it |
| `Inventory.LossPerCommit` | src/services/event-service/internal/db/repos/event_repository.go:85-89 | Each commit loses track of exactly the tickets sold since its read |
| `Inventory.LostIsOverwritten` | src/services/event-service/internal/db/repos/event_repository.go:72-92 | Over any run, what the row has lost track of is the sum over its commits of the count at the commit minus the count read |
| `Inventory.NothingLostIffNoOverlap` | src/services/event-service/internal/db/repos/event_repository.go:72-92 | sold = initial + accepted all along a run if and only if every commit finds the count it has read |
| `Inventory.NeverOversold` | src/services/event-service/internal/db/repos/event_repository.go:81-83 | Without such overlap no more tickets are sold than there are |
| `Inventory.OversoldIff` | src/services/event-service/internal/db/repos/event_repository.go:81-89 | Over any run, the event is oversold if and only if its commits have overwritten more sales than the row still offers |
| `Inventory.NeverOversoldIff` | src/services/event-service/internal/db/repos/event_repository.go:72-92 | From any reachable state, buyers that do not overlap can never oversell if and only if nothing has been lost so far |
| `Inventory.LastTicketSoldTwice` | src/services/event-service/internal/db/repos/event_repository.go:72-92 | With overlap two buyers get the last ticket while the row stays consistent |
| `Inventory.UninterruptedIsSerial` | src/services/event-service/internal/db/repos/event_repository.go:72-92 | A buyer left alone between read and write buys what the sequential update buys, and nothing if the write fails |

## Left out

- HTTP, Gin and Express routing, WebSockets, JSON, logging, Stripe, e-mail and the clients of Redis,
  PostgreSQL and RabbitMQ: their outcomes are parameters.
- The validation of a reservation's input, which answers 400 before any guarded call.
- A panic of the protected call: recorded as a failure; that it is raised again, and what it then does
  to the process, is not modelled.
- What other endpoints of the reservation service do besides calling through the shared breaker.
- The breaker around the inventory update, which counts "not enough tickets" as a failure of the database.
- `int(Price * 100)` in `ReserveTicket`: truncation makes "the amount is the price in cents" false in general.
- Purchases for every ticket: the saga has no compensation, so only the other direction is claimed.
- Later changes of a purchase's or a ticket's status, by other endpoints.
- Shutdown of the payment consumer, where `Add` may race with `Wait`.
- Redis errors in the limiters, which let a request through the first and fail it at the second.
- Wrapper.Guard.ExecuteContext: does not model a context that ends during the call; the source checks it only before.
- User, vendor and authentication services, configuration, grouped counts: thin wrappers around a query.
