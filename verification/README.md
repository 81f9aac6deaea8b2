# Overbook: a verified model of the booking backend

Overbook sells seats during flash sales. Its hard part is a set of small concurrent protocols over
shared stores: rows in Postgres, a Kafka log, keys in Redis. This project models those protocols in
Dafny and proves what they keep over every interleaving of any number of requests, relays,
consumers, sweeps and crashes.

## How the model is built

Each protocol has a **machine**: a datatype `World` (or `Db`) holding the stores and what every actor
has done so far, labelled steps that are one statement, command or broker operation each, a total
`Apply`, and `Run`. A step that is not enabled (a blocked lock, a finished actor) leaves the state
alone, so every sequence of steps is a legal interleaving and a theorem about `Run(Init(..), steps)`
for all `steps` speaks about every run. Fields marked as history are written by steps and never read
by them.

Beside each machine stands a **class** with the service's own fields and control flow. Wherever the
source awaits, the class runs an arbitrary burst of other actors' steps. Each class keeps a ghost
`trace`, and `Valid()` says that its fields are exactly what the machine reaches by that trace, so
every theorem about runs holds after every call.

| files | what they model |
|---|---|
| `Bookings.dfy`, `MixedBookings.dfy`, `LockedBookings.dfy`, `BookingIntegrity.dfy`, `NaiveBookings.dfy`, `BookingsService.dfy` | the booking transaction: naive, row lock, compare-and-set; the integrity report |
| `Outbox.dfy`, `OutboxGuarantee.dfy`, `OutboxDrains.dfy`, `OutboxRelay.dfy` | outbox rows, and relays that poll with SKIP LOCKED, publish, mark and commit |
| `RetryPolicy.dfy`, `Notifications.dfy`, `RetryChains.dfy`, `NotificationLoss.dfy`, `NotificationFaults.dfy`, `NotificationsConsumer.dfy` | claim, deliver, release; retry topic; dead-letter topic; exactly which faults lose a message |
| `Fingerprint.dfy`, `FingerprintProofs.dfy`, `MemberOrder.dfy`, `RequestLines.dfy` | the canonical printer of request bodies and the line that is hashed |
| `Idempotency.dfy`, `IdempotencyGuarantee.dfy`, `IdempotencyInterceptor.dfy` | the key state machine |
| `TokenBucket.dfy`, `Leases.dfy`, `RedisService.dfy` | the token bucket script and the lease lock |
| `Cache.dfy`, `CacheAge.dfy`, `CacheLeases.dfy`, `CacheService.dfy` | cache-aside with single flight and stale serving |
| `SemaphoreRuns.dfy`, `Semaphore.dfy` | the semaphore with direct hand-off |
| `KeyedBookings.dfy`, `EndToEnd.dfy` | keys around booking transactions; sales, relays and consumers joined by the topic |

Assumptions: Read Committed as Postgres defines it (a plain read sees the latest committed row,
FOR UPDATE and UPDATE take the row lock until commit, UPDATE re-evaluates its WHERE); each Redis
command and script is atomic; Kafka redelivers a copy whose handler throws; one clock; random draws
are arbitrary values in [0, 1); SHA-256 is injective, so a stored fingerprint is the canonical
request line itself.

## What the proofs found in the code

- `integrity` reads the event and the sum in two statements. `oversoldBy` is always 0 for the locked
  strategies, but `counterDrift` is reported exactly when a booking of the event commits between the
  two reads (`BookingIntegrity.IntegrityReport`, `BookingIntegrity.SpuriousDriftExample`).
- The idempotency guarantee needs three things that the code does not enforce, and
  `IdempotencyGuarantee.SafeIffNoHazard` shows that each is exactly needed: no request reads a row
  that is gone, no row is swept while its owner is at work, no handler throws after its commit. The
  comment beside the missing-row branch blames the sweeper alone, but `release` of a request that
  failed is enough, at once (`IdempotencyGuarantee.ReleaseInTheGapIsAHazard`). The naive strategy can
  throw after its commit.
- A notification that is neither sent nor dead-lettered is lost by a handler that dies between claiming
  and delivering, by a failed claim delete, by a claim insert that happens but reports an error, by a
  second handler on a copy that one is still on, and, when it is the last live copy, by a consumer that
  returns early because it is stopping or by a failed dead-letter write. `NotificationFaults.SafeIffNoFault`
  shows that the list is exact: after every run without these faults a step keeps every message
  accounted for, over every fault-free future, if and only if it is none of them. Each has its own run.
- The dead-letter record carries no message id; the model keeps the source copy as history.
- A body's canonical text is independent of the order of its members exactly when no two different
  keys of one of its objects tie under the collation used for sorting
  (`MemberOrder.OrderIndependentIffKeysApart`, for every body). `localeCompare` does let different keys
  tie: canonically equivalent strings, and strings that differ in ignored characters. A body that is
  `undefined` has the text of one that is `null`.
- The token bucket stores `ts = now` even when the clock runs backwards, and then refills the same
  time twice. For any instants of the calls in a window, the bound of T ms holds for all costs and
  every history if and only if the forward moves of the clock inside the window, each worth a full
  bucket at most, refill no more than T ms do (`TokenBucket.BoundIffForwardMovesFit`). Stored tokens stay
  in range whatever the clock does. The retry hint is only sound for costs that fit the capacity
  (`TokenBucket.RetryHintExact` has that as half of an if-and-only-if).
- `book` can answer an error although the booking is committed, for the naive strategy only: it reads
  the integrity report after the commit (`BookingsServices.BookingsService.Book`).

## Model

| member | source | states |
|---|---|---|
| MixedBookings.CounterNeverUnderReports | src/bookings/bookings.service.ts:148-165 | with any mix of strategies, naive included, the counter is never negative and never below the seats really left |
| NaiveBookings.NaiveOversells | src/bookings/bookings.service.ts:147-165 | for every venue size and every n there is a naive run oversold by exactly n whose counter still claims all seats but one |
| LockedBookings.NeverOversold | src/bookings/bookings.service.ts:168-232 | over every mix of row-lock and compare-and-set bookings: availableSeats >= 0, availableSeats plus seats sold is the total, and version counts the committed bookings |
| LockedBookings.MatchingVersionMeansUnchanged | src/bookings/bookings.service.ts:209-225 | two reads see the same version if and only if the whole row is unchanged, and versions differ by the bookings committed between |
| LockedBookings.SoldOutIsTrue | src/bookings/bookings.service.ts:178-180 | a locked request refused as sold out really could not be served, then and ever after |
| LockedBookings.WinnersCountDown | src/bookings/bookings.service.ts:182-224 | each winner is told the committed counter right after its own commit; winners of one event are told strictly decreasing numbers in commit order; nobody books twice |
| LockedBookings.ContentionMeansOthersWon | src/bookings/bookings.service.ts:200-231 | a compare-and-set loser gives up for contention only after maxRetries + 1 other bookings of the event committed while it tried |
| BookingIntegrity.IntegrityReport | src/bookings/bookings.service.ts:240-266 | the two-statement report never shows overselling, and shows drift if and only if a booking committed between its two reads |
| BookingIntegrity.SpuriousDriftExample | src/bookings/bookings.service.ts:240-266 | a concrete run of one row-lock booking during the report in which drift is reported |
| BookingIntegrity.MixedReport | src/bookings/bookings.service.ts:240-266 | over any mix of strategies the report never shows fewer seats than are really left, and never overselling without drift |
| BookingsServices.BookingsService.FindOne | src/bookings/bookings.service.ts:203 | the unlocked read: it returns the event's row as it then is, and that is what the transaction decides on |
| BookingsServices.BookingsService.FindOneForUpdate | src/bookings/bookings.service.ts:173-176 | the locking read: a row is only returned together with its lock; it times out if and only if somebody else still holds the row |
| BookingsServices.BookingsService.UpdateSeats | src/bookings/bookings.service.ts:162-189 | the plain update leaves exactly the new counter pending under the lock; it times out only if somebody else holds the row, and then leaves nothing |
| BookingsServices.BookingsService.CompareAndSet | src/bookings/bookings.service.ts:209-226 | affects one row if and only if the version still matches and seats suffice, and then leaves the sold-down row pending; it times out only if somebody else holds the row |
| BookingsServices.BookingsService.UpdateIfUnchanged | src/bookings/bookings.service.ts:212-221 | affected == 1 if and only if the current row has the version read and enough seats |
| BookingsServices.BookingsService.AwaitLock | src/bookings/bookings.service.ts:173-176 | the wait for the row ends with the row free for this transaction, or with somebody else still holding it |
| BookingsServices.BookingsService.DecrementNaive | src/bookings/bookings.service.ts:148-165 | ends with its row update pending, or rolled back with its reason and no lock held; undisturbed, it gets what the event's row says |
| BookingsServices.BookingsService.DecrementPessimistic | src/bookings/bookings.service.ts:168-192 | the same for the row lock |
| BookingsServices.BookingsService.DecrementOptimistic | src/bookings/bookings.service.ts:195-232 | the same for the bounded retry loop |
| BookingsServices.BookingsService.CommitTransaction | src/bookings/bookings.service.ts:62-106 | row update, booking row and outbox row become visible together and the locks go |
| BookingsServices.BookingsService.Rollback | src/bookings/bookings.service.ts:62-106 | nothing becomes visible and the locks go |
| BookingsServices.BookingsService.Transact | src/bookings/bookings.service.ts:62-106 | confirmed if and only if this request's booking row is in the table, with its outbox row; any other outcome leaves nothing behind, whatever runs at its awaits; an error means that somebody else holds the row; undisturbed, it is not found, sold out or confirmed by what the row says, for each strategy, and leaves the sold-down row and the outbox row |
| BookingsServices.BookingsService.Book | src/bookings/bookings.service.ts:53-139 | a success has its row in the table, a failure has none, and a row without a success is a naive booking whose integrity read after the commit threw; a request that nobody disturbs succeeds if and only if the row has the seats, with the seats that remain |
| BookingsServices.BookingsService.RecordOversoldIfAny | src/bookings/bookings.service.ts:268-273 | reports overselling exactly when more seats are sold than there are, and leaves the booking alone |
| BookingsServices.BookingsService.ReadIntegrity | src/bookings/bookings.service.ts:240-266 | over any strategies, while others run: both statements' readings, a counter never below the seats left, drift with every overselling; over the locked ones, no overselling, and drift if and only if a booking committed meanwhile |
| BookingsServices.BookingsService.SumQuantity | src/bookings/bookings.service.ts:246-257 | the loop computes the sum of the event's confirmed quantities |
| OutboxGuarantee.BookingsAndRowsPaired | src/bookings/bookings.service.ts:81-102 | bookings and outbox rows are in one-to-one correspondence, each row carrying its booking's content, over any strategies, relays and crashes |
| OutboxGuarantee.RowsOnlyMoveForward | src/outbox/outbox.relay.ts:88-135 | from any state of a run on, rows never vanish or change content, attempts never fall, a row that is published or failed never changes again, the log only grows |
| OutboxGuarantee.NoSilentLoss | src/outbox/outbox.relay.ts:88-135 | every committed booking's row is published and in the log, pending, or failed on record; every record in the log is the event of a committed booking |
| OutboxGuarantee.RelaysHoldDisjointRows | src/outbox/outbox.relay.ts:89-97 | no row is in two relays' hands, and a held row is still as its relay read it |
| OutboxGuarantee.AttemptsCountFailedDrains | src/outbox/outbox.relay.ts:150-165 | attempts is exactly the number of committed failed drains of the row; failed implies the limit was reached |
| OutboxGuarantee.BackoffDoubles | src/outbox/outbox.relay.ts:154 | the wait doubles from half a second up to a minute |
| OutboxGuarantee.BackingOffRowsAreLeftAlone | src/outbox/outbox.relay.ts:94 | a row waiting out its backoff is neither held nor changed in any run before it is due |
| OutboxGuarantee.FailedRowsWait | src/outbox/outbox.relay.ts:150-165 | after a failed drain a row with one attempt more stays as it is until the backoff of that attempt has passed, and is failed if and only if the limit is reached |
| OutboxDrains.EveryRowSettles | src/outbox/outbox.relay.ts:142-167 | while nothing new is sold, every committed non-empty drain lowers a bounded backlog, which is zero if and only if no row is pending |
| OutboxDrains.DrainingLowersBacklog | src/outbox/outbox.relay.ts:142-167 | the measure behind it: the sum over pending rows of attempts left falls by at least one per committed drain |
| OutboxDrains.PendingRowCanGoOut | src/outbox/outbox.relay.ts:89-133 | from every reachable state each pending row can still go out: whoever holds it dies, its backoff passes, and a drain publishes it with its record in the log |
| OutboxRelays.OutboxRelay.Oldest | src/outbox/outbox.relay.ts:95 | the loop finds a row created no later than any other |
| OutboxRelays.OutboxRelay.Select | src/outbox/outbox.relay.ts:89-97 | the min(batchSize, waiting) oldest waiting rows, oldest first, each once |
| OutboxRelays.OutboxRelay.MarkFailedRows | src/outbox/outbox.relay.ts:142-167 | every row of the batch gets its attempts, status and due time from what was read at poll time; no other row changes |
| OutboxRelays.OutboxRelay.Settle | src/outbox/outbox.relay.ts:116-135 | the marks and the commit are one step of the machine; each row of the batch is published and logged, or one attempt further and due after its backoff |
| OutboxRelays.OutboxRelay.SendBatch | src/outbox/outbox.relay.ts:105-135 | publish, marks and one commit or, when the database fails at the marks, a rollback that frees the rows; nothing else |
| OutboxRelays.OutboxRelay.DrainOnce | src/outbox/outbox.relay.ts:79-140 | does nothing while a drain is running; otherwise it takes the oldest min(batchSize, waiting) rows of the state it polls, and after it each is published with its record in the log or, if the publish failed, has one attempt more; the result is the size of the batch that went out; a database error escapes it and the next drain may run |
| OutboxRelays.OutboxRelay.Tick | src/outbox/outbox.relay.ts:66-76 | drains again at once if and only if its drain published a batch that is not empty; after anything else, an error included, it waits for the poll interval |
| RetryPolicy.BackoffInWindow | src/notifications/retry-policy.ts:10-18 | every draw gives a delay inside the capped exponential window, and strictly inside unless the window is empty |
| RetryPolicy.BackoffReaches | src/notifications/retry-policy.ts:10-18 | every delay of the window is drawn by some draw: full jitter |
| RetryPolicy.WindowDoubles | src/notifications/retry-policy.ts:16 | the window starts at the base and doubles with each attempt up to the cap |
| Notifications.DeliveredAtMostOnce | src/notifications/notifications.service.ts:43-78 | over any redelivery, duplicate, retry copy, crash and half-failed operation no message is delivered twice |
| NotificationLoss.EveryMessageAccountedFor | src/notifications/notifications.consumer.ts:99-154 | without faults every message that reached a topic is sent, dead-lettered, unconsumed or in a handler's hands, even when duplicate copies race; a claim without a delivery or dead letter has its claimant still at work |
| NotificationLoss.DrainedMeansSentOrDead | src/notifications/notifications.consumer.ts:99-154 | once everything is consumed every message is sent or dead-lettered |
| NotificationFaults.SafeIffNoFault | src/notifications/notifications.consumer.ts:99-237 | after any fault-free run a step keeps every message accounted for over every fault-free future if and only if it is not a fault |
| NotificationFaults.FaultLoses | src/notifications/notifications.service.ts:43-78 | every fault has a fault-free continuation after which its message is gone: not sent, not dead-lettered, every copy consumed, nobody working on it |
| NotificationFaults.DeadClaimantLosesMessage | src/notifications/notifications.service.ts:59-63 | a run in which a claimant dies and its message is then skipped as a duplicate |
| NotificationFaults.FailedUnclaimLosesMessage | src/notifications/notifications.service.ts:73-75 | a run in which a failed delivery's claim delete fails and the message is gone |
| NotificationFaults.AmbiguousClaimLosesMessage | src/notifications/notifications.service.ts:46-57 | a run in which the claim insert happens but reports an error and the message is gone |
| NotificationFaults.FailedDeadLetterLosesMessage | src/notifications/notifications.consumer.ts:220-233 | a run in which a swallowed dead-letter failure loses the message |
| NotificationFaults.SecondHandlerLosesMessage | src/notifications/notifications.consumer.ts:157-166 | a run in which two handlers on one copy lose its message |
| NotificationFaults.ShutdownLosesMessage | src/notifications/notifications.consumer.ts:101 | a run in which a stopping consumer consumes a message nobody handled, which is then gone |
| RetryChains.RetryChain | src/notifications/notifications.consumer.ts:168-205 | along a retry chain id, type and body stay, attempts count the links, and the chain has at most max(1, maxAttempts) copies |
| RetryChains.RetryChainsAreBounded | src/notifications/notifications.consumer.ts:168-205 | so in every reachable state |
| RetryChains.RetriesWait | src/notifications/notifications.consumer.ts:157-166 | no retry is worked on before its due time, and its delay lies in the window of its attempt |
| RetryChains.DeadLettersSpentTheirAttempts | src/notifications/notifications.consumer.ts:178-184 | a message that can be parsed is dead-lettered after exactly max(1, maxAttempts) handlings, the number on the record |
| NotificationsConsumers.NotificationsConsumer.WaitUntilDue | src/notifications/notifications.consumer.ts:157-166 | the heartbeat loop ends only when the copy is due or the consumer is stopping, and left alone not later |
| NotificationsConsumers.NotificationsConsumer.InsertClaim | src/notifications/notifications.service.ts:46-57 | no row comes back if and only if the message was already claimed |
| NotificationsConsumers.NotificationsConsumer.Handle | src/notifications/notifications.service.ts:43-78 | sent means this message was delivered just now, duplicate that it was claimed; it throws exactly when the claim failed or an owned delivery failed, and has then given its claim back unless the delete failed |
| NotificationsConsumers.NotificationsConsumer.ScheduleRetryOrDeadLetter | src/notifications/notifications.consumer.ts:168-211 | with the attempts spent a dead letter, otherwise a retry copy with one attempt more and the drawn delay; only a publish that fails leaves neither, and a failed retry publish leaves the copy unconsumed |
| NotificationsConsumers.NotificationsConsumer.PublishRetry | src/notifications/notifications.consumer.ts:186-205 | the new copy says the same with one attempt more and is due after the drawn backoff |
| NotificationsConsumers.NotificationsConsumer.DeadLetterCopy | src/notifications/notifications.consumer.ts:213-237 | the record carries body, reason, attempts and topic; a failed write is swallowed |
| NotificationsConsumers.NotificationsConsumer.OnMessage | src/notifications/notifications.consumer.ts:99-154 | what becomes of a copy follows from the weather: it is dropped only by a consumer that is stopping, skipped only if its message was claimed, else delivered, dead-lettered with its attempts spent, or retried; the offset stays uncommitted only if the retry publish failed |
| FingerprintProofs.CanonicalMeans | src/idempotency/request-fingerprint.ts:16-17 | what is printed of an object is its members that are not undefined, each once, and means the same |
| MemberOrder.CanonicalSorted | src/idempotency/request-fingerprint.ts:18 | in the order of the collation |
| MemberOrder.SameTextIffSameMeaning | src/idempotency/request-fingerprint.ts:13-21 | a body whose keys the collation tells apart has the text of another body if and only if they mean the same, where an object is a map and has no member order, at every depth |
| FingerprintProofs.TextDeterminesMeaning | src/idempotency/request-fingerprint.ts:13-21 | whatever the order of keys, the text is unambiguous, string escapes and lone surrogates included |
| MemberOrder.MemberOrderIsIrrelevant | src/idempotency/request-fingerprint.ts:16-19 | any permutation of such an object's members gives the same text |
| MemberOrder.TiesShow | src/idempotency/request-fingerprint.ts:18 | if two printed keys tie anywhere in a body, some body with the same meaning prints differently |
| MemberOrder.UnseparatedKeysShow | src/idempotency/request-fingerprint.ts:18 | the smallest case: two tied keys in either order |
| MemberOrder.OrderIndependentIffKeysApart | src/idempotency/request-fingerprint.ts:13-21 | for every body: everything that means the same prints the same if and only if no two different printed keys of one of its objects tie |
| MemberOrder.OrderIndependentIffSeparates | src/idempotency/request-fingerprint.ts:18 | for all bodies at once only under a collation that never lets two different texts tie |
| RequestLines.SameLineIffSameRequest | src/idempotency/request-fingerprint.ts:8-11 | a request whose body's keys are told apart has another's canonical line if and only if method (up to case), path and meaning of the body are equal |
| RequestLines.RecognisedIffKeysApart | src/idempotency/request-fingerprint.ts:8-11 | for every request: its line is that of every order of its members if and only if the collation tells its keys apart |
| RequestLines.LineDeterminesRequest | src/idempotency/request-fingerprint.ts:8-11 | the direction that needs no assumption on the collation |
| Fingerprint.UpperForgetsCaseOnly | src/idempotency/request-fingerprint.ts:9 | two methods have one upper-case form if and only if they differ in the case of letters alone |
| IdempotencyGuarantee.AtMostOneBookingPerKey | src/idempotency/idempotency.interceptor.ts:80-127 | without a hazard, two bookings of one key are separated by a sweep of the key |
| IdempotencyGuarantee.SuccessesAgree | src/idempotency/idempotency.interceptor.ts:56-77 | all successes answered for a key between sweeps carry one booking and go to one fingerprint |
| IdempotencyGuarantee.ReplayMeansSameRequest | src/idempotency/idempotency.interceptor.ts:114-122 | a replay goes only to the same method, path and body meaning |
| IdempotencyGuarantee.OnlyDayOldRequestsAreSwept | src/idempotency/idempotency.interceptor.ts:85 | the sweeping hazard takes a request still at work more than 24 hours after it came |
| IdempotencyGuarantee.MissingRowBreaks | src/idempotency/idempotency.interceptor.ts:109-112 | from every state in which a request reads a missing row there is a hazard-free continuation with two bookings |
| IdempotencyGuarantee.LateThrowBreaks | src/bookings/bookings.service.ts:114-116 | from every reachable state in which a handler throws after its commit there is one too |
| IdempotencyGuarantee.HazardBreaks | src/idempotency/idempotency.interceptor.ts:80-146 | every hazard can be continued to a broken guarantee |
| IdempotencyGuarantee.SafeIffNoHazard | src/idempotency/idempotency.interceptor.ts:80-146 | after any hazard-free run a step keeps every hazard-free future safe if and only if it is not a hazard |
| IdempotencyGuarantee.ReleaseInTheGapIsAHazard | src/idempotency/idempotency.interceptor.ts:144-146 | a failing request's release is enough for the missing row, with no time passing |
| Idempotency.CalmRun | src/idempotency/idempotency.interceptor.ts:80-146 | the invariant: an active request owns its key's row, a key without a row has no booking since its last sweep, a completed row names its owner's booking |
| IdempotencyInterceptors.KeyIsTheHeadersCore | src/idempotency/idempotency.interceptor.ts:47-51 | the key is what stands between the blanks around the header, and there is none if that is nothing |
| IdempotencyInterceptors.SameKeyIffSameCore | src/idempotency/idempotency.interceptor.ts:47 | two headers name one key if and only if they differ in outer blanks alone |
| IdempotencyInterceptors.IdempotencyInterceptor.InsertRow | src/idempotency/idempotency.interceptor.ts:87-102 | a row is returned if and only if the key had none, and an existing row is left alone |
| IdempotencyInterceptors.IdempotencyInterceptor.ReadRow | src/idempotency/idempotency.interceptor.ts:108-126 | proceed, 422, replay or 409: each if and only if the row is missing, of another fingerprint, completed, or in progress |
| IdempotencyInterceptors.IdempotencyInterceptor.ClaimKey | src/idempotency/idempotency.interceptor.ts:80-127 | ends at work on the key or answered, whatever runs between insert and read; with nobody else on the key it finds what the key's row says |
| IdempotencyInterceptors.IdempotencyInterceptor.Intercept | src/idempotency/idempotency.interceptor.ts:42-78 | the request is answered once, by replay, refusal or its handler, as the claim on its key says; with nobody else on the key the claim is what the key's row says; it books if and only if the handler got as far; it owes its key a completion after success, a release after failure, nothing after a replay or without a key |
| IdempotencyInterceptors.IdempotencyInterceptor.Complete | src/idempotency/idempotency.interceptor.ts:129-142 | the response is stored in whatever row the key then has |
| IdempotencyInterceptors.IdempotencyInterceptor.Release | src/idempotency/idempotency.interceptor.ts:144-146 | the key then has no row, unless the delete failed |
| IdempotencyInterceptors.IdempotencyInterceptor.Sweep | src/idempotency/idempotency-cleanup.job.ts:31-38 | deletes a row if and only if it has expired |
| KeyedBookings.KeyBooksOnce | src/bookings/bookings.controller.ts:59-69 | with the locked strategies and no missing or early-swept row, two booking rows of one key come from different lives of the key; no late throw needs excluding |
| KeyedBookings.UnsweptKeyBooksOnce | src/bookings/bookings.controller.ts:59-69 | a key never swept has at most one booking row |
| KeyedBookings.SuccessHasItsRow | src/bookings/bookings.controller.ts:59-69 | every success answered for a key names a booking row with that key |
| KeyedBookings.SeatsStillAddUp | src/bookings/bookings.service.ts:168-232 | the seat accounting holds underneath |
| TokenBucket.TokensInRange | src/redis/redis.service.ts:30-45 | stored tokens stay in [0, capacity] over every sequence of calls, whatever the clock does |
| TokenBucket.Conservation | src/redis/redis.service.ts:30-45 | whatever the clock does, cost admitted plus tokens left never exceeds what was there plus what the forward moves of the clock refilled |
| TokenBucket.WindowBound | src/redis/redis.service.ts:30-45 | in any window of T ms whose clock does not run backwards, after any history, at most capacity + refill * T / 1000 is admitted |
| TokenBucket.BoundIffForwardMovesFit | src/redis/redis.service.ts:30-45 | for calls at any instants, the bound of T ms holds for all costs and histories if and only if the clock's forward moves, each worth a full bucket at most, refill no more than T ms do |
| TokenBucket.DrainersTakeAll | src/redis/redis.service.ts:30-45 | callers who take all there is get exactly capacity plus what the forward moves refill, so the bound on them is attained |
| TokenBucket.BackwardClockBreaksTheBound | src/redis/redis.service.ts:35-44 | the smallest failing clock: three calls within no time at all admit twice the capacity |
| TokenBucket.ExpiryUnobservable | src/redis/redis.service.ts:44-45 | a bucket whose key Redis may forget after its TTL answers every call like one that never forgets, over any clock |
| TokenBucket.PathIndependent | src/redis/redis.service.ts:35-36 | refilling in two stages is refilling once |
| TokenBucket.RefusedProbesChangeNothing | src/redis/redis.service.ts:35-44 | after refused probes the level at any later instant is what it would have been without them |
| TokenBucket.RetryHintExact | src/redis/redis.service.ts:47-50 | after a refusal and any refused probes, a call of the same cost is admitted if and only if the cost fits the capacity and the hint has passed |
| TokenBucket.RetryAfterCoversHint | src/ratelimit/rate-limit.guard.ts:73 | Retry-After (section 10.2.3 of RFC 9110) is the least positive number of seconds that covers the hint |
| RedisServices.RedisService.AcquireLock | src/redis/redis.service.ts:96-100 | the token is granted if and only if the key is free or its lifetime has passed; other keys are untouched |
| RedisServices.RedisService.EvalReleaseLock | src/redis/redis.service.ts:7-12 | deletes if and only if the live lease is the caller's |
| RedisServices.RedisService.WithLock | src/redis/redis.service.ts:109-117 | busy if and only if somebody live holds the lock; the lease is still this client's after fn unless it ran out, whatever other clients do; the release, also after a throw, ends no other lease |
| RedisServices.RedisService.EvalTokenBucket | src/redis/redis.service.ts:19-53 | the script statement by statement meets the specification the limits are proved for |
| RedisServices.RedisService.ConsumeToken | src/redis/redis.service.ts:119-138 | what a key stores is always what its history of calls leaves; other keys are untouched |
| RedisServices.RedisService.TokensWithinLimit | src/redis/redis.service.ts:30-45 | so every stored bucket is within [0, capacity], whatever the callers' clocks say |
| Cache.TtlInRange | src/redis/cache-ttl.ts:6-14 | the drawn freshness lies between the base and base plus jitter, and is at least one second |
| Cache.TtlReaches | src/redis/cache-ttl.ts:6-14 | every freshness of that range is drawn by some draw: the jitter spreads |
| CacheAge.BoundedStaleness | src/redis/cache.service.ts:47-83 | whatever getOrLoad answers was the database value at an instant no older than max(1, ttl + jitter) + stale seconds plus the duration of its load, when Redis was asked; a fresh hit obeys the freshness alone, an own load only its duration |
| CacheLeases.LoadsOverlapOnlyIfExcused | src/redis/cache.service.ts:86-118 | with protection on, two loads overlap only if one outlived its lease or is a waiter's fallback after the deadline |
| CacheLeases.LeaseStands | src/redis/redis.service.ts:7-12 | until it runs out a lease survives everything but its own holder's release, late releases of earlier holders included |
| CacheServices.CacheService.Read | src/redis/cache.service.ts:134-144 | an entry is found if and only if the read succeeded and it has not expired |
| CacheServices.CacheService.Put | src/redis/cache.service.ts:152-161 | the entry lives freshness plus stale seconds; a failed or refused write leaves the old one |
| CacheServices.CacheService.Write | src/redis/cache.service.ts:146-161 | what was loaded is stored fresh for the drawn seconds and kept for the stale seconds after them |
| CacheServices.CacheService.AcquireLock | src/redis/cache.service.ts:91-107 | the lock is won if and only if it is free or its lifetime has passed; the winner holds a new lease, the loser a deadline, and a lifetime Redis refuses throws |
| CacheServices.CacheService.LoadUnderLock | src/redis/cache.service.ts:95-103 | answers if and only if the load succeeded, has stored what it loaded unless the write failed, and no longer holds its lease in either case |
| CacheServices.CacheService.AwaitWinner | src/redis/cache.service.ts:107-112 | the polling loop ends with a value some winner stored, or at the deadline with every poll a miss |
| CacheServices.CacheService.LookUp | src/redis/cache.service.ts:53 | what it finds is what a cache read gave during the call |
| CacheServices.CacheService.SingleFlight | src/redis/cache.service.ts:86-118 | fails only if the request's own load failed or the lock's lifetime was refused |
| CacheServices.CacheService.RefreshInBackground | src/redis/cache.service.ts:120-132 | takes the lock unless somebody held it, loads if and only if the loader succeeds, stores what it loaded, and has given its lease back in either case |
| CacheServices.CacheService.Serve | src/redis/cache.service.ts:55-82 | a fresh entry is served; a stale one is served if and only if protection is on, with one refresh started; otherwise the caller loads |
| CacheServices.CacheService.GetOrLoad | src/redis/cache.service.ts:47-83 | the cache is read; an entry that is fresh when the answer is decided, or stale under protection, is the answer, without asking the database, and only the stale one starts a refresh; a miss, a failed read or a stale entry without protection loads; it throws only if its own load or the lock's lifetime did |
| CacheServices.CacheService.Invalidate | src/redis/cache.service.ts:164-166 | the entry is gone unless the delete failed |
| SemaphoreRuns.PermitsConserved | src/common/concurrency/semaphore.ts:28-55 | over all sequences of runs, throwing bodies included: free plus held permits are all permits, at most that many bodies run, a queue means none is free |
| SemaphoreRuns.ServedExactly | src/common/concurrency/semaphore.ts:28-45 | the runs served are exactly the first min(arrivals, permits + ended) arrivals, so service is in arrival order and no permit is lost or made |
| SemaphoreRuns.AllPermitsReturn | src/common/concurrency/semaphore.ts:47-54 | when nothing runs, every permit is back, nobody waits, and every arrival has ended exactly once |
| SemaphoreRuns.StraysAreBounded | src/common/concurrency/semaphore.ts:44 | releases by somebody who holds nothing never push the counter past the permits, and let at most one extra body run each |
| SemaphoreRuns.StrayOverruns | src/common/concurrency/semaphore.ts:36-43 | and one does, if it comes while a run is waiting |
| Semaphores.Semaphore.Make | src/common/concurrency/semaphore.ts:15-18 | refused if and only if there is less than one permit |
| Semaphores.Semaphore.Acquire | src/common/concurrency/semaphore.ts:28-34 | granted if and only if a permit was free, otherwise last in the queue |
| Semaphores.Semaphore.Release | src/common/concurrency/semaphore.ts:36-45 | the longest waiter leaves the queue, or the counter rises unless it is full |
| Semaphores.Semaphore.Run | src/common/concurrency/semaphore.ts:47-54 | a run that finds a permit free is not left waiting, and a run that gets one gives it back whether its body throws or not, whatever other runs do at its awaits |
| EndToEnd.NoBookingForgotten | src/outbox/outbox.relay.ts:88-135 | every committed booking is pending in the outbox, given up on record, or its message is sent, dead-lettered or still to be handled |
| EndToEnd.NotifiedOnceAndOnlyForBookings | src/notifications/notifications.service.ts:43-78 | whatever is published twice, redelivered, retried or crashes, a notification is sent at most once and only for a committed booking whose content the topic carries |
| EndToEnd.SettledMeansNotified | src/notifications/notifications.consumer.ts:99-154 | once nothing is pending or unconsumed, every committed booking was notified exactly once, dead-lettered, or given up on record |

## Left out

- OutboxDrains.EveryRowSettles: speaks of committed drains, not of how soon relays run; liveness of relays, consumers and requests is not modelled.
- NotificationsConsumers.NotificationsConsumer.OnMessage: the consumer's semaphore around the handling is proved by itself; here any number of handlers run.
- BookingsServices.BookingsService.CommitTransaction: an outbox row's creation and due times are those of the commit; the source takes them earlier in the transaction.
- OutboxRelays.OutboxRelay.MarkFailedRows: the columns for publication time and last error are not kept.
- OutboxRelays.OutboxRelay.Tick: the timer itself and the flag that stops it at shutdown.
- MemberOrder.SameTextIffSameMeaning: numbers are integers below the exponent form; other numbers are not modelled.
- MemberOrder.OrderIndependentIffKeysApart: members come in any order; that JavaScript lists keys that are array indices first, and so never shows two of them in another order, is not used.
- CacheAge.BoundedStaleness: a Redis reply is read at the instant of the command; how long an answer then travels is not counted.
- TokenBucket.WindowBound: over real numbers and a refill above zero; rounding of doubles and a refill of zero are not modelled.
- RedisServices.RedisService.ConsumeToken: the lifetime of a bucket's key is measured on the callers' clock, not on Redis's own.
- IdempotencyInterceptors.IdempotencyInterceptor.Sweep: one key at a time; the lock that lets one replica sweep is not needed by any property.
- KeyedBookings.KeyBooksOnce: a lost connection during COMMIT, which throws although the booking is in, counts as a late throw and is excluded for the locked strategies.
- Immediate cache coherence after an invalidation: the code does not provide it, because a load can store an older value afterwards.
- Global order of one event's messages in Kafka: the code does not provide it.
- The HTTP layer, DTO validation, cursors and pagination, metrics, logging, health checks, trace ids and message keys: plumbing.
- Direct-publish mode and fault injection, except for crashes between any two steps.
- Connection pools, partitions and rebalancing beyond redelivery, producer internals, cancellation of bookings, migrations and configuration parsing.
- Nothing here bounds integers: the source's counters are small and its database columns are wide enough.
