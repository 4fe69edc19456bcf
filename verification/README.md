# PulseRoute in Dafny

PulseRoute is a webhook queue that lives in PostgreSQL. Workers claim due
deliveries under a lease, send them, and record the outcome under a fencing
token; Redis limits rates with a token bucket. This project models those parts
and proves what every run of them keeps, with any number of workers, crashes,
expired leases, reclaims, late completions, replays and endpoint edits.

| file | contents |
|---|---|
| `Common.dfy` | optional values |
| `Retry.dfy` | which codes are retried, and the backoff arithmetic |
| `Tables.dfy` | the tables, the steps that change them, runs, and the schema constraints |
| `Store.dfy` | the operations as methods on tables updated in place, each proved to be one step |
| `Sequential.dfy` | the simple machine each delivery appears to be |
| `Protocol.dfy` | the refinement of runs to that machine |
| `Guarantees.dfy` | what the refinement says about the tables: history, budget, spacing, delays, coherence, no lost work |
| `Fencing.dfy` | when a completion is accepted, in terms of the history of claims |
| `Effects.dfy` | what each step does to the columns, and when a delivery can be claimed again |
| `Ordering.dfy` | no overtaking in the claim order, and how often a waiting delivery can be bypassed |
| `Deletion.dfy` | deletion of an endpoint, and draining from the delete step on |
| `Endpoints.dfy` | what an endpoint is, told from the steps before |
| `Provenance.dfy` | the policy of an attempt is that of its endpoint at the claim |
| `Idempotency.dfy` | ingestion replies and atomic fan-out |
| `Dashboard.dfy` | what the dashboard's figures count, and their conservation law |
| `Exclusion.dfy` | when leases keep HTTP requests for one delivery from overlapping |
| `Chronology.dfy` | the requests behind the recorded attempts, in the order of the attempts table |
| `Bucket.dfy` | the Redis script: exact balance, rate bound, optimality, expiry |
| `Pool.dfy` | `Worker.Run` as interleaved small steps: accounting, progress, shutdown |
| `Runner.dfy` | the dispatcher's and a worker's next operation on shared state |

The layers build on each other. `Store` shows that the statements of `Claim`,
`Defer`, `Finish`, `process`, `replay`, `ingest` and the endpoint edits have exactly
the effect of one step. A run is any sequence of steps from empty tables.
`Protocol.Refinement` maps every run, delivery by delivery, to the machine of
`Sequential`, whose own invariants then speak about the tables.

## Assumptions

- Each SQL statement or transaction is one atomic step at its own `now()`, and the
  database clock never goes back from one step to the next. An operation that fails
  with an error takes no step. A crash is the absence of further steps by the holder
  of a job.
- `security.Token` values and the delivery ids derived with md5 are fresh, and
  equal content hashes mean equal content.
- The arithmetic of the Lua script is exact: tokens are counted in millionths,
  time in microseconds.
- The workers start a request within a bound of the claim and the HTTP client
  ends it within its timeout; only `Exclusion` and `Chronology` use this.
- Redis drops a key only once its clock has read strictly more than the expiry since
  the previous request (`peak` in `Bucket` is the highest such reading).
- A rate limiter, a decryption and an HTTP response are arbitrary inputs of `process`.
- Durations in `Retry` and the tables are nanoseconds. The attempts table carries
  two auxiliary columns, the claim's token and the policy it had copied.

## Findings

- Successive backoff delays do not always grow: after the one-hour cap bites, an
  hour may be followed by half an hour. `Retry.DelaysGrowIffUncapped` gives the
  exact condition.
- Requests for one delivery never overlap if and only if the lease covers the
  latest start plus the HTTP timeout (`Exclusion.ExclusiveIffMargin`). The check in
  the configuration, lease at least three timeouts, therefore leaves two
  timeouts for starting; it says nothing about workers that start later.
- Redis expiry is not always unobservable: a clock that steps back far enough after
  the key was dropped finds a full bucket where the kept one would still be short.
  For a fixed bucket of positive rate the answers are those of a bucket that never
  forgets if and only if a full time to live and a microsecond, less the step back,
  refills the whole capacity (`Bucket.FixedBucketForgetsNothingIff`). Sixty seconds
  are always allowed; how much more depends on what rounding the time to live up to
  whole seconds adds. For endpoint buckets, whose rate may be edited, the bound is
  exactly sixty seconds and a microsecond (`Bucket.EndpointBucketForgetsNothingIff`).
- docs/architecture.md says that SIGTERM makes the producer close the channel. After
  cancellation only the fairness of Go's `select` leads there. `Claim` then fails at
  once, and the loop goes on for as long as, in every pass, the first select takes
  the free slot although `ctx.Done()` is ready, the ticker fires again, and the
  second select takes the tick although `ctx.Done()` is ready
  (`Pool.UnfairSelectNeverReturns`). The steps after cancellation are bounded as far
  as such choices are (`Pool.ShutdownTakesWhatSelectIgnores`).
- Leases too short for exclusion still keep the recorded history in order: whatever
  the lease, the requests of the recorded attempts of a delivery ended before their
  records and never overlap (`Chronology.RequestsFollowTheTable`). Only requests that
  were never recorded can overlap another.
- `Finish` does not look at `lease_until`, so an expired but not reclaimed owner is
  accepted. `Fencing.ExactFencing` has no term for time.

## Model

| member | source | states |
|---|---|---|
| `Retry.Backoff` | internal/delivery/retry.go:11-23 | the delay is half the ceiling min(base·2^(attempt−1) s, 1 h) plus the draw, lies between half and all of it, and no int64 product wraps |
| `Retry.CeilingRange` | internal/delivery/retry.go:18-21 | for base 1..3600 the ceiling is between a second and an hour, even, and its uncapped form fits an int64 |
| `Retry.CeilingInNumbers` | internal/delivery/retry.go:11-21 | the ceiling is base seconds times 1, 2, 4, …, 512 for attempts 1 to 10 and beyond, or 3600 s if that is less |
| `Retry.DelaysGrowIffUncapped` | internal/delivery/retry.go:18-22 | successive delays never decrease, whatever the jitter, iff the later one is not capped |
| `Retry.GeometricSum` | internal/delivery/retry.go:18-22 | the uncapped waits of m attempts add up to between half and all of base·(2^(m−1)−1) seconds |
| `Tables.ChoosesIffDecided` | internal/delivery/worker.go:73-135 | the actions allowed to a job's holder are exactly those process can decide on |
| `Tables.SchemaKept` | migrations/001_initial.sql:21-59 | every step keeps the foreign keys, the CHECKs and all UNIQUE constraints |
| `Tables.RunKeepsSchema` | migrations/001_initial.sql:21-59 | the constraints hold at every point of every run |
| `Tables.OnlyTargetChanges` | internal/delivery/queue.go:26-75 | no step but an accepted ingest adds a delivery and none rewrites a row other than its target |
| `Store.Database.FindDue` | internal/delivery/queue.go:26 | finds the row with the least (next_attempt_at, id) among the pending and retrying ones that are due and the processing ones whose lease has expired, or shows that there is none |
| `Store.Database.Claim` | internal/delivery/queue.go:23-28 | is a claim step; the row is leased to the token for the lease from now, and the job is a copy of the next attempt number, the generation and the endpoint’s max_attempts, base delay, rate and active AND deleted_at IS NULL as they are then |
| `Store.Database.Defer` | internal/delivery/queue.go:32-38 | reports stale and changes nothing exactly when the token or the status does not match; otherwise the row gets the status, is due after exactly the delay, and has no lease |
| `Store.Database.Finish` | internal/delivery/queue.go:39-77 | stale, refused by UNIQUE, or committed, exactly when it should be; committed, the row is succeeded iff 2xx, retrying after the backoff iff the attempt is below the limit and the code is 0, 408, 429 or at least 500, and otherwise dead with a dead letter; else nothing changes |
| `Store.Database.Process` | internal/delivery/worker.go:73-140 | reports only if the context is live before and after, the job active, the limiter granted and the secret decrypted, with the response’s code or 0; denied or failed limiting defers by exactly a second, failed decryption by exactly a minute, an inactive job is cancelled, and otherwise the tables stay as they are |
| `Store.Database.Replay` | internal/api/inspection.go:56-86 | is a replay step, accepted iff the delivery is dead and its endpoint active and not deleted; then pending at once, count 0, next generation, no dead letter, attempts kept |
| `Store.Database.FindEvent` | internal/api/ingest.go:55-66 | finds the event with this key or shows that there is none |
| `Store.Database.Ingest` | internal/api/ingest.go:48-85 | is an ingest step with the reply 202, 200 or 409 that the tables call for |
| `Store.Database.LoadEndpoint` | internal/api/endpoints.go:78-82 | reads exactly the endpoints that exist and are not deleted |
| `Store.Database.SaveEndpoint` | internal/api/endpoints.go:83-103 | with any row read earlier: refuses exactly the merged policies outside 1..10, 1..3600 and 1..1000, and otherwise writes each given value and the earlier read of the others, whether or not the endpoint was deleted meanwhile |
| `Store.Database.DeleteEndpoint` | internal/api/endpoints.go:105-116 | is a delete step, effective only on an endpoint not yet deleted, which it switches off and marks with now |
| `Sequential.InvKept` | internal/delivery/queue.go:53-66 | every move of the sequential machine keeps: only retryable failures below their limit are followed by another attempt, spaced by the backoff |
| `Sequential.RowsAfter` | internal/api/inspection.go:74 | a recorded attempt appends one row numbered by counting; a replay keeps all rows |
| `Sequential.GenerationBudget` | migrations/001_initial.sql:24 | a generation has at most ten attempts, nine while it is open or cancelled |
| `Sequential.ExhaustionIsExact` | internal/delivery/queue.go:55-60 | retryable failure to death under one limit takes exactly that many attempts |
| `Sequential.GenerationSpan` | internal/delivery/retry.go:18-22 | under one base the attempts of a generation span at least half the geometric sum |
| `Protocol.OwnerHasFreeKey` | internal/delivery/queue.go:62-66 | what the owner's job copied at its claim still matches the row, and its attempt key is free |
| `Protocol.Simulate` | internal/delivery/queue.go:23-77 | each step is, for each delivery, a legal move of the sequential machine or a stutter, and keeps the relation |
| `Protocol.Refinement` | internal/delivery/queue.go:23-77 | at every point of every run the tables show exactly the sequential machine's state for every delivery |
| `Guarantees.GapFreeHistory` | internal/delivery/queue.go:62-66 | the current generation's attempts are exactly 1..attempt_count, earlier ones a non-empty 1..k ending in a failure, later ones none |
| `Guarantees.FiniteBudget` | internal/delivery/queue.go:53-66 | attempt_count ≤ 9 while open or cancelled, ≤ 10 always, history ≤ 10·(generation+1), under arbitrary policy edits |
| `Guarantees.OnlyFinishesConsume` | internal/delivery/worker.go:82-93 | the history grows by exactly the accepted finishes: throttling, defers, claims and replays cost nothing |
| `Guarantees.AttemptsAreSpaced` | internal/delivery/queue.go:57-66 | consecutive attempts lie at least half the captured ceiling apart, and the earlier was retryable and below its limit |
| `Guarantees.DeathHasACause` | internal/delivery/queue.go:53-61 | dead and succeeded deliveries have an attempt in their generation; the last one decides: dead iff it failed for good or reached the limit captured at its claim, succeeded iff it was 2xx |
| `Guarantees.SuccessIsLast` | internal/delivery/queue.go:53-66 | a 2xx attempt is the last attempt of a succeeded delivery; no other delivery has any |
| `Guarantees.WaitsArePossible` | internal/delivery/queue.go:55-66 | in every run the delays written in the current generation are one per attempt but the last of a dead or succeeded delivery, each between half and all of the ceiling its attempt's claim had captured |
| `Guarantees.ExhaustedUnderFixedPolicy` | internal/delivery/queue.go:55-60 | dead by retryable failures under one policy: exactly max_attempts attempts; below the cap the max_attempts − 1 delays written add up to between half and all of base·(2^(max−1)−1) seconds, and the attempts span at least that half |
| `Guarantees.Coherence` | internal/delivery/queue.go:26-75 | a dead letter exists iff dead; token and expiry exist iff processing |
| `Guarantees.Absorbing` | internal/delivery/queue.go:26-75 | cancelled and succeeded rows and their histories never change again |
| `Guarantees.NoLostWork` | internal/delivery/queue.go:26 | an open delivery is claimable once more than max(1 h, lease) has passed since updated_at |
| `Fencing.OwnsIffLatestUnconsumed` | internal/delivery/queue.go:46 | a job matches its row iff it is the delivery's latest claim and no completion with it was accepted |
| `Fencing.OwnerIsAccepted` | migrations/001_initial.sql:54 | UNIQUE(delivery_id,generation,attempt) never stops an owner |
| `Fencing.ExactFencing` | internal/delivery/queue.go:32-49 | a Finish or Defer is accepted iff its job is the latest claim of its delivery and unconsumed |
| `Fencing.StaleIsStutter` | internal/delivery/queue.go:34-49 | in every run a completion leaves all tables as they were iff its job is not the latest unconsumed claim, and is then no move in the life of any delivery |
| `Fencing.ConsumedAtMostOnce` | internal/delivery/queue.go:33-49 | no token is consumed twice in a run |
| `Fencing.DistinctAttemptsDistinctClaims` | internal/delivery/queue.go:62 | distinct recorded attempts come from distinct claims |
| `Effects.ClaimEffect` | internal/delivery/queue.go:26 | in every run a claim takes the claimable row with the least (next_attempt_at, id), leases it from now, and hands out a copy of the row and of its endpoint as they are then |
| `Effects.IdleClaim` | internal/delivery/queue.go:26 | a claim finds nothing iff no row is claimable |
| `Effects.FinishVerdict` | internal/delivery/queue.go:53-76 | in every run a Finish by the latest unconsumed claim makes the row succeeded iff 2xx, retrying iff below the captured limit with code 0, 408, 429 or ≥ 500, and dead with a dead letter otherwise, and appends exactly its attempt |
| `Effects.DeferEffect` | internal/delivery/queue.go:33 | in every run a Defer by the latest unconsumed claim writes status and delay and nothing else but the end of the lease |
| `Effects.ReplayEffect` | internal/api/inspection.go:65-76 | a replay changes something iff the delivery is dead and its endpoint active and not deleted, and then restarts it now in the next generation |
| `Effects.ClaimableIffDelayOver` | internal/delivery/queue.go:26-66 | until it is claimed, a delivery that was created, replayed, deferred or retried is claimable exactly from the moment its delay is over, whatever else happens |
| `Ordering.QueueStep` | internal/delivery/queue.go:26 | for an overdue delivery a step changes the rows in front only by removing the completed one, and a claim takes one of them |
| `Ordering.NoOvertaking` | internal/delivery/queue.go:26 | the rows in front only leave, one per accepted completion, and first claims are bounded by the rows waiting in front |
| `Ordering.BypassesAreBounded` | internal/delivery/queue.go:26 | all claims and reclaims that bypass an overdue delivery in a stretch are at most the rows in front of it times one more than the expired leases that fit into the elapsed time |
| `Ordering.ClaimsTakeFromFront` | internal/delivery/queue.go:26 | every claim that bypasses an overdue delivery takes a row in front of it |
| `Deletion.DeletedForever` | internal/api/endpoints.go:98-106 | no later step, racing updates included, revives a deleted endpoint |
| `Deletion.DeletedIffDeleteStep` | internal/api/endpoints.go:106 | an endpoint is deleted iff a delete step has met it, and deleted_at is for ever the time of the first such step |
| `Deletion.NoDeliveriesAfterDelete` | internal/api/ingest.go:74 | after the delete step no delivery for the endpoint comes into being |
| `Deletion.DrainsFromDelete` | internal/api/endpoints.go:105-116 | from the delete step on every delivery of the endpoint is an old one, gains at most one more attempt, none unless a job claimed while it was live holds it, and is never replayed |
| `Deletion.DrainsAfterDelete` | internal/api/endpoints.go:105-116 | from any state with the endpoint deleted, a delivery of it gains at most one more attempt, none unless a live job holds it, and is never replayed |
| `Deletion.LaterClaimsOnlyCancel` | internal/delivery/worker.go:77-80 | whatever a run does with a job claimed after the delete step is one deferral as cancelled with no delay |
| `Endpoints.ExistsIffCreated` | internal/api/endpoints.go:67 | an endpoint exists exactly from its creation on and keeps its project |
| `Endpoints.LiveIffSetActiveAndNotDeleted` | internal/api/endpoints.go:67-106 | an endpoint has the policy of its last create or edit, and is live iff that step made it active and no step ever deleted it |
| `Provenance.JobsAreCopies` | internal/delivery/queue.go:26 | every job ever handed out is the copy that the claim with its token made of its row and endpoint |
| `Provenance.AttemptsCarryTheirClaim` | internal/delivery/queue.go:26-66 | every recorded attempt was judged by the policy its endpoint had when its token was handed out |
| `Provenance.SpacedByEndpointPolicy` | internal/delivery/queue.go:55-66 | for an endpoint never edited to another policy, attempts lie at least half the ceiling of its base delay apart and stay below its max_attempts |
| `Provenance.ExhaustedByEndpointPolicy` | internal/delivery/queue.go:55-60 | for such an endpoint retryable failure to death takes exactly its max_attempts attempts, and below the cap the delays add up to between half and all of the geometric sum of its base delay |
| `Idempotency.KnownIffSeen` | internal/api/ingest.go:55-60 | an event exists iff an earlier request carried its key |
| `Idempotency.EventIsFixed` | migrations/001_initial.sql:30-34 | the stored event and its hash never change |
| `Idempotency.IngestReplies` | internal/api/ingest.go:60-84 | the first request with a key gets 202 and no other; later ones 200 with its id iff the hash is equal, else 409 |
| `Idempotency.FanOutIsFixed` | internal/api/ingest.go:74-79 | the event’s deliveries are for ever exactly one per endpoint of its project that was active and not deleted at the fan-out |
| `Idempotency.FirstFansOut` | migrations/001_initial.sql:37-45 | the new deliveries are pending, due at once, at count and generation 0, and unleased |
| `Dashboard.SuccessesBalance` | internal/delivery/queue.go:53-66 | for any set of deliveries, those succeeded are as many as the attempts that are not failures |
| `Dashboard.DashboardConservation` | internal/api/inspection.go:96 | for any filter succeeded = deliveries_attempted − failed |
| `Dashboard.FiguresAreCounts` | internal/api/inspection.go:96 | in every run the figures count the attempts that go to endpoints of the selected projects, those outside 2xx among them, and the succeeded deliveries there |
| `Exclusion.ExclusionHolds` | internal/delivery/worker.go:95-133 | with enough lease, at every point of every timed run, requests for one delivery are apart |
| `Exclusion.OverlapWithoutMargin` | internal/delivery/queue.go:26 | with less lease there is a run in which two requests overlap |
| `Exclusion.ExclusiveIffMargin` | internal/config/config.go:42 | no run overlaps iff start bound + timeout ≤ lease |
| `Exclusion.LoadedConfigIsSafe` | internal/config/config.go:42-44 | lease ≥ 3·timeout suffices for starts within two timeouts |
| `Chronology.AttemptFollowsItsRequest` | internal/delivery/worker.go:95-140 | with any lease, a recorded attempt that sent a request belongs to one request for its delivery, which ended no later than the record |
| `Chronology.RequestsFollowTheTable` | internal/delivery/worker.go:95-140 | with any lease, of two recorded attempts of a delivery the earlier one's request and record precede the later one's claim and request |
| `Chronology.RequestsWereLiveAtClaim` | internal/delivery/worker.go:77-111 | no request is sent for a delivery whose endpoint was inactive or deleted when it was claimed |
| `Bucket.Key.Allow` | internal/redisx/redis.go:23-37 | the script’s new hash, answer and expiry, said in millionths and microseconds, and that they are those of one service of the bucket |
| `Bucket.TtlIsLeast` | internal/redisx/redis.go:35 | the time to live is sixty seconds more than the least number of whole seconds that refills the capacity |
| `Bucket.BalanceIsLeastWindow` | internal/redisx/redis.go:29-34 | for any clock the balance is the minimum over k of capacity + inflow since k − grants since k |
| `Bucket.DeniedIffOverdraws` | internal/redisx/redis.go:33 | a request is denied iff some window ending at it would be overdrawn |
| `Bucket.RateBound` | internal/redisx/redis.go:31-33 | for any clock and window, grants ≤ capacity + rate · forward clock movement |
| `Bucket.InflowIsForward` | internal/redisx/redis.go:31 | the inflow is the rate times the forward movement of the clock |
| `Bucket.ForwardIsElapsed` | internal/redisx/redis.go:31 | for a clock that never steps back the forward movement is the time elapsed |
| `Bucket.BucketIsOptimal` | internal/redisx/redis.go:29-34 | no admissions within the same bounds ever grant more |
| `Bucket.SameBalanceIffCovers` | internal/redisx/redis.go:29-35 | a lost and a kept key give the same balance for every level iff the elapsed time refills the whole capacity |
| `Bucket.ExpiryIsUnobservable` | internal/redisx/redis.go:29-35 | if that holds wherever a key expired, every answer is that of a bucket that never forgets |
| `Bucket.FixedBucketForgetsNothingIff` | internal/redisx/redis.go:29-35 | for a fixed rate ≥ 1 and capacity and steps back of at most drift, every sequence of requests gets the answers of a bucket that never forgets iff capacity ≤ rate · (time to live + 1 µs − drift) |
| `Bucket.FixedBucketForgetsNothing` | internal/redisx/redis.go:35 | for every fixed bucket a drift of a minute is allowed |
| `Bucket.EndpointBucketForgetsNothingIff` | internal/delivery/worker.go:81 | for endpoint buckets, whose rate is edited between requests, the same holds iff the drift is at most a minute and a microsecond |
| `Pool.Accounting` | internal/delivery/worker.go:30-71 | slots = buffered + busy + held by the dispatcher ≤ n; claimed = handed + buffered + in hand + dropped, in order; each job handed over is finished or with the worker that received it |
| `Pool.NothingBlocks` | internal/delivery/worker.go:30-71 | at most n jobs in memory; the send and every receive from slots never block; k buffered jobs have k ready workers; no send after close |
| `Pool.Progress` | internal/delivery/worker.go:46-71 | unless Run has returned some step other than cancellation is enabled |
| `Pool.ShutdownStep` | internal/delivery/worker.go:43-71 | after cancellation each step but taking a slot lowers a measure |
| `Pool.ShutdownIsBounded` | internal/delivery/worker.go:43-71 | steps after cancellation ≤ 6n + 9 + 6 per slot taken after it |
| `Pool.DrainIsBounded` | internal/delivery/worker.go:43 | once the dispatcher leaves its loop every step counts down |
| `Pool.CleanReturn` | internal/delivery/worker.go:35-43 | at return: empty channel, no slots, all workers exited, every job but at most one handed over in claim order and finished exactly once |
| `Pool.DroppedOnlyAfterCancel` | internal/delivery/worker.go:65-70 | a job is given up without being processed only after cancellation |
| `Pool.ShutdownTakesWhatSelectIgnores` | internal/delivery/worker.go:47-70 | the steps after cancellation number between the selects that ignore it and 6n + 9 + 6 times those |
| `Pool.UnfairSelectNeverReturns` | internal/delivery/worker.go:47-62 | for every n ≥ 1 and k there is a run, cancelled at its first step, whose next 5k steps pass both selects k times, a tick having fired each time, and are still in the loop |
| `Runner.Shared.Dispatch` | internal/delivery/worker.go:46-71 | the dispatcher’s loop passes on what Claim returned, sees the cancellation when it prefers it, sends otherwise, and waits only while not cancelled, for a slot or for a tick |
| `Runner.Shared.NoResultIsLost` | internal/delivery/worker.go:46-71 | after any calls the jobs that Claim returned are, in that order, handed to process, buffered, in hand or dropped, and each one handed over is finished or being processed |
| `Runner.Shared.AwaitSlot` | internal/delivery/worker.go:47-51 | takes a free slot or sees the cancellation, and waits iff neither is ready |
| `Runner.Shared.TakeResult` | internal/delivery/worker.go:52-53 | a job that Claim returned is kept for sending; without one the slot goes back |
| `Runner.Shared.ReturnSlot` | internal/delivery/worker.go:54-69 | the slot in use is given back, and only a cancelled send gives up its job |
| `Runner.Shared.AwaitTick` | internal/delivery/worker.go:58-62 | takes a tick or sees the cancellation, and waits iff neither is ready |
| `Runner.Shared.PassOn` | internal/delivery/worker.go:65-70 | sends, which never blocks, unless it prefers the cancellation |
| `Runner.Shared.ShutDown` | internal/delivery/worker.go:43 | closes the channel, then waits only for workers that have not exited; each operation is one legal step |
| `Runner.Shared.Fire` | internal/delivery/worker.go:44-61 | a tick is one legal step, lost if one is already pending |
| `Runner.Shared.Work` | internal/delivery/worker.go:35-41 | a worker receives, finishes, releases and exits exactly when it should, one legal step each, and waits only for a job in an open, empty channel |
| `Runner.Shared.AwaitJob` | internal/delivery/worker.go:35-41 | receives the first buffered job, exits when the channel is closed and empty, waits otherwise |
| `Runner.Shared.FinishJob` | internal/delivery/worker.go:38-39 | process returns from the job received, then the slot is given back |

## Left out

- PostgreSQL internals: SKIP LOCKED rechecks, snapshots, partial indexes and interval text; steps are atomic.
- Store.Database.SaveEndpoint: does not model name, URL and secret; a request with `active` null is not distinguished.
- Creating an endpoint is a step with any valid policy; its default values are not modelled.
- Pool.Accounting: the goroutines are steps on values, with the shared state updated in place only in `Runner`; Go's memory model is not modelled.
- HTTP handlers, sessions, API keys, JSON decoding and canonicalisation, logging and middleware.
- Cryptography, URL and IP checks; a decryption is a success or a failure.
- Floating-point rounding in the Lua script and the text form of stored numbers.
- The reason text, the duration column, and the dashboard's remaining figures and its cache.
- Configuration parsing beyond the lease and timeout inequality, migrations, the demo commands, the frontend and deployment.
