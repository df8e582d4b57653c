# Verified model of enoti

enoti is a notification gateway. A client posts JSON payloads; enoti watches one field per client, forwards a
notification when the field changes (an *edge*), damps fields that change back and forth (*flapping*) by
suppressing early flips and by sending an aggregate of several flips instead, and rate-limits callers, clients and
targets. The state of a watched field is one row per client and field in DynamoDB or Redis, updated by many workers
at once through a version check.

This project models that logic in Dafny and proves properties of it for all inputs, all runs and all interleavings.
`dafny verify dfyconfig.toml` checks everything.

## Layout

| file | what it holds |
|---|---|
| `Types.dfy` | configs, flips, the per-field state, the bounded flip buffer |
| `EdgeFlap.dfy` | the decision of one evaluation, its answer, the aggregate payload |
| `EdgeRuns.dfy` | runs of the state machine, and the unbounded flip log they are measured against |
| `EdgeLaws.dfy`, `WindowLaws.dfy`, `AggregateLaws.dfy`, `StutterLaws.dfy` | laws of runs |
| `AnswerLaws.dfy` | every answer and every aggregate message, read off the flip log |
| `FloodLaws.dfy`, `FloodExact.dfy` | how often a run publishes, and when that is bounded |
| `Arithmetic.dfy` | facts about division used by the counting laws |
| `Rows.dfy`, `CasProtocol.dfy`, `CasLaws.dfy` | workers interleaving on DynamoDB rows, and laws of every interleaving |
| `RedisProtocol.dfy`, `RedisLaws.dfy`, `RedisLimiter.dfy` | the same on Redis, where one operation is several commands |
| `Limiter.dfy` | the fixed-window limiter |
| `Keys.dfy`, `Ddb.dfy`, `Redis.dfy`, `Store.dfy` | string keys, the two stores, the interface over them |
| `Flow.dfy`, `FlowLaws.dfy`, `OutcomeLaws.dfy`, `OutcomeTable.dfy` | one request, its accounting and its outcome |
| `SerialLaws.dfy` | requests one after the other |
| `Pipeline.dfy`, `EntryBudgets.dfy`, `PipelineRefines.dfy` | interleaved requests, and why they are the same program |
| `ConfigCache.dfy` | the in-process config cache |

The evaluation, the aggregate loop, the stores, the cache and the request pipeline are methods and classes, each proved
against a function of the state before it; the laws are lemmas about those functions.

An interleaving is a sequence of steps, each naming its worker. A step a worker cannot take changes nothing, so every
sequence is a run and every law about sequences is a law about all schedules, crashes and lost messages included.

## Main results

* The bounded, resettable buffer of a row always reads the same as an unbounded log of the flips of its run
  (`BufferRefinesLog`), and consecutive aggregates report disjoint ranges of that log (`AggregatesPartitionLog`).
* For every configuration, run and fate of the write, the answer is a function of the flip log (`AnswerReadsLog`), in every
  interleaving (`AnswersReadLog`), and so is every aggregate message (`AggregateReadsLog`).
* With a clock from the epoch on that does not go backwards, no run loses a flip if and only if the threshold is between 1 and 128, there is no
  cooldown, and the first unsuppressed multiple of the threshold is at most 128 (`LosslessExactly`). Under all other settings
  some run loses exactly one flip that it has counted (`LossyRun`).
* The notifications of a time span are bounded independently of the number of events if and only if aggregation is on and
  either has a cooldown or a threshold above 128 (`FloodBoundedExactly`). The bound depends on the span alone (`FloodBound`), is
  reached for every span when nothing is suppressed (`FloodBoundReached`), and holds in every interleaving of workers (`InterleavedFloodBound`) and through
  the whole pipeline (`PipelineFloodBound`).
* On DynamoDB every interleaving, with lost requests and replies, leaves each row equal to the fold of its committed
  events (`Linearizable`). On Redis this holds exactly when every set was clean (`LinearizableExactly`).
* Every published answer owns a version of its row (`NotificationOwnsVersion`, `NotificationsDistinct`), published and lost
  answers together are what the fold publishes (`NotificationsConserved`), and a refused write had a concrete competitor between
  its load and its write (`RefusalHasCause`).
* The limiter grants exactly the first attempts up to the cap (`GrantsExactly`), at most twice the cap in any sixty seconds
  (`SpanBound`), and on Redis at most `cap + width - 1` with `width` overlapping calls; both bounds are reached.
* Every outcome of every sequence of requests, on either store, is a function of the requests and outcomes before it
  (`HistoryDecides`).
* A request is published exactly when the store it finds on arrival has room in all three limiters and a row that calls
  for it (`PublishedExactly`).
* The steps of a request taken back to back in the interleaved pipeline are the request as one function (`StepsRefineRun`).
* Serially the two stores cannot be told apart (`SerialBackendsEquivalent`).

## Where the code differs from its comments

The model follows the code.

* Comments ask for one retry after a lost version race (`internal/flow/edge_flap.go:36`, `internal/flow/flow.go:89`). There is
  no retry: the loser is answered `SuppressFlapping` on a first observation and `NoOp` otherwise, and its flip is dropped.
* On the suppressed path the outcome of the write is ignored: a lost race or a failed write is still answered
  `SuppressFlapping` without an error.
* `WindowSeconds` is commented as a sliding window. It tumbles: it restarts at the first flip after it has run out.
* `SuppressBelow` is commented as seconds and as a half-open range. It is a number of flips, inclusive.
* `AggregateMaxItems` 0 is commented as "all". It reports no flips.
* `AggregateAt` is commented as "flips >= this". Only multiples of it aggregate, and with a threshold above 128 none does
  (`AggregationPossible`).
* Without flapping settings the buffer grows and is capped, and the flip count stays 0.
* Redis: the comment promises that a first write requires the row to be absent. It is unconditional, and later writes check the
  version and set in two commands (`UpsertIsCasExactly`, `LinearizableExactly`, `OverlappingFirstsBothForward`).
* Redis: the token is commented as atomic. It is a read and an increment (`OvershootReached`).
* The clock is read before the row is loaded, so committed clock readings can go backwards. The laws that need an ordered clock
  say so; the flood bounds, the buffer laws and linearizability do not need one.
* Requests stopped by the IP or client limit carry status 202 and an error.

## Model

| member | source | states |
|---|---|---|
| Types.AppendRecent | internal/types/state.go:30-36 | the result is the newest `cap` flips of the log with the new flip appended |
| EdgeFlap.BuildAggregate | internal/flow/edge_flap.go:173-207 | the message carries the state's value, window start and flip count; no items for a limit of 0 or less, else the newest flips, newest first, each with its times, values and decoded payload, or null when that is empty or does not decode |
| EdgeLaws.ItemsLinkBackwards | internal/flow/edge_flap.go:180-197 | read from the newest item, each item starts from the value the next older one led to, and the first ends at the last value |
| EdgeLaws.AggregateLinksBackwards | internal/flow/edge_flap.go:123-129 | every aggregate of every run is such a chain, ends at the value and clock of the flip that caused it, and has the stated number of items |
| AnswerLaws.AggregateReadsLog | internal/flow/edge_flap.go:123-128 | for every run and every item limit, the message of an aggregate says what the unbounded flip log says: the window's start and number of flips, and item j is the j-th newest flip in all four fields, as many as were not reported, at most 128 and at most the limit |
| EdgeRuns.BufferRefinesLog | internal/flow/edge_flap.go:80-137 | on every run the capped buffer, count, window start, deadline and consumed snapshots agree with a cursor reading of the unbounded flip log |
| EdgeRuns.FlipReads | internal/flow/edge_flap.go:93-137 | one flip moves state and cursor alike, and aggregates exactly when the cursor says one is due |
| AnswerLaws.AnswerReadsLog | internal/flow/edge_flap.go:46-147 | for every configuration, every run and every fate of the write (committed, refused, failed), action and error are those read off the flip log of the committed events |
| AnswerLaws.ActionsExact | internal/flow/edge_flap.go:46-147 | all answers of every unraced run are the ones read off its events alone |
| EdgeRuns.CutsDisjoint | internal/flow/edge_flap.go:120-129 | the ranges aggregates take are nonempty, disjoint and in order, and the open range starts after them |
| EdgeRuns.TracksLast | internal/flow/edge_flap.go:70-90 | the stored value is that of the last event and its time that of the last real change |
| EdgeLaws.PlainBufferRefinesLog | internal/flow/edge_flap.go:80-90 | without flapping settings the buffer is the newest 128 flips of the whole run and nothing is ever counted or aggregated |
| EdgeLaws.BufferIsSuffix | internal/types/state.go:12-14 | for every configuration the buffer is a suffix of the flip log of at most 128 entries |
| EdgeLaws.ReachableChain | internal/flow/edge_flap.go:80-90 | in every reachable state the buffered flips are real changes, each starting where the previous ended, the last ending at the stored value |
| EdgeLaws.AggregateSourceChain | internal/flow/edge_flap.go:123-128 | the state an aggregate is built from carries that chain, with at least the threshold number of flips, ending at the present event |
| EdgeLaws.AggregatesPartitionLog | internal/flow/edge_flap.go:120-129 | successive aggregates report disjoint contiguous ranges of the flip log in order and the buffer lies after them: no flip is reported twice |
| EdgeLaws.AggregatesCounted | internal/flow/edge_flap.go:122-133 | a run answers AggregateSent once per consumed log |
| WindowLaws.WindowAccounting | internal/flow/edge_flap.go:93-109 | with an ordered clock, the flip count is the number of logged flips since the window start and everything buffered lies in the window |
| WindowLaws.EmissionLaw | internal/flow/edge_flap.go:93-145 | under settings without a cooldown and with a threshold up to 128, where the general answer law simplifies: the answer to a flip is a function of its number in the window |
| WindowLaws.FirstWindowPublishes | internal/flow/edge_flap.go:111-137 | with no suppression, n flips in the first window publish exactly 1 + n / threshold times |
| AggregateLaws.AggregationPossible | internal/flow/edge_flap.go:120-129 | some run aggregates if and only if the threshold is between 1 and 128 |
| AggregateLaws.AggregatesMatchCuts | internal/flow/edge_flap.go:122-133 | a run answers AggregateSent exactly when the cursor over its log made a cut |
| AggregateLaws.NoFlipLost | internal/flow/edge_flap.go:120-129 | with an ordered clock, no cooldown and a quorum (the first unsuppressed multiple of the threshold) that fits in the buffer, the aggregates of the window followed by the buffer are exactly the window's flips in order |
| AggregateLaws.LossAboveBuffer | internal/types/state.go:3 | when aggregation is off or its quorum does not fit, 129 flips within one second leave all of them but the oldest in the aggregates and the buffer, though all are counted |
| AggregateLaws.LossUnderCooldown | internal/flow/edge_flap.go:123-128 | with a cooldown, 129 flips right after an aggregate leave all but the oldest of them |
| AggregateLaws.LossyRun | internal/flow/edge_flap.go:120-129 | under all settings outside the lossless ones, some ordered run has lost exactly one flip that it counted |
| AggregateLaws.LosslessExactly | internal/flow/edge_flap.go:120-129 | for every configuration: no run with an ordered clock from the epoch on loses a flip if and only if the threshold is between 1 and 128, there is no cooldown, and the quorum is at most 128 |
| FloodLaws.AggregatesSpaced | internal/types/state.go:15-16 | any two aggregates of a run are at least the cooldown apart, across windows and for any clock |
| FloodLaws.FloodBound | internal/flow/edge_flap.go:93-145 | with aggregation on and a cooldown or an unreachable threshold, a run whose clock readings span T seconds, in any order, publishes at most 1 + T/(window+1) forwards (1 without a window) and 1 + T/cooldown aggregates (none for a threshold above 128), whatever the number of events |
| FloodLaws.ValidatedFloodBound | internal/types/config.go:102-110 | validation makes the window part of that bound at most one per eleven seconds |
| FloodExact.FloodBoundedExactly | internal/flow/edge_flap.go:93-145 | for every configuration, including none: the publications of every time span are bounded independently of the number of events if and only if the settings are those of the flood bound |
| FloodExact.OneSecondFloods | internal/flow/edge_flap.go:111-145 | under all other settings one second is enough for any number of publications |
| FloodExact.FloodBoundReached | internal/flow/edge_flap.go:93-145 | when nothing is suppressed, for every span some run publishes exactly as often as the bound allows |
| StutterLaws.DestutterPreserves | internal/flow/edge_flap.go:70-73 | dropping repeated values changes neither the final state nor the consumed logs nor the answers other than NoOp |
| StutterLaws.TransparentExactly | internal/flow/edge_flap.go:92-145 | every run forwards exactly its changes of value if and only if flapping control is off, or neither suppresses nor aggregates |
| CasProtocol.LandingExtendsFold | internal/backends/ddb/datastore.go:81-155 | a write lands exactly when no commit came since the load, and then the row is the fold over the log with the new event |
| CasProtocol.Linearizable | internal/flow/edge_flap.go:37-147 | in every interleaving with lost requests, lost replies and crashes, each row is the fold of its committed events and its version their number |
| CasLaws.LogsAppendOnly | internal/backends/ddb/datastore.go:81-155 | no later step removes or reorders a committed event |
| CasLaws.NotificationOwnsVersion | internal/flow/edge_flap.go:59-68 | every published answer holds a version of its row, its event is the one committed there, and it is the fold's answer at that version |
| CasLaws.NotificationsDistinct | internal/flow/edge_flap.go:130-146 | no two published answers on a row share a version, and later answers have later versions |
| CasLaws.AnswersReadLog | internal/flow/edge_flap.go:46-147 | in every interleaving a call that concludes, won, lost or failed, is told the action and error that the log it loaded says, given the fate of its write |
| CasLaws.FailedLoadTold | internal/flow/edge_flap.go:48-51 | a failing load is told as an error without action and changes nothing |
| CasLaws.RefusalHasCause | internal/flow/edge_flap.go:130-146 | a refused write had another worker's commit on the same row strictly between its load and its write |
| CasLaws.NotificationsConserved | internal/flow/edge_flap.go:37-147 | in every interleaving the published answers of a row and the committed publications whose answers were lost are together exactly what the fold of its committed events publishes |
| CasLaws.InterleavedFloodBound | internal/flow/edge_flap.go:37-147 | the flood bound holds in every interleaving, in terms of the clock readings of the calls |
| CasLaws.InterleavedBuffer | internal/types/state.go:12-14 | in every interleaving the buffer is a chained suffix of the flips committed to its row |
| CasLaws.InterleavedWindow | internal/flow/edge_flap.go:93-109 | in every interleaving whose committed readings are ordered, the row accounts for its window |
| CasLaws.UnracedCall | internal/flow/edge_flap.go:37-147 | a call whose row has not moved since its load commits exactly when it decides to write and is answered as the fold answers |
| CasLaws.SerialCommitsEveryFlip | internal/flow/edge_flap.go:112-117 | when the calls on a row neither overlap nor fail, whatever happens on other rows, every flip is committed, on the suppressed path too: its log is the destuttered input and its answers are those of the unraced run |
| RedisProtocol.LinearizableExactly | internal/backends/redis/datastore.go:83-146 | in every interleaving of check and set, the row is the fold of the events set if and only if no set overwrote one its call had not seen; after one that did, the version stays behind for good |
| RedisProtocol.OneAtATimeIsClean | internal/backends/redis/datastore.go:83-146 | runs in which no two calls on the row overlap have no such set |
| RedisProtocol.OverlappingFirstsBothForward | internal/backends/redis/datastore.go:85-108 | two overlapping first observations are both forwarded and the row keeps the later at version 1 |
| RedisLaws.PublishedWasSet | internal/backends/redis/datastore.go:83-146 | in every interleaving, clean or not, a published reply belongs to a set that took effect: its own event stands in the log at its place |
| RedisLaws.PublishedAreDistinct | internal/backends/redis/datastore.go:83-146 | no two published replies share a place |
| RedisLaws.FailedCheckIsQuiet | internal/backends/redis/datastore.go:127-129 | a call whose version check fails changes nothing, is told no error and never publishes |
| RedisLaws.CleanRepliesFold | internal/backends/redis/datastore.go:83-146 | in clean runs a published reply is the fold's answer at its place |
| RedisLaws.CleanAnswersReadLog | internal/backends/redis/datastore.go:83-146 | in clean runs every call that returns is told the action and error that the log it loaded says, given the fate of its write |
| RedisLaws.CleanNotificationsConserved | internal/backends/redis/datastore.go:83-146 | in clean runs published replies and lost ones together are exactly what the fold publishes |
| Limiter.CounterIsGrants | internal/backends/ddb/datastore.go:157-197 | in every sequence of attempts the counter of a bucket is the number of grants made from it |
| Limiter.GrantsExactly | internal/backends/ddb/datastore.go:157-197 | under one cap a bucket grants exactly the smaller of its attempts and the cap |
| Limiter.GrantsUnderLargestCap | internal/backends/ddb/datastore.go:187 | under different caps the grants of a bucket never exceed the largest |
| Limiter.GrantsUnderOwnCap | internal/backends/ddb/datastore.go:187 | callers with one cap get at most that many, whoever shares the bucket |
| Limiter.SpanBound | internal/backends/ddb/datastore.go:157-197 | any span of seconds grants at most the cap per minute touched, so at most twice the cap in any sixty seconds |
| Limiter.SpanBoundReached | internal/backends/ddb/datastore.go:157-197 | for every cap some traffic gets twice the cap within two seconds |
| Limiter.MinuteExactly | internal/backends/ddb/datastore.go:163 | a bucket is a whole minute of sixty seconds, rounded towards the epoch |
| RedisLimiter.OvershootBound | internal/backends/redis/datastore.go:148-190 | with at most `width` calls in flight every interleaving of read and increment grants at most cap + width - 1 |
| RedisLimiter.OvershootReached | internal/backends/redis/datastore.go:148-190 | for every cap and width some interleaving grants exactly that many |
| RedisLimiter.CounterConserved | internal/backends/redis/datastore.go:148-190 | in every interleaving the counter is the grants and the increments whose callers got an error, together |
| Keys.DigitsRoundTrip | internal/flow/flow.go:120-125 | decimal digits parse back to the number |
| Keys.DecimalInjective | internal/backends/ddb/table.go:24 | signed decimals of different minutes differ |
| Keys.DataKeysInjective | internal/backends/redis/datastore.go:192-194 | the Redis row keys of computed scope keys differ for different clients or fields |
| Keys.DataKeysCollideExactly | internal/backends/redis/datastore.go:192-194 | for arbitrary scope keys, two clients' row keys coincide if and only if the longer client ID absorbs the start of the other's scope |
| Keys.WindowKeysInjective | internal/backends/redis/datastore.go:195-197 | the Redis counter keys of different scopes or minutes differ |
| Keys.RedisFamiliesDisjoint | internal/backends/redis/datastore.go:16-17 | no row key is a counter key |
| Keys.EdgeItemKeysInjective | internal/backends/ddb/table.go:20-25 | the DynamoDB row keys of different clients or scopes differ |
| Keys.RateItemKeysInjective | internal/backends/ddb/table.go:23-24 | the DynamoDB counter keys of different scopes or minutes differ |
| Keys.DdbFamiliesDisjoint | internal/backends/ddb/table.go:20-25 | no DynamoDB row key is a counter key |
| Keys.ScopesDistinct | internal/flow/flow.go:42-56 | the scopes of the IP, client and target limiters never coincide |
| Keys.KeysSpelled | internal/backends/redis/datastore.go:16 | the row keys and limiter scopes of one client, field and address, spelled out for both stores |
| Keys.CounterKeysSpelled | internal/backends/redis/datastore.go:17 | the counter keys of one scope and minute, spelled out for both stores |
| Keys.TargetScopesCollideExactly | internal/flow/flow.go:102-103 | two clients share a target counter if and only if the longer ID extends the other by a colon and the start of its ARN |
| Ddb.UpsertIsCas | internal/backends/ddb/datastore.go:81-155 | on the key-value table the write is the conditional write of one row and touches no other row and no counter |
| Ddb.AcquireIsAdmission | internal/backends/ddb/datastore.go:157-197 | taking a token admits exactly below the cap, adds one, and touches nothing else |
| Ddb.AcquireDurable | internal/backends/ddb/datastore.go:164 | a new counter expires 180 seconds later, so more than a minute after any moment of the minute it counts, and later tokens do not move its expiry |
| Ddb.DataStore.constructor | internal/backends/ddb/datastore.go:27-29 | a new table is empty |
| Ddb.DataStore.Load | internal/backends/ddb/datastore.go:57-77 | reports the row under the key, or none |
| Ddb.DataStore.UpsertCAS | internal/backends/ddb/datastore.go:81-155 | creates only when absent, updates only at the expected version, and leaves all other rows and all counters alone |
| Ddb.DataStore.Acquire | internal/backends/ddb/datastore.go:157-197 | admits if and only if the cap is positive and the counter below it, adds one exactly then, and leaves everything else alone |
| Redis.UpsertIsCasExactly | internal/backends/redis/datastore.go:83-146 | run back to back, the write is the conditional write unless it creates over an existing row, and then it is not |
| Redis.UpsertFrame | internal/backends/redis/datastore.go:83-146 | a write touches only its own row and no counter |
| Redis.AcquireIsAdmission | internal/backends/redis/datastore.go:148-190 | run back to back, taking a token admits exactly below the cap when no command fails; each failing command's answer and whether it costs a token are exact, and no fault lifts a counter above the cap |
| Redis.AcquireDurable | internal/backends/redis/datastore.go:162-170 | a new counter expires 120 seconds later, or never when its expiry could not be set, so always after the minute it counts |
| Redis.AcquireFrame | internal/backends/redis/datastore.go:148-190 | taking a token changes no row and no other counter |
| Redis.DataStore.constructor | internal/backends/redis/datastore.go:25-27 | a new database is empty |
| Redis.DataStore.Load | internal/backends/redis/datastore.go:31-79 | reports the row under the key with the caller's scope, or none |
| Redis.DataStore.UpsertCAS | internal/backends/redis/datastore.go:83-146 | writes unconditionally for version 0 and at the expected version otherwise, and changes nothing else |
| Redis.DataStore.Acquire | internal/backends/redis/datastore.go:148-190 | the answer, error and table after each failing command; when none fails, admits if and only if the cap is positive and the counter below it |
| Store.DataStore.Load | internal/ports/datastore.go:18-20 | on either store, reports the stored row, or none |
| Store.DataStore.UpsertCAS | internal/ports/datastore.go:22-25 | on either store, the new contents and answer are those of that store's conditional write |
| Store.DataStore.Acquire | internal/ports/datastore.go:12-16 | on either store, admits if and only if the cap is positive and the counter of the minute below it |
| Store.AcquireSpec | internal/flow/flow.go:42-66 | on either store a token is taken exactly below the cap and nothing else changes |
| Flow.ControlFlapping | internal/flow/edge_flap.go:92-146 | the flapping branch writes and answers what the decision function says, with the aggregate of the flips before they are cleared |
| Flow.Write | internal/flow/edge_flap.go:130-136 | a write as its caller sees it: committed, refused, or failed before or after taking effect |
| Flow.Evaluate | internal/flow/edge_flap.go:37-147 | one evaluation over either store leaves the row, answer, error and aggregate that the decision function gives for the loaded row, also when the load fails or the write fails before or after taking effect |
| Flow.PassGate | internal/flow/flow.go:42-54 | one limiter of a request: off for a rate of 0, otherwise passed, limited or broken, with the store changed accordingly |
| Flow.RunEdge | internal/flow/flow.go:68-117 | the part behind the first two limiters returns the action, status, body and error of the specification and leaves its store |
| Flow.Run | internal/flow/flow.go:32-117 | the whole request refines the staged specification on both stores, in results and in stored state |
| FlowLaws.RequestAccounting | internal/flow/flow.go:32-117 | a request takes one token from each active limiter it passes, the target's exactly when it ends published without error, and changes at most the row of its own client and field |
| OutcomeLaws.PublishedExactly | internal/flow/flow.go:32-117 | a request is published without error if and only if, in the store as it was on arrival, all three limiters have room and the evaluation of its row calls for it; it is answered 429 if and only if only the target limiter is full |
| OutcomeLaws.FrontPasses | internal/flow/flow.go:42-66 | passing the IP and client limiters depends only on the store at arrival, and neither touches the target's counter |
| OutcomeLaws.EvaluationWants | internal/flow/edge_flap.go:37-147 | an evaluation nothing races publishes exactly when nothing fails and the decision on the stored row, taken as committed, publishes; and then it reports no error |
| OutcomeTable.OutcomeExactly | internal/flow/flow.go:32-117 | every outcome of every request: action, status (202, 400, 429, 500), error and body, from the counters of its IP, client and target on arrival and the events committed before it for its field |
| OutcomeTable.ForwardedExactly | internal/flow/flow.go:68-79 | a request is forwarded as it is if and only if the IP and client limiters let it in and it is passed through or has no trigger field; then 202, its own body, no error |
| OutcomeTable.UnselectedOutcome | internal/flow/flow.go:80-87 | a request let in whose field selects nothing gets 202 and no action; one whose field fails gets 400 and an error |
| OutcomeTable.EvaluationTold | internal/flow/edge_flap.go:37-147 | evaluation's answer, error, aggregate and the row it leaves, from the events committed before it, with failing loads, payloads and writes |
| OutcomeTable.RunKeepsFold | internal/flow/flow.go:32-117 | a request leaves the row of its field equal to the fold of its committed events |
| FlowLaws.IpStopFrame | internal/flow/flow.go:42-54 | a request stopped by the IP limit leaves every row and counter as it was |
| FlowLaws.ClientStopFrame | internal/flow/flow.go:55-66 | a request stopped by the client limit has only paid the IP limiter |
| FlowLaws.UnevaluatedFrame | internal/flow/flow.go:68-86 | a request that is passed through, has no trigger field or selects no value changes no row and pays no target token |
| FlowLaws.EvaluateRelated | internal/flow/edge_flap.go:37-147 | evaluation answers the same on stores with the same contents and leaves them with the same contents |
| FlowLaws.RequestRelated | internal/flow/flow.go:32-117 | so does a whole request |
| FlowLaws.SerialBackendsEquivalent | internal/flow/flow.go:32-117 | for every sequence of requests from empty stores, DynamoDB and Redis give the same outcomes and the same rows and counters |
| SerialLaws.IpLineFair | internal/flow/flow.go:42-54 | over every run of requests the limiter of an IP address serves exactly the requests from that address in a minute, whoever the clients are: each passes if and only if fewer have passed than its own rate |
| SerialLaws.IpBudget | internal/flow/flow.go:42-54 | so those that pass never exceed the largest rate, and are exactly the smaller of the requests and the rate when there is one rate |
| SerialLaws.ClientLineFair | internal/flow/flow.go:55-66 | the same per client, for the requests that the IP limiter let pass |
| SerialLaws.ClientBudget | internal/flow/flow.go:55-66 | exactly the smaller of the requests and the client's rate pass |
| SerialLaws.TargetLineFair | internal/flow/flow.go:101-115 | the same per client and target, for the requests that evaluation wants published |
| SerialLaws.SerialRows | internal/flow/flow.go:32-117 | over every run of requests, a row is the fold of the events committed for its field |
| SerialLaws.HistoryDecides | internal/flow/flow.go:32-117 | every outcome of every run of requests, on either store, is a function of the requests and outcomes before it, spelled out |
| Pipeline.TargetBudget | internal/flow/flow.go:101-115 | in every interleaving of requests a client with target rate r gets at most r error-free publications per minute, also when others share its counter |
| EntryBudgets.IpBudget | internal/flow/flow.go:42-54 | in every interleaving of requests of any clients, no more requests from one IP address pass the IP limiter in a minute than the largest IP rate allows |
| Pipeline.PipelineFloodBound | internal/flow/flow.go:32-117 | in every interleaving of whole requests the publications of a client obey the flood bound |
| PipelineRefines.StepsRefineRun | internal/flow/flow.go:32-117 | whatever else is in the pipeline, the steps of a request taken back to back report the action and error of the request function and leave the rows and counters it leaves, errors and encoding failures included |
| PipelineRefines.SerialStepsRefineRun | internal/flow/flow.go:32-117 | so do all requests of every sequence without overlap |
| ConfigCache.TTL.constructor | internal/flow/ttl.go:22-24 | a new cache is empty |
| ConfigCache.TTL.Get | internal/flow/ttl.go:27-36 | hits if and only if the key is present and the clock is not after its expiry, and then returns the stored value |
| ConfigCache.TTL.Set | internal/flow/ttl.go:38-42 | stores the value with its expiry and keeps all other entries |
| ConfigCache.LoadCachedClientConfig | internal/flow/flow.go:128-139 | a hit returns the entry and changes nothing, an error is returned and not cached, and a fetched config is returned and cached for 300 seconds |
| ConfigCache.ServedWasStored | internal/flow/flow.go:128-139 | in every interleaving of loads, updates and deletions, a served config was in the store at some moment, cached after it, and is served at most 300 seconds after that |
| ConfigCache.SettledConfigIsServed | internal/flow/flow.go:128-139 | whatever is served for a client whose stored config, or its absence, is older than the lifetime plus the longest fill delay is that config, or nothing |
| ConfigCache.SettledConfigIsReturned | internal/flow/flow.go:128-139 | a load that nothing interrupts returns a config that exists and is settled, from the cache or else from the store |
| ConfigCache.DeletedIsForgotten | internal/flow/flow.go:128-139 | a deleted config is not served once 300 seconds and the longest fill delay have passed |
| ConfigCache.StalenessReached | internal/flow/ttl.go:31 | a replaced config is still served at the instant of its expiry and not after |

## Left out

- HTTP handlers, authentication, SNS publishing and SQS consumption, environment configuration, logging: plumbing around the modelled core.
- JMESPath selection, passthrough matching and string coercion: their results are inputs of a request.
- JSON, zstd and base64 coding of payloads: an encoded string and a decoding function are parameters.
- The FNV hash of a trigger field: a number that is an input of a request; two fields with the same hash share a row, as in the code.
- Integer widths: counters, versions and clocks are unbounded.
- Deduplication (`Suppress`), `ScopeFields`, and listing, deleting and clearing of client configs: not used by the request pipeline.
- Redis.DataStore.Acquire: the commands run back to back; interleaved commands are modelled in `RedisLimiter` for one bucket within its minute, without expiry.
- Store.DataStore.Acquire: no command fails inside it; failing limiter calls of a request have no effect on the store, while `Redis.AcquireIsAdmission` covers the ones that do.
- RedisProtocol.LinearizableExactly: models one row, since every command touches the hash of a single key; rows do not expire and are not deleted.
- Parsing of the decimal fields of a Redis hash: rows that cannot be parsed are not modelled.
- Deletion of expired DynamoDB counters: counters of past minutes stay in the table; no current bucket reads them.
- Pipeline.PipelineFloodBound: each client has one configuration throughout a run; reloading configs is modelled in `ConfigCache` alone.
- Delivery to the target after a publication is decided, and its failures.
