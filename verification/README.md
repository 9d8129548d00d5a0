# AgentServe scheduling core, verified

AgentServe schedules the calls of long agent sessions over a set of replicas so that a session finds
its transcript still cached when its tool call is over. This project models that scheduling core in
Dafny and proves what it keeps, conserves and guarantees:

- the two-tier cache of a replica (`ReplicaSpec`, `Replica`) and its retention policies (`Policy`);
- the simulated backend (`Backend`): reuse split, first-in first-out timing, store;
- the session map with its bound and time to live (`SessionStore`) and the routers over it (`Router`);
- the tool-duration predictor (`Predictor`);
- the gateway's request path (`Gateway`) and the release valve it holds open (`Valve`);
- the discrete-event replay (`ReplaySpec` as a state machine, `RunArm` as the loop) that composes all of
  these, what it reports (`ReplayReport`), the traces it is fed (`Traces`) and the comparison of both arms
  (`Comparison`).

Objects that the source changes in place are classes here, with the source's fields. Each of their
methods is proved against a function on values (`ReplicaSpec.Store` for `Replica.Replica.Store`, and so
on up to `ReplaySpec.Step` for one turn of the event loop); the theorems are about those functions and
the runs they generate. A run is a sequence of worlds (`Replay.IsRun`), and `RunArm.RunArm` proves that
the imperative harness ends, having produced a finished run, and reports that run's last world.

Times are reals and token counts naturals, so equalities between times are exact. Dictionaries are lists
of items in insertion order (`OrderedDict`), because sorts and minima break ties by it. The wall clock of
the session map is a parameter, one pair of readings for each request.

`dafny verify dfyconfig.toml` checks the project.

## Results at a glance

For every run of either arm: the loop ends and serves every turn once and in order; misses equal what is
cached plus what was evicted; replicas are first-in first-out servers; jobs decompose into latencies and
tool calls; no fewer tokens are computed than the trace needs, and exactly as many just when every
returning session finds the copy its own last turn left.

For the adaptive arm: every session is cached once, at its home, while affinity holds; such a run is
optimal if it misses once per session, and `RoomyRuns.RoomyRunIsOptimal` gives a condition on the trace
and the configuration alone under which it does. The offload counter counts exactly the stores that
parked their own entry.

For the baseline arm: each replica is the move-to-front list of its own requests, exactly when no request
ties with an earlier one.

What is reported is exact: hits by tier, first-token times, affinity counters, job times, and a busy time
that is the price of the tokens computed, answered and restored. The session served next and the gap it is
served with are functions of the record (`ReplayOrder`, `ReplayForecast`).

Both arms are deterministic, so `Comparison.Compare` speaks of the two runs the comparison makes. Budgets
hold after every store but not in between: a promotion overfills the GPU exactly when the copy in DRAM and
what the GPU holds are too much together (`ReplicaSpec.PromotionOverfills`), and two requests reach such a
state (`Overfill.PromotionCanOverfill`).

## Where the code and its descriptions part

- "Evict oldest touch first" (agentserve/policy.py:35) is least recently served only while touches differ.
  A request that takes no time ties with the one before it, and the stable sort then gives up the session
  stored first, although it was served last: `LruTies.FreeRequestsTie` is such a run, and
  `LruRefinement.LruUnlessFreeBehind` says exactly which runs are free of it, in terms of each request and
  the replica it reaches.
- The trim loop for DRAM (agentserve/replica.py:130-134) never removes anything in a reachable state:
  `ReplicaSpec.TrimIsIdle`.

## Model

| member | source | states |
|---|---|---|
| Policy.CachePolicy.VictimOrderIsStableSort | agentserve/policy.py:41-75 | the victim order of either policy is a stable sort: a permutation, in key order, with entries of one sort key, read off their fields, in dictionary order |
| Policy.CachePolicy.VictimOrderInFields | agentserve/policy.py:41-75 | LRU: oldest touch first; adaptive: those untouched for longer than the dead-session time first, then whoever is due back last, and where that does not tell the youngest touch first |
| ReplicaSpec.EvictionIsMinimalPrefix | agentserve/replica.py:116-128 | under either policy exactly the shortest prefix of the victim order that makes the rest fit is removed, nobody who stays was ahead of anybody who went, and both tiers end within budget |
| ReplicaSpec.AdaptiveEvictsLateReturners | agentserve/policy.py:63-75 | under pressure nobody dead stays while somebody live goes, among the live whoever goes is due back no sooner than whoever stays, and where that does not tell whoever goes was touched no earlier; all read off the entries |
| ReplicaSpec.LruEvictsOldest | agentserve/policy.py:41-42 | under the baseline policy whoever goes was touched no later than whoever stays |
| Pressure.RequestEvictsLateReturners | agentserve/replica.py:83-128 | whoever a whole request pushes out of the GPU had, at its completion, been untouched for longer than the dead-session time or was due back no sooner than anybody who stayed |
| Pressure.ShedFate | agentserve/replica.py:106-127 | demotion is first-fit: of the victims taken, in order, exactly those due between the two thresholds that still fit what the ones before them left of DRAM are parked and counted as offloads |
| Pressure.TrimDropsOldest | agentserve/replica.py:130-134 | from any state the trim drops the entries touched longest ago, counts each as an eviction, ends within budget and drops none too many |
| ReplicaSpec.StoreKeepsTwoTier | agentserve/replica.py:83-134 | a store, however large the entry, leaves disjoint, correctly keyed tiers within both budgets, keeps no stale copy and turns every session it loses into one eviction |
| ReplicaSpec.PromoteFacts | agentserve/replica.py:77-81 | a promotion moves one session's tokens from DRAM to the GPU; every other session is found in the same tier with the same tokens, and every counter and the queue are as before |
| ReplicaSpec.PromotionOverfills | agentserve/replica.py:77-81 | from a state within budget a promotion exceeds the GPU budget if and only if the session is in DRAM and its tokens and those of the GPU are together over it |
| Overfill.PromotionCanOverfill | agentserve/replica.py:77-81 | two requests under the adaptive policy lead to a state within budget from which a promotion overfills the GPU |
| ReplicaSpec.TrimIsIdle | agentserve/replica.py:130-134 | after the eviction loop the DRAM trim loop finds nothing to remove |
| ReplicaSpec.ShedFacts | agentserve/replica.py:120-127 | the loop takes some k victims: those and no others leave the GPU, k - 1 would have been too few, each is demoted or counted as evicted |
| ReplicaSpec.PinnedShed | agentserve/replica.py:120-127 | if no victim is due for offloading, pressure changes neither DRAM nor the offload counter |
| Replica.Replica.Store | agentserve/replica.py:83-104 | the store method on mutable entries has the effect of the store on values and keeps tier tags, keys and ownership |
| Replica.Replica.PromoteFromDram | agentserve/replica.py:77-81 | retagging and moving the entry object is the promotion on values |
| Replica.Replica.Demote | agentserve/replica.py:106-114 | the entry is moved and retagged if DRAM has room and counted as evicted otherwise |
| Replica.Replica.Shed | agentserve/replica.py:120-127 | the loop over the victims equals the recursive eviction on values |
| Replica.Replica.EnforceCapacity | agentserve/replica.py:116-128 | early return, victim loop and trim equal the capacity enforcement on values |
| Replica.Replica.TrimDram | agentserve/replica.py:130-134 | the trim loop equals its recursive form, from any sound state |
| Replica.Replica.Prune | agentserve/replica.py:39-40 | what stays queued is a filter of the queue: some increasing positions, all of them later than now and none such missing |
| ReplicaSpec.LaterIsFilter | agentserve/replica.py:39-40 | the recursive form keeps exactly the completions later than now, in order |
| Backend.Execute | agentserve/backends/simulated.py:22-66 | executing a request on a mutable replica returns the outcome, and leaves the state, that the three laws below price and the cache theorems describe |
| Backend.MissCost | agentserve/backends/simulated.py:34-46 | without a copy the whole prompt is prefilled and the answer decoded, behind the queue |
| Backend.GpuHitSaves | agentserve/backends/simulated.py:31-46 | a GPU copy reuses what the prompt can use of it and saves exactly its prefill over the same request without the copy |
| Backend.DramHitCosts | agentserve/backends/simulated.py:31-46 | a DRAM copy costs exactly its restore more than the same copy promoted to the GPU, and the promoted copy saves exactly its prefill over none |
| Backend.ExecuteTiming | agentserve/backends/simulated.py:34-54 | a request completes exactly when its replica is next free and its entry is touched; no cost is negative; the first token comes the decode time earlier; reused and computed tokens add up to the prompt |
| Backend.ExecuteCaches | agentserve/backends/simulated.py:31-54 | a request keeps the two-tier invariant and both budgets, adds one cached-or-evicted session on a miss and none on a hit, and caches nothing but survivors and its own transcript |
| LruRefinement.LruIsMoveToFront | agentserve/policy.py:34-42 | a replica driven by execute agrees with a move-to-front list in eviction order, clock and evictions at every point of a run if and only if no request completes at the time of a touch stored behind its session |
| LruRefinement.StoreTracks | agentserve/replica.py:83-128 | one store keeps the two orders equal if and only if there is no such tie |
| LruRefinement.OrderPut | agentserve/policy.py:41-42 | refreshing an entry moves it to the end of the sorted order if and only if nothing stored behind it has the same touch |
| LruRefinement.LruLooksUpAsList | agentserve/replica.py:69-75 | without ties every lookup answers as the list does, evictions agree and DRAM stays empty |
| LruRefinement.SpacedRunsAreUntied | agentserve/backends/simulated.py:42-54 | a request that produces a token, reaches an idle replica, is new there, has more prompt than is cached or was stored last never ties |
| LruRefinement.TieIsFreeBehind | agentserve/backends/simulated.py:31-54 | a request ties if and only if it arrives no later than its replica is free, answers nothing, is cached to the end of its prompt, and something stored behind it was touched when the replica is next free |
| LruRefinement.LruUnlessFreeBehind | agentserve/policy.py:34-42 | a replica agrees with the move-to-front list at every point of a run if and only if no request of the run does that |
| LruRefinement.JustServedSurvives | agentserve/replica.py:116-128 | a session just served that fits the GPU budget is still there whole |
| LruTies.FreeRequestsTie | agentserve/policy.py:41-42 | three requests, the last of them free of charge, after which the session served last heads the eviction order while it is the most recent of the move-to-front list |
| ReplicaHistory.ReplicasRetrace | bench/replay.py:83-122 | in either arm a replica's caches, clock and counters are those its own requests in order of dispatch produce, whatever happens elsewhere |
| ReplicaHistory.BaselineIsMoveToFront | bench/replay.py:55-63 | in a baseline run without ties on a replica, lookups and evictions there are those of the move-to-front list of its own requests |
| ReplicaHistory.AnsweringRunsAreUntied | bench/replay.py:106-113 | there are no ties where every turn answers with at least one token |
| SessionStore.InMemorySessionStore.DoPut | agentserve/state.py:54-58 | inserting, moving to the end and popping the oldest equals the bounded insertion on values |
| SessionStore.InMemorySessionStore.DoGet | agentserve/state.py:43-52 | a missing, an expired and a live key are answered, dropped and refreshed as the fetch on values says |
| SessionStore.FetchInFields | agentserve/state.py:43-52 | a live key answers and becomes the youngest, a key past its time to live is gone from the table, and nobody else is touched |
| SessionStore.ExpiredMakesRoom | agentserve/state.py:48-58 | so after an expired key was asked for, the next put into a full table evicts nobody |
| SessionStore.StoreIsBoundedAndCurrent | agentserve/state.py:43-58 | after any operations the table is within its bound and holds for a key nothing but its latest put |
| SessionStore.GetIsSound | agentserve/state.py:43-52 | a get answers only the value of the key's latest put, and never past its time to live |
| SessionStore.RecentKeysAreKept | agentserve/state.py:54-58 | a key put or found is found again, with its value, while it has not expired and fewer than max other keys were touched since |
| SessionStore.PutsEvictExactly | agentserve/state.py:54-58 | when only puts follow, a key survives if and only if fewer than max distinct other keys were put |
| Router.LeastIsUnique | agentserve/router.py:72-78 | the scan's order, with ties by position, has one least candidate |
| Router.LeastInFields | agentserve/router.py:72-78 | the one picked has the fewest in flight of all eligible replicas, among those is soonest free, among those has the fewest GPU tokens, and is the first of those; the replica to avoid is picked only when alone |
| Router.LeastHasFewest | agentserve/router.py:72-78 | the replica chosen has the fewest in flight among the candidates |
| Router.PickLeastLoaded | agentserve/router.py:72-78 | the scan over mutable replicas picks that candidate, falling back to all when the one to avoid is alone |
| Router.SessionAffinityRouter.Select | agentserve/router.py:47-66 | selection over mutable replicas and store is the routing decision on values: hit, break or new home |
| Router.RouteInFields | agentserve/router.py:47-66 | a home that still holds the session serves it within the limit and counts a hit; beyond it somebody else does if there is anybody, a break is counted and the home stays; otherwise the replica that serves becomes the home and neither is counted |
| Router.RoundRobinRouter.Select | agentserve/router.py:29-32 | the replica at the cursor, which advances by one |
| Router.RotationIsFair | agentserve/router.py:29-32 | of any n consecutive selections over n replicas exactly one goes to each |
| Predictor.ToolDurationPredictor.Observe | agentserve/predictor.py:26-38 | a negative gap changes nothing; any other updates tool, session and overall averages and the counts |
| Predictor.ToolDurationPredictor.PredictMs | agentserve/predictor.py:40-48 | the method answers the prediction that PredictionIsAverage states in terms of the gaps seen; asking leaves a zero count at most |
| Predictor.PredictionIsAverage | agentserve/predictor.py:40-48 | after any history the prediction is the moving average of the tool's own gaps if there are at least min_observations of them, else of the session's gaps if there are any, else of all gaps from the prior on |
| Predictor.SmoothClosedForm | agentserve/predictor.py:31-37 | an average is its start weighted (1-a)^n plus every gap weighted a(1-a)^age |
| Predictor.RunIsAverages | agentserve/predictor.py:26-38 | after any history the tables are exactly the averages of the gaps seen per tool, per session and overall |
| Predictor.CountedToolsHaveAverages | agentserve/predictor.py:42-43 | the tool lookup never misses its key |
| Predictor.PredictionWithin | agentserve/predictor.py:40-48 | every prediction lies between the least and greatest of prior and observed gaps |
| Predictor.EqualGapsContract | agentserve/predictor.py:31-37 | after any history, k equal gaps bring the overall, session and tool averages closer to them by exactly (1-a)^k |
| Valve.ValveBound | agentserve/router.py:47-78 | over all interleavings of admissions and closings, no replica ever holds more than limit + 1 requests if and only if never more than n * (limit + 1) are open |
| Valve.RunIsExact | agentserve/replica.py:42-55 | the active counter of every replica is always its number of open slots |
| Valve.PeakIsExact | agentserve/replica.py:42-55 | the peak a replica reports is the most of its slots that were ever open at once |
| Valve.NoLeakedSlots | agentserve/gateway.py:228-238 | whenever no request is open every replica is idle, however requests ended |
| Valve.FullMeansAllFull | agentserve/router.py:53-66 | if even the replica selected is over the limit, all are |
| Gateway.Gateway.Admit | agentserve/gateway.py:164-181 | pruning, observing the gap since last seen, routing, predicting and entering the slot are one admission step of the valve machine |
| Gateway.Gateway.Finish | agentserve/gateway.py:183-240 | leaving the slot is one closing step of the valve machine, and the session map then holds arrival plus latency as the time last seen |
| Gateway.ReturnIsMeasured | agentserve/gateway.py:164-172 | a session that comes back within its time to live, fewer than max others having been seen since, teaches the predictor the time since its last arrival plus latency, or zero if that lies ahead |
| Gateway.AbsenceTeachesNothing | agentserve/gateway.py:169-172 | a session never seen, or last seen too long ago, teaches it nothing |
| Gateway.Gateway.Leave | agentserve/gateway.py:228-238 | a failed request gives its slot back, and only that |
| ReplayValve.ReplayQueuesAreBounded | bench/replay.py:83-116 | an adaptive run with at most n * (limit + 1) sessions never has more than limit + 1 requests unfinished on a replica |
| RunArm.RunArm | bench/replay.py:66-147 | the imperative harness over mutable replicas, router and predictor ends and reports the last state of the one finished run of the state machine |
| RunArm.HandledIsStep | bench/replay.py:79-135 | one turn of the loop, described through the parts it calls, is one step of the state machine |
| RunArm.Arm.HandleEvent | bench/replay.py:79-135 | popping, serving and booking an event on the mutable objects does what that description says |
| RunArm.BuildArm | bench/replay.py:55-77 | building the cluster and pushing the arrivals yields the initial state |
| Replay.RunInv | bench/replay.py:73-135 | the queue, replica, record and book-keeping invariants hold at every state of every run |
| Replay.RunsEnd | bench/replay.py:79-135 | no run handles more events than the trace has turns, and the queue is empty exactly when all are served |
| Replay.RunsContinue | bench/replay.py:79-135 | an unfinished run can always take another step |
| Replay.RunIsUnique | tests/test_replay.py:48-51 | the replay is deterministic: an arm has at most one finished run |
| Replay.TimeNeverGoesBack | bench/replay.py:84 | popped times never decrease |
| ReplayOrder.NextIsFirstDue | bench/replay.py:73-84 | at every event of every run the session served is, of all unfinished ones, the one due first, and of those due at the same time the one scheduled first |
| ReplayOrder.ArrivalsInTraceOrder | bench/replay.py:73-84 | sessions that arrive at the same time start in trace order |
| ReplayForecast.AlwaysLearns | bench/replay.py:92-96 | at every state of every run the predictor is what the tool calls of the record, in the order of return and with their names, make it |
| ReplayForecast.GapsAreForecasts | bench/replay.py:92-102 | every request is served with a gap of twice the dead-session time if no tool follows, else with the average of the calls of that tool so far, else of the session's own, else of all from the prior on |
| Replay.EveryTurnExactlyOnce | bench/replay.py:79-135 | in a finished run every turn is served exactly once, in turn order |
| Replay.BooksBalance | bench/replay.py:118-130 | requests equal hits plus misses and the number of turns, and reused plus computed tokens equal all prompt tokens |
| ReplayReport.CountersAreCounts | bench/replay.py:118-130 | at every state GPU hits, DRAM hits and misses are the numbers of records answered from each tier, and the i-th first-token time is the i-th latency less its decode time |
| ReplayReport.RequestsArePriced | agentserve/backends/simulated.py:31-46 | every request of every run is priced by the tier that answered it: the tokens not reused at the prefill rate, those reused from DRAM at the restore rate, its answer at the decode rate, and a miss reuses nothing |
| ReplayReport.BusyTimeIsPriced | bench/replay.py:122 | busy time is every computed token at the prefill rate, every answered token of the trace at the decode rate and every restored token at the restore rate |
| ReplayReport.BaselineHasNoDram | bench/replay.py:55-63 | the baseline never hits DRAM, restores or offloads, and sends request i to replica i modulo their number |
| ReplayReport.AffinityCountersAreExact | agentserve/router.py:47-66 | in every adaptive run affinity hits are the requests whose home held them with at most the limit unfinished there, and are served there; breaks are those with more, and are served elsewhere if there is anywhere else |
| ReplayReport.ReportedCounters | bench/replay.py:140-147 | the evictions reported are the misses no longer cached, the affinity counters those of the record, zero in the baseline, and all hits in a calm run |
| ReplayReport.ReportedJobs | bench/replay.py:137-138 | one job time is reported for each session: the latencies of its calls plus all its tool calls but the last |
| Replay.QueueDepthIsExact | bench/replay.py:89-90 | after pruning, a replica's queue is exactly the completions later than now of everything it was ever sent, in order, and shorter than the number of sessions |
| Replay.ReplicasAreFifo | bench/replay.py:115-116 | a replica's clock is the completion of its last request and has the max-plus closed form |
| Replay.BusyTimeBound | bench/replay.py:122 | busy time is at most the number of replicas times the last completion |
| Replay.JobCompletion | bench/replay.py:137-138 | a job takes the sum of its latencies and of all its tool calls but the last, so at least its tool and decode time |
| ReplayTiming.Lindley | agentserve/backends/simulated.py:42-54 | a request starts at the later of its arrival and its replica's clock and then keeps the replica busy to its completion |
| ReplayTiming.FreeAtClosedForm | agentserve/backends/simulated.py:48 | a replica's clock is the largest, over every request it was sent, of its arrival plus all service from it on |
| ReplayTiming.IntervalsDoNotOverlap | agentserve/backends/simulated.py:42-54 | service intervals on a replica never overlap and follow dispatch order |
| ReplayTiming.OneOpenPerSession | bench/replay.py:132-135 | a replica never has two unfinished requests of one session |
| ReplayTiming.QueueEmptyWhenFree | agentserve/replica.py:39-40 | something is unfinished exactly when the clock is later than now |
| ReplayTiming.JobDecomposes | bench/replay.py:132-138 | at any point of a record a session's clock is its arrival plus its latencies and tool calls so far |
| ReplayLog.ServedOnceInOrder | bench/replay.py:132-135 | no turn is served twice and a session's turns are served in order |
| ReplayCaches.MissesAreConserved | bench/replay.py:123-128 | at every event misses equal evictions plus sessions cached, over all replicas |
| ReplayCaches.EvictionsNeverExceedMisses | bench/replay.py:143 | a run reports no more evictions than misses |
| ReplayCaches.CachesAreEarned | agentserve/backends/simulated.py:50-54 | every entry ever cached is the prompt and answer of an earlier turn of its session |
| ReplayCaches.ReuseLowerBound | bench/replay.py:118-120 | in either arm at least the first prompts and the growth of later ones are computed, with equality exactly when every turn reuses all its predecessor left |
| ReuseExact.BoundIsMetByFreshCopies | agentserve/backends/simulated.py:31-35 | with every turn answering, the bound is met exactly by runs in which each later turn is a hit on the copy left by the turn just before it |
| SingleCopy.OneCopyAtHome | agentserve/router.py:47-66 | while affinity is kept and no home lost, a session is resident on at most one replica, the one that served it last, and its home pointer names it |
| SingleCopy.AffinityHitsAreHits | agentserve/router.py:55-58 | in every adaptive run affinity hits never exceed cache hits |
| SingleCopy.HitsAreAffinityHits | agentserve/router.py:55-58 | in a calm run they are equal |
| SingleCopy.CalmCost | bench/replay.py:118-128 | a calm run computes the minimum plus the transcripts lost to later misses, and misses once per session plus once per such turn |
| SingleCopy.CalmRunIsOptimal | bench/replay.py:150-153 | a calm adaptive run that misses once per session computes no more tokens than any run of the trace, on any cluster, under either router and policy |
| Comparison.Compare | bench/replay.py:150-153 | both arms answer every turn, the baseline reports no DRAM hit, offload or affinity, and neither computes less than the minimum of a growing trace; under the conditions of RoomyRuns.RoomyRunIsOptimal the adaptive arm reaches it, missing once per session, and so computes no more than the baseline |
| CalmRuns.HomesAreKept | agentserve/state.py:43-58 | no home is forgotten if the store holds all sessions and the requests take less wall-clock time than a mapping lives |
| CalmRuns.FewSessionsNeverBreak | agentserve/router.py:55-63 | the valve never fires with at most limit + 1 sessions |
| CalmRuns.CalmInAdvance | bench/replay.py:66-147 | so a run can be known to be calm before it starts |
| RoomyRuns.RoomyRunIsOptimal | bench/replay.py:150-153 | on a growing trace with tools between turns, if sessions are few, the replay short, all transcripts fit either tier of one replica and no tool takes longer than the offload threshold, the adaptive arm misses once per session and no run computes less |
| RoomyRuns.RoomyStore | agentserve/replica.py:83-128 | with room for its entry in both tiers a store pushes nobody out, and its own session stays unless the policy drops it |
| RoomyRuns.NothingIsLeftInAdvance | bench/replay.py:99-113 | known before the start: the adaptive run ends with all caches empty and as many evictions as misses |
| Residue.IdleIsGapLessService | agentserve/models.py:43-45 | in a replay the idle time the policy sees is the predicted gap less the service, or zero |
| Residue.CalmRunLeavesNothing | agentserve/policy.py:55-61 | after a calm run whose last turns call no tool and are short, every cache is empty and evictions equal misses |
| Residue.QuietInAdvance | bench/replay.py:99-104 | the trace and the prices alone tell that last turns are short enough |
| Placement.ExecuteKeepsPlacement | agentserve/policy.py:55-61 | between requests GPU entries are due within the pin threshold and DRAM entries after it but within the offload threshold, and offloads move only for a store that parks its own entry |
| Placement.AlwaysPlaced | agentserve/policy.py:55-61 | at every state of every adaptive run |
| Placement.ReportedOffloads | bench/replay.py:144 | the offloads reported are exactly the stores that parked their own entry, none of them a demotion under pressure |
| Traces.GenerateSession | bench/traces.py:62-80 | every prompt is the base plus all answers and tool results before it, and only the last turn calls no tool |
| Traces.GeneratedTracesAreReplayable | bench/traces.py:55-88 | generated traces are valid and growing, call a tool between turns and none after the last, as the theorems about the replay ask |
| Traces.GeneratedMinimum | bench/traces.py:75-80 | the least any run of a generated trace computes is its base prompts and the tool results another turn follows: no answer is ever computed again |

## Left out

- The Redis session store: a foreign service; nothing is claimed about several gateways agreeing.
- The vLLM backend: HTTP, retries and token counts reported by workers.
- Streaming responses: selection and slot entry are not one step there, so the valve is modelled for the
  non-streaming path and the replay only.
- HTTP endpoints, authentication, metrics, tokenizer, settings parsing and the live replay.
- Percentiles, rates and formatted reports; the counters and lists they are computed from are modelled.
- Floating-point rounding: times are reals.
- Random sampling: `Traces` takes the draws, and base prompts, as given.
- Traces.GenerateTraces: does not model the final sort by arrival time, which decides ties between arrivals only; the theorems hold of traces in any order.
- The heap is a list from which the least event by time and insertion is removed, as heapq promises.
- Victims are found by the session of the entry value, not by object identity; keys are unique, so the
  entry found is the object sorted.
- The retention policy is a datatype with two constructors rather than a protocol; a replica refers to its
  policy by value, and the adaptive policy's unused reference to the predictor is dropped.
- RunArm.BuildRouters: builds both routers where the source builds the arm's own; only that one is used.
- Time does not pass inside one call to the session map: each of its accesses takes one clock reading.
- The label of an arm, text and completion counts of results, and `size` and `close` of the session map.
- That the adaptive arm does better in general is a measurement, not a theorem; only the conditional
  results above are proved.
