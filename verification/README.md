# SignalMesh reliability core in Dafny

SignalMesh is a three-node control plane between AI agents and model providers. This
project models the parts that decide, and proves what they promise:

- **Gossip store** (`GossipStore`, `Convergence`, `Liveness`, `Electorate`, `Consensus`, `Stats`): a replica of
  last-writer-wins observations with deduplication, ageing and cleanup, and the majority
  verdict over live nodes. Replicas converge under every schedule; exactly when the verdict
  depends on map order, and when two nodes count the same observations, is proved; majorities
  cannot contradict each other.
- **Admission** (`Admission`, `AdmissionLimits`, `AdmissionOutcomes`, `Traffic`): lock-free bulkheads as an interleaved
  step system, one program counter per goroutine and one atomic access per step, and exactly
  how far the queue and the global limit can be passed and why each request ends as it does.
- **Budgets and overspend** (`Budget`, `Overspend`, `OverspendTight`): handlers that read, select
  and record in separate steps, run on top of the admission system, and exactly how much they
  can overspend.
- **Circuit breaker** (`CircuitBreaker`, `BreakerRecovery`): the timed state machine among late
  results: when it opens, when it recovers, and exactly how many requests a failing dependency is given.
- **Loop detector and retry storms** (`LoopDetector`, `RetryStorm`): the detector refines a predicate
  over the failure history, and exactly how many failures it lets through.
- **Request handler** (`Handler`, `HandlerLaws`, with `Router`, `Validator`, `Policy`, `Escalation`): the attempt
  loop and the trace of every call it makes.
- **Health observer**, **chaos engine**, **load balancer** (`HealthObserver`, `ChaosEngine`,
  `LoadBalancer`).

## How it is modelled

Objects that the source updates in place are classes; each method states its whole new state
through a function of the old one, and the lemmas are about runs of these functions. A method
under a mutex is one step. Where the source is not atomic the model is not either: Acquire and
Release, a delivery to the gossip store, and the handler's read, select and record are split
into their steps, and the theorems quantify over all interleavings.

The handler's calls to objects that other requests use at the same time (semaphores, detector,
breakers, budgets, provider) are inputs, and all it calls is recorded in one sequence. Its theorems
therefore hold whatever the other requests do; `Admission`, `Overspend`, `RetryStorm` and
`CircuitBreaker` then say what these objects do over whole runs, and
`Handler.SlotIsHeldThroughout`, `Overspend.AttemptIsAllowed`, `RetryStorm.HandlerIsDisciplined`
and `Handler.ExactlyOneReport` connect the two.

Clock readings are parameters, in integer nanoseconds, nondecreasing where the statement needs
it; a second reading in the same method is a second parameter. Money, scores and percentages
are reals; the largest float, which the budget uses for "no limit", is the constructor
`Unlimited`. Go's map order is a choice the method makes and the caller cannot predict.

Where the code and the documentation differ, the code is followed:

- The documentation speaks of bounded queues (`README.md:63`). The bound is checked before it is
  taken, so every queue can be overrun, by exactly one less than the number of requests that
  race: `AdmissionLimits.QueueOverrunIff`, `AdmissionLimits.LongestQueue`.
- `scenarios/README.md:23` expects global load shedding in a traffic spike. The bulkheads alone
  fill the node only if their capacity reaches the global limit; with the default limits forty
  requests must be caught in the middle of their release: `AdmissionLimits.SheddingIff`,
  `AdmissionLimits.DefaultSheddingIff`.
- Every failure mode is said to restore itself (`README.md:189`). Asking for an unknown scenario
  stops the timer of the one that is running; exactly when a scenario does not end is
  `ChaosEngine.StrandedFromStartIff`.
- A node ages out everywhere when its heartbeats stop (`scenarios/README.md:22`), but not in its own
  view, where it stays alive: exactly when two nodes then count different observations is
  `Electorate.SameElectorateIff`.
- The load balancer is said to retry dead backends (`README.md:59`). Requests that other requests
  disturb can retry the same one; exactly when they reach all of them is
  `LoadBalancer.TriesEveryBackendIff`.
- Events are deduplicated (`services/signalmesh-node/internal/cluster/store.go:444-454`), but their IDs are forgotten: exactly
  when a command is applied again is `GossipStore.AppliedAgainIff`.
- Budgets are limits (`services/signalmesh-node/internal/budget/budget.go:67-94`), but concurrent requests can pass them:
  `OverspendTight.LargestOverspend` says exactly how far.

## Model

| member | source | states |
|---|---|---|
| Convergence.ShowsTheLatest | services/signalmesh-node/internal/cluster/store.go:238-277 | For every schedule of arrivals, age checks, writes, local publications and cleanups with a nondecreasing clock, once no delivery is under way the replica shows x for a provider and node exactly when x is the (timestamp, version)-latest event that reached it and is still within the TTL |
| Convergence.ReplicasConverge | services/signalmesh-node/internal/cluster/store.go:444-479 | Two replicas that the same events reached, in any order, any number of times and with any cleanups, show the same observation of every provider and node at the same time |
| Convergence.RunComplete | services/signalmesh-node/internal/cluster/store.go:238-277 | Inductive invariant of every run: an event that reached the replica is under way, past its TTL, or covered by what is stored |
| Convergence.NextSound | services/signalmesh-node/internal/cluster/store.go:444-479 | Each step keeps: whatever is stored or under way has reached the replica, is filed under its own key, and every remembered ID belongs to an event that reached it |
| Convergence.DeliveryIsItsSteps | services/signalmesh-node/internal/cluster/store.go:238-254 | Handling a delivery in one go has exactly the effect of its separate critical sections when nothing comes in between |
| Convergence.PublicationIsItsSteps | services/signalmesh-node/internal/cluster/store.go:215-236 | A publication in one go has exactly the effect of its separate critical sections |
| Convergence.StampsMatter | services/signalmesh-node/internal/cluster/store.go:238-277 | The converse of convergence: two events reach different states by some pair of schedules if and only if their IDs or their stamps clash |
| Liveness.LastSeenIsLatest | services/signalmesh-node/internal/cluster/store.go:170-198 | For every schedule of heartbeat arrivals, deduplication, merges, own heartbeats and cleanups, once nothing is left to merge a node is known exactly if it was heard of, and LastSeen is its latest heartbeat |
| Liveness.HeartbeatsConverge | services/signalmesh-node/internal/cluster/store.go:170-198 | Two nodes that the same heartbeats reached, in any order, any number of times and with any cleanups, have the same liveness table |
| Liveness.HeartbeatIsItsSteps | services/signalmesh-node/internal/cluster/store.go:170-182 | Handling a heartbeat in one go has exactly the effect of its separate critical sections |
| Electorate.SameElectorateIff | services/signalmesh-node/internal/cluster/store.go:286-300 | Two nodes that the same observations and heartbeats reached, by whatever schedules, count the same observations of a provider if and only if each is alive by heartbeat or shows no fresh observation of its own of it |
| Electorate.SameElectorate | services/signalmesh-node/internal/cluster/store.go:378-389 | In that case whatever counts for one counts for the other |
| Electorate.SilentObserverDivides | services/signalmesh-node/internal/cluster/store.go:67-74 | For every observation published by a node whose last heartbeat is older than nodeTTL, a run after which it counts for that node and not for another with the same news |
| Electorate.NodesAgree | services/signalmesh-node/internal/cluster/store.go:281-376 | Where their observations agree, such nodes return the same averages and percentile, and the same status wherever it does not depend on map order: with no more reports than the cluster has nodes, when one status has a majority or the latest observations agree |
| Convergence.PublishedWellStamped | services/signalmesh-node/internal/cluster/store.go:215-236 | Observations that nodes published over all their lifetimes, each counting versions from 0, are well stamped if event IDs are unique and no two lifetimes of a node share a time |
| Convergence.QuickRestartClashes | services/signalmesh-node/internal/cluster/store.go:215-236 | Two lifetimes of a node that publish at the same time give out the same stamp, which breaks this |
| GossipStore.Store.AlreadySeen | services/signalmesh-node/internal/cluster/store.go:444-454 | Answers whether the ID was remembered and remembers it otherwise; an ID already known keeps its time |
| GossipStore.Store.SetObservation | services/signalmesh-node/internal/cluster/store.go:256-277 | The new observation map is the old one merged with the event by (timestamp, version); every other key is untouched |
| GossipStore.Store.HandleProviderHealth | services/signalmesh-node/internal/cluster/store.go:238-254 | An event without an ID or with a remembered one changes nothing; a stale one is remembered only; any other is remembered and merged |
| GossipStore.Store.PublishProviderHealth | services/signalmesh-node/internal/cluster/store.go:215-236 | The observation sent carries the node, the time now, the next version and the report as drafted; it is remembered and merged, and unless a later one is stored it counts for the node at a time t exactly until ten seconds after now |
| GossipStore.OwnIsVisible | services/signalmesh-node/internal/cluster/store.go:281-300 | An observation of its own, newer than what is stored, counts for a node for exactly ten seconds from its timestamp |
| GossipStore.OwnSurvivesCleanup | services/signalmesh-node/internal/cluster/store.go:456-479 | A cleanup within that time leaves it in place |
| GossipStore.SentAsPublished | services/signalmesh-node/internal/cluster/store.go:215-236 | Every observation a node sends carries the time, ID and report of its publication and a version one above the publications before |
| GossipStore.PublishedIsSent | services/signalmesh-node/internal/cluster/store.go:215-236 | Every publication goes out |
| GossipStore.VersionsDiffer | services/signalmesh-node/internal/cluster/store.go:215-236 | Over everything a node publishes, heartbeats included, no two observations have the same version, whatever its clock does |
| GossipStore.Store.SetNode | services/signalmesh-node/internal/cluster/store.go:184-198 | LastSeen is replaced unless the heartbeat is older |
| GossipStore.Store.HandleHeartbeat | services/signalmesh-node/internal/cluster/store.go:170-182 | A heartbeat without an ID or with a remembered one changes nothing; any other is remembered and merged |
| GossipStore.Store.PublishHeartbeat | services/signalmesh-node/internal/cluster/store.go:144-168 | Disabled: nothing changes and nothing is sent; enabled: next version, remembered, merged, sent |
| GossipStore.Store.SetLocalProviderHealth | services/signalmesh-node/internal/cluster/store.go:201-212 | Only the named provider changes; a health without a time is stamped |
| GossipStore.Store.PublishChaos | services/signalmesh-node/internal/cluster/store.go:392-415 | The command sent is remembered under its ID, a fresh one if it had none |
| GossipStore.Store.HandleChaos | services/signalmesh-node/internal/cluster/store.go:417-435 | A command is applied exactly when it has an ID that is not remembered |
| GossipStore.NotAppliedAgain | services/signalmesh-node/internal/cluster/store.go:444-466 | In any run without a cleanup later than seenTTL after the first time, however late the deliveries, an event is not applied again and keeps its time |
| GossipStore.AppliedAgainIff | services/signalmesh-node/internal/cluster/store.go:417-466 | In any run of deliveries and cleanups, a handled event is applied again if and only if it is delivered after some cleanup more than seenTTL past the first time |
| GossipStore.Store.Cleanup | services/signalmesh-node/internal/cluster/store.go:456-479 | Keeps exactly the IDs within seenTTL and the observations within the TTL, and drops providers left without any, in whatever order the maps are walked |
| GossipStore.CleanupBoundsMemory | services/signalmesh-node/internal/cluster/store.go:456-479 | What is kept is at most ten seconds old, or sixty for event IDs; nothing younger is lost; no provider is kept without an observation |
| GossipStore.FilingKept | services/signalmesh-node/internal/cluster/store.go:256-277 | Merging and purging keep every observation under its own provider and node, the invariant of the store |
| GossipStore.Store.NodeAlive | services/signalmesh-node/internal/cluster/store.go:378-389 | A node is alive if it is the store itself or was heard of within nodeTTL |
| GossipStore.AliveFor | services/signalmesh-node/internal/cluster/store.go:378-389 | A heartbeat keeps a node alive for exactly five seconds; a node is always alive for itself |
| GossipStore.Store.Collect | services/signalmesh-node/internal/cluster/store.go:286-300 | Whatever the map order, lists each fresh observation of a live node exactly once |
| GossipStore.Store.GetProviderHealth | services/signalmesh-node/internal/cluster/store.go:281-376 | The verdict of some listing of the recent observations; without any, the local health, or UNKNOWN with 100 percent |
| Consensus.TallyVotes | services/signalmesh-node/internal/cluster/store.go:318-329 | counts holds for each status its number of observations |
| Consensus.FindMajority | services/signalmesh-node/internal/cluster/store.go:331-339 | Whatever the order of the counts, returns a status with enough votes, or UNKNOWN only if none has them (or UNKNOWN itself has) |
| Consensus.FindLatest | services/signalmesh-node/internal/cluster/store.go:343-351 | Returns the first observation of the listing that no other is later than |
| Consensus.Summarize | services/signalmesh-node/internal/cluster/store.go:318-375 | The status is one with a majority or, failing that, of the first latest observation; averages and percentile are those of the listing |
| Consensus.MajorityDecides | services/signalmesh-node/internal/cluster/store.go:331-351 | With fewer than twice the required votes cast, a status with a majority is the verdict in every map order |
| Consensus.MoreThanHalfDecides | services/signalmesh-node/internal/cluster/store.go:331-339 | With no more reports than the cluster has nodes, the known status that more than half of the cluster reports is the verdict |
| Consensus.WithoutHalfTheLatestDecides | services/signalmesh-node/internal/cluster/store.go:331-351 | If no known status is reported by more than half of the cluster, the verdict is the status of a latest report |
| Consensus.VerdictOnOne | services/signalmesh-node/internal/cluster/store.go:281-376 | The verdict on one observation is that observation |
| Consensus.VerdictMeans | services/signalmesh-node/internal/cluster/store.go:356-375 | Both percentages are the means of what was observed |
| Consensus.SumsAdd | services/signalmesh-node/internal/cluster/store.go:318-329 | Each observation adds its own percentages to the sums behind the means |
| Consensus.VerdictLatency | services/signalmesh-node/internal/cluster/store.go:353-365 | For up to twenty observations the latency is the highest one reported |
| Consensus.QuorumWins | services/signalmesh-node/internal/cluster/store.go:331-339 | If a quorum of the reporting nodes reports st, not UNKNOWN, the verdict is st whatever the rest say |
| Consensus.QuorumsIntersect | services/signalmesh-node/internal/cluster/store.go:331-339 | Two stores seeing parts of one node-to-status assignment no larger than the cluster cannot both have a majority and disagree |
| Consensus.VerdictForcedIff | services/signalmesh-node/internal/cluster/store.go:331-351 | Every order of the maps gives the same status if and only if one status alone has a majority, not lost to one for UNKNOWN, or none has and all latest observations share one status |
| Consensus.PossibleIff | services/signalmesh-node/internal/cluster/store.go:331-351 | The statuses some map order can lead to are exactly those with a majority and, in the fallback, those of the latest observations |
| Consensus.ForcedBelow | services/signalmesh-node/internal/cluster/store.go:331-351 | With fewer than twice the required votes cast the status is forced exactly when some status has a majority or the latest observations agree |
| Consensus.TwoMajorities | services/signalmesh-node/internal/cluster/store.go:334-339 | Two statuses have the votes only if at least twice as many are cast as one needs |
| Consensus.CountIsCardinality | services/signalmesh-node/internal/cluster/store.go:318-329 | The vote count of a listing is the cardinality of the set of observations with that status |
| Consensus.ListingIrrelevant | services/signalmesh-node/internal/cluster/store.go:318-375 | Two listings of the same observations have the same sums and the same latencies as a multiset |
| Consensus.SameVerdict | services/signalmesh-node/internal/cluster/store.go:281-376 | Two walks over the same observations give the same averages and percentile, and the same status wherever it is forced, by a majority or by agreement of the latest |
| Consensus.VerdictInRange | services/signalmesh-node/internal/cluster/store.go:318-375 | The percentages of a verdict on plausible observations lie in [0, 100] |
| Stats.P95Rank | services/signalmesh-node/internal/cluster/store.go:359-365 | The rank is 95 percent of the length rounded down; up to twenty samples it is the last one |
| Stats.SortedUnique | services/signalmesh-node/internal/cluster/store.go:353-355 | A sorted sequence is determined by its multiset of elements |
| Stats.P95OrderFree | services/signalmesh-node/internal/cluster/store.go:353-365 | The percentile depends only on the multiset of latencies |
| Stats.P95IsMax | services/signalmesh-node/internal/health/observer.go:205-217 | For at most twenty samples the reported percentile is the maximum |
| Admission.NewManager | services/signalmesh-node/internal/admission/admission.go:51-84 | Every bulkhead ends up with at least one slot and no negative queue; limits in range are kept, a missing slot count becomes one and a negative queue none |
| Admission.RunConserved | services/signalmesh-node/internal/admission/admission.go:100-184 | After every run of single atomic accesses by any goroutines, each semaphore, waiters, admitted and dropped counter and both totals equal the number of goroutines at the matching points, and no semaphore exceeds its capacity |
| Admission.StepConserved | services/signalmesh-node/internal/admission/admission.go:100-184 | Each single access keeps that conservation, and none takes the default branch of Release |
| AdmissionOutcomes.CauseAndOutcome | services/signalmesh-node/internal/admission/admission.go:100-172 | Over every run each outcome has exactly its cause: timeout or cancellation a context that was done, shedding an arrival at a full node, a full queue no slot and no room, admission a free slot |
| AdmissionOutcomes.ContextEndedIff | services/signalmesh-node/internal/admission/admission.go:116-123 | Acquire ends with a timeout or a cancellation if and only if the request found its context done, as the context says |
| AdmissionOutcomes.ContextEndedHoldsNothing | services/signalmesh-node/internal/admission/admission.go:116-172 | Such a request holds a slot at no moment of the run |
| AdmissionOutcomes.AccessDecides | services/signalmesh-node/internal/admission/admission.go:100-172 | One access decides an outcome exactly when it finds the cause |
| AdmissionOutcomes.AdmittedAlone | services/signalmesh-node/internal/admission/admission.go:126-132 | A request that meets a free slot and is not shed is in its handler five accesses later |
| AdmissionOutcomes.UnregisteredIsNormal | services/signalmesh-node/internal/admission/admission.go:86-96 | A class without a bulkhead does in every state what NORMAL does |
| AdmissionOutcomes.OwnBulkhead | services/signalmesh-node/internal/admission/admission.go:86-96 | CRITICAL and BACKGROUND use their own bulkhead and no other |
| Admission.ActiveBounds | services/signalmesh-node/internal/admission/admission.go:174-184 | In every reachable state no Release has missed, totalActive lies between 0 and the capacity plus the releases between pop and decrement, and at most capacity requests are in their handler |
| Admission.SheddingNeedsMidRelease | services/signalmesh-node/internal/admission/admission.go:103-113 | A request is shed only if it is not critical and at least globalMax minus capacity releases are between pop and decrement |
| AdmissionLimits.SheddingIff | services/signalmesh-node/internal/admission/admission.go:103-113 | In every configuration, a run with at most m releases caught between pop and decrement can shed a request if and only if there is a global limit and capacity + m reaches it |
| AdmissionLimits.DefaultSheddingIff | services/signalmesh-node/cmd/signalmesh/main.go:119-133 | With the default limits such runs shed if and only if m is at least forty |
| Admission.WaitersBound | services/signalmesh-node/internal/admission/admission.go:146-156 | If never more than p goroutines sit between the waiters check and the increment, waiters stays within MaxQueue + p - 1, and at 0 without a queue |
| AdmissionLimits.LongestQueue | services/signalmesh-node/internal/admission/admission.go:146-156 | In every configuration and class, while at most p goroutines race, waiters can reach w if and only if w is at most MaxQueue + p - 1, or 0 without a queue: the bound is exact |
| AdmissionLimits.QueueOverrunIff | services/signalmesh-node/internal/admission/admission.go:146-156 | A state with more waiters than MaxQueue is reachable if and only if MaxQueue is at least one |
| AdmissionLimits.QueueFills | services/signalmesh-node/internal/admission/admission.go:100-172 | For every configuration, class with a queue and p, a run in which at most p race that ends with MaxQueue + p - 1 waiters |
| Admission.CriticalAccess | services/signalmesh-node/internal/admission/admission.go:100-184 | What a CRITICAL goroutine does next does not depend on totalActive |
| Admission.CriticalNonInterference | services/signalmesh-node/internal/admission/admission.go:86-172 | Erasing all steps of other classes from any run leaves a valid run with the same CRITICAL semaphore, waiters, tallies, goroutine positions and outcomes |
| Overspend.OverspendByLoad | services/signalmesh-node/internal/proxy/handler.go:155-158 | However handlers interleave, a limited budget is overspent by at most one entry cost per request of its scope beyond the first handled at once; an agent with one request at a time never overspends |
| Overspend.OverspendByCapacity | services/signalmesh-node/internal/proxy/handler.go:110-123 | In every run the spend stays within limit + (capacity - 1) times the largest entry cost, capacity being the sum of class concurrencies |
| Overspend.StepCovered | services/signalmesh-node/internal/proxy/handler.go:155-158 | Inductive invariant: spent plus what in-flight handlers may still add stays within limit + (k - 1) entry costs |
| Overspend.LoadWithinCapacity | services/signalmesh-node/internal/admission/admission.go:100-184 | Admission alone keeps the number of handlers of any scope within the capacity in every run |
| OverspendTight.LargestOverspend | services/signalmesh-node/internal/proxy/handler.go:155-158 | From the start, with at most k handlers of a scope at once, the balance can end an amount past the limit if and only if the amount is at most (min(k, capacity) - 1) entry costs: the bound is exact |
| OverspendTight.OverspendIff | services/signalmesh-node/internal/proxy/handler.go:155-158 | A limit can be overrun if and only if at least two of its requests may be handled at once and something costs money |
| OverspendTight.OverspendHappens | services/signalmesh-node/internal/proxy/handler.go:156-158 | For every configuration, ledger with room for one entry and k up to the capacity, k handlers that all read before any records end k - 1 entry costs past the limit |
| Overspend.AttemptIsAllowed | services/signalmesh-node/internal/proxy/handler.go:155-350 | Every attempt the handler makes, accepted or not, is a read, a selection and a record or a giving up in this system, with any steps of others in between |
| Overspend.OthersKeepMyPlace | services/signalmesh-node/internal/proxy/handler.go:155-158 | Steps of others leave a handler that has read the budget in its slot and at its place |
| Budget.RemainingFor | services/signalmesh-node/internal/budget/budget.go:67-81 | The remaining amount is at most limit minus spent for every limited scope of the agent, and equals it for one of them |
| Budget.AgentLimitWins | services/signalmesh-node/internal/budget/budget.go:59-81 | A limit set for an agent beats the default, for that agent alone; zero or less means no limit |
| Budget.ChargeIsFelt | services/signalmesh-node/internal/budget/budget.go:67-94 | A charge takes exactly its cost off what remains for the agent |
| Budget.OthersFeelLess | services/signalmesh-node/internal/budget/budget.go:67-94 | and no more than its cost off what remains for any other |
| Budget.RecordedCharges | services/signalmesh-node/internal/budget/budget.go:84-94 | Recording charges exactly the scopes of the agent by the cost if it is not negative, and no limit changes |
| Budget.ReplayTotals | services/signalmesh-node/internal/budget/budget.go:84-94 | Both balances always equal the totals of the recorded history, and no agent total exceeds the node total |
| Budget.Manager.Record | services/signalmesh-node/internal/budget/budget.go:84-94 | The new ledger is the old one with the charge recorded; a negative cost changes nothing |
| Budget.Manager.Remaining | services/signalmesh-node/internal/budget/budget.go:67-81 | Computes the remaining amount of the ledger, a specific limit taking precedence over the default |
| Budget.Manager.SetAgentLimit | services/signalmesh-node/internal/budget/budget.go:59-64 | Changes one agent limit and nothing else |
| CircuitBreaker.WedgesIff | services/signalmesh-node/internal/circuitbreaker/circuitbreaker.go:89-160 | A state in HALF_OPEN with no free slot and no outstanding probe is reachable if and only if the success threshold exceeds the allowed probes |
| CircuitBreaker.NeverWedges | services/signalmesh-node/internal/circuitbreaker/circuitbreaker.go:89-160 | Otherwise no run, with late results from earlier states and any trips and resets, wedges the breaker |
| BreakerRecovery.ClosesIff | services/signalmesh-node/internal/circuitbreaker/circuitbreaker.go:116-130 | In HALF_OPEN, as long as nothing fails or is forced, the breaker is CLOSED with no failures if and only if the results since have reached the success threshold |
| BreakerRecovery.Recovers | services/signalmesh-node/internal/circuitbreaker/circuitbreaker.go:89-130 | From OPEN and past the cooldown, with no more successes required than probes allowed, that many probes are granted, and when all succeed the breaker is CLOSED with no failures |
| BreakerRecovery.ClosedStaysClosed | services/signalmesh-node/internal/circuitbreaker/circuitbreaker.go:89-130 | CLOSED then grants every request through every run in which nothing fails or is forced |
| BreakerRecovery.OpensIff | services/signalmesh-node/internal/circuitbreaker/circuitbreaker.go:116-146 | Unforced, a CLOSED breaker opens in a run if and only if FailureThreshold failures come back in a row without a success between them |
| BreakerRecovery.FailedProbeReopens | services/signalmesh-node/internal/circuitbreaker/circuitbreaker.go:132-146 | One failed probe opens it again for exactly one more cooldown |
| BreakerRecovery.OpenIgnoresResults | services/signalmesh-node/internal/circuitbreaker/circuitbreaker.go:116-146 | Late results, in any number, leave an OPEN breaker and its cooldown as they are |
| BreakerRecovery.CooledDown | services/signalmesh-node/internal/circuitbreaker/circuitbreaker.go:95-103 | OPEN grants exactly from the cooldown on, as the first probe of a new HALF_OPEN period |
| BreakerRecovery.ForcedMeans | services/signalmesh-node/internal/circuitbreaker/circuitbreaker.go:164-182 | A trip refuses for exactly one cooldown unless already OPEN; a reset grants at once |
| CircuitBreaker.StepAccounted | services/signalmesh-node/internal/circuitbreaker/circuitbreaker.go:89-160 | Every probe of the current HALF_OPEN period is outstanding or counted as a success |
| CircuitBreaker.WedgedForGood | services/signalmesh-node/internal/circuitbreaker/circuitbreaker.go:105-110 | A wedged breaker with nothing outstanding stays so through every run without a trip or reset, and refuses every request in it, at whatever time |
| CircuitBreaker.ContainmentBound | services/signalmesh-node/internal/circuitbreaker/circuitbreaker.go:87-146 | From CLOSED with no failures, a dependency that fails every granted request is granted at most FailureThreshold + floor(elapsed / Cooldown) of them, trips allowed |
| CircuitBreaker.ContainmentExact | services/signalmesh-node/internal/circuitbreaker/circuitbreaker.go:87-146 | The bound is exact: by any time a run that grants g failing requests exists if and only if g is at most FailureThreshold + floor(elapsed / Cooldown) |
| CircuitBreaker.AvailableIsKept | services/signalmesh-node/internal/circuitbreaker/circuitbreaker.go:67-114 | If Available says yes and nothing intervenes, Allow grants the request at any later time |
| CircuitBreaker.Breaker.Available | services/signalmesh-node/internal/circuitbreaker/circuitbreaker.go:67-85 | Answers by state: always, after the cooldown, or while a probe slot is free; changes nothing |
| CircuitBreaker.Breaker.Allow | services/signalmesh-node/internal/circuitbreaker/circuitbreaker.go:89-114 | Grants exactly what Available would, opening a HALF_OPEN period or consuming a probe slot |
| CircuitBreaker.Breaker.RecordSuccess | services/signalmesh-node/internal/circuitbreaker/circuitbreaker.go:116-130 | CLOSED forgets its failures; HALF_OPEN counts and closes at the threshold; OPEN ignores it |
| CircuitBreaker.Breaker.RecordFailure | services/signalmesh-node/internal/circuitbreaker/circuitbreaker.go:132-146 | CLOSED counts and opens at the threshold; HALF_OPEN opens; OPEN ignores it |
| CircuitBreaker.Breaker.Reset | services/signalmesh-node/internal/circuitbreaker/circuitbreaker.go:164-171 | Closes the breaker with all counters cleared unless it is closed |
| CircuitBreaker.Breaker.Trip | services/signalmesh-node/internal/circuitbreaker/circuitbreaker.go:175-182 | Opens the breaker with all counters cleared unless it is open |
| LoopDetector.RefinesHistory | services/signalmesh-node/internal/loopdetector/loopdetector.go:74-109 | After any interleaved history, Count is the length of the longest suffix of the fingerprint failures since its last success with gaps within the window; FirstSeen, LastSeen and Notified follow; other fingerprints leave no trace |
| LoopDetector.DetectsAtThreshold | services/signalmesh-node/internal/loopdetector/loopdetector.go:74-102 | A failure is reported as a loop exactly when it brings that streak to the threshold |
| LoopDetector.ReasonsOfStreak | services/signalmesh-node/internal/loopdetector/loopdetector.go:92-97 | An entry keeps the reasons of the first five failures of its streak |
| LoopDetector.LoopingIff | services/signalmesh-node/internal/loopdetector/loopdetector.go:113-127 | IsLooping holds exactly when the last failure is within the window and ends a streak of at least the threshold |
| LoopDetector.StreakExtends | services/signalmesh-node/internal/loopdetector/loopdetector.go:80-90 | A failure within the window lengthens the streak by one; a later one starts at one |
| LoopDetector.Detector.RecordFailure | services/signalmesh-node/internal/loopdetector/loopdetector.go:74-102 | The entry of the fingerprint is the updated or fresh one, no other changes, and the answer and count belong to it |
| LoopDetector.Detector.RecordSuccess | services/signalmesh-node/internal/loopdetector/loopdetector.go:105-110 | Forgets the fingerprint and nothing else |
| LoopDetector.Detector.IsLooping | services/signalmesh-node/internal/loopdetector/loopdetector.go:113-127 | Reads the entry only; an expired one is not looping |
| RetryStorm.RetryStormBound | services/signalmesh-node/internal/proxy/handler.go:126-186 | For one fingerprint handled sequentially and without success, while other fingerprints use the detector at any point, its count in the table never passes the threshold, and its failed attempts within any duration D number at most threshold * (1 + floor(D / (window + 1))), times being whole nanoseconds |
| RetryStorm.MostFailures | services/signalmesh-node/internal/loopdetector/loopdetector.go:74-127 | The bound is exact for every fingerprint and duration: n failures can be crammed into it if and only if n is at most that number |
| RetryStorm.MostWithinIs | services/signalmesh-node/internal/loopdetector/loopdetector.go:74-127 | That number is threshold * (1 + floor(D / (window + 1))) |
| RetryStorm.PlayedIsStorm | services/signalmesh-node/internal/loopdetector/loopdetector.go:74-127 | Whatever other fingerprints do before, between and within the requests, the answers of the detector table are those the failure history of the fingerprint calls for |
| RetryStorm.StormBounded | services/signalmesh-node/internal/proxy/handler.go:399-446 | Every prefix of the recorded failures keeps its streak within the threshold |
| RetryStorm.HandlerIsDisciplined | services/signalmesh-node/internal/proxy/handler.go:126-186 | Among all its calls, every rejected run of the handler records one failure per attempt, none when stopped as looping, and only the last can be reported as a loop |
| Handler.AcceptanceSound | services/signalmesh-node/internal/proxy/handler.go:155-366 | A returned response came from an available, not unhealthy provider, a fallback only if allowed, affordable within the budget read; it satisfies the contract with a score in [0.70, 1] and the policy quality and cost; no attempt before the last recorded a success or paid |
| HandlerLaws.AcceptedPaysOnce | services/signalmesh-node/internal/proxy/handler.go:348-350 | Over all its calls a request that returns a response told one success to a breaker and one to the detector and paid once, exactly the cost of the response |
| HandlerLaws.RejectedPaysNothing | services/signalmesh-node/internal/proxy/handler.go:368-396 | A rejected request did none of this |
| HandlerLaws.AttemptOrder | services/signalmesh-node/internal/proxy/handler.go:155-346 | Every attempt reads the budget, selects, asks the breaker, and calls the provider exactly when it was let, after which the breaker hears exactly one result |
| HandlerLaws.FailureIsRecorded | services/signalmesh-node/internal/proxy/handler.go:399-446 | A failed attempt tells the detector once, at which stage and when, and trips the breaker exactly on a detected loop |
| HandlerLaws.StageMeans | services/signalmesh-node/internal/proxy/handler.go:160-346 | An attempt fails at the first thing that goes wrong, and is accepted exactly when nothing does |
| HandlerLaws.BudgetIsBlamedIff | services/signalmesh-node/internal/proxy/handler.go:160-182 | Without a provider the stage is the budget exactly when an entry was turned down for money or nothing was left |
| HandlerLaws.RequestShape | services/signalmesh-node/internal/proxy/handler.go:110-396 | An admitted request first asks the detector; stopped as looping it makes no other call but to the escalator and the release; the escalator is called once, just before the release, exactly if it fails |
| HandlerLaws.LoopIsTold | services/signalmesh-node/internal/proxy/handler.go:126-146 | A request stopped as looping carries its two codes, makes no attempt and reaches a human whatever its policy |
| HandlerLaws.ProviderNamed | services/signalmesh-node/internal/proxy/handler.go:155-346 | The provider reported is the one selected, and none without a selection |
| HandlerLaws.CodesMean | services/signalmesh-node/internal/proxy/handler.go:163-341 | The codes of a failed attempt are exactly those of the router, of its stage, of the validator when that is why, and of a detected loop |
| HandlerLaws.AcceptedCodesMean | services/signalmesh-node/internal/proxy/handler.go:348-354 | The codes of an accepted attempt are those of the router and POLICY_ACCEPTED |
| HandlerLaws.RetriedIff | services/signalmesh-node/internal/proxy/handler.go:448-474 | An attempt is followed by another exactly when it failed at a stage where that may help, not blindly on a delicate request, without a loop, with retries and 100 ms left |
| HandlerLaws.RetriesAreMade | services/signalmesh-node/internal/proxy/handler.go:148-346 | While attempts fail at such stages in time, all retries of the policy are made, and never more |
| HandlerLaws.HighRiskByDefault | services/signalmesh-node/internal/policy/policy.go:42-53 | A high-risk request with the default policy is never served by a fallback or with a confidence below 0.85, costs at most five cents, always reaches a human on failure and is tried at most twice |
| HandlerLaws.RefusalsAreTold | services/signalmesh-node/internal/proxy/handler.go:110-122 | Every way admission refuses a request has its own codes |
| HandlerLaws.HumanIsTold | services/signalmesh-node/internal/proxy/handler.go:383-396 | A rejection carries HUMAN_ATTENTION_REQUIRED exactly when it was escalated; the recommended action blocks exactly high-risk requests that are not idempotent |
| Handler.NoBlindRetry | services/signalmesh-node/internal/proxy/handler.go:448-474 | For a high-risk request that is not idempotent every attempt but the last failed on quality, so a timeout, generation or semantic failure is always the last |
| Handler.NoSilentFailure | services/signalmesh-node/internal/proxy/handler.go:368-396 | An admitted request that fails names a phase and a code; it is escalated if its policy asks for a human or it ended as a loop; a detected loop always ends it as one |
| Handler.ExactlyOneReport | services/signalmesh-node/internal/proxy/handler.go:188-348 | On every path a breaker that granted an attempt gets exactly one result from it, and one that did not gets none |
| Handler.SlotIsHeldThroughout | services/signalmesh-node/internal/proxy/handler.go:110-123 | The first call of a request is Acquire; the last is Release if and only if it was admitted; nothing in between touches the slot |
| Handler.RejectionIsFree | services/signalmesh-node/internal/proxy/handler.go:155-346 | No attempt of a failed request records a success or charges anything |
| Handler.AttemptLoop | services/signalmesh-node/internal/proxy/handler.go:148-366 | The attempts are retried failures followed by one that is accepted or is not retried, never more than the policy allows |
| Handler.TryOnce | services/signalmesh-node/internal/proxy/handler.go:156-364 | One pass: an accepted attempt passed every check and made every success record; any other failed at the first check it did not pass and made one failure record |
| Handler.Judge | services/signalmesh-node/internal/proxy/handler.go:224-346 | The phase is the first of generation, contract, quality and cost that fails; a failure is reported to the breaker |
| Handler.HandleFailure | services/signalmesh-node/internal/proxy/handler.go:399-446 | Records the failure; on a loop trips the breaker in hand and overrides the phase |
| Handler.MayRetry | services/signalmesh-node/internal/proxy/handler.go:448-474 | A retry needs attempts left, at least 100 ms left and a phase that may be retried at this risk |
| Handler.FindCostReason | services/signalmesh-node/internal/proxy/handler.go:476-492 | True exactly if some evaluation carries one of the three cost reasons |
| Handler.Reject | services/signalmesh-node/internal/proxy/handler.go:383-396 | Escalates exactly the failures that need a human, keeps a record and marks the codes |
| Handler.HandleChat | services/signalmesh-node/internal/proxy/handler.go:110-397 | All calls of a request in one sequence: nothing but Acquire and its reasons when it is not admitted; a looping request makes no attempt; otherwise the attempts, in order, the escalation and, last, the release |
| Escalation.Escalator.Consider | services/signalmesh-node/internal/escalation/escalation.go:89-198 | Escalates exactly when the phase is not empty and some reason applies, with exactly the reasons that apply, and appends it to the record |
| Escalation.Escalator.Reasons | services/signalmesh-node/internal/escalation/escalation.go:118-148 | Collects exactly the reasons whose condition holds |
| Escalation.NeedsHumanIff | services/signalmesh-node/internal/escalation/escalation.go:89-157 | When a failure needs a human, spelled out by stage, risk, task and confidence |
| Escalation.ConfidenceMeans | services/signalmesh-node/internal/escalation/escalation.go:107-117 | The confidence is the score of the answer, 0.05 by default, and 0 without a provider |
| Escalation.CriticalWords | services/signalmesh-node/internal/escalation/escalation.go:64-86 | A task is critical exactly if it mentions one of nine words |
| Escalation.IsCriticalTask | services/signalmesh-node/internal/escalation/escalation.go:64-86 | True exactly if a keyword occurs in the trimmed, lower-cased task type |
| Traffic.Classify | services/signalmesh-node/internal/admission/admission.go:213-249 | A known priority decides; otherwise high risk is CRITICAL and a task that mentions a keyword BACKGROUND; never a class without a bulkhead |
| Traffic.BackgroundWork | services/signalmesh-node/internal/admission/admission.go:232-246 | A text names background work exactly if it contains one of six words; the other two keywords are redundant |
| Router.Router.Select | services/signalmesh-node/internal/router/router.go:83-246 | Returns the earliest entry of maximal score among the eligible ones above the sentinel, or none exactly if there is none, with one evaluation per entry |
| Router.WinnerIsEarliestBest | services/signalmesh-node/internal/router/router.go:98-230 | With percentages in [0, 100] the winner is the earliest of the eligible entries with the highest score |
| Router.WinnerUnique | services/signalmesh-node/internal/router/router.go:227-230 | At most one entry can be the winner |
| Router.ScoreRange | services/signalmesh-node/internal/router/router.go:164-224 | With a failure percentage of at most 100 every score lies in [-80, 95] |
| Router.CandidateIffEligible | services/signalmesh-node/internal/router/router.go:98-230 | With percentages in [0, 100] an entry is a candidate exactly if it is eligible, so a selection fails if and only if no entry is eligible |
| Router.SentinelHidesIff | services/signalmesh-node/internal/router/router.go:98-99 | The sentinel hides an entry if and only if its failure percentage is at least 2.5 times the gap between the rest of its score and the sentinel, a value between 2499999900 and 2500000237.5 |
| Router.ImprovedWinnerStays | services/signalmesh-node/internal/router/router.go:164-230 | Improving the health of the winner keeps it the winner |
| Router.BetterHealthScoresNoLess | services/signalmesh-node/internal/router/router.go:164-224 | No worse health never scores less |
| Router.LowerBudget | services/signalmesh-node/internal/router/router.go:142-154 | A smaller remaining budget only removes entries, never a free one, and keeps a winner that is still affordable |
| Router.Refusal | services/signalmesh-node/internal/router/router.go:111-162 | There is no refusal exactly for the eligible entries |
| Router.EligibleIff | services/signalmesh-node/internal/router/router.go:101-162 | Eligibility, spelled out |
| Router.RefusalMeans | services/signalmesh-node/internal/router/router.go:105-162 | An entry is refused for the first thing that is wrong with it |
| Router.ScoreWeights | services/signalmesh-node/internal/router/router.go:164-222 | What each flaw costs: 0.4 per percent of unavailability and of contract failures, 40 for slowness, 20 or 25 for status, 5 or 10 for cost, 5 or 20 for a fallback |
| Router.BestScore | services/signalmesh-node/internal/router/router.go:164-222 | A fast, healthy, faultless, free primary scores 95 |
| Router.EvaluationMeans | services/signalmesh-node/internal/router/router.go:105-225 | An evaluation tells whether an entry may be chosen and its score, or the one reason why not |
| Router.HealthReasonsMean | services/signalmesh-node/internal/router/router.go:164-203 | The reasons given for the health are exactly those that apply |
| Router.CostReasonsMean | services/signalmesh-node/internal/router/router.go:205-222 | The reasons given for the cost are exactly those that apply |
| Router.ScoreHealth | services/signalmesh-node/internal/router/router.go:164-203 | Adds up the availability, latency, status and contract components and their reasons |
| Router.ScoreCost | services/signalmesh-node/internal/router/router.go:205-222 | Adds up the cost component and the fallback penalty and their reasons |
| Router.EvaluateEntry | services/signalmesh-node/internal/router/router.go:105-225 | A stopped entry carries its first refusal; any other its score and reasons |
| Router.Router.AddProviderWithCost | services/signalmesh-node/internal/router/router.go:64-80 | Appends an entry whose priority is its index |
| Policy.FromRequest | services/signalmesh-node/internal/policy/policy.go:82-132 | The policy is normalized, of the risk level its text names and of the given task type; each override in range wins over the default of the risk level, each one out of range is replaced |
| Policy.NormalizeRisk | services/signalmesh-node/internal/policy/policy.go:31-40 | HIGH exactly for high and critical, MEDIUM exactly for medium and med, whatever the case and surrounding space |
| Policy.DefaultsByRisk | services/signalmesh-node/internal/policy/policy.go:42-80 | The defaults of each risk level |
| Text.TrimmedAndLowered | services/signalmesh-node/internal/policy/policy.go:31-40 | Surrounding space and the case of ASCII letters make no difference to a word |
| Validator.Validate | services/signalmesh-node/internal/validator/validator.go:50-179 | Valid exactly if the response satisfies the contract, with the confidence as score; each early failure has its own code; a complete response carries exactly the codes its fields call for, and half its confidence or 0.2 |
| Validator.DefaultContractIff | services/signalmesh-node/internal/validator/validator.go:39-179 | The default contract accepts exactly responses of 1 to 32000 bytes that are an object with a non-blank answer and a confidence in [0.70, 1] |
| Validator.ScoreMeans | services/signalmesh-node/internal/validator/validator.go:147-166 | A complete response that is rejected scores half its confidence if that is in range, otherwise 0.2 |
| Validator.DefaultContractConfidence | services/signalmesh-node/internal/validator/validator.go:39-45 | Under the default contract a valid response has an answer and a confidence in [0.70, 1] |
| HealthObserver.BufferAgreesWithHistory | services/signalmesh-node/internal/health/observer.go:142-235 | If consecutive probes are a gap apart with twenty gaps longer than the window, the verdict on the last twenty equals the verdict on all probes ever recorded |
| HealthObserver.BufferSuffices | services/signalmesh-node/internal/health/observer.go:142-174 | The buffer and the full history count the same probes if and only if every dropped probe is out of the window |
| HealthObserver.RecordedIsLast | services/signalmesh-node/internal/health/observer.go:142-155 | Recording a history probe by probe leaves its last twenty |
| HealthObserver.WorseProbesNeverHelp | services/signalmesh-node/internal/health/observer.go:185-225 | Worsening probes point by point never improves the status |
| HealthObserver.HealthInRange | services/signalmesh-node/internal/health/observer.go:176-203 | The percentages of a verdict lie in [0, 100] |
| HealthObserver.StatusMeans | services/signalmesh-node/internal/health/observer.go:185-225 | For up to twenty probes in the window: UNHEALTHY if fewer than half succeed or more than a fifth break the contract, else DEGRADED if fewer than 95 percent succeed, more than two percent break it or the slowest takes over 1.5 s, else HEALTHY |
| HealthObserver.PercentagesMean | services/signalmesh-node/internal/health/observer.go:185-203 | The percentages are those of the sets of probes that succeeded and that broke the contract |
| HealthObserver.WindowHolds | services/signalmesh-node/internal/health/observer.go:163-174 | The probes that count are exactly those at most fifteen seconds old |
| HealthObserver.NothingKnown | services/signalmesh-node/internal/health/observer.go:176-183 | Without such a probe the status is UNKNOWN at 100 percent |
| HealthObserver.Observer.Record | services/signalmesh-node/internal/health/observer.go:142-155 | Appends to the provider buffer and keeps its last twenty; other providers keep theirs |
| HealthObserver.Observer.ComputeHealth | services/signalmesh-node/internal/health/observer.go:163-235 | The verdict on the probes of the window, or UNKNOWN with 100 percent without any |
| ChaosEngine.EngineRestores | services/signalmesh-node/internal/chaos/engine.go:110-212 | Over every sequence of requests, expiries and callbacks: no active run means heartbeat on and the normal command last published by the engine; with only known scenarios an active run always has a timer or a callback to end it |
| ChaosEngine.StrandedFromStartIff | services/signalmesh-node/internal/chaos/engine.go:110-212 | Over every run from the start: an active run is left without an end if and only if some request for an unknown scenario came while it was active and its callback not waiting, and no known request has come since |
| ChaosEngine.StrandedIff | services/signalmesh-node/internal/chaos/engine.go:110-212 | The same from any orderly state |
| ChaosEngine.EveryScenarioStrands | services/signalmesh-node/internal/chaos/engine.go:114-168 | Every scenario is stranded by asking for an unknown one while it is active |
| ChaosEngine.CallbackOfActiveOnly | services/signalmesh-node/internal/chaos/engine.go:183-199 | A callback of a run that is not active changes nothing; that of the active run restores everything once |
| ChaosEngine.UnknownStrandsIff | services/signalmesh-node/internal/chaos/engine.go:114-168 | One request for an unknown scenario leaves the active run without an end if and only if its callback is not already waiting |
| ChaosEngine.StrandedStays | services/signalmesh-node/internal/chaos/engine.go:114-168 | Such a run stays active, with its heartbeat and published command as they were, through every sequence of expiries, callbacks and unknown requests |
| ChaosEngine.StrandedStep | services/signalmesh-node/internal/chaos/engine.go:114-168 | Exactly a known request ends it |
| ChaosEngine.NextNotStranded | services/signalmesh-node/internal/chaos/engine.go:110-212 | No known request and no callback leaves an active run without an end |
| ChaosEngine.Engine.Run | services/signalmesh-node/internal/chaos/engine.go:110-176 | The new state is that of the requested scenario; an unknown one only stops the timer and the load and fails |
| ChaosEngine.ScenarioMeans | services/signalmesh-node/internal/chaos/engine.go:110-176 | What each scenario does when requested, and what it leaves alone |
| ChaosEngine.RestoreMeans | services/signalmesh-node/internal/chaos/engine.go:114-125 | A restore puts everything back at once |
| ChaosEngine.ScenarioRestoresItself | services/signalmesh-node/internal/chaos/engine.go:110-199 | From the start, the effects of every scenario end when its timer has expired and its callback has run |
| ChaosEngine.Engine.AutoRestore | services/signalmesh-node/internal/chaos/engine.go:183-199 | Restores if the run is the active one, and does nothing otherwise |
| ChaosEngine.Engine.StopLocked | services/signalmesh-node/internal/chaos/engine.go:202-212 | Cancels the timer and the load and changes nothing else |
| LoadBalancer.RoundRobinIsFair | services/signalmesh-node/cmd/signalmesh-lb/main.go:140-142 | Until the counter wraps, k calls choose each of n backends floor(k / n) or ceil(k / n) times, and n calls in a row choose each exactly once |
| LoadBalancer.TriesEveryBackendIff | services/signalmesh-node/cmd/signalmesh-lb/main.go:87-142 | Until the counter wraps, a request that all backends refuse has tried every one of them if and only if no two of its attempts draw counter values a multiple of n apart, whatever other requests draw in between |
| LoadBalancer.AloneTriesEveryBackend | services/signalmesh-node/cmd/signalmesh-lb/main.go:87-138 | A request that others disturb only in whole rounds, or not at all, tries every backend before it gives up |
| LoadBalancer.DisturbedMissesABackend | services/signalmesh-node/cmd/signalmesh-lb/main.go:87-138 | For any number of backends, n - 1 foreign draws, or that many more than whole rounds, between two attempts make the request miss a backend |
| LoadBalancer.LoadBalancer.Serve | services/signalmesh-node/cmd/signalmesh-lb/main.go:87-138 | Attempts go to the backends the counter draws; the first that responds serves, and giving up means as many attempts as backends |
| LoadBalancer.LoadBalancer.Next | services/signalmesh-node/cmd/signalmesh-lb/main.go:140-142 | An atomic 64-bit increment that wraps |

## Left out

- HTTP, JSON, NATS transport, logging, metrics, dashboard, incident list and decision log: input and output only. The bus is any sequence of deliveries.
- Provider internals and the restore hook's breaker resets: provider results are inputs, the hook is a counter of restores.
- SHA-256 fingerprints and random event IDs: opaque keys. Uniqueness of event IDs is a hypothesis of the convergence lemmas; no claim is made that fingerprints are injective.
- Floating-point rounding: reals throughout.
- Admission.RunConserved: the bulkheads are modelled on values, as a step relation over all goroutines, not as a class, because the source's interleaving is the point; Go's memory model is taken as sequentially consistent, which its atomics are.
- Overspend.OverspendByLoad: assumes, as the wired providers do, that a response costs no more than its entry, and that limits do not change during the run.
- CircuitBreaker.ContainmentBound: for a caller that waits for each granted request before asking again, and without Reset.
- Consensus.MajorityDecides: needs fewer than twice the required votes; the general case is Consensus.VerdictForcedIff. The cluster status page's consensus flag, which counts observations rather than agreement, is not modelled.
- Convergence.ShowsTheLatest: at moments when no delivery is under way. Event IDs of heartbeats, observations and chaos commands share one table in the store; as IDs are unique, each kind is modelled with its own.
- Escalation.IsCriticalTask: lower-casing covers all characters whose lower case is ASCII, which is what the keywords can see. Escalation event IDs and timestamps are not modelled.
- Validator.Validate: takes the trimmed length and the parsed payload; the detail texts are left out.
- Handler.HandleChat: failure texts, headers and status codes; the incident reports; a decision's reason codes are copied, not aliased.
- LoadBalancer.TriesEveryBackendIff: until the 64-bit counter wraps.
- LoadBalancer.RoundRobinIsFair: until the 64-bit counter wraps.
- ChaosEngine.Engine.Run: durations and notes; a timer may expire at any time after it starts. The load generator is a flag.
- HealthObserver: the probe requests themselves.
