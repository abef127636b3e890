# A verified model of the xPyD proxy

The proxy schedules every completion request onto a prefill and a decode instance (or onto one
aggregated instance), releases what it scheduled exactly once, and lets an administrator add,
drain and remove instances while requests run. This project models that logic in Dafny and
proves what it keeps over whole runs. `dafny verify dfyconfig.toml` checks all of it.

## How it is organised

| file | what it models |
|---|---|
| `Common.dfy` | options, Python's list edits, a little arithmetic |
| `CircuitBreaker.dfy` | the timed breaker of each instance, and its histories |
| `Registry.dfy` | the registry's records: role, model, status, active count, breaker |
| `LoadBalancer.dfy` | the load balancer's index-addressed arrays over the shared address lists |
| `Leases.dfy` | unreleased reservations, and what the arrays should say about them |
| `Protocol.dfy`, `ProtocolSteps.dfy`, `ProtocolInvariant.dfy`, `ProtocolRuns.dfy` | the protocol: what it means for an address to be in step, the atomic steps, what they keep, the runs |
| `Agreement.dfy` | which requests leave the records in agreement |
| `Draining.dfy` | draining over whole runs |
| `Availability.dfy` | who is scheduled over whole runs: health results, breakers, additions, lengths |
| `Limits.dfy` | which model length belongs to which instance, over whole runs |
| `Reservations.dfy` | reservations whose handlers may be called any number of times, from anywhere |
| `Membership.dfy` | adding (with rollback) and removing an instance, over every record of it |
| `Discovery.dfy` | discovery on the shared lists, readiness, the health monitor's nodes |
| `PowerOfTwo.dfy`, `Workers.dfy`, `Routing.dfy` | the policies that keep workers of their own, and what membership changes do to them |
| `Proxy.dfy`, `ProxySteps.dfy` | the proxy object, whose methods take the protocol's steps |
| `Completion.dfy` | the completion handler and its streams, over every outcome of what they await |
| `HashRing.dfy`, `ConsistentHash.dfy`, `CacheAware.dfy` | both hash rings and what they mean |
| `EventStream.dfy`, `Streaming.dfy` | splitting and printing server-sent events; the two re-framing stages |
| `RoundRobin.dfy`, `Topology.dfy`, `ZmqBarrier.dfy`, `Retry.dfy` | round robin, topology expansion, the notification barrier, retries |

Objects that the program updates in place are classes; each of their methods is proved to compute
a function of the old state, and the theorems are about those functions and the runs they make up.
Everything between two awaits, and everything under one lock, is one atomic step. The outcome of
an awaited call, a clock reading, a hash and a JSON codec are parameters.

Prefill and decode addresses live in one mutable list per role. The proxy, the load balancer and
discovery hold references to the same list object, and `Proxies.Proxy.Wired` says so: discovery's
edits find the list already edited by the proxy.

## What holds only under a condition

- An aggregated reply that cannot be rendered (`NaN` is read but not printed) is completed twice, with
  no await between (`xpyd/routes/completions.py:1116-1146`). The second completion lowers the count of
  whatever other request is active on that instance. `ProtocolRuns.EveryReachableState` shows that all
  records agree throughout a run if and only if this never meets another active request, and
  `ProtocolRuns.EveryAddress` says the same of every single address. A drain can then remove the
  instance under a running request, whose own completion raises:
  `Draining.SpoiledDrainLosesAReservation`. Prefill and decode instances are not affected
  (`ProtocolRuns.PrefillAndDecodeAlwaysAgree`, `Draining.SplitDrainSafety`) unless an address is later
  added again under another role while such a request is still running; what then goes wrong, and with
  whom, is `ProtocolRuns.Spoils`.
- In a run, every request for a prefill or decode instance names its instance's model, as far as the
  models without a tokenizer are concerned. The load balancer counts a request by the model that the
  request names, and hears of its end by the models of its instances. So a request that names no model
  is always counted; its release is not reported if both instances, released in one call, serve models
  without a tokenizer, or if the one released on its own does. `Agreement.TogetherAgrees` and
  `Agreement.OneByOneAgrees` show that a request leaves the records out of step exactly then. The empty
  name is never among the models without a tokenizer (`xpyd/proxy.py:205`).
- `Completion.Serve` shows in which runs a request settles its account. These do not: reading the
  body fails other than by bad JSON, or the body is JSON on which validation raises, such as a number
  (the instance variables that the error path reads are not assigned yet); the request is cancelled
  outside its stream; scheduling the decode instance raises after a prefill instance was scheduled;
  prefill ends in an error other than the HTTP one, or discarding the notification raises; the stream
  is never started; an aggregated reply cannot be rendered after its completion was recorded. Only the
  last of them releases anything twice.
- An addition that fails part-way is undone completely unless it is the policy that raised after it had
  begun to record the instance: that it did is noted only when it returns. A ring may then keep the
  worker with any number of its points (`Membership.FailedAddRestores`).
- Round robin answers nobody exactly when no address of the cycle is available if addresses are
  distinct. A legacy list may name one twice, and can then hide an available one:
  `RoundRobin.DuplicateHidesInstance`; `RoundRobin.DrawnStops` says what happens on any list.
- Without a tracked request an instance carries no tokens, which is what makes the load balancer's
  zero-batch shortcut agree with its general rule; `LoadBalancer.ShortcutNeedsIdleEmpty` shows the
  shortcut going wrong without it.
- Scheduling excludes half-open instances and never asks them for a probe. So once its breaker has tripped
  an instance is picked again only if requests that it still had bring the successes that close it:
  `Availability.PickedAgainOnlyAfterSuccesses`. An instance without any stays out until it is added anew.
- On the ring that skips taken points, the state depends on the history when two workers share a
  point: `ConsistentHash.CollisionLosesPoint`. The other ring needs no such condition on its past.
- `docs/configuration.md:128` describes instance ports differently from the code; the model follows
  `xpyd/topology.py:92`.

## Model

| member | source | states |
|---|---|---|
| ProtocolRuns.EveryReachableState | xpyd/proxy.py:508-717 | In every run that interleaves requests, completions, health results, discovery, additions and drains, registry, arrays and leases agree in every state if and only if no aggregated request is completed twice while another is active on its instance; until then no step raises: no release reaches an unregistered address or one missing from its list |
| ProtocolRuns.EveryAddress | xpyd/proxy.py:508-717 | The same address by address, whatever state the other addresses are in: the records of an address agree in every state of a run if and only if no step spoils that address; lists go on following roles and arrays lists in every run |
| ProtocolRuns.PrefillAndDecodeAlwaysAgree | xpyd/proxy.py:508-717 | Where no address changes its role, the records of prefill and decode instances agree in every state and their releases never raise, whatever aggregated requests do |
| ProtocolInvariant.RepeatedRelease | xpyd/proxy.py:420-432 | Lowering an aggregated instance's count again for a lease already released keeps the records in agreement if and only if no request is active on it |
| Draining.DrainSafety | xpyd/proxy.py:563-617 | In every run, from the moment an instance is draining until its removal it stays draining whatever health results arrive, is never picked and gains no lease; unless an earlier step spoiled its address it is removed only without unreleased reservations |
| Draining.SplitDrainSafety | xpyd/proxy.py:563-617 | Where no address changes its role, a prefill or decode instance is removed only without unreleased reservations, whatever aggregated requests do |
| Draining.SpoiledDrainLosesAReservation | xpyd/routes/completions.py:1113-1146 | A run in which an aggregated reply cannot be rendered while another request is active: the drain removes the instance with an unreleased reservation, whose release raises |
| ProtocolRuns.StepKeeps | xpyd/proxy.py:508-717 | From a state in agreement a step raises nothing, and leads to one exactly when it does not complete an aggregated request twice beside another active one |
| ProtocolRuns.StepInStep | xpyd/proxy.py:508-717 | A step leaves the records of an address in agreement exactly unless it is one the step spoils |
| ProtocolRuns.RaisesOutOfStep | xpyd/proxy.py:534-561 | A step raises only where the records of an instance it releases disagree already |
| ProtocolRuns.StartSatisfiesInv | xpyd/proxy.py:1197-1219 | A proxy of any policy that starts without leases, with its lists matching its registry and all counters zero, has its records in agreement |
| Availability.NotPickedWhileUnhealthy | xpyd/health_monitor.py:80-95 | In every run, from a failed health result of an instance until its next good one or its addition, no policy picks it and it is in no available set |
| Availability.StaysAvailable | xpyd/registry.py:139-167 | In every run an available instance stays available, through any requests, releases and recorded successes, until a failure is recorded for it, a health result of its own fails, its drain begins or another model is discovered for it |
| Availability.GoodResult | xpyd/registry.py:218-231 | A good health result makes an instance available that is not draining and has a closed breaker, and an addition does so at once |
| Availability.PickedMayServe | xpyd/registry.py:152-166 | Whoever a step picks is registered with the role, healthy, of the model named, and has a closed breaker if breakers are enabled |
| Availability.BreakerFollowsCalls | xpyd/registry.py:248-300 | While an instance stays, its breaker is in the state that the breaker's own history makes of the looks, successes and failures the run has addressed to it since its addition |
| Availability.PickedOnlyIfClosed | xpyd/registry.py:160-164 | With breakers enabled an instance is picked only when that history leaves its breaker closed |
| Availability.PickedAgainOnlyAfterSuccesses | xpyd/registry.py:160-164 | After its breaker has tripped, an instance is picked again only once as many successes as the breaker asks for have been recorded for it, which only requests still in flight can bring |
| Availability.NotPickedBeforeTimeout | xpyd/circuit_breaker.py:77-87 | Nor is it picked while every reading of its breaker is less than the timeout after the trip |
| Availability.FittingRequestIsServed | xpyd/scheduler/load_balanced.py:92-115 | A request that the load balancer schedules finds somebody whenever an instance is available whose model length, as reported when it was added, it fits |
| Availability.PickIsLeastLoaded | xpyd/scheduler/load_balanced.py:104-165 | The load balancer's pick has the least unreleased work, in tokens for prefill, in requests and then tokens for decode, of all the available instances that the request fits |
| Draining.NeverPicked | xpyd/registry.py:139-167 | No step schedules onto a draining instance |
| Draining.StaysDraining | xpyd/registry.py:218-246 | No step but the removal ends an instance's draining |
| ProtocolInvariant.ThreeRecordsAgree | xpyd/scheduler/load_balanced.py:92-240 | At every position of a role's list the registry's active count is the number of unreleased reservations, also the batch counter unless the model has no tokenizer, and the token counter is the sum of the counted reservations' lengths |
| ProtocolInvariant.ReleaseIsSafe | xpyd/proxy.py:534-561 | Releasing an unreleased lease finds the instance registered and listed; neither the clamp of the active count nor the zero-count guard of the batch counter fires |
| ProtocolInvariant.BothIsOneByOne | xpyd/proxy.py:534-561 | Completing both instances of a reservation in one call is completing one after the other |
| Agreement.TogetherAgrees | xpyd/proxy.py:516-561 | A request released in one call leaves the records in agreement if and only if it names a model or not both its instances serve models without tokenizer |
| Agreement.OneByOneAgrees | xpyd/proxy.py:516-561 | A request whose prefill instance is released early leaves the records in agreement if and only if it names a model or neither of its instances serves a model without tokenizer |
| Agreement.AgreementNeedsTheModel | xpyd/proxy.py:516-561 | One instance scheduled and released alone leaves the records in agreement if and only if the request names a model or the instance's model has a tokenizer |
| ProtocolInvariant.DecodeChoiceIsLexicographic | xpyd/scheduler/load_balanced.py:148-158 | In every state of the invariant the decode choice is the lexicographic minimum of batch, token load and index |
| ProtocolInvariant.RemovedKeeps | xpyd/proxy.py:589-617 | Removing an instance without active requests keeps the records in agreement; it has no unreleased lease left |
| ProtocolInvariant.AddedKeeps | xpyd/proxy.py:669-696 | Adding a new instance keeps the records in agreement |
| Leases.CompletionAgrees | xpyd/scheduler/load_balanced.py:205-210 | Completing a counted reservation: the guard does not fire, the idle reset leaves exactly what plain subtraction leaves, and the arrays agree with the remaining leases |
| Leases.CompletionElsewhere | xpyd/scheduler/load_balanced.py:205-210 | Whatever state the other positions are in, completing elsewhere, idle reset included, leaves a position right that was |
| Leases.LeaseAgrees | xpyd/scheduler/load_balanced.py:116-127 | Counting a new reservation at its position keeps the arrays in agreement with the leases |
| Leases.ShrinkAgrees | xpyd/scheduler/load_balanced.py:65-75 | Deleting an instance's entries keeps the arrays in agreement with list and leases |
| Limits.LimitFollowsInstance | xpyd/proxy.py:641-717 | Through all additions, removals and requests of a run an instance keeps, at whatever position it has, the model length it was added with |
| Limits.RequestsFit | xpyd/scheduler/load_balanced.py:98-103 | A request the load balancer places fits the model length the instance reported when it was added, however the list changed since |
| Limits.ExtensionKeepsPlaces | xpyd/scheduler/load_balanced.py:53-63 | Extending list and arrays leaves every instance its entries and gives the new one only its limit |
| Limits.RemovalKeepsPlaces | xpyd/scheduler/load_balanced.py:65-75 | Deleting one instance's entries leaves every other instance its own batch, tokens and limit |
| Reservations.EveryHandlerCallIsSafe | xpyd/routes/completions.py:51-91 | In every run with any calls of the reservations' handlers, repeated, late or overlapping, on whatever addresses no step spoils, each release is of an unreleased lease on a listed, registered instance |
| Reservations.InOneRoleAllIsSafe | xpyd/routes/completions.py:51-91 | Where no address changes its role, so is every release of every reservation, whatever aggregated requests do |
| Reservations.WithoutOverlapAllIsSafe | xpyd/routes/completions.py:51-91 | So it is where no aggregated request is completed twice beside another, and all records agree |
| Reservations.ReleasedForGood | xpyd/routes/completions.py:86-91 | After a call naming both instances both leases are released, and every later call is without effect |
| Reservations.CallIsAllowed | xpyd/routes/completions.py:68-84 | Whatever a handler call releases is unreleased and releasing it does not raise |
| LoadBalancer.ShortcutAgrees | xpyd/scheduler/load_balanced.py:148-155 | If an idle position carries no tokens, the zero-batch shortcut picks the lexicographic minimum |
| LoadBalancer.ShortcutNeedsIdleEmpty | xpyd/scheduler/load_balanced.py:148-155 | With tokens on an idle position the shortcut picks another position than the lexicographic minimum |
| LoadBalancer.LastCompletionClears | xpyd/scheduler/load_balanced.py:189-240 | The last counted completion of a role leaves no tokens anywhere, whatever the counters had drifted to; any other subtracts at its position alone; a completion where nothing is counted changes nothing |
| LoadBalancer.LoadBalancedScheduler.SchedulePrefill | xpyd/scheduler/load_balanced.py:92-127 | Picks the first position of least tokens among those available and long enough, counts it, and returns none exactly when there is none |
| LoadBalancer.LoadBalancedScheduler.ScheduleDecode | xpyd/scheduler/load_balanced.py:129-175 | Picks a position of least batch, at batch zero the first, otherwise the first of least tokens; none exactly when none is eligible |
| LoadBalancer.LoadBalancedScheduler.CompletePrefill | xpyd/scheduler/load_balanced.py:189-210 | Raises exactly for an unlisted address; otherwise ignores a zero batch counter, or decrements with the idle reset |
| LoadBalancer.LoadBalancedScheduler.CompleteDecode | xpyd/scheduler/load_balanced.py:212-240 | The same for decode |
| LoadBalancer.LoadBalancedScheduler.AddInstanceState | xpyd/scheduler/load_balanced.py:53-63 | Extends the three arrays of the role, and no others |
| LoadBalancer.LoadBalancedScheduler.RemoveInstanceState | xpyd/scheduler/load_balanced.py:65-75 | Deletes the position from the three arrays of the role, and no others |
| LoadBalancer.LoadBalancedScheduler.constructor | xpyd/scheduler/load_balanced.py:17-51 | The arrays describe the two shared lists, all counters zero |
| Registry.LookingKeepsAvailability | xpyd/registry.py:139-167 | Reading breakers while filtering changes breakers only, and makes nobody available or unavailable |
| Registry.AvailableExactly | xpyd/registry.py:152-166 | The filter passes exactly the registered instances of the role that are healthy, serve the model if one is named, and have a closed breaker if breakers are enabled |
| Registry.InstanceRegistry.GetAvailableInstances | xpyd/registry.py:139-167 | Answers, in the order of registration, every instance that is registered with the role, healthy, of the model if one is named, and, with breakers enabled, has a closed breaker, before and after the look; and nobody else. The look moves just the open breakers of such instances whose timeout has passed to half-open |
| Registry.InstanceRegistry.Add | xpyd/registry.py:82-113 | Raises exactly for a registered address; otherwise adds a fresh record |
| Registry.InstanceRegistry.Remove | xpyd/registry.py:115-127 | Raises exactly for an unknown address; otherwise removes it alone |
| Registry.InstanceRegistry.BeginDraining | xpyd/registry.py:129-137 | Unknown address and wrong role raise without effect; otherwise the status becomes draining |
| Registry.InstanceRegistry.MarkHealthy | xpyd/registry.py:218-231 | An unknown address raises; a draining instance stays draining, any other is healthy afterwards, and nothing else changes |
| Registry.InstanceRegistry.MarkUnhealthy | xpyd/registry.py:233-246 | An unknown address raises; a draining instance stays draining, any other is unhealthy afterwards, and nothing else changes |
| Registry.InstanceRegistry.IncrementActiveRequests | xpyd/registry.py:311-322 | Adds one to that instance's count alone |
| Registry.InstanceRegistry.DecrementActiveRequests | xpyd/registry.py:324-335 | Subtracts one from that instance's count alone, not below zero |
| Registry.InstanceRegistry.UpdateModel | xpyd/registry.py:204-216 | Changes that instance's model alone |
| Registry.InstanceRegistry.RecordSuccess | xpyd/registry.py:248-261 | Raises exactly for an unknown address; otherwise that breaker alone sees a success |
| Registry.InstanceRegistry.RecordFailure | xpyd/registry.py:263-276 | Raises exactly for an unknown address; otherwise that breaker alone sees a failure |
| Registry.InstanceRegistry.GetInstanceModel | xpyd/registry.py:278-300 | Returns the model; taking the snapshot looks at that instance's breaker and changes nothing else |
| Proxies.Proxy.Schedule | xpyd/proxy.py:508-532 | The policy of the model picks an available instance: the balancer's choice, the cycler's next available, the answer of either ring reduced to the available, or one of two sampled; it is counted in registry and arrays; only a request not naming its instance's model can leave the records out of step |
| Proxies.Proxy.ScheduleCompletion | xpyd/proxy.py:534-561 | Never raises for leases held; releases exactly them in the registry, and in the arrays unless every instance serves a model without tokenizer; breakers are at most looked at, and only theirs |
| Proxies.Proxy.ExceptionHandler | xpyd/proxy.py:796-817 | What a reservation calls to let go never raises and leaves every record in step; beyond the release each instance let go of sees one success, which leaves a closed breaker as it is, counts in a half-open or expired one, closes it at the threshold and opens none; every other breaker stays as it is |
| Proxies.Proxy.RecordSuccesses | xpyd/proxy.py:809-814 | Each of two different instances sees one success, and no other breaker changes |
| Proxies.Proxy.RecordFailures | xpyd/proxy.py:819-829 | Each instance named sees one failure, the decode instance only if the prefill one is registered, and every record stays in step |
| Proxies.Proxy.AddInstance | xpyd/proxy.py:641-717 | Refuses an invalid or known instance; an addition failing part-way leaves lists, arrays, workers, health nodes, readiness and registry as they were if and only if it is not the policy that raised after it had begun to record the instance, with any number of its ring points; a successful one is the protocol's step and keeps every record in step |
| Proxies.Proxy.BeginDrain | xpyd/proxy.py:563-577 | Takes the lock and marks the instance, or raises for an unknown address or wrong role, without effect but on breakers |
| Proxies.Proxy.PollDrain | xpyd/proxy.py:577-617 | Waits while requests are active and time is left; gives up when time is out; otherwise removes the instance, which then has no unreleased lease, from every record |
| Proxies.Proxy.ApplyHealth | xpyd/health_monitor.py:80-95 | A health result, late or not, is a step of the protocol and keeps every record in step; it does not touch a draining instance, makes any other healthy or unhealthy, and after a failed one the instance may serve no role and no model |
| Proxies.Proxy.ProbeNode | xpyd/health_monitor.py:80-95 | Status 200 is a good result, any other answer or failure a failed one, after which the instance may serve no role and no model |
| Proxies.Proxy.DiscoverModel | xpyd/discovery.py:266-320 | Only a discovered model of an aggregated instance, or one that moves an instance in use into or out of the models without tokenizer, can leave the records out of step |
| Proxies.Proxy.ScheduleAggregated | xpyd/proxy.py:286-384 | Nothing for an unknown model or without an available instance; otherwise the pick of the strategy, least active, in turn, or the cached policy's answer among the available, gets one more untracked lease and every record stays in step |
| Proxies.Proxy.LeastActiveOf | xpyd/proxy.py:407-418 | The first of the available instances with the fewest active requests |
| Proxies.Proxy.IsAggregatedModel | xpyd/proxy.py:270-284 | Exactly the models with a configured or discovered aggregated instance |
| Proxies.Proxy.CompleteAggregated | xpyd/proxy.py:420-432 | Releases exactly one lease, without raising |
| Proxies.Proxy.RepeatCompletion | xpyd/routes/completions.py:1128-1146 | The completion recorded once more leaves the proxy valid exactly if no request is active on the instance |
| ProxySteps.TurnsAreFair | xpyd/proxy.py:372-378 | While the available instances stay the same, consecutive picks in turn go round them in order from the turn they find: as many as there are take each of them, and none twice |
| ProxySteps.SchedulingSteps | xpyd/proxy.py:508-532 | Scheduling is two steps of the protocol and keeps every record in step when the request names its instance's model |
| ProxySteps.CompletionSteps | xpyd/proxy.py:534-561 | Releasing what a reservation still holds is one step of the protocol and keeps every record in step |
| Proxies.Proxy.constructor | xpyd/proxy.py:1197-1233 | The proxy, the load balancer and discovery share the two lists, and the cyclers follow them |
| Proxies.Proxy.StartsValid | xpyd/proxy.py:1075-1233 | Put together from parts that all describe the registered instances, with all counters zero, the proxy is valid |
| Proxies.Proxy.AddInstanceToPolicy | xpyd/proxy.py:619-629 | Extends the load balancer's arrays, or lets the worker join whichever ring or pool the policy keeps |
| Proxies.Proxy.RemoveInstanceFromPolicy | xpyd/proxy.py:631-639 | Deletes the position from the load balancer's arrays, or the worker from whichever ring or pool the policy keeps |
| Workers.JoinedThenParted | xpyd/proxy.py:619-639 | On either ring and in the pool, a worker that joins and parts again leaves no trace |
| Workers.PartlyJoinedThenParted | xpyd/scheduler/cache_aware.py:49-71 | Nor does one whose joining raised after any number of its points, once it parts |
| Workers.PartlyJoinedOwns | xpyd/scheduler/consistent_hash.py:52-67 | A worker whose joining raised after some points owns exactly those points, but for points taken before on the ring that skips them |
| Routing.Router.SelectFrom | xpyd/proxy.py:335-371 | A ring answers with plain lookup on its entries reduced to the available, and with nobody exactly if no available worker owns an entry; the sampling policy never picks the one instance busier than all others |
| Routing.StackedRingServesAll | xpyd/scheduler/cache_aware.py:49-99 | The stacking ring answers with somebody whenever somebody is available |
| PowerOfTwo.NeverTheBusiest | xpyd/scheduler/power_of_two.py:102-122 | Whatever two candidates are sampled, the pick is not the single busiest of all |
| Membership.FailedAddRestores | xpyd/proxy.py:697-716 | Whatever step of an addition fails, with or without its effect, or the policy after any number of ring points, the rollback restores lists, arrays, workers, health nodes, readiness and registry if and only if it is not the policy that raised after it had begun to record the instance; then just what it recorded stays, and is out of step |
| Membership.AddSucceeds | xpyd/proxy.py:669-696 | A successful addition is the protocol's step and keeps every record in step, discovery finding the shared list already extended |
| Membership.DetachKeeps | xpyd/proxy.py:589-617 | Finishing a drain does what the protocol's step does and keeps every record in step |
| Discovery.NodeDiscovery.AddInstance | xpyd/discovery.py:125-138 | Appends to the shared list only what is not there, and marks it healthy |
| Discovery.NodeDiscovery.RemoveInstance | xpyd/discovery.py:110-123 | Removes from the shared list if there, and from the healthy set |
| Discovery.NodeDiscovery.ProbeResult | xpyd/discovery.py:229-264 | An instance removed while it was probed is not marked healthy: the healthy sets hold listed instances only |
| Discovery.NodeDiscovery.IsReady | xpyd/discovery.py:64-75 | Ready exactly with a healthy decode instance and, if any is listed, a healthy prefill one, or with a healthy aggregated one |
| Discovery.HealthMonitor.AddNode | xpyd/health_monitor.py:57-60 | Appends the node unless it is there |
| Discovery.HealthMonitor.RemoveNode | xpyd/health_monitor.py:62-65 | Removes the node if it is there |
| Completion.Serve | xpyd/routes/completions.py:540-1157 | Over every way a request and its stream can go: each scheduled instance is released exactly once, the metric ends exactly once and all gauges return to their entry values if and only if the run is clean; something is released or ended twice in exactly one kind of run |
| Completion.HandleCompletion | xpyd/routes/completions.py:540-1003 | The handler alone: the same equivalence for runs that return no stream, and the exact account handed over with a stream |
| Completion.RunStream | xpyd/routes/completions.py:921-977 | A started stream, however it ends, releases what is left of both instances, ends the metric and lowers the decode gauge |
| Completion.RunRelay | xpyd/proxy.py:88-144 | What is outstanding when the generators stop, by their arrangement and where they stop: they release the instance of the part they were in, both after a head, and nothing when left suspended |
| Completion.Finalize | xpyd/proxy.py:98-117 | Finalizing a suspended generator after the stream ended releases nothing again |
| Completion.RequestReservation.ExceptionHandler | xpyd/routes/completions.py:68-84 | What was scheduled stays released or outstanding, never both; exactly the named instances not released before are released; nothing else of the account changes |
| Completion.CallIsAct | xpyd/routes/completions.py:51-91 | The object's call is the handler call of the protocol's runs: the same flags, and just the leases of what it releases |
| Completion.RequestReservation.ReleaseAll | xpyd/routes/completions.py:86-91 | Afterwards everything scheduled is released exactly once |
| Completion.RunAggregatedStream | xpyd/routes/completions.py:1064-1087 | A started aggregated stream releases its instance once and ends the metric once |
| Completion.UnreservedEnds | xpyd/routes/completions.py:978-1003 | Runs without a reservation of both instances settle exactly when clean, after the error path if they raise |
| Completion.ReservedEnds | xpyd/routes/completions.py:978-1003 | Runs with a reservation that return no stream settle exactly when clean, and never release twice |
| HashRing.FilteredIsPlainAfterRemoval | xpyd/scheduler/cache_aware.py:85-99 | The filtered walk answers what plain lookup answers once every worker outside the candidates is off the ring; none exactly when no candidate owns an entry |
| HashRing.MinimalDisruption | xpyd/scheduler/consistent_hash.py:96-122 | Taking a worker off changes only answers that were that worker |
| HashRing.BisectRight | xpyd/scheduler/consistent_hash.py:121-122 | Binary search finds the boundary after the keys at most x |
| HashRing.BisectLeft | xpyd/scheduler/consistent_hash.py:78-80 | Binary search finds the boundary before the keys at least x |
| HashRing.WalkFrom | xpyd/scheduler/consistent_hash.py:152-158 | The index walk with wrap-around is one trip around the ring |
| ConsistentHash.ConsistentHashPolicy.AddWorker | xpyd/scheduler/consistent_hash.py:52-67 | Claims exactly the untaken points; the keys stay strictly sorted and equal to the map's domain |
| ConsistentHash.ConsistentHashPolicy.RemoveWorker | xpyd/scheduler/consistent_hash.py:69-80 | Gives up exactly the worker's own points, all of them |
| ConsistentHash.ConsistentHashPolicy.Select | xpyd/scheduler/consistent_hash.py:117-122 | The owner of the next point clockwise |
| ConsistentHash.ConsistentHashPolicy.SelectFrom | xpyd/scheduler/consistent_hash.py:128-158 | Plain lookup on the ring reduced to the candidates |
| ConsistentHash.AddThenRemove | xpyd/scheduler/consistent_hash.py:52-80 | Adding an absent worker and removing it is the identity, collisions included |
| ConsistentHash.RemovalDisruption | xpyd/scheduler/consistent_hash.py:69-80 | Removing a worker changes the answer only of keys it owned |
| ConsistentHash.AdditionDisruption | xpyd/scheduler/consistent_hash.py:52-67 | Adding a worker changes an answer only to that worker |
| ConsistentHash.StateIsWorkersPoints | xpyd/scheduler/consistent_hash.py:52-80 | After any history without shared points the map is exactly the points of the current workers |
| ConsistentHash.StateDependsOnlyOnWorkers | xpyd/scheduler/consistent_hash.py:52-80 | Two such histories with the same workers end in the same ring |
| ConsistentHash.CollisionLosesPoint | xpyd/scheduler/consistent_hash.py:58-65 | With a shared point the loser does not get it back when the winner leaves |
| CacheAware.ConsistentHashRing.AddWorker | xpyd/scheduler/cache_aware.py:49-57 | Inserts each point before its equals in both parallel lists, which stay sorted |
| CacheAware.ConsistentHashRing.RemoveWorker | xpyd/scheduler/cache_aware.py:59-71 | Rebuilds both lists without the worker, in order |
| CacheAware.ConsistentHashRing.Get | xpyd/scheduler/cache_aware.py:73-80 | The owner of the next entry clockwise |
| CacheAware.ConsistentHashRing.LookupFrom | xpyd/scheduler/cache_aware.py:85-99 | Plain lookup on the ring reduced to the candidates |
| CacheAware.CacheAwarePolicy.SelectFrom | xpyd/scheduler/cache_aware.py:194-211 | The same, and none exactly when no candidate owns an entry |
| CacheAware.HistoryValid | xpyd/scheduler/cache_aware.py:49-71 | After any history the list is sorted and holds each current worker's points, each as often as it is hashed to |
| CacheAware.AddThenRemove | xpyd/scheduler/cache_aware.py:49-71 | Adding an absent worker and removing it is the identity, collisions included |
| CacheAware.RemovalDisruption | xpyd/scheduler/cache_aware.py:59-71 | Removing a worker changes the answer only of keys it owned |
| CacheAware.AdditionDisruption | xpyd/scheduler/cache_aware.py:49-57 | Adding a worker changes an answer only to that worker |
| CacheAware.NewcomerTakesItsPoints | xpyd/scheduler/cache_aware.py:49-57 | A new worker answers every key whose next point clockwise is one of its own, even a point it shares |
| CacheAware.StateDependsOnlyOnWorkers | xpyd/scheduler/cache_aware.py:49-71 | Without collisions between the current workers the state depends only on the worker set |
| CacheAware.RingsAnswerAlike | xpyd/scheduler/cache_aware.py:73-80 | If no two workers of a history share a point, both rings answer every key alike after it |
| EventStream.SplitConcat | xpyd/routes/completions.py:316-319 | Splitting text that arrives in two parts continues from what the first part left over, wherever the cut falls |
| Streaming.ChunkingIndependence | xpyd/routes/completions.py:308-339 | Frames, their order, the role's place and the ending depend only on the concatenated text |
| Streaming.ExactlyOneRole | xpyd/routes/completions.py:334-336 | With the role pending, a stream with any choices carries exactly one assistant role, on the first event with choices; otherwise none |
| Streaming.FrameIsOneEvent | xpyd/routes/completions.py:370-380 | A frame printed by the usage rewriter is split again into exactly one event with the rewritten lines |
| Streaming.StagesCompose | xpyd/routes/completions.py:363-436 | Feeding the rewriter's frames to the converter yields one for one what converting the upstream events with corrected usage yields, failing where that fails |
| Streaming.PipelineFollowsUpstream | xpyd/routes/completions.py:288-436 | The two stages on an upstream cut in any way: the chat frames of the upstream's own events; the rewriter fails exactly at a payload that is no object, at usage it cannot add up or at an incomplete event, the converter exactly at passed choices that are no list of objects |
| Streaming.PipelineCarriesOneRole | xpyd/routes/completions.py:363-436 | The two stages carry exactly one role if any frame has choices, none if it was sent before |
| Streaming.ChatFollowsUpstream | xpyd/routes/completions.py:286-339 | A chat stream, however its text is cut: the frames and the payloads of the upstream's data lines correspond one for one, with texts, indices and fields kept, and the stream ends in an error exactly at a refused payload or at text after the last event |
| Streaming.UsageFollowsUpstream | xpyd/routes/completions.py:353-382 | The same for the usage rewriter: one frame for each event up to the first it stops in, usage corrected and all else kept |
| Streaming.PipelineCarriesUpstream | xpyd/routes/completions.py:286-436 | Through both stages the client receives one frame for each payload of the events passed, with the texts and fields of the upstream's chunk and its usage corrected |
| Streaming.ConvertCarries | xpyd/routes/completions.py:286-336 | Line by line: one frame for each payload in order, carrying what the payload says, up to the first refused |
| Streaming.RewritingCorrects | xpyd/routes/completions.py:363-382 | Event by event: each frame printed is one event whose lines read back as the lines received with corrected usage |
| Streaming.HeadCarriesTheToken | xpyd/routes/completions.py:396-414 | The head frame of a chat has one choice, at index 0, whose content is the prefill token |
| Streaming.HeadCarriesTheRole | xpyd/routes/completions.py:385-424 | A chat stream that starts with the prefill token carries exactly one role, on that first frame |
| Streaming.MergeConserves | xpyd/routes/completions.py:353-360 | Moving the prefill token conserves prompt plus completion tokens, which becomes the total; without a prompt token the sum grows by one |
| Streaming.ChatCompletionStream.Receive | xpyd/routes/completions.py:316-337 | The buffer loop yields one frame for each payload of the events completed: the done frame for the end mark, otherwise the chunk's choices by position with their texts as content, their own index or else the position, log probabilities and finish reason, and the chunk's fields but for object and metadata; it stops exactly at a payload that is no object or has odd choices |
| Streaming.ChatCompletionStream.Finish | xpyd/routes/completions.py:338-339 | The error is raised exactly for text other than white space after the last event |
| Streaming.UsageGenerator.Receive | xpyd/routes/completions.py:363-380 | The buffer loop prints one frame for each event completed, which splits into one event again; its data lines read back as the chunks received with one completion token more, one prompt token fewer where there was one, and their sum as total; other lines stay; it stops exactly at a payload that is no object or has odd usage |
| Streaming.UsageGenerator.Finish | xpyd/routes/completions.py:381-382 | The error is raised exactly for text other than white space after the last event |
| CircuitBreakers.WindowIsExact | xpyd/circuit_breaker.py:107-121 | A failure recorded while closed leaves exactly the failures since the last close that lie in the window ending now, and trips exactly when their number reaches the threshold |
| CircuitBreakers.NothingAdmittedBeforeTimeout | xpyd/circuit_breaker.py:76-105 | From the failure that trips the breaker until the timeout has elapsed nothing is admitted |
| CircuitBreakers.OneProbeBetweenOutcomes | xpyd/circuit_breaker.py:89-105 | While not closed, at most one probe is admitted between recorded outcomes |
| CircuitBreakers.ClosesOnlyAfterSuccesses | xpyd/circuit_breaker.py:123-143 | It closes only on the success that completes the threshold of successes since it entered half-open, with no failure since |
| CircuitBreakers.ClosesAtThreshold | xpyd/circuit_breaker.py:123-142 | And every success that completes that number closes it |
| CircuitBreakers.AdmissionIsExact | xpyd/circuit_breaker.py:89-105 | A request is admitted if and only if the breaker is closed, or the timeout has passed since the failure that tripped it and no probe has been admitted since the last outcome; at that time the breaker is no longer open |
| CircuitBreakers.SuccessMeans | xpyd/circuit_breaker.py:123-142 | A success leaves a closed or unexpired open breaker as it is, opens none, and otherwise counts one and closes at the threshold |
| CircuitBreakers.PurgeIsWindow | xpyd/circuit_breaker.py:162-165 | Popping from the front of a deque in time order leaves exactly what lies in the window |
| CircuitBreakers.CircuitBreaker.State | xpyd/circuit_breaker.py:76-87 | Reading moves an expired open breaker to half-open |
| CircuitBreakers.CircuitBreaker.AllowRequest | xpyd/circuit_breaker.py:89-105 | The admission answer and the new state |
| CircuitBreakers.CircuitBreaker.RecordFailure | xpyd/circuit_breaker.py:107-121 | The new state after a failure |
| CircuitBreakers.CircuitBreaker.RecordSuccess | xpyd/circuit_breaker.py:123-143 | The new state after a success |
| CircuitBreakers.CircuitBreaker.PurgeOldFailures | xpyd/circuit_breaker.py:162-165 | The deque without its old front |
| Topology.BitTest | xpyd/topology.py:12-13 | The bit test recognises exactly the powers of two |
| Topology.ValidatedShape | xpyd/topology.py:16-47 | A valid topology has a node count and a world size that are powers of two, so one of TP size and world size divides the other |
| Topology.ValidExactly | xpyd/topology.py:16-47 | Accepted are exactly the powers of two whose product fills the nodes |
| Topology.InstancesPerNode | xpyd/topology.py:77-94 | Each node hosts exactly world/tp instances, or every (tp/world)-th node hosts one |
| Topology.ValidateTopology | xpyd/topology.py:16-47 | Accepts exactly the valid configurations |
| Topology.MainNodeOf | xpyd/topology.py:80-88 | The out-of-range error is unreachable |
| Topology.PlaceInstances | xpyd/topology.py:77-96 | The placement loop gives instance i the closed-form node and port |
| Topology.ExpandTopology | xpyd/topology.py:50-96 | Fails exactly on an invalid configuration or an unparsable node; otherwise the closed form |
| Topology.EndpointsDistinct | xpyd/topology.py:90-94 | With distinct hosts the endpoints are pairwise distinct |
| Topology.PortsInOrder | xpyd/topology.py:78-96 | The instances of a node take its ports one after the other from the base port on, in order |
| Topology.EndpointParsed | xpyd/topology.py:64-74 | An endpoint is parsed back into its host and port |
| Topology.DigitsDenote | xpyd/topology.py:96 | The port is printed in decimal: its digits denote it, without leading zeros |
| RoundRobin.RoundRobinSchedulingPolicy.Schedule | xpyd/scheduler/round_robin.py:35-51 | On any list the drawing loop goes on until an item is available or comes round again |
| RoundRobin.DrawnStops | xpyd/scheduler/round_robin.py:40-51 | On any list a call stops within one draw more than the list has; it picks the first available item unless an item comes round again before, and then answers nobody |
| RoundRobin.DuplicateHidesInstance | xpyd/scheduler/round_robin.py:40-51 | A list that names an address twice can hide an available one |
| RoundRobin.DistinctCalls | xpyd/scheduler/round_robin.py:40-51 | On distinct addresses a call is the next available one within one trip round |
| RoundRobin.CallStops | xpyd/scheduler/round_robin.py:40-51 | On distinct addresses a call stops within one draw more than the cycle has, and answers nobody exactly when no address of the cycle is available |
| RoundRobin.EachOnceInCycleOrder | xpyd/scheduler/round_robin.py:40-51 | Under a fixed availability set, as many consecutive calls as there are available addresses pick each exactly once, in cycle order |
| ZmqBarrier.CountsAreNotifications | xpyd/zmq_notifications.py:50-103 | In every reachable state the active ids are the counted ids and each count is the number of notifications since registration |
| ZmqBarrier.EveryWaitWasNotified | xpyd/zmq_notifications.py:60-70 | In every run, at every normal end of a wait, at least the expected notifications for that id have arrived since its registration |
| ZmqBarrier.WaitNeedsNotifications | xpyd/zmq_notifications.py:60-70 | A wait can return normally exactly when at least the expected notifications arrived since registration |
| ZmqBarrier.NotificationsAreSeparate | xpyd/zmq_notifications.py:88-95 | A notification changes no other id's entry, and nothing for an unknown id |
| ZmqBarrier.GoneForGood | xpyd/zmq_notifications.py:55-70 | Once a wait has ended or the request is discarded, no entry for it ever appears again |
| ZmqBarrier.ZmqNotificationListener.RegisterRequest | xpyd/zmq_notifications.py:50-53 | Activates the id with count zero |
| ZmqBarrier.ZmqNotificationListener.DiscardRequest | xpyd/zmq_notifications.py:55-58 | Removes the id and its count |
| ZmqBarrier.ZmqNotificationListener.Receive | xpyd/zmq_notifications.py:88-95 | Counts a notification for an active id and ignores others |
| Retry.Execute | xpyd/resilience.py:71-179 | At most max_retries + 1 requests, each where the selector leads; one callback for each answered one, and a request that raises ends the call; success only last; every earlier response retryable, unsuccessful and non-streaming; a call that can select no first instance sends nothing; distinct instances if the selector honours exclusions; the trailing return reached exactly with a negative limit |
| Retry.BackoffBounds | xpyd/resilience.py:36-52 | For all non-negative settings the delay exceeds the cap at most by the jitter, a jitter factor of at most one keeps it non-negative, and before jitter it never shrinks for a multiplier of at least one and never grows for one of at most one |
| Retry.DelaysGrow | xpyd/resilience.py:36-52 | The first delay is the initial one and each further one the one before times the multiplier, both up to the cap |
| Retry.EveryWaitInRange | xpyd/resilience.py:36-52 | Every wait within the jitter range around a positive delay is reached by some jitter |

## Left out

- HTTP, FastAPI, uvicorn, sockets, msgpack, logging, metrics export and timings: outcomes of awaited calls are parameters, and only the request metric and the three gauges are kept.
- Tokenizers, SHA-256 and JSON: key text is hashed to any integer, and a codec is any pair of reading and printing functions; printing gives one trimmed line that reads back.
- UTF-8 decoding of partial characters and the line ends other than LF that `str.splitlines` knows: text is characters with LF only.
- Configuration, command line, the config fixer and the init wizard: validation and prompts only.
- Lists with duplicate addresses, which legacy configurations allow: only round robin is modelled on them; elsewhere addresses are distinct.
- Which worker pair `PowerOfTwoPolicy` samples: it may be any two available instances.
- When and with which workers the policies of aggregated models are created and cached: what such a policy answers is modelled, its membership is not tracked.
- Aggregated instances configured without a model and discovered later: the pool's key and the discovered name differ.
- The model set without tokenizer growing while requests run: it is fixed.
- A failure recorded for an instance that was removed after an early prefill release raises a key error (`Proxies.Proxy.RecordFailures`): only releases are proved never to raise.
- Thread-level interleaving inside one locked region.
- Several clock readings inside one call: the looks and successes of one call share a reading; a recorded failure has its two.
- Which outcomes a request records for its instances, and when: in a run successes and failures may come at any time, and only the call that lets go is tied to its successes.
- The schedule and completion indices of the load balancer, which are only logged.
- The bodies of prefill and decode requests, the token merging of non-streaming replies and the prefill-only reply: only how they end and what they release is modelled.
- Streaming.MergeConserves: token counts are integers. A count that is not, such as a float, makes the modelled rewriter fail, where the program would add it up.
- A policy that raises half-way through extending its arrays or its pool: it has recorded the whole entry or nothing.
- Retry.Execute: the sleep between attempts is not in the trace; its length is bounded separately.
- ZmqBarrier.WaitNeedsNotifications: a time-out may come at any moment, so nothing is stated about when a wait ends.
