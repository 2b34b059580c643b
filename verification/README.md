# Firepaas control and data path in Dafny

Firepaas runs tenant machines (micro-VMs) on agent nodes, routes HTTP traffic to them through
edge proxies, and places, scales, rolls out and confines them from a control plane. This project
models the parts of it whose correctness is a matter of state over time, and proves what they
promise for every input, every interleaving and every run.

Each state machine is a total function from a state and an event to the next state. Everything
the original cannot choose (which write fails and what it leaves on disk, when a process dies,
what the runtime, the origin, Prometheus or the clock answer, which random number is drawn) is
part of the event, so a lemma about all event sequences is a lemma about all runs. Code that
changes things in place is written as classes and loops and proved equal to the functions the
lemmas are about.

| file | subject |
|---|---|
| `AgentState`, `AgentStores` | the agent's ledger, fences and credentials: memory, file, rollback, restart |
| `AgentProtocol`, `AgentSafety`, `AgentEffects`, `AgentMarks`, `AgentWitnesses`, `AgentRunner`, `AgentDeletes` | the fenced mutation protocol: its steps, its whole-run guarantees, what successes go back to, its marks, runs that reach its limits, its code |
| `Base`, `Traces` | the optional value; runs of a transition function in general |
| `Fabric` | node-level fabric snapshots and the policy built from them |
| `Catalog`, `CatalogReads` | the revision-guarded route projection in Redis, and lookups that read it in two steps |
| `Lru`, `RouteCache`, `TokenBucket`, `Refusals`, `Inflight` | the edge: bounded table, route cache, rate limits and their converse, in-flight slots |
| `Signals`, `Autoscale`, `AutoscaleLoop` | load signals, scaling arithmetic and the decision loop |
| `Rollout`, `RolloutRunner`, `RolloutLaws` | rollout state machine, cutover analysis, replica reconciliation, approval |
| `Filters`, `Ranking`, `Scheduler`, `Scoring`, `Capacity` | the Best-of-K scheduler, its score and its capacity bound |
| `HostNames`, `HostForms`, `Sniff`, `PeekForms`, `Egress`, `EgressRules`, `EgressProxy` | egress: names, ClientHello and HTTP sniffing, decisions, publication |

## Where the code is weaker than it looks

The model follows the code. Where a natural property fails, a lemma exhibits the failure and
another gives the exact condition under which the property holds.

- A mark on disk can fall when an earlier write failed after its rename
  (`AgentMarks.DiskMarkMayFall`); `AgentMarks.EventLowersExactly` says when, and the disk mark
  never falls below the mark in memory (`AgentMarks.DiskTrailsMemory`).
- A machine delete writes its completed record before it advances the fence, and a retry then
  answers from the record without ever advancing it (`AgentMarks.DeleteRecordMayPrecedeFence`,
  `AgentMarks.RetriesNeverStart`); `AgentMarks.DeleteRecordMarkedExactly` says when the record is
  covered by the mark. A rejected stale resource delete may leave a claim behind
  (`AgentDeletes.StaleDeleteClaims`).
- The replay check of a machine delete comes before the lock: a second call of a completed delete
  that is already past it runs the effect again and removes an instance created since
  (`AgentWitnesses.SecondCallDeletesAgain`).
- A replayed create may succeed after its instance is gone, but only after a delete or a
  replacement of the machine has run (`AgentMarks.ReplayMayOutliveInstance`,
  `AgentWitnesses.OutlivedInstanceIsReachable`, `AgentSafety.ReplayedCreateExisted`).
- A fabric write that failed after its rename leaves the file ahead of memory
  (`Fabric.FileMayRunAhead`); `Fabric.FileAgreesExactly` says when they agree.
- A publication that arrives between the two passes of a wipe leaves route keys behind, although
  a lookup at one moment never reaches them (`Catalog.WipeMayLeaveRoutes`, `Catalog.TidyExactly`,
  `Catalog.LookupsNeverStale`).
- A lookup reads index and route at two moments. By hostname it may answer with a port that is no
  longer the primary (`CatalogReads.PrimaryMayMove`, `CatalogReads.HostInTwoReads`); by port it may
  answer from an earlier revision, exactly when the index was deleted in between while the key was
  there and the publication then in force does not declare the port
  (`CatalogReads.PortMayBeOrphaned`, `CatalogReads.PortInTwoReads`).
- The cached revision of a hostname can fall across a tombstone (`RouteCache.RevisionMayFall`,
  `RouteCache.RevisionFallsExactly`).
- A quota freeze that is set while an autoscale tick runs may be dropped by that tick as an earlier
  one that has run out (`AutoscaleLoop.FreezeMayBeLost`, `AutoscaleLoop.FreezeLostExactly`).
- A manual rollback between a tick's read of the rollout row and its completion does not keep
  the rest of the old generation from being deleted, and is overwritten if the completion is stored
  (`Rollout.RollbackIsLost`, `Rollout.RollbackMayBeLost`); `Rollout.EdgesExactly` and
  `Rollout.DeleteRowExactly` give the exact conditions.
- An ordinal at or above the desired count can hold a rollout in CUTOVER
  (`Rollout.CutoverMayStall`, `Rollout.CutoverStallsExactly`).
- When machines of the first batches stop serving, more than one batch of a rolling rollout may
  be waiting (`RolloutRunner.BatchesMayPileUp`, `RolloutRunner.OneBatchExactly`).
- The admission sums of the scheduler wrap at 64 bits (`Capacity.OverflowIsAdmitted`,
  `Capacity.AdmitsExactly`).
- A required feature with an empty name goes unnoticed when it is the only one missing
  (`Scheduler.FitsExactly`).
- When writing the datapath snapshot fails, the proxy cannot always be put back
  (`EgressProxy.FailedApplyRestoresExactly`).
- A token bucket with a burst below one exceeds its bound at once
  (`TokenBucket.SmallBurstExceeds`).

## Model

| member | source | states |
|---|---|---|
| `AgentState.LedgerCallsKeepDominance` | internal/agent/state/ledger.go:90-235 | after every ledger call, with any write outcome, each record in memory is on disk for the same request and unchanged once completed |
| `AgentState.FenceCallsKeepDominance` | internal/agent/state/fences.go:101-181 | after every fence call no mark in memory is above the mark on disk |
| `AgentState.RestartForgetsNothing` | internal/agent/state/ledger.go:48-64 | reopening the stores forgets no claim and no completed result and lowers no mark |
| `AgentState.PrunesExactly` | internal/agent/state/fences.go:151-171 | collecting by age keeps exactly the records that are young enough, and afterwards exactly those stale requests still fail whose machine is live or whose mark is young |
| `AgentState.WritesExactly` | internal/agent/state/ledger.go:90-235 | what reaches memory and file when a write is stored, or fails before or after its rename |
| `AgentState.ClaimExactly` | internal/agent/state/ledger.go:175-193 | a tombstone claim is new exactly when its id is not on record and its write is stored |
| `AgentStores.Ledger.Begin` | internal/agent/state/ledger.go:90-111 | the claim, its conflict and existing cases, and the rollback of memory when the write fails |
| `AgentStores.Ledger.Complete` | internal/agent/state/ledger.go:113-136 | completion of the own unfinished claim only, idempotent once completed, rolled back on a failed write |
| `AgentStores.Ledger.Put` | internal/agent/state/ledger.go:139-170 | a completed record without a claim, or the completion of an existing one |
| `AgentStores.Ledger.Claim` | internal/agent/state/ledger.go:175-193 | the tombstone claim and whether it is new |
| `AgentStores.Ledger.PruneBefore` | internal/agent/state/ledger.go:196-212 | exactly the records older than the cutoff go |
| `AgentStores.Ledger.PruneMachineExcept` | internal/agent/state/ledger.go:215-235 | exactly the machine's other records go, from memory even when the write fails |
| `AgentStores.Fences.Check` | internal/agent/state/fences.go:88-99 | stale exactly when below the mark |
| `AgentStores.Fences.Advance` | internal/agent/state/fences.go:101-137 | the mark moves to the generation, never down, and is rolled back on a failed write |
| `AgentStores.Fences.PruneBeforeUnlessLive` | internal/agent/state/fences.go:151-171 | exactly the aged marks of machines that are not live go |
| `AgentStores.Creds.Set` | internal/agent/state/creds.go:75-83 | the credential is in memory even when the write fails |
| `AgentStores.Creds.Ensure` | internal/agent/state/creds.go:62-73 | an equal credential is not written again |
| `AgentStores.Creds.Drop` | internal/agent/state/creds.go:85-93 | the credential leaves memory even when the write fails |
| `AgentProtocol.RunKeepsInv` | internal/agent/mutation/protocol.go:57-331 | over every run of interleaved attempts, failed writes and crashes: disk dominates memory, completed creates, lifecycles, replacements and copies are at or below the marks, instances are covered by claims, and every holder of its machine's lock can rely on what its program point says |
| `AgentProtocol.StepKeepsInv` | internal/agent/mutation/protocol.go:57-331 | the same for one step of one attempt |
| `AgentSafety.InstancesAreClaimed` | internal/agent/mutation/protocol.go:57-145 | in every reachable state each instance is covered by a claim on disk of the request that made it |
| `AgentSafety.EffectIsSafe` | internal/agent/mutation/protocol.go:64-121 | an effect about to run under its machine's lock has its claim on disk unless it is a copy or a machine delete, a create's own instance does not exist, and no completed create, lifecycle, replacement or copy of the machine has a higher generation |
| `AgentSafety.RecordsAreMarked` | internal/agent/mutation/protocol.go:196-331 | in every reachable state the disk mark is at least the generation of every completed create, lifecycle, replacement and copy on disk |
| `AgentSafety.MutationReturns` | internal/agent/mutation/protocol.go:196-432 | every create, lifecycle, replacement or copy that returns success has its mark and its record durable, and a completing replacement its instance and its credential |
| `AgentSafety.ReusedIdIsRefused` | internal/agent/mutation/protocol.go:64-68 | an operation id on record for another request is a conflict before anything happens |
| `AgentEffects.SuccessHadEffect` | internal/agent/mutation/protocol.go:57-432 | every success of every kind and every completed record on disk goes back to an earlier step at which the effect of that very request went through or the recovery of its claim found it done |
| `AgentSafety.CreateReturns` | internal/agent/mutation/protocol.go:57-145 | every create that returns success, completing or replayed, has a durable mark at least at its generation, its credential in the running table and a durable completed record; a completing one has its instance |
| `AgentSafety.ReplayNeedsNoWrite` | internal/agent/mutation/protocol.go:64-73 | a replayed create whose credential is in place succeeds whatever happens to the files |
| `AgentSafety.LockExcludes` | internal/agent/mutation/protocol.go:57-63 | while an attempt holds a machine or a mutation's own key no other request for it gets in |
| `AgentSafety.InstanceStays` | internal/agent/machine/snapshots.go:148-164 | an instance keeps its execution and generation at every later moment for as long as no delete or replacement effect of the machine has run |
| `AgentSafety.CreateSurvives` | internal/agent/mutation/protocol.go:127-145 | so the instance of a completed create is there until such an effect runs |
| `AgentSafety.CompletedCreatesExisted` | internal/agent/mutation/protocol.go:127-145 | every completed create record, in memory or on disk, is of a request whose instance existed at some moment of the run |
| `AgentSafety.ReplayedCreateExisted` | internal/agent/mutation/protocol.go:64-73 | a replayed create had its instance at some moment, and has it still unless a delete or replacement effect of the machine ran since |
| `AgentSafety.NoWriteBeforeFence` | internal/agent/mutation/protocol.go:64-77 | up to the fence check an attempt changes no store |
| `AgentSafety.MarksNeverFall` | internal/agent/state/fences.go:88-137 | no run lowers a mark in memory, crashes included |
| `AgentSafety.StaleIsRejected` | internal/agent/mutation/protocol.go:261-331 | once a create, lifecycle, replacement or copy has a completed record on disk, every later lower generation that reaches the fence is turned away and leaves ledger, fences, credentials and inventory as they were |
| `AgentSafety.ReplaysAgree` | internal/agent/mutation/protocol.go:57-145 | after a success of any request but machine deletes and separately keyed mutations its effect never runs again and every later success returns the same result, until a machine delete drops the record |
| `AgentSafety.RetryAdopts` | internal/agent/mutation/protocol.go:93-104 | a retry of any unfinished claim that its recovery finds done adopts what is there and completes without the effect |
| `AgentMarks.DiskTrailsMemory` | internal/agent/state/fences.go:101-137 | in every reachable state the disk mark is at least the mark in memory |
| `AgentMarks.DiskMarkMayFall` | internal/agent/state/fences.go:122-137 | a mark written by a failed write falls back when another machine's mark is written |
| `AgentMarks.DiskMarkFallsExactly` | internal/agent/state/fences.go:101-181 | an advance lowers a disk mark exactly when it reaches the file with a lower mark in memory |
| `AgentMarks.EventLowersExactly` | internal/agent/state/fences.go:101-181 | no other event of the protocol lowers a disk mark |
| `AgentMarks.DeleteReturns` | internal/agent/mutation/protocol.go:156-183 | a machine delete whose own attempt succeeds has removed the instance, dropped the credential and made its mark durable |
| `AgentMarks.PruneLeavesOwn` | internal/agent/state/ledger.go:215-235 | after its prune a machine delete's record is the machine's only one in memory and all others are as they were |
| `AgentMarks.RejectedExactly` | internal/agent/state/fences.go:88-99 | an attempt is turned away at the fence exactly if an event of the run raised its machine's mark above its generation; an equal one passes |
| `AgentMarks.DeleteRecordMayPrecedeFence` | internal/agent/mutation/protocol.go:165-182 | from any state a delete may start in, a crash right after its record leaves the record complete and the marks as they were |
| `AgentMarks.MarkedExactly` | internal/agent/mutation/protocol.go:165-182 | a generation is covered by the mark exactly if it was before or an event since raised the mark: the delete's own stored advance, a later one, or a restart |
| `AgentMarks.DeleteRecordMarkedExactly` | internal/agent/mutation/protocol.go:165-182 | from the moment a machine delete writes its completed record: after every run the record is covered by the mark exactly if the mark was its generation by then or an event since raised it, a stored advance or a restart that found an advance on file |
| `AgentMarks.OnFileExactly` | internal/agent/state/fences.go:101-181 | after every run a generation is covered on disk exactly if an advance to it or above reached the file and no later write overwrote it with less |
| `AgentMarks.RetryAnswersEarly` | internal/agent/mutation/protocol.go:157-159 | a retry of a recorded delete returns its result before the lock and changes no store |
| `AgentMarks.RetriesNeverStart` | internal/agent/mutation/protocol.go:157-161 | over every later run no attempt of a recorded delete starts again until another delete of the machine drops the record |
| `AgentMarks.ReplayMayOutliveInstance` | internal/agent/mutation/protocol.go:64-73 | a delete that removes the instance and then fails leaves the create's record, whose replay still succeeds |
| `AgentWitnesses.OutlivedInstanceIsReachable` | internal/agent/mutation/protocol.go:64-73 | a run from the first state in which that happens, for every create and delete of one machine and generation |
| `AgentWitnesses.SecondCallDeletesAgain` | internal/agent/mutation/protocol.go:156-170 | two calls of one delete pass the unlocked check, the first completes, a create of the same generation follows, and the second call removes the new instance although the delete's record is complete |
| `AgentWitnesses.CreateRuns` | internal/agent/mutation/protocol.go:57-145 | from every reachable state with the machine idle and its name free an undisturbed create ends with the instance, the mark and the completed record, and touches no other record |
| `AgentWitnesses.MutationRuns` | internal/agent/mutation/protocol.go:196-432 | from every state with the machine idle and at no higher generation an undisturbed new lifecycle or copy runs its effect once, raises the mark and returns and records its result |
| `AgentWitnesses.DeleteRuns` | internal/agent/mutation/protocol.go:156-183 | from every reachable state a delete that is past its check and undisturbed ends without the instance, with the mark and the completed record |
| `AgentRunner.Agent.RunClaimed` | internal/agent/mutation/protocol.go:57-331 | create and claimed mutations as written are steps of one attempt of the protocol, early returns included |
| `AgentRunner.Agent.Finish` | internal/agent/mutation/protocol.go:306-331 | fence advance, credential and durable result in this order, each failure ending the attempt |
| `AgentRunner.Agent.RunCopyTo` | internal/agent/mutation/protocol.go:405-432 | copy as written is an attempt without a claim |
| `AgentRunner.Agent.CheckUnlocked` | internal/agent/mutation/protocol.go:157-159 | the replay check before the lock is the check event of the protocol |
| `AgentRunner.Agent.RunDeleteMachine` | internal/agent/mutation/protocol.go:156-183 | machine delete as written: the unlocked replay check, then an attempt with its staged removals; a completed record answers and changes nothing |
| `AgentRunner.Agent.FinishDelete` | internal/agent/mutation/protocol.go:168-183 | credential drop, completed record, prune and fence in this order |
| `AgentRunner.ReachabilityIsPreserved` | internal/agent/mutation/protocol.go:57-331 | an agent driven by these methods stays in reachable states, so the whole-run lemmas apply to it |
| `AgentDeletes.RunDelete` | internal/agent/mutation/protocol.go:367-403 | resource deletes: effect only under a durable unfinished claim and, if checked, a fresh generation; success is durable; completed records answer without the effect |
| `AgentDeletes.StaleDeleteClaims` | internal/agent/mutation/protocol.go:374-385 | a rejected stale delete leaves the ledger untouched exactly when its claim existed |
| `Fabric.PrecheckIsExact` | internal/agent/state/fabric.go:134-190 | the precheck accepts exactly what apply accepts, which is a higher generation of the same node or the snapshot in force |
| `Fabric.Store.Apply` | internal/agent/state/fabric.go:162-190 | persist first, then memory; the verdict for every snapshot |
| `Fabric.RunKeepsInv` | internal/agent/server/fabric.go:48-87 | the node's snapshot, file, tunnels and policy stay in order over every run with failed writes and restarts |
| `Fabric.AppliedOnlyRise` | internal/agent/state/fabric.go:134-204 | of two snapshots in force the later has the higher generation or is the same one, and the node id never changes |
| `Fabric.EffectsTrailState` | internal/agent/server/fabric.go:48-87 | tunnels and policy never run ahead of the persisted generation and go back only by a restart |
| `Fabric.SuccessConverges` | internal/agent/server/fabric.go:48-87 | a successful apply leaves snapshot, tunnels and policy at the requested content, and the file exactly when no write was left ahead |
| `Fabric.FileMayRunAhead` | internal/agent/state/fabric.go:162-190 | the file can stay ahead after a failed write, and a restart then moves to it |
| `Fabric.FileAgreesExactly` | internal/agent/state/fabric.go:162-190 | after every run the file holds what is in force exactly when no write failed after its rename since the last stored write or restart |
| `Fabric.IndexIdentities` | internal/agent/server/fabric.go:141-170 | the two indexes hold exactly the identities by service (last wins) and by app |
| `Fabric.BuildPolicy` | internal/agent/server/fabric.go:141-205 | every identity with its address in order, the node address, the generation, and the entries of the rules |
| `Fabric.BuildEntries` | internal/agent/server/fabric.go:177-204 | the loops expand every rule over every source identity, forward and reply |
| `Fabric.PolicyIsSound` | internal/agent/server/fabric.go:141-205 | every entry is justified by a rule and deployed identities |
| `Fabric.PolicyIsComplete` | internal/agent/server/fabric.go:141-205 | every rule with a deployed destination takes effect for every source, both ways |
| `Catalog.PublicationsConverge` | internal/controlplane/catalog/catalog.go:114-183 | any order and any duplication of the same publications ends in exactly the highest revision's routes, ports, primary and mark with no leftover key |
| `Catalog.HighWaterNeverFalls` | internal/controlplane/catalog/catalog.go:143-176 | no publication, prune or wipe lowers a hostname's mark |
| `Catalog.StaleNeverTakesEffect` | internal/controlplane/catalog/catalog.go:150-153 | a publication at or below a mark once reached changes nothing, whatever happened since |
| `Catalog.LookupsAreExact` | internal/controlplane/catalog/catalog.go:221-261 | lookups by name and by port answer exactly the published routes stamped with the revision, and nothing for undeclared ports |
| `Catalog.LookupsNeverStale` | internal/controlplane/catalog/catalog.go:221-261 | while keys are deleted at any moment, index and route read at the same moment answer as the publication in force or with nothing |
| `Catalog.TidyExactly` | internal/controlplane/catalog/catalog.go:282-318 | a hostname keeps no stray route key exactly unless its index is deleted while a route is present |
| `Catalog.WipeKeepsMarks` | internal/controlplane/catalog/catalog.go:338-357 | an undisturbed wipe removes all projections and no mark |
| `Catalog.WipeMayLeaveRoutes` | internal/controlplane/catalog/catalog.go:338-357 | a publication between the passes of a wipe leaves routes without index and its revision used up |
| `Catalog.CheckRoutes` | internal/controlplane/catalog/catalog.go:121-141 | which of the three input errors is reported, exactly |
| `Catalog.Redis.Script` | internal/controlplane/catalog/catalog.go:144-176 | the script's write and delete loops amount to replacing the hostname's routes, guarded by the mark |
| `Catalog.Redis.ReplaceHostRoutes` | internal/controlplane/catalog/catalog.go:114-183 | the whole call: new state and reply for every input |
| `Catalog.Redis.GetRouteForHostname` | internal/controlplane/catalog/catalog.go:221-230 | the lookup of the primary port, with nothing between its two reads |
| `Catalog.Redis.HostPorts` | internal/controlplane/catalog/catalog.go:186-195 | the first read: the hostname's index |
| `Catalog.Redis.GetRoute` | internal/controlplane/catalog/catalog.go:264-278 | the second read: the route of a port |
| `Catalog.Redis.GetRouteForPort` | internal/controlplane/catalog/catalog.go:235-261 | the lookup of a port and whether it is declared, with nothing between its two reads |
| `CatalogReads.PortInTwoReads` | internal/controlplane/catalog/catalog.go:235-278 | with any events between the reads, a lookup by port is out of date exactly when the publication then in force does not declare the port and the index was deleted while the key was there, with neither the key deleted nor the port declared again since; it then has a lower revision |
| `CatalogReads.HostInTwoReads` | internal/controlplane/catalog/catalog.go:221-230 | a lookup by hostname that gets a route has the one of the primary then in force exactly when the publication in force says the same of the port that was read as of its primary, in particular when the primary is unchanged |
| `CatalogReads.OrphanExactly` | internal/controlplane/catalog/catalog.go:282-357 | over every run a route key outside the index comes about exactly by a deletion of the index while the key is there, until the key is deleted or the port declared again |
| `CatalogReads.RunGoverns` | internal/controlplane/catalog/catalog.go:114-183 | over every run what is stored under the ports of the last publication to take effect is its own, and other keys of the host have lower revisions |
| `CatalogReads.PrimaryMayMove` | internal/controlplane/catalog/catalog.go:221-230 | the primary moves from 80 to 81 between the reads and the answer is port 80's |
| `CatalogReads.PortMayBeOrphaned` | internal/controlplane/catalog/catalog.go:235-261 | the index is deleted and published anew without port 81 between the reads, and the answer is the earlier revision's |
| `Lru.OperationsKeepAgreement` | internal/edge/lru.go:42-81 | map and recency list keep the same keys |
| `Lru.EvictKeepsRecent` | internal/edge/lru.go:60-72 | eviction keeps exactly the most recently used keys up to the bound, with their values |
| `Lru.WrittenKeySurvives` | internal/edge/lru.go:49-72 | the key just written is never evicted |
| `Lru.OrderIsByLastUse` | internal/edge/lru.go:41-58 | over every run the list is in the order of last use |
| `Lru.EvictsLeastRecent` | internal/edge/lru.go:60-72 | an eviction after any run drops only keys last used before every key it keeps |
| `Lru.LruCache.Set` | internal/edge/lru.go:49-58 | the write in place |
| `Lru.LruCache.Touch` | internal/edge/lru.go:42-47 | the move to the front in place |
| `Lru.LruCache.Evict` | internal/edge/lru.go:60-72 | dropping from the back until the bound holds |
| `Lru.LruCache.Delete` | internal/edge/lru.go:74-81 | the removal in place |
| `RouteCache.RunKeepsInv` | internal/edge/edge.go:383-500 | entries, flights, waiters and results stay coherent in every interleaving of gets, loads and invalidations |
| `RouteCache.LoadsDoNotOverlap` | internal/edge/edge.go:404-420 | a call starts a load only when every other load of the key under way began before an invalidation |
| `RouteCache.WaitersGetTheLeadersResult` | internal/edge/edge.go:406-414 | a waiter's answer is exactly its leader's |
| `RouteCache.WaitersAreAnswered` | internal/edge/edge.go:406-414 | a call that joined has a load under way or finished, and gets the result as soon as it is finished |
| `RouteCache.ResultsAreFinal` | internal/edge/edge.go:481-489 | a published result never changes |
| `RouteCache.RevisionsNeverFall` | internal/edge/edge.go:440-457 | while an entry is live its revision never falls, not even by a load begun before an invalidation |
| `RouteCache.RevisionFallsExactly` | internal/edge/edge.go:440-468 | a stored revision falls exactly when a load brings a lower one than the tombstone it replaces |
| `RouteCache.RevisionMayFall` | internal/edge/edge.go:443-457 | a tombstone of revision 2 is replaced by a live route of revision 1 |
| `RouteCache.FallIsReachable` | internal/edge/edge.go:458-468 | such a tombstone with a load under way is reached, under every configuration |
| `RouteCache.ServedValues` | internal/edge/edge.go:425-490 | what a finished load hands out for a route, a miss and a failure, with the stale window and the revision guard, and that stale routes came from the origin |
| `RouteCache.LoadsAreStored` | internal/edge/edge.go:432-468 | what a finished load leaves in the table, under the time its call began |
| `RouteCache.HitsAreFresh` | internal/edge/edge.go:383-403 | a call answered as it begins has a route that the origin returned within the fresh TTL, or the origin's word of the last five seconds that there is none |
| `RouteCache.OthersLoad` | internal/edge/edge.go:383-420 | a call is answered as it begins exactly when the table has a young enough entry; every other joins or leads a load of its key |
| `RouteCache.InvalidationForgets` | internal/edge/edge.go:495-500 | after an invalidation neither entry nor load is left, the next call loads, and the other keys are as they were |
| `RouteCache.SharedCache.BeginGet` | internal/edge/edge.go:383-420 | the part of Get before the load is the begin step that the laws above are about |
| `RouteCache.SharedCache.FinishGet` | internal/edge/edge.go:425-490 | the part of Get after the load |
| `RouteCache.SharedCache.Invalidate` | internal/edge/edge.go:495-500 | the entry and the registered flight go |
| `TokenBucket.NextWithinBound` | internal/edge/edge.go:553-564 | an event that pays for its grant keeps grants plus level within burst plus rate times time |
| `TokenBucket.EdgeBound` | internal/edge/edge.go:541-565 | while a hostname's bucket is resident its passed requests in any interval are at most burst plus rate times length |
| `TokenBucket.PassesExactly` | internal/edge/edge.go:540-564 | a request passes exactly when limiting is off, its hostname is new or its bucket holds a token by then, and costs one |
| `Refusals.RefusalIsEarned` | internal/edge/edge.go:553-564 | a refused request's hostname has had, since some moment, more than burst minus one plus rate times the time |
| `TokenBucket.SmallBurstExceeds` | internal/edge/edge.go:549-553 | with a burst below one the first request exceeds the bound |
| `TokenBucket.RunKeepsTable` | internal/edge/edge.go:541-565 | every run keeps the table within its bound and each bucket between empty and full |
| `TokenBucket.RateLimiter.AllowHost` | internal/edge/edge.go:541-565 | the limiter as written over the bounded table |
| `TokenBucket.CallIsFair` | internal/agent/proxy/proxy.go:217-251 | a call takes from its own bucket what it grants and nothing from the other |
| `TokenBucket.AgentBound` | internal/agent/proxy/proxy.go:217-251 | the same bound for both credential buckets under any mix of calls |
| `TokenBucket.TakesExactly` | internal/agent/proxy/proxy.go:217-251 | a call passes exactly when its own bucket holds a token by then, and costs that bucket one and the other none |
| `Refusals.AgentRefusalIsEarned` | internal/agent/proxy/proxy.go:217-251 | a refused call has had, since the start or an earlier call, more grants of its kind than burst minus one plus rate times the time |
| `TokenBucket.CredentialGuard.RefillLocked` | internal/agent/proxy/proxy.go:217-226 | the common refill of both buckets |
| `TokenBucket.CredentialGuard.TakeCredentialLookup` | internal/agent/proxy/proxy.go:228-238 | the lookup bucket is charged, the miss bucket only refilled |
| `TokenBucket.CredentialGuard.TakeCredentialMiss` | internal/agent/proxy/proxy.go:240-251 | the miss bucket is charged, the lookup bucket only refilled |
| `Inflight.Tracker.SelectAndAcquire` | internal/edge/handler.go:351-397 | fails exactly when all are at the limit; equal weights give a least loaded backend, others a draw in proportion to weight over one plus in flight |
| `Inflight.Walk` | internal/edge/handler.go:384-396 | the weighted walk always ends in the share the aim falls into |
| `Inflight.DrawnIsUnique` | internal/edge/handler.go:384-403 | exactly one share contains the aim |
| `Inflight.SharesAreFair` | internal/edge/handler.go:324-404 | shares are in proportion to the weights and in inverse proportion to one plus the requests in flight |
| `Inflight.Tracker.ReleaseOne` | internal/edge/handler.go:304-310 | the count drops and the entry goes at zero |
| `Inflight.ReleaseUndoesAcquire` | internal/edge/handler.go:304-424 | a release after an acquire restores the counts |
| `Inflight.Handler.SelectBackend` | internal/edge/handler.go:938-981 | each selection error exactly, and that an error takes no slot |
| `Inflight.Handler.ServeHttp` | internal/edge/handler.go:851-936 | every return path of both attempts restores the counts; forwarded at all exactly when a candidate is below the limit and has a token, twice only after a retriable attempt without a body |
| `Inflight.Handler.TryServe` | internal/edge/handler.go:1012-1077 | the agent's proxy is used exactly without a direct path or after a failure that wrote and consumed nothing; the slot is given back whatever happens |
| `Inflight.RunConserves` | internal/edge/handler.go:304-424 | in every interleaving each count is the number of requests holding a slot, has an entry exactly when positive and stays within the limit |
| `Inflight.AllSlotsComeBack` | internal/edge/handler.go:851-981 | when all requests have finished each slot was given back exactly once and nothing is counted |
| `Signals.Aggregate` | internal/controlplane/controller/autoscale.go:62-101 | the loop adds up exactly the fresh samples; fresh, stale-nonzero and reject flags hold exactly when some sample says so |
| `Signals.TallyIsSum` | internal/controlplane/controller/autoscale.go:62-103 | served, rate and unserved are the sums over the samples no more than 20 s old and 5 s ahead |
| `Signals.WindowIsLongest` | internal/controlplane/controller/autoscale.go:62-103 | the rate window is the longest of the fresh samples' |
| `Signals.OrderDoesNotMatter` | internal/controlplane/controller/autoscale.go:70-92 | the totals are the same in whatever order the map yields the fields |
| `Autoscale.ComputeWantMulti` | internal/controlplane/controller/autoscale_multi.go:36-90 | the stepwise raise, clamp and panic boost give the declared want |
| `Autoscale.MultiExtendsSingle` | internal/controlplane/controller/autoscale.go:117-141 | without optional dimensions the multi-signal core is the single-signal one, panic included |
| `Autoscale.ConcurrencyIsLeast` | internal/controlplane/controller/autoscale.go:105-122 | before clamping the want is the least w with w times target at least the load |
| `Autoscale.WantIsLeast` | internal/controlplane/controller/autoscale_multi.go:36-90 | below the upper bound the want is the least count within the lower bound that meets the load, the request rate, the CPU and custom targets and the panic |
| `Autoscale.WantInRange` | internal/controlplane/controller/autoscale_multi.go:70-90 | the result lies between the policy's bounds |
| `Autoscale.WantMonotone` | internal/controlplane/controller/autoscale_multi.go:36-90 | more load never means fewer replicas |
| `Autoscale.DimensionsAndPanicOnlyRaise` | internal/controlplane/controller/autoscale_multi.go:45-90 | neither a further dimension nor a panic lowers the want |
| `AutoscaleLoop.ScaleDownStreak` | internal/controlplane/controller/autoscale.go:475-635 | behind every scale-down write stands a tick at least the delay earlier, and all ticks since computed the same count under the same policy, with no rollout, stale signal, purge or leader change; a write of zero saw no requests |
| `AutoscaleLoop.ScaleDownExactly` | internal/controlplane/controller/autoscale.go:608-632 | a tick scales down to w exactly when it computes w below the desired count with no stale signal, requests do not forbid zero, and a stable window for w under its policy, begun at least the delay ago, has been neither broken nor used up |
| `AutoscaleLoop.TimerExactly` | internal/controlplane/controller/autoscale.go:254-264 | what the loop remembers of a stable window is the one window that stands, by the events of the run |
| `AutoscaleLoop.BeginsExactly` | internal/controlplane/controller/autoscale.go:475-560 | a tick goes on to decide exactly when the policy is on, there is a target and no rollout, and every signal it needs was read and is fresh |
| `AutoscaleLoop.ScaleUpExactly` | internal/controlplane/controller/autoscale.go:562-607 | whatever rejections fall into a tick, it scales up to what it computes exactly when that is more than desired and no freeze, whatever set it, was in force at its look |
| `AutoscaleLoop.FrozenNeverScalesUp` | internal/controlplane/controller/autoscale.go:203-277 | from the event that sets a freeze to its end, as long as no tick drops it and no purge, policy removal or leader change forgets it, no tick that looks for a freeze scales up |
| `AutoscaleLoop.FreezeLostExactly` | internal/controlplane/controller/autoscale.go:562-583 | a freeze set between a tick's look and its end is dropped exactly when the look found none in force and an earlier noted one had not been cleared |
| `AutoscaleLoop.EndUnfreezesExactly` | internal/controlplane/controller/autoscale.go:576-583 | and the end of a tick drops a freeze in no other case |
| `AutoscaleLoop.NotedExactly` | internal/controlplane/controller/autoscale.go:562-583 | a freeze is noted exactly when a tick found it and was kept from scaling up, or it was noted before |
| `AutoscaleLoop.FreezeMayBeLost` | internal/controlplane/controller/autoscale.go:562-583 | a run from an unknown app in which a freeze until 100 is lost and the tick at 20 scales up |
| `AutoscaleLoop.ThirdRejectionFreezes` | internal/controlplane/controller/autoscale.go:267-277 | the third placement rejection in a row sets a freeze |
| `AutoscaleLoop.RejectionFreezesExactly` | internal/controlplane/controller/autoscale.go:267-277 | a placement rejection freezes exactly when two came before it in the row |
| `AutoscaleLoop.StreakIsRow` | internal/controlplane/controller/autoscale.go:254-277 | over every run the streak is the number of placement rejections since the row was last ended |
| `AutoscaleLoop.WritesStayInBounds` | internal/controlplane/controller/autoscale.go:578-632 | every write is within the policy's bounds and in the right direction |
| `AutoscaleLoop.DropUnknown` | internal/controlplane/controller/autoscale.go:301-329 | exactly the unknown apps' entries go |
| `AutoscaleLoop.LoopState.ReconcileApp` | internal/controlplane/controller/autoscale.go:475-635 | a tick as written, when no rejection falls into it, is its three parts in order and touches no other app |
| `AutoscaleLoop.LoopState.BeginApp` | internal/controlplane/controller/autoscale.go:475-560 | the part up to the signals, with every early return |
| `AutoscaleLoop.LoopState.FindFreeze` | internal/controlplane/controller/autoscale.go:210-218 | the look at the freeze |
| `AutoscaleLoop.LoopState.EndApp` | internal/controlplane/controller/autoscale.go:561-635 | the part from what the look found to the write, on the state by then |
| `AutoscaleLoop.LoopState.ScaleDownElapsed` | internal/controlplane/controller/autoscale.go:254-264 | the stable window starts anew for a new want and has elapsed after the delay |
| `AutoscaleLoop.LoopState.BumpStreak` | internal/controlplane/controller/autoscale.go:267-277 | the third rejection in a row freezes |
| `AutoscaleLoop.LoopState.NoteQuotaRejection` | internal/controlplane/controller/autoscale.go:389-396 | a quota rejection is the setting of a freeze followed by the end of the row of placement rejections |
| `AutoscaleLoop.LoopState.PurgeUnknown` | internal/controlplane/controller/autoscale.go:301-329 | unknown apps are forgotten, known ones untouched |
| `Rollout.DeletesAreSafe` | internal/controlplane/controller/apps.go:87-263 | every delete of every run was decided on a row read in CUTOVER, past the decision time and with all new ordinals serving, and removes an old machine, or on one read in ROLLING_BACK with all old ordinals serving, and removes a new one |
| `Rollout.DeleteRowExactly` | internal/controlplane/controller/apps.go:205-225 | the row in force at a delete had the status it was decided on exactly when no rollback request or app deletion came between the read and that delete |
| `Rollout.RowKeptExactly` | internal/controlplane/store/apps.go:545-594 | from a tick's read up to its write the row keeps its status exactly when no such event comes in between |
| `RolloutLaws.ApprovalGates` | internal/controlplane/controller/apps.go:129-162 | over every run from a new row a rollout that requires approval, or a rolling one with a canary weight, is in CUTOVER only after an approval released it, and any other never pauses |
| `RolloutLaws.DeletesAreApproved` | internal/controlplane/controller/apps.go:129-229 | and no old machine of such a rollout is deleted in CUTOVER without an approval before |
| `RolloutLaws.PreparingExactly` | internal/controlplane/controller/apps.go:101-162 | the row after a tick in PREPARING, by the fields of row and machines |
| `RolloutLaws.CutoverExactly` | internal/controlplane/controller/apps.go:172-229 | the row after a tick in CUTOVER and the machines it deletes, by fields, under the built-in analysis or another |
| `RolloutLaws.RollingBackExactly` | internal/controlplane/controller/apps.go:231-263 | the same in ROLLING_BACK |
| `RolloutLaws.IdleExactly` | internal/controlplane/controller/apps.go:87-100 | a paused, complete or unreadable rollout is left alone |
| `Rollout.FinishingDeletes` | internal/controlplane/controller/apps.go:205-222 | a tick that finishes what it read deletes the old generation whatever the row is by then and whether or not the completion is stored |
| `Rollout.StatusNeverReturns` | internal/controlplane/store/apps.go:499-650 | the status only moves forward, so each is entered at most once |
| `Rollout.EdgesExactly` | internal/controlplane/store/apps.go:499-650 | every step takes a documented edge with the right failed mark exactly unless it overrides an unseen manual rollback |
| `Rollout.RollbackIsLost` | internal/controlplane/controller/apps.go:205-222 | a rollback that comes at any point between a completing tick's read and its write, after any number of its deletes, stops none of the others, and is lost exactly if the completion is stored |
| `Rollout.UndisturbedTick` | internal/controlplane/controller/apps.go:87-263 | decision, deletes one by one and the write amount to the plan of the tick when nothing comes in between |
| `Rollout.RollbackMayBeLost` | internal/controlplane/controller/apps.go:205-222 | both happen from a fresh row, with the rollback before the delete of an old machine and between the delete and the write |
| `Rollout.ReadyProceeds` | internal/controlplane/controller/rollout_analysis.go:90-116 | under every configuration a ready generation proceeds at the end of the window |
| `Rollout.ProceedsIffReady` | internal/controlplane/controller/rollout_analysis.go:90-129 | with ratio one and ordinals below desired, proceed is equivalent to all ready |
| `Rollout.CutoverLeaves` | internal/controlplane/controller/apps.go:172-229 | then a tick past the decision time always leaves CUTOVER |
| `Rollout.CutoverStallsExactly` | internal/controlplane/controller/apps.go:172-229 | in general it stays exactly when an ordinal does not serve and the ratio is met all the same |
| `Rollout.CutoverMayStall` | internal/controlplane/controller/rollout_analysis.go:120-128 | an ordinal above desired can cause it |
| `Rollout.CheckAllReady` | internal/controlplane/controller/apps.go:617-635 | the loop answers whether every ordinal below the count serves |
| `Rollout.ServingOrdinals` | internal/controlplane/controller/rollout_analysis.go:120-128 | the loop counts distinct serving ordinals |
| `RolloutRunner.AssessCutover` | internal/controlplane/controller/rollout_analysis.go:90-116 | the verdict for every input |
| `RolloutRunner.Controller.ReconcileRollout` | internal/controlplane/controller/apps.go:87-263 | the reconciler as written is an undisturbed tick of the state machine that the laws above are about |
| `RolloutRunner.Controller.ReconcileApp` | internal/controlplane/controller/apps.go:358-435 | exactly the missing ordinals the gate lets through are created and exactly the surplus is deleted |
| `RolloutRunner.ScaleDownKeepsReady` | internal/controlplane/controller/apps.go:423-433 | scaling down never takes a ready generation below ready |
| `RolloutLaws.MissingExactly` | internal/controlplane/controller/apps.go:379-420 | the ordinals to create, by the fields of the machines, each once and in order |
| `RolloutLaws.ScaleUpFills` | internal/controlplane/controller/apps.go:408-420 | without the gate every ordinal below the desired count has a machine or a create after one tick |
| `RolloutLaws.GateProgresses` | internal/controlplane/controller/apps.go:387-420 | the gate never blocks for good: when all existing machines serve, the next ordinal is created |
| `RolloutLaws.SurplusExactly` | internal/controlplane/controller/apps.go:423-433 | the machines to delete, by fields |
| `RolloutRunner.OneBatchAtATime` | internal/controlplane/controller/apps.go:390-417 | while the serving ordinals do not become fewer, every tick of a rolling rollout whose ordinals start below the limit has at most one batch waiting |
| `RolloutRunner.OneBatchExactly` | internal/controlplane/controller/apps.go:390-417 | in general at most one batch waits exactly when the existing ordinals beyond the opened ones fit into what the gate leaves free |
| `RolloutRunner.BatchesMayPileUp` | internal/controlplane/controller/apps.go:390-417 | with eight replicas and four ordinals that stopped serving, four wait and the batch is two |
| `Filters.PipelineIsConjunction` | internal/scheduler/placement.go:273-358 | staged filters are one order-preserving conjunction filter and record exactly one rejection per rejected item, by its first failing stage |
| `Filters.RunStages` | internal/scheduler/placement.go:280-358 | the filter loops as written |
| `Scheduler.EvaluateCandidates` | internal/scheduler/placement.go:273-375 | candidates, rejections and degradation for every request |
| `Scheduler.FitsExactly` | internal/scheduler/placement.go:292-358 | the hard filters let a node through exactly if it is healthy, not draining, not excluded, in the pool, has every label and feature, room in CPU, memory and disk, the bandwidth, and is the node the request is bound to |
| `Scheduler.FirstReason` | internal/scheduler/placement.go:292-358 | a node is turned away for the first reason in the source's order |
| `Scheduler.CandidatesExactly` | internal/scheduler/placement.go:360-375 | the candidates are exactly the nodes that suit; for a deployment to be spread, those it does not use unless it uses all that suit |
| `Scheduler.SampleK` | internal/scheduler/placement.go:513-525 | all nodes, or k distinct ones |
| `Scheduler.Place` | internal/scheduler/placement.go:383-422 | fails exactly when no node suits, else returns a node that suits and has the lowest score, then id, of the sample |
| `Scheduler.PrefetchTopK` | internal/scheduler/placement.go:247-264 | the first k candidates in (score, id) order |
| `Scoring.TopIsBest` | internal/scheduler/placement.go:247-264 | what it returns is in (score, id) order, at most k, and every candidate left out comes after |
| `Scoring.BusierScoresMore` | internal/scheduler/placement.go:431-438 | of two nodes of one capacity and equal penalties the busier never scores better, and worse as soon as a load that counts is more |
| `Scoring.PenaltiesExactly` | internal/scheduler/placement.go:439-458 | beyond load the score is exactly the penalties for an uncached image, bandwidth, and a shared rack or zone |
| `Scoring.BandwidthExactly` | internal/scheduler/placement.go:448-450 | the bandwidth penalty is the weighted share of the known bandwidth |
| `Scheduler.PlacesHeadOfPrefetch` | internal/scheduler/placement.go:247-422 | with the sample covering all and no exclusions the placement is the first node that PrefetchTopK returns |
| `Ranking.SortSorts` | internal/scheduler/placement.go:252-258 | the ranking is sorted by score, then id |
| `Ranking.StringLeExactly` | internal/scheduler/placement.go:252-258 | ids are compared byte by byte: a prefix first, else the first difference |
| `Capacity.RunKeepsWithin` | internal/scheduler/placement.go:461-482 | every run of placements, commits, releases and heartbeats keeps allocated plus pending within the ratios of CPU, memory and known disk |
| `Capacity.PlacementIsReservable` | tools/sim/main.go:189-221 | what Place returns names a node that passes the hard filters |
| `Capacity.AdmitsExactly` | internal/scheduler/placement.go:461-482 | a request truly fits exactly when it is admitted and no 64-bit sum overflows |
| `Capacity.OverflowIsAdmitted` | internal/scheduler/placement.go:465-468 | a request near the word size is admitted |
| `HostNames.NormalizeDomainIdempotent` | internal/agent/egress/policy.go:139-171 | normalising a domain twice changes nothing |
| `HostForms.DomainForms` | internal/agent/egress/policy.go:139-171 | a declared domain reads the same in any case, with white space around it and a final dot |
| `HostForms.WildcardForms` | internal/agent/egress/policy.go:139-171 | and so does a wildcard |
| `HostForms.LabelsExactly` | internal/agent/egress/policy.go:173-190 | valid are exactly the texts whose labels have 1 to 63 letters, digits and inner hyphens |
| `HostForms.HostFormsAgree` | internal/agent/egress/policy.go:192-213 | a host reads the same in any case, with white space, a final dot and a port |
| `HostForms.BracketsAgree` | internal/agent/egress/policy.go:192-213 | a bracketed address with or without a port reads as the address |
| `Sniff.ParseInvertsEncode` | internal/agent/egress/sniff.go:166-249 | on every well-formed ClientHello the parser answers from the first server_name extension, whatever the other fields and trailing bytes |
| `Sniff.SniIsFirstHostName` | internal/agent/egress/sniff.go:224-249 | and there the first non-empty host_name |
| `Sniff.TlsPeekFindsSni` | internal/agent/egress/sniff.go:136-160 | the same for a stream that starts with such a record |
| `PeekForms.TlsPeekExactly` | internal/agent/egress/sniff.go:136-160 | the TLS peek takes the record header, and the record if it is a handshake of at most 16 KiB, and fails exactly when the stream ends before that |
| `PeekForms.HttpPeekFindsHost` | internal/agent/egress/sniff.go:40-101 | on every stream that starts with a well-formed request head of a known method within the limit the HTTP peek answers the last host field, or else the host of an absolute target, and takes exactly the head |
| `PeekForms.AbsoluteTarget` | internal/agent/egress/sniff.go:87-101 | an absolute target names its authority up to the path, query or fragment |
| `PeekForms.OriginTarget` | internal/agent/egress/sniff.go:58-63 | an origin-form target names nothing |
| `PeekForms.HttpPeekBound` | internal/agent/egress/sniff.go:40-130 | on any stream the HTTP peek takes at most 8 KiB, and ends a line if the connection failed |
| `Sniff.ParseClientHelloSni` | internal/agent/egress/sniff.go:166-222 | the offset-driven parser ends within bounds on all bytes and equals the recursive reading |
| `Sniff.ParseServerNameExt` | internal/agent/egress/sniff.go:224-249 | the name list loop likewise |
| `Sniff.ReadCrlfLine` | internal/agent/egress/sniff.go:107-130 | one line, its limit, and that the buffer holds exactly what was read |
| `Sniff.PeekTlsSni` | internal/agent/egress/sniff.go:136-160 | the answer, and that prefix plus unread bytes is the original stream |
| `Sniff.PeekHttpRequest` | internal/agent/egress/sniff.go:40-85 | the host of a request, and that prefix plus unread bytes is the original stream |
| `Egress.DecideForProxied` | internal/agent/egress/policy.go:321-374 | the decision for every policy, host and address set |
| `Egress.DecideExactly` | internal/agent/egress/policy.go:289-374 | a connection is allowed exactly when no address is denied and some address is permitted |
| `EgressRules.DeclarationDecides` | internal/agent/egress/policy.go:84-374 | from the declared texts to the decision: no address in a denied prefix, and an unrestricted mode, an address in an allowed prefix, or a declared domain that names the host under the allowlist |
| `EgressRules.MatchesDomainExactly` | internal/agent/egress/policy.go:45-224 | a declared domain names a host exactly when it is the host or a wildcard one label above it |
| `EgressRules.InAnyExactly` | internal/agent/egress/policy.go:226-235 | a declared prefix covers exactly the IPv4 addresses, mapped ones included, that start with its bits |
| `Egress.DialSetIsSound` | internal/agent/egress/policy.go:237-258 | an allowed decision has something to dial, all of it permitted and not denied |
| `Egress.DialFirst` | internal/agent/egress/proxy.go:543-570 | the first reachable address, IPv4 first |
| `EgressRules.DialOrderExactly` | internal/agent/egress/proxy.go:543-570 | every address is tried as often as resolved, IPv4 first |
| `Egress.DialFor` | internal/agent/egress/proxy.go:497-538 | a dialled address passed the reserved filter, is denied by no prefix and is permitted; the empty dial set never occurs |
| `Egress.FromProto` | internal/agent/egress/policy.go:84-137 | the policy a declaration reads as, and its errors exactly |
| `Egress.SnapshotFor` | internal/agent/egress/manager.go:102-118 | the persisted form of a policy, with the proxy ports exactly when the proxy is needed |
| `Egress.DomainRoundTrip` | internal/agent/egress/policy.go:430-441 | a domain's text is read back as the same entry |
| `Egress.Rebuild` | internal/agent/egress/policy.go:454-476 | a persisted policy always comes back, the same up to the order of its lists |
| `Egress.AlikeDecidesAlike` | internal/agent/egress/policy.go:215-374 | and decides and dials every host and address set as before |
| `EgressProxy.RunIsConsistent` | internal/agent/egress/proxy.go:180-314 | after every run each bound address leads to the entry its machine is registered with |
| `EgressProxy.GenerationsOnlyRise` | internal/agent/egress/proxy.go:194-242 | within one execution a machine's generation only rises |
| `EgressProxy.SwapExactly` | internal/agent/egress/proxy.go:235-258 | a publication is refused exactly for a higher generation of the execution or another machine's address; published, machine and address lead to the entry and no other address does |
| `EgressProxy.UnregisterExactly` | internal/agent/egress/proxy.go:300-314 | removal takes the machine's entry and all its addresses and nothing else |
| `EgressProxy.BindExactly` | internal/agent/egress/proxy.go:281-297 | an address is bound to a registered machine unless it is another machine's |
| `EgressProxy.FailedApplyRestoresExactly` | internal/agent/egress/manager.go:46-64 | a failed apply restores the tables exactly unless the previous entry is fenced off or had a second address |
| `EgressProxy.Proxy.Stage` | internal/agent/egress/proxy.go:180-207 | refused exactly when fenced or the address is taken; nothing becomes visible |
| `EgressProxy.Proxy.PublishSwap` | internal/agent/egress/proxy.go:235-258 | the swap with its checks and its address loop |
| `EgressProxy.Proxy.Current` | internal/agent/egress/proxy.go:212-232 | the entry with one of its addresses |
| `EgressProxy.Proxy.Remove` | internal/agent/egress/proxy.go:300-314 | the machine and its addresses go |
| `EgressProxy.Proxy.BindIp` | internal/agent/egress/proxy.go:281-297 | an address is bound unless another entry has it |
| `EgressProxy.Proxy.ApplyPolicy` | internal/agent/egress/manager.go:33-64 | the apply protocol with its rollback |

## Left out

- Process wiring, command line tools, TLS, tracing, metrics and audit text.
- The VM runtime, Redis, PostgreSQL, Prometheus and gRPC themselves: an inventory map that refuses a taken name, atomic key maps, guarded row updates and arbitrary answers.
- Hashing, JSON, protobuf and CIDR text: injective encodings, so a ledger record carries its request, a policy fingerprint is the policy and a prefix text is the prefix.
- Floating-point rounding: loads, ratios, weights, scores and tokens are reals. Revisions in the Redis script are unbounded integers.
- Unicode case folding and white space beyond ASCII in host names.
- Age-based collection of ledger records and fences inside protocol runs: the prunes are proved as store operations, and the run lemmas are about runs without them.
- Machine mutations with a serialization key of their own, of which there is none: they are events of the protocol runs, but nothing is claimed for them, because they would not hold their machine's lock.
- Resource mutations (RunResourceMutation) and the fabric mutation as steps of the interleaved protocol: they lock keys of their own and check no machine fence; the fabric one is modelled by itself in Fabric.
- Machine locks: one active attempt per key stands for the lock table and its reference counts.
- AgentDeletes.RunDelete: stated for one call on the stores, not as steps of the interleaved protocol.
- ClaimExec: only its ledger call is modelled.
- The age limit on the guarded path of the route cache: the code has none, and the model has none.
- TokenClient and the prefix deletion of the bounded table: a second cache of the same shape.
- Legacy single-number host indexes and corrupt Redis values.
- Overlapping controllers after a leader change: a rollout run has one tick at a time, and so has an autoscale run.
- A delete that cannot be enqueued: the tick goes on without noticing, and the model counts it as enqueued.
- Capacity.RunKeepsWithin: a placement and its reservation are one step, as in the simulator; reservations made on older observations are not modelled.
- Direct registrations and address bindings of the proxy between the steps of one apply: the manager serialises its own calls, and nothing else in the repository makes them.
- Counting of ready and warming machines, fetching of external signals and prefetch dispatch: they are inputs of an autoscale tick.
- Host-level request counting, response rewriting, mesh transport and a panic between backend selection and forwarding.
- Egress.FromProto: the order of the prefixes after sorting is not modelled, because no decision depends on it.
- Egress.SnapshotFor: nor is the order of the persisted lists, which are read back as sets.
- The kernel rules of the datapath and the per-execution connection limit.
- Resource admission on the agent, evacuation and prewarming.
