# KubeNodeSmith in Dafny

A model of the node autoscaler KubeNodeSmith and machine-checked proofs about it: the claim
controller that launches, registers, recycles and finalizes machines, the launch lease between
controller instances, the pool controller that plans, creates and deletes claims, and the Proxmox
provider that allocates and finds virtual machines.

`dafny verify dfyconfig.toml` checks the whole project.

## How the model is built

Code that updates things step by step is modelled by methods and by classes with the source's own
fields (`NodeClaimReconciler`, `NodePoolReconciler`, `ProxmoxProvider`), with its loops, early exits
and local copies. Each method is proved equal to a function of the old state and of everything the
code reads. Statements about whole runs are lemmas about those functions.

The API server, the provider, the clock and random draws are inputs. Every status write and every
deletion can be accepted, refused, or take effect without being acknowledged. A crash is a reconcile
whose remaining writes are rejected. Between two reads of one claim reconcile the cluster may change,
so a claim run carries the node snapshots its listing and its lookup saw. Each claim is reconciled by
one worker at a time, and only its controller writes its status; `LaunchLease` drops the first of
these assumptions. A scale-down may count nodes that have left since: `CountProtectsMinimumIff` says
exactly when that does harm.

| file | contents |
|---|---|
| `CapacityPlanner`, `PackingBound`, `Replanning`, `ListingOrder` | first-fit-decreasing planner; soundness, packing bound, comparison with the optimum, a second plan for the same pods under any listing order |
| `ClaimRecord`, `ClaimLifecycle`, `ClaimController` | the claim record, one reconcile as a function, and as the methods that run |
| `ClaimInvariants`, `ClaimRuns`, `ClaimTheorems`, `ClaimProgress` | what phases keep, the effect monitor, the promises over runs, giving up and becoming ready |
| `ClaimDecisions` | when a reconcile does what and what it answers, told by fields and times |
| `LaunchLease` | the lease between interleaved workers |
| `VmidAllocator`, `VmOptions`, `ProxmoxInventory`, `InventoryRuns` | identifier allocation, option lists, provisioning, the machine inventory over runs |
| `ProviderDecisions` | what provider calls leave behind and report |
| `MachineCleanup` | which removal calls of the claim controller destroy the claim's machine |
| `PoolMatching`, `NodeLabels`, `PoolReadings` | which pods a pool answers for, the labels its nodes get, and what the pool controller reads, field by field |
| `Accounting`, `ScaleUp`, `PoolController`, `RepeatedScaleUp`, `RelistedScaleUp`, `ScaleUpDecisions`, `ClaimNaming`, `Decimal` | counts and buckets, the scale-up step, limits and claim names, what a repeated reconcile does |
| `ScaleDown`, `ScaleDownDecisions`, `ScaleDownRuns` | idle nodes, the scale-down step, pool finalization, which claims are deleted, spacing and minimum size |
| `Common`, `KubeObjects` | shared datatypes and sums |

## Results at a glance

- **Planner.** For every pod list, bucket list and template (C, M), opening k claims implies
  floor(k/2)·C·M ≤ M·(total CPU) + C·(total memory). If the pods fit into n template-sized nodes in
  any way, at most 4n + 1 claims are opened. No pod is lost, copied or over-committed. A second plan for
  the same pods opens nothing, for all pods no larger than the template, all nodes and every order in
  which the claims may be listed, if and only if the template is in whole cores and MiB and no older
  pending claim has another size, empty ones apart. With the new claims listed last, the first condition
  alone is exact.
- **Claim runs.** A monitor automaton accepts the effect log of every run: machines are provisioned
  only under a persisted finalizer and never after deletion was observed, a timeout comes only after a
  full registration window, no node object is bound twice, a machine is provisioned only after no node
  of the claim's name was left, and the finalizer goes last. At most three
  provisioning calls per registration (two after a recycle) plus one per launch write lost. A new claim
  for which nothing registers ends Failed after six turns in which its launch or its timeout could run,
  however many other reconciles come in between, if and only if its spec has requirements; five turns are
  not enough.
- **Lease.** Mutual exclusion over every interleaving if and only if no acquisition falls between a
  worker's read and its write, and heartbeat age plus judgement delay stay within the timeout. The
  heartbeat cadence leaves 195 seconds for the judgement, less the latency of the acquire write.
- **Cleanup.** A removal call destroys the claim's machine if and only if it is made under the machine's
  name. A claim that never got a node asks under the empty name, so over whole runs its machine survives
  timeouts, retries and the claim's own finalization.
- **Proxmox.** Allocation finds a free identifier if and only if there is one; the inventory stays
  duplicate-free over every run; the exact conditions for both are proved.
- **Repeated scale-up.** After a batch created in full and in the planned sizes, later reconciles with the
  same pods and nodes ask for nothing if the pool's pending claims are all of one size or are listed in the
  same order. Claims come from a cache without an order, and for every pool with an older claim of less
  memory than its nodes some listing makes it ask for one claim more. A claim that failed still counts as
  room, so a pod that fits into it waits as long as that claim exists.
- **Pool.** Limits hold in the state a scale-up leaves; claim names are injective and never reused by
  persisted scale-ups; scale-downs are a window apart and keep the minimum size.

Properties one might expect and that fail are stated with the exact condition under which they hold:
`ProbeSoundIffNoWrap`, `NoDuplicateIffNoHiddenTwin`, `MachinesAreNamedIff`, `OptionsCarrySpecIff`,
`DeletableIff`, `TimeoutDestroysIff`, `RecycleDestroysIff`, `FinalizeDestroysIff`, `ReconcileDestroysIff`,
`LabelsReachNodeIff`, `TargetingIgnoresOrderIff`, `SafeTemplateIffWhole`, `SafeInAnyOrderIff`,
`LonePodIsAnsweredIff`, `FullBatchIffNamesFree`, `NodeLimitSafeIffFresh`,
`CountMissesStaleClaims`, `NodeLimitSafeIffListed`, `PoolFinalizerGoesIff`, `CountProtectsMinimumIff`,
`LostWriteIsNotCharged`, `HopelessNewClaimFailsIffSized`, `TurnsSufficeIff`, `LeaseExclusionIff`. Concrete failing inputs are in
`TimedOutMachineSurvives`, `TargetingDependsOnTermOrder`, `StaleCountUndershoots`,
`InterleavedAcquisitionsBothHold`, `SlowJudgementOvertakes` and `RelistingScalesUpAgain`.

Where the code and its documentation differ, the model follows the code: the registration timeout is
fifteen minutes (the repository's README says five), scale-down deletes the claim without cordoning
the node, and a Proxmox provider ID is `proxmox://` and the machine name.

## Model

| member | source | states |
|---|---|---|
| `KubeObjects.GetRequestedResources` | internal/kube/kube.go:309-321 | a pod asks for the sum over its containers in both resources |
| `CapacityPlanner.PlanCapacity` | internal/controller/nodepool_controller.go:683-727 | the loops on remainders yield exactly one rounded claim per bin that the packing with its pod lists opens |
| `CapacityPlanner.CollectDemands` | internal/controller/nodepool_controller.go:684-691 | pods that request nothing are dropped, the others kept in order |
| `CapacityPlanner.TakeFirstFit` | internal/controller/nodepool_controller.go:697-705 | the demand comes out of the first bucket with room in both resources, and out of no other |
| `CapacityPlanner.OpenClaim` | internal/controller/nodepool_controller.go:709-724 | a new claim is the template enlarged to the pod, its remainder what the pod leaves |
| `PackingBound.SortOrders` | internal/controller/nodepool_controller.go:692-694 | demands are taken by descending CPU, none lost or added |
| `PackingBound.SortIsStable` | internal/controller/nodepool_controller.go:692-694 | demands of equal CPU keep their order |
| `PackingBound.PlanIsSound` | internal/controller/nodepool_controller.go:683-727 | every requesting pod is in exactly one bin, room is conserved and never negative, and the pod that opens a claim fits in no earlier bin |
| `PackingBound.PlannedClaimsCover` | internal/controller/nodepool_controller.go:717-724 | each claim covers its pods in whole cores and MiB, with less than one unit of rounding |
| `PackingBound.PairIsHeavy` | internal/controller/nodepool_controller.go:696-724 | any two new claims together carry a template's worth of CPU or of memory |
| `PackingBound.PlanPackingBound` | internal/controller/nodepool_controller.go:683-727 | floor(k/2)·C·M ≤ M·(total CPU) + C·(total memory) for k new claims |
| `PackingBound.PlanCompetesWithOptimum` | internal/controller/nodepool_controller.go:683-727 | at most 4n + 1 claims if the pods can be packed into n template-sized nodes at all |
| `Replanning.ReplanOpensNothing` | internal/controller/nodepool_controller.go:683-727 | with the bins of its first plan as the first buckets, a second plan for the same pods opens nothing, whatever the template and the buckets behind |
| `Replanning.WholeClaimsAreQuiet` | internal/controller/nodepool_controller.go:721-724 | claims in whole cores and MiB keep their planned size, so with them behind the older buckets the second plan opens nothing |
| `Replanning.SafeTemplateIffWhole` | internal/controller/nodepool_controller.go:683-727 | with the new claims behind the older buckets, the second plan opens nothing for all fitting pods and all buckets exactly if the template is in whole cores and MiB; else explicit pods open one claim more |
| `ListingOrder.OneSizeIsQuiet` | internal/controller/nodepool_controller.go:300-303 | where all pending claims agree in size, the second plan opens nothing in any order |
| `ListingOrder.OtherSizeOpensAgain` | internal/controller/nodepool_controller.go:662-727 | for every older claim of another size than the template, the empty one apart, there are fitting pods for which a plan with the new claim listed first opens one more |
| `ListingOrder.SafeInAnyOrderIff` | internal/controller/nodepool_controller.go:662-727 | the second plan opens nothing for all fitting pods, nodes, older claims of the given sizes and listing orders exactly if the template is whole and every older claim has its size or asks for nothing |
| `ClaimController.NodeClaimReconciler.UpdateStatus` | internal/controller/nodeclaim_controller.go:993-1019 | re-read, mutate and write as one step; the local copy is refreshed only on success |
| `ClaimController.NodeClaimReconciler.Reconcile` | internal/controller/nodeclaim_controller.go:77-124 | one reconcile changes the stored claim and acts on the world exactly as the reconcile function says |
| `ClaimController.NodeClaimReconciler.ReconcileLaunch` | internal/controller/nodeclaim_controller.go:127-175 | lease check, waiting times and clearing of an expired lease |
| `ClaimController.NodeClaimReconciler.AcquireAndLaunch` | internal/controller/nodeclaim_controller.go:163-175 | the lease is released however the launch ends |
| `ClaimController.NodeClaimReconciler.LaunchHolding` | internal/controller/nodeclaim_controller.go:177-315 | giving up, the wait for an old node, the panic of a claim without requirements, provisioning and the launch write |
| `ClaimController.NodeClaimReconciler.ReconcileRegistration` | internal/controller/nodeclaim_controller.go:319-495 | the first listed node of the claim that is not being deleted is bound; else wait or time out |
| `ClaimController.NodeClaimReconciler.BindNode` | internal/controller/nodeclaim_controller.go:358-393 | the node is recorded only after pool lookup and labelling succeeded |
| `ClaimController.NodeClaimReconciler.GiveUpWaiting` | internal/controller/nodeclaim_controller.go:402-487 | a timeout deprovisions, clears the provider ID and fails the claim at the last attempt |
| `ClaimController.NodeClaimReconciler.ReconcileInitialization` | internal/controller/nodeclaim_controller.go:498-575 | ready, wait, or recycle a lost or degraded node |
| `ClaimController.NodeClaimReconciler.RecycleUnhealthyNode` | internal/controller/nodeclaim_controller.go:671-770 | recycling resets the claim only if the node could be deleted |
| `ClaimController.NodeClaimReconciler.Finalize` | internal/controller/nodeclaim_controller.go:579-668 | node first, then machine, then finalizer |
| `ClaimController.NodeIsReady` | internal/controller/nodeclaim_controller.go:518-524 | true exactly if some readiness condition is true |
| `ClaimController.NodeNotReadyFor` | internal/controller/nodeclaim_controller.go:527-535 | age of the first readiness condition that has a time, else zero |
| `ClaimDecisions.ProvisionsIff` | internal/controller/nodeclaim_controller.go:77-300 | for every claim and input, the provider is asked for a machine exactly if the claim is live, protected, not Failed and without machine, the lease is free and taken, attempts are left, no node of its name exists, and requirements and provider are found |
| `ClaimDecisions.LaunchesOnlyWithoutOldNode` | internal/controller/nodeclaim_controller.go:217-228 | over every run, a provisioning call follows a moment of its reconcile at which no live node bears the claim's name |
| `ClaimDecisions.LaunchAnswers` | internal/controller/nodeclaim_controller.go:177-315 | record, effects and answer of a launch that holds the lease, case by case |
| `ClaimDecisions.LaunchErrors` | internal/controller/nodeclaim_controller.go:137-315 | a write that fails, or missing requirements, end a launch with an error |
| `ClaimDecisions.LeaseTurnsAway` | internal/controller/nodeclaim_controller.go:143-160 | a running launch lease turns the worker away for its remaining time, and at least two or ten seconds |
| `ClaimDecisions.LeaseTimes` | internal/controller/nodeclaim_controller.go:849-869 | when a lease has run out and how long it still runs |
| `ClaimDecisions.BindsFirstNode` | internal/controller/nodeclaim_controller.go:345-393 | the first listed node with the claim's name or label that is not terminating is recorded, once labelled |
| `ClaimDecisions.RegistrationErrors` | internal/controller/nodeclaim_controller.go:382-487 | a status write that fails ends the registration with an error |
| `ClaimDecisions.WaitsOrTimesOut` | internal/controller/nodeclaim_controller.go:319-487 | without such a node the claim waits half a minute at a time and is given up after fifteen minutes |
| `ClaimDecisions.InitializationDecides` | internal/controller/nodeclaim_controller.go:498-541 | a registered claim becomes ready, waits or asks for its node's deletion exactly by the node's readiness conditions |
| `ClaimDecisions.UnreadyTime` | internal/controller/nodeclaim_controller.go:527-535 | for how long a node counts as unready |
| `ClaimDecisions.InitializationErrors` | internal/controller/nodeclaim_controller.go:518-575 | a status write that fails ends the initialization with an error |
| `ClaimDecisions.RecyclesIff` | internal/controller/nodeclaim_controller.go:498-560 | a recycle is stored exactly if the node is gone, or unready for more than ten minutes and deleted |
| `ClaimDecisions.RecycleResets` | internal/controller/nodeclaim_controller.go:671-770 | a recycled claim has no node, no machine, one attempt more, and is Failed after the third |
| `ClaimDecisions.CleanupAnswers` | internal/controller/nodeclaim_controller.go:588-668 | what a cleanup pass does in which order, and what it answers |
| `ClaimDecisions.OuterAnswers` | internal/controller/nodeclaim_controller.go:77-124 | the answers of a failed read, a new claim, a Failed claim, and a deleted claim whose node still exists |
| `ClaimDecisions.HealthyAnswer` | internal/controller/nodeclaim_controller.go:110-123 | a healthy claim is looked at again after two minutes |
| `ClaimInvariants.ReconcileKeepsInv` | internal/controller/nodeclaim_controller.go:77-124 | one reconcile keeps the lifecycle shape of the record and never undoes Failed, whatever fails |
| `ClaimInvariants.LaunchKeepsInv` | internal/controller/nodeclaim_controller.go:127-315 | the launch phase keeps the shape and goes on only with a provider ID |
| `ClaimInvariants.RegistrationKeepsInv` | internal/controller/nodeclaim_controller.go:319-495 | the registration phase keeps the shape and goes on only with a node name |
| `ClaimInvariants.InitializationKeepsInv` | internal/controller/nodeclaim_controller.go:498-575 | the initialization phase keeps the shape, goes on only when Ready is stored, and never fails a claim |
| `ClaimInvariants.FinalReturnMeansReady` | internal/controller/nodeclaim_controller.go:110-123 | the final return is reached only with the claim stored as Ready |
| `ClaimInvariants.NoStrandedClaim` | internal/controller/nodeclaim_controller.go:77-124 | a reconcile without error or requeue leaves the claim Failed or finalized |
| `ClaimInvariants.LeaseWaitIsEnough` | internal/controller/nodeclaim_controller.go:143-160 | the requeue delay of a worker turned away outlasts an unrefreshed lease |
| `ClaimInvariants.UnreachableBranches` | internal/controller/nodeclaim_controller.go:210-756 | no reachable record takes the data-loss, uncounted-attempt, missing-condition or recycle-failure branch |
| `ClaimInvariants.LaunchSpendsRank` | internal/controller/nodeclaim_controller.go:177-308 | every provisioning call and giving up strictly decreases the rank: 0 for a failed claim, 1 on the last attempt, else 2·(3−attempts) + [launched] |
| `ClaimInvariants.TimeoutSpendsRank` | internal/controller/nodeclaim_controller.go:424-487 | so does every timeout |
| `ClaimRuns.RunKeepsInv` | internal/controller/nodeclaim_controller.go:77-124 | every world of every run is accepted by the monitor and keeps record, clock and node bindings consistent |
| `ClaimRuns.BindIsLawful` | internal/controller/nodeclaim_controller.go:345-390 | a listed node that is not being deleted was never bound before |
| `ClaimRuns.InitializationIsLawful` | internal/controller/nodeclaim_controller.go:506-541 | a recycle gives up only a node that is gone or being deleted |
| `ClaimRuns.FinalizeIsLawful` | internal/controller/nodeclaim_controller.go:579-668 | a finalize pass respects the cleanup order whatever fails |
| `ClaimTheorems.EveryRecordIsWellShaped` | internal/controller/nodeclaim_controller.go:77-124 | provider ID iff Launched, node name iff Registered, Ready iff Initialized, Failed implies both empty, at most three attempts |
| `ClaimTheorems.FailedIsFinal` | internal/controller/nodeclaim_controller.go:103-108 | a claim once Failed stays Failed |
| `ClaimTheorems.NoNodeBoundTwice` | internal/controller/nodeclaim_controller.go:345-390 | each node UID is registered to the claim at most once over any run |
| `ClaimTheorems.FullRegistrationWindow` | internal/controller/nodeclaim_controller.go:397-401 | a timeout follows the last stored launch by more than the registration timeout |
| `ClaimTheorems.ProvisionedUnderFinalizer` | internal/controller/nodeclaim_controller.go:86-101 | every provisioning call follows a persisted finalizer and precedes any observed deletion |
| `ClaimTheorems.FinalizerRemovedLast` | internal/controller/nodeclaim_controller.go:588-664 | the finalizer goes only after node absence and machine release in the same pass; nothing is provisioned afterwards |
| `ClaimTheorems.FinalizerGoesIff` | internal/controller/nodeclaim_controller.go:579-668 | from its deletion on, a claim loses its finalizer exactly at the first pass that finds its node gone or none bound and whose write is not lost |
| `ClaimTheorems.LaunchBudget` | internal/controller/nodeclaim_controller.go:177-308 | at most three provisioning calls between bindings, two after a recycle, plus the launch writes lost in between |
| `ClaimTheorems.LostWriteIsNotCharged` | internal/controller/nodeclaim_controller.go:265-308 | a call is charged exactly if the write after it is not lost |
| `ClaimProgress.HopelessClaimFails` | internal/controller/nodeclaim_controller.go:177-208 | in any stretch of a run without a binding, as many hopeless turns as the claim's rank end in Failed, whatever comes in between |
| `ClaimProgress.HopelessNewClaimFailsIffSized` | internal/controller/nodeclaim_controller.go:177-237 | for a new claim six such turns end in Failed exactly if its spec has requirements |
| `ClaimProgress.TurnsSufficeIff` | internal/controller/nodeclaim_controller.go:177-487 | a number of hopeless turns fails every such claim with requirements exactly if it is at least six |
| `ClaimProgress.UnsizedClaimIsStuck` | internal/controller/nodeclaim_controller.go:230-237 | a claim without requirements is never provisioned for, charged or Failed, over every run |
| `ClaimProgress.SomeRunReachesReady` | internal/controller/nodeclaim_controller.go:77-124 | some run takes a new claim to Ready |
| `LaunchLease.LeaseExcludes` | internal/controller/nodeclaim_controller.go:849-939 | at most one worker between acquire and release, and the stored lease names it and is unexpired, in every disciplined run |
| `LaunchLease.LeaseExclusionIff` | internal/controller/nodeclaim_controller.go:135-175 | exclusion in all runs of a discipline exactly if no acquisition comes between read and write and heartbeat age plus judgement delay stay within the timeout |
| `LaunchLease.StepKeepsLeaseInv` | internal/controller/nodeclaim_controller.go:135-175 | every interleaved step keeps exclusion and lease ownership |
| `LaunchLease.TimelyJudgementTurnsAway` | internal/controller/nodeclaim_controller.go:136-161 | while a beating worker holds the lease, a judgement in time on any copy lets no other one past |
| `LaunchLease.InterleavedAcquisitionsBothHold` | internal/controller/nodeclaim_controller.go:884-892 | two reads before two acquires let both workers hold the lease |
| `LaunchLease.SlowJudgementOvertakes` | internal/controller/nodeclaim_controller.go:849-854 | once heartbeat age plus judgement delay can exceed the timeout, a holder that keeps beating is overtaken |
| `LaunchLease.ExpiredLeaseIsRecovered` | internal/controller/nodeclaim_controller.go:137-142 | an expired lease is cleared and acquired by the next worker |
| `LaunchLease.ReleasedLeaseIsFree` | internal/controller/nodeclaim_controller.go:163-175 | a released lease is acquired by the next worker without waiting |
| `LaunchLease.HeartbeatProlongs` | internal/controller/nodeclaim_controller.go:896-926 | a heartbeat that lands gives the lease its full time again |
| `LaunchLease.CadenceKeepsLeaseFresh` | internal/controller/nodeclaim_controller.go:871-926 | ticks at a third of the timeout, no two lost in a row, keep the lease fresh with 195 seconds to spare, less the acquire write's latency until the first heartbeat lands |
| `VmidAllocator.GenerateNewVMID` | internal/provider/proxmox/proxmox.go:61-98 | the loops compute the allocation function in 64-bit arithmetic |
| `VmidAllocator.CollectUsed` | internal/provider/proxmox/proxmox.go:70-81 | the used set holds exactly the listed identifiers inside the range |
| `VmidAllocator.ProbeUpwards` | internal/provider/proxmox/proxmox.go:86-95 | the loop returns the first candidate that is not taken |
| `VmidAllocator.AllocateIsComplete` | internal/provider/proxmox/proxmox.go:61-98 | an unused identifier of the range is returned iff there is one; the last error is unreachable |
| `VmidAllocator.ProbeVisitsOnce` | internal/provider/proxmox/proxmox.go:86-91 | the wrap-around probe visits each identifier exactly once |
| `VmidAllocator.ProbeSoundIffNoWrap` | internal/provider/proxmox/proxmox.go:86-91 | it does so for every start exactly if the largest sum stays below 2^64 |
| `VmidAllocator.CountTestIsExact` | internal/provider/proxmox/proxmox.go:78-84 | the early count test fires exactly if no identifier is free |
| `VmidAllocator.ToIntWraps` | internal/provider/proxmox/proxmox.go:93 | the result is converted to a signed 64-bit integer |
| `VmOptions.BuildVirtualMachineOptions` | internal/provider/proxmox/proxmox.go:336-388 | the in-place upserts build the option list in source order; an error without the Proxmox section |
| `VmOptions.SetOption` | internal/provider/proxmox/proxmox.go:347-355 | overwrites the first option of the name or appends |
| `VmOptions.OptionsCarrySpecIff` | internal/provider/proxmox/proxmox.go:357-385 | all entries under name, tags, memory and cores carry the controller's value exactly if the configuration mentions the option at most once and no interface of other content bears its name |
| `VmOptions.OptionsExactly` | internal/provider/proxmox/proxmox.go:341-387 | all values under any name, in order: interface before controller before configuration in the first place, later configured repeats untouched |
| `VmOptions.UpsertReplacesFirst` | internal/provider/proxmox/proxmox.go:347-355 | setting an option replaces the first entry of its name and leaves every other entry |
| `VmOptions.NicsOverride` | internal/provider/proxmox/proxmox.go:367-385 | the last interface of a name takes the first entry of that name |
| `ProxmoxInventory.ProxmoxProvider.ProvisionMachine` | internal/provider/proxmox/proxmox.go:391-458 | reuse by name, else create, with every failure point |
| `ProxmoxInventory.ProxmoxProvider.CreateMachine` | internal/provider/proxmox/proxmox.go:410-457 | the created machine has the allocated identifier and the names in its options |
| `ProxmoxInventory.ProxmoxProvider.FindNodeByVMName` | internal/provider/proxmox/proxmox.go:460-493 | the first machine of the name on a visible host, or none if no visible host has one |
| `ProxmoxInventory.ProxmoxProvider.DeprovisionMachine` | internal/provider/proxmox/proxmox.go:496-531 | tag check, stop and delete, with every failure point |
| `ProviderDecisions.FindsFirstSeen` | internal/provider/proxmox/proxmox.go:460-493 | a machine is found exactly if a listable host has one of the name, and then the first on the first such host |
| `ProviderDecisions.ProvisionSucceedsIff` | internal/provider/proxmox/proxmox.go:391-458 | when a call reports a machine, and that some machine of the name is running then |
| `ProviderDecisions.ReuseSucceedsIff` | internal/provider/proxmox/proxmox.go:395-405 | a machine found stopped is started, and reported only if the start was accepted and waited for |
| `ProviderDecisions.CreationOutcomes` | internal/provider/proxmox/proxmox.go:410-457 | how far a creation got decides whether there is a machine, whether it runs and what is reported |
| `ProviderDecisions.RemovalOutcomes` | internal/provider/proxmox/proxmox.go:496-531 | how far a removal got decides whether the machine runs, is there, and what is reported |
| `ProviderDecisions.MemoryWithOverhead` | internal/provider/proxmox/proxmox.go:360-365 | a new machine gets the claim's memory plus a positive overhead |
| `InventoryRuns.InventoryStaysDuplicateFree` | internal/provider/proxmox/proxmox.go:391-458 | no two machines share an identifier and no two created ones a name, over every run with listable hosts, however repeated options are resolved |
| `InventoryRuns.MachinesAreNamedIff` | internal/provider/proxmox/proxmox.go:341-357 | every claim's machine bears the claim's name exactly if no interface and at most one configured option is called name |
| `InventoryRuns.NoDuplicateIffNoHiddenTwin` | internal/provider/proxmox/proxmox.go:391-408 | provisioning is safe exactly if the name is not hidden on a host that cannot be listed, or nothing can be created |
| `InventoryRuns.CreateAddsFreshVM` | internal/provider/proxmox/proxmox.go:410-457 | a call adds at most one machine, with an unused identifier of the range and the requested name |
| `InventoryRuns.ProvisionIsIdempotent` | internal/provider/proxmox/proxmox.go:392-405 | repeating a successful call creates nothing and names the same machine |
| `InventoryRuns.DeprovisionSparesUntagged` | internal/provider/proxmox/proxmox.go:496-531 | only the one machine found, and only with the managed tag, is ever deleted |
| `InventoryRuns.DestroyedIff` | internal/provider/proxmox/proxmox.go:496-531 | for every input, a machine is gone after a call exactly if the lookup found it, it is tagged and the removal took |
| `InventoryRuns.DestroyedIffNamed` | internal/provider/proxmox/proxmox.go:496-531 | a call that goes well destroys a machine exactly if it is made under the machine's name |
| `InventoryRuns.DeletableIff` | internal/provider/proxmox/proxmox.go:505-508 | some call for a name can delete a machine, whoever made it, exactly if it is the first of that name on its host and its tags contain the managed tag; the empty tag protects nothing |
| `MachineCleanup.ReconcileDestroysIff` | internal/controller/nodeclaim_controller.go:77-124 | a reconcile destroys the machine exactly if a finalization, timeout or recycle is due whose provider is found and the node name it has by then is the machine's name |
| `MachineCleanup.TimeoutDestroysIff` | internal/controller/nodeclaim_controller.go:405-422 | a timeout destroys the machine exactly if the record names a node of the machine's name |
| `MachineCleanup.RecycleDestroysIff` | internal/controller/nodeclaim_controller.go:688-708 | a recycle destroys it exactly if the bound node bears the machine's name |
| `MachineCleanup.FinalizeDestroysIff` | internal/controller/nodeclaim_controller.go:612-664 | so does a finalize pass, which takes the finalizer in any case |
| `MachineCleanup.UnregisteredMachineSurvives` | internal/controller/nodeclaim_controller.go:402-668 | over a whole run without a binding no removal call destroys any named machine |
| `MachineCleanup.TimedOutMachineSurvives` | internal/controller/nodeclaim_controller.go:405-422 | a timeout deprovisions under the empty name, removes nothing, and the relaunch adopts the old machine |
| `PoolMatching.PodMatchesPool` | internal/controller/nodepool_controller.go:493-529 | both results equal the declarative meaning in any map order |
| `PoolMatching.NodeSelectorTermMatches` | internal/controller/nodepool_controller.go:531-576 | a term matches iff all its expressions hold |
| `PoolMatching.ExpressionMatches` | internal/controller/nodepool_controller.go:534-570 | every operator evaluates to its meaning |
| `PoolMatching.ComparisonMatches` | internal/controller/nodepool_controller.go:552-569 | Gt and Lt compare parsed signed 64-bit integers |
| `PoolMatching.ParseIntRoundTrip` | internal/controller/nodepool_controller.go:556-563 | label and bound are read as signed 64-bit decimals, larger ones rejected |
| `PoolMatching.SelectorMatches` | internal/controller/nodepool_controller.go:494-503 | all selector pairs are pool labels |
| `PoolMatching.SomeTermMatches` | internal/controller/nodepool_controller.go:511-520 | only the first matching term decides targeting |
| `PoolMatching.BuildPoolLabelSet` | internal/controller/nodepool_controller.go:474-483 | the template's labels override the pool's own key |
| `PoolMatching.FilterPodsForPool` | internal/controller/nodepool_controller.go:461-472 | keeps, in order, the pods that match and target the pool |
| `PoolMatching.MatchIgnoresOrder` | internal/controller/nodepool_controller.go:507-576 | neither term nor expression order decides a match |
| `PoolMatching.MatchingSelectorTargets` | internal/controller/nodepool_controller.go:485-503 | a pod matching through a non-empty selector targets the pool |
| `PoolMatching.NonTargetingExactly` | internal/controller/nodepool_controller.go:493-529 | a matching pod is non-targeting exactly without selector and with a silent first matching term |
| `PoolMatching.TermOrderIrrelevantIff` | internal/controller/nodepool_controller.go:511-520 | all orders of the terms give the same answer exactly if all matching terms agree on mentioning the pool |
| `PoolMatching.TargetingIgnoresOrderIff` | internal/controller/nodepool_controller.go:493-529 | for a pod, exactly if its selector mentions the pool or its matching terms agree |
| `PoolMatching.TargetingDependsOnTermOrder` | internal/controller/nodepool_controller.go:511-519 | an empty term placed first hides a later mention |
| `PoolReadings.OperatorsMean` | internal/controller/nodepool_controller.go:534-550 | what In, NotIn, Exists and DoesNotExist mean, value by value |
| `PoolReadings.ComparisonsMean` | internal/controller/nodepool_controller.go:552-569 | Gt and Lt compare the numbers written in label and value, and hold for neither otherwise |
| `PoolReadings.PodWithTermsMeans` | internal/controller/nodepool_controller.go:493-529 | a pod matches by its selector and its first matching term, and asks for the pool by either |
| `PoolReadings.PodWithoutMatchingTerm` | internal/controller/nodepool_controller.go:507-529 | a pod none of whose terms matches does not match |
| `PoolReadings.PodWithoutTermsMeans` | internal/controller/nodepool_controller.go:493-506 | without affinity the selector alone decides |
| `PoolReadings.AcceptsInOrder` | internal/controller/nodepool_controller.go:461-472 | pods are accepted one by one, in order |
| `PoolReadings.PoolLabelsAre` | internal/controller/nodepool_controller.go:474-483 | which labels a pool promises, key by key |
| `NodeLabels.EnsureNodeLabels` | internal/controller/nodeclaim_controller.go:792-831 | the resulting labels, and no patch only if nothing changes |
| `NodeLabels.LabellingIsIdempotent` | internal/controller/nodeclaim_controller.go:792-831 | labelling twice is labelling once, and unrelated labels stay |
| `NodeLabels.LabelsReachNodeIff` | internal/controller/nodeclaim_controller.go:798-824 | the matched labels reach every node exactly if the pool's key is usable |
| `NodeLabels.NodeHonoursTargeting` | internal/controller/nodepool_controller.go:461-483 | an accepted pod with positive operators may run on every labelled node of the pool |
| `PoolReadings.LabelsAfterRegistration` | internal/controller/nodeclaim_controller.go:792-831 | the labels after registration, key by key |
| `PoolReadings.DiffersIffChanged` | internal/controller/nodeclaim_controller.go:817-831 | the template counts as a change exactly if it changes the labels |
| `PoolReadings.SpacesAre` | internal/controller/nodeclaim_controller.go:798-800 | which label keys are blank |
| `PoolReadings.LabelledNodeBelongs` | internal/controller/nodeclaim_controller.go:345-357 | a labelled node is recognised as the claim's own, whatever its name |
| `Accounting.CountInflightClaims` | internal/controller/claims.go:16-70 | count and totals of the claims of the pool that are unready, undeleted and fresh; an error only without a pool |
| `Accounting.BuildPendingClaimBuckets` | internal/controller/nodepool_controller.go:662-681 | one bucket per unready claim with requirements |
| `Accounting.BuildNodeBuckets` | internal/controller/nodepool_controller.go:627-660 | one clamped bucket per node, none at all after a failed listing |
| `Accounting.ListPodsOnNode` | internal/controller/nodepool_controller.go:736-749 | mirror, terminating and finished pods do not count |
| `Accounting.GetPoolResourceUsage` | internal/kube/kube.go:365-427 | sums over the nodes, a node with a failed pod listing counted as empty |
| `Accounting.InflightWithinPending` | internal/controller/claims.go:34-67 | counted claims are among the pending ones and their totals within the pending buckets |
| `Accounting.BucketsCoverAvailable` | internal/kube/kube.go:407-409 | node buckets add up to at least the available room, equal iff no node is over-committed |
| `Accounting.CountMissesStaleClaims` | internal/controller/claims.go:52-55 | the count equals the live unready claims exactly if none is older than fifteen minutes |
| `PoolReadings.RequestsAdd` | internal/kube/kube.go:309-321 | requests add up over containers |
| `PoolReadings.RoomOfNode` | internal/controller/nodepool_controller.go:627-660 | a node's room is its allocatable size less what its own unfinished pods ask for, and not negative |
| `PoolReadings.BurdensInOrder` | internal/controller/nodepool_controller.go:736-749 | which pods count on a node, one by one |
| `PoolReadings.UsageAdds` | internal/kube/kube.go:365-427 | each figure of the usage is the sum of that field over the nodes |
| `PoolReadings.RoomOfClaim` | internal/controller/nodepool_controller.go:662-681 | an unready claim of the pool is room of its size in cores and MiB, and no other is |
| `ScaleUpDecisions.CountsAreOnTheWay` | internal/controller/claims.go:16-70 | what counts as in flight, in millicores and bytes, field by field |
| `ScaleUp.PlanIsNonNegative` | internal/controller/nodepool_controller.go:721-724 | no planned claim asks for a negative size |
| `ScaleUp.FirstPodGetsAClaim` | internal/controller/nodepool_controller.go:266-406 | an empty unlimited pool answers one accepted pod with one claim just large enough for it |
| `RepeatedScaleUp.SecondScaleUpIsQuiet` | internal/controller/nodepool_controller.go:266-406 | after a batch created in full and in the planned sizes, every later reconcile with the same pods and nodes is skipped if the pool's pending claims are listed as after the batch |
| `RepeatedScaleUp.SecondScaleUpIsQuietInAnyOrder` | internal/controller/nodepool_controller.go:281-306 | so it is in any order, and with other claims in between, if the pool's pending claims are all of one size |
| `RelistedScaleUp.RelistingScalesUpAgain` | internal/controller/nodepool_controller.go:281-306 | with an older claim of less memory than the full node, the same claims listed with the new one in front make the pool ask for one more |
| `RepeatedScaleUp.LonePodIsAnsweredIff` | internal/controller/nodepool_controller.go:662-727 | no claim is planned for a lone pod exactly if a node has room for it or an unready claim of the pool is large enough, dead or not |
| `RepeatedScaleUp.DeadClaimKeepsPodWaiting` | internal/controller/nodepool_controller.go:300-306 | a pod that fits into a deleted, stale or failed claim is skipped without a requeue |
| `RepeatedScaleUp.FailedClaimKeepsPodWaiting` | internal/controller/nodepool_controller.go:662-681 | over every run of the claim controller, a claim that failed keeps such a pod waiting as long as it exists |
| `PoolController.NodePoolReconciler.ReconcileScaleUp` | internal/controller/nodepool_controller.go:266-406 | the whole scale-up with its skips, limit checks, claim loop and status write |
| `PoolController.PlanScaleUp` | internal/controller/nodepool_controller.go:275-306 | candidates, template, buckets and plan, or the reason to skip |
| `PoolController.CheckLimits` | internal/controller/nodepool_controller.go:308-364 | node and resource limits over usage, in-flight and new claims |
| `ScaleUpDecisions.LimitsPassIff` | internal/controller/nodepool_controller.go:308-364 | a batch passes exactly if listed nodes, claims in flight and the batch together are within every limit set, in nodes, millicores and bytes; otherwise it is retried in half a minute |
| `ScaleUpDecisions.ScaleUpGoesIff` | internal/controller/nodepool_controller.go:266-364 | for every input, when a scale-up goes ahead and with which claims |
| `ScaleUpDecisions.SkippedAnswers` | internal/controller/nodepool_controller.go:275-306 | what it answers when it does not |
| `ScaleUpDecisions.PlanWithinLimitsIsCreated` | internal/controller/nodepool_controller.go:366-406 | a plan within the limits whose names are free is created in full and recorded |
| `ScaleUpDecisions.EnsureAnswers` | internal/controller/nodepool_controller.go:408-459 | what making sure of one claim stores and reports, outcome by outcome |
| `ScaleUpDecisions.BatchGoesOn` | internal/controller/nodepool_controller.go:366-379 | a batch stops behind the first claim that is not reported as there |
| `ScaleUpDecisions.BrokenBatchAnswers` | internal/controller/nodepool_controller.go:366-406 | a batch that breaks off says so and records nothing |
| `PoolController.AddUp` | internal/controller/nodepool_controller.go:343-347 | what a batch adds in millicores and bytes |
| `PoolController.NodePoolReconciler.CreateAll` | internal/controller/nodepool_controller.go:366-379 | consecutive names, stopping at the first error |
| `PoolController.NodePoolReconciler.EnsureClaim` | internal/controller/nodepool_controller.go:408-459 | an existing claim is left alone, a missing one created, and one that another writer creates meanwhile accepted |
| `ScaleUp.DetermineNodeCapacity` | internal/controller/nodepool_controller.go:587-625 | the first node's size, else the first sized claim's, else the largest pod requests |
| `ScaleUp.LargestPodIsLeastCover` | internal/controller/nodepool_controller.go:614-624 | the fallback template is the least size that no pending pod exceeds |
| `PoolReadings.NodeSizeIs` | internal/controller/nodepool_controller.go:587-625 | the size of a new node: first node, first sized claim, or largest pods, field by field |
| `PoolController.LimitsHoldAfterwards` | internal/controller/nodepool_controller.go:308-379 | any later recount after a step that created claims is within all limits, claims of rival writers apart |
| `PoolController.LimitsHoldWithoutRivals` | internal/controller/nodepool_controller.go:308-379 | where no creation of the batch loses a race, a recount of the whole store is within all limits |
| `PoolController.NodeLimitSafeIffListed` | internal/controller/nodepool_controller.go:138-147 | a batch that passes keeps every node limit exactly if no more nodes exist than were listed |
| `PoolController.NodeLimitSafeIffFresh` | internal/controller/claims.go:52-55 | and keeps it with all live unready claims counted exactly if none of them is older than fifteen minutes |
| `PoolController.BatchOnlyAppends` | internal/controller/nodepool_controller.go:366-379 | a batch leaves existing claims alone, duplicates no name and uses its own numbers |
| `PoolController.BatchCreatesFreeNames` | internal/controller/nodepool_controller.go:366-379 | a batch that reports success created one claim for every name that was free |
| `PoolController.FullBatchIffNamesFree` | internal/controller/nodepool_controller.go:417-418 | it created what was planned exactly if none of its names was taken |
| `PoolController.RetriedBatchCreatesNothing` | internal/controller/nodepool_controller.go:366-400 | after a sequence number that was not stored, a next batch that is no larger reports success and creates nothing |
| `PoolController.SequenceNeverDecreases` | internal/controller/nodepool_controller.go:366-400 | the stored sequence number only grows |
| `PoolController.PersistedNamesAreDisjoint` | internal/controller/nodepool_controller.go:366-400 | persisted scale-ups never share a claim name |
| `ClaimNaming.ClaimNameIsInjective` | internal/controller/nodepool_controller.go:372-373 | distinct pools and numbers give distinct names |
| `ClaimNaming.NumbersTakeSixPlaces` | internal/controller/nodepool_controller.go:372-373 | a name is the pool's, a dash, and at least six digits |
| `Decimal.PaddedRoundTrip` | internal/controller/nodepool_controller.go:372 | a padded number reads back as itself |
| `ScaleDown.GetEvictablePods` | internal/kube/kube.go:273-307 | the pods that keep a node from being idle |
| `ScaleDown.GetScaleDownCandidates` | internal/kube/kube.go:461-488 | the schedulable nodes without evictable pods, or an error |
| `PoolController.FindClaim` | internal/controller/nodepool_controller.go:211-220 | the first listed claim of the pool on that node |
| `PoolController.NodePoolReconciler.ReconcileScaleDown` | internal/controller/nodepool_controller.go:163-263 | size check, candidates, window, and the first candidate with a claim, claims listed anew for each |
| `PoolController.NodePoolReconciler.DeleteClaim` | internal/controller/nodepool_controller.go:227-258 | a deletion that takes effect marks one claim; if it is acknowledged, the activity is recorded |
| `ScaleDownDecisions.SpareIsIdle` | internal/kube/kube.go:461-488 | a node is idle exactly if it is schedulable and has no listed pod that is neither mirror, daemon-set, finished, terminating nor tolerating |
| `ScaleDownDecisions.KeepersInOrder` | internal/kube/kube.go:273-307 | which pods keep a node, one by one |
| `ScaleDownDecisions.DeletesIff` | internal/controller/nodepool_controller.go:163-258 | when a scale-down deletes, and that it takes the first claim the pool has on the first idle candidate that has one |
| `ScaleDownDecisions.DeletionMarks` | internal/controller/nodepool_controller.go:227-258 | the deleted claim is of the pool and on the idle node; only claims of its name are marked and nothing else changes |
| `ScaleDownDecisions.NothingDeletedAnswers` | internal/controller/nodepool_controller.go:171-200 | what a scale-down answers when it deletes nothing |
| `ScaleDownDecisions.UnsuccessfulSearchAnswers` | internal/controller/nodepool_controller.go:202-225 | candidates without a claim are passed over; a failed listing ends the search |
| `ScaleDownRuns.DeletionIsJustified` | internal/controller/nodepool_controller.go:171-235 | a deletion takes one idle node above the minimum, outside the window |
| `ScaleDownRuns.DeletionsAreSpaced` | internal/controller/nodepool_controller.go:188-200 | two scale-downs of a run are at least a window apart |
| `ScaleDownRuns.PoolKeepsMinimum` | internal/controller/nodepool_controller.go:151-157 | the pool never falls below its minimum in any run that meets the stated assumptions |
| `ScaleDownRuns.DeletionKeepsSizeIff` | internal/controller/nodepool_controller.go:171-235 | a deletion keeps the minimum exactly if more nodes than the minimum are present |
| `ScaleDownRuns.CountProtectsMinimumIff` | internal/controller/nodepool_controller.go:151-171 | the count test is safe for every MinNodes exactly if the count is not above the nodes present at the deletion |
| `ScaleDownRuns.StaleCountUndershoots` | internal/controller/nodepool_controller.go:138-200 | a node count taken before the window check can be too high and let the pool fall below its minimum |
| `PoolController.NodePoolReconciler.FinalizePool` | internal/controller/nodepool_controller.go:864-923 | one pass over a deleted pool |
| `ScaleDownDecisions.PassMarksExactly` | internal/controller/nodepool_controller.go:880-905 | for every store and listing, a pass marks exactly the claims named like a live listed claim of the pool that it reaches and deletes |
| `ScaleDownDecisions.FinalizingDeletesAll` | internal/controller/nodepool_controller.go:880-905 | after a pass that went well every listed claim of the pool is being deleted |
| `ScaleDownDecisions.FinalizingSparesOthers` | internal/controller/nodepool_controller.go:880-890 | claims of other pools never change |
| `ScaleDownDecisions.FinalizePoolAnswers` | internal/controller/nodepool_controller.go:864-923 | what a pass answers and when the finalizer goes, for every listing and outcome |
| `ScaleDown.PoolFinalizerGoesIff` | internal/controller/nodepool_controller.go:880-918 | the finalizer goes exactly if no claim was already being deleted when listed |

## Left out

- PlanCapacity: rounding is integer ceiling; the source divides as 64-bit floats, which agrees below 2^53.
- FullRegistrationWindow: stored times keep full precision; the API server truncates them to seconds, so a window can be up to one second shorter.
- SafeTemplateIffWhole and SafeInAnyOrderIff: for templates of at least two millicores and three MiB; pods larger than the template are covered by WholeClaimsAreQuiet.
- DeletionsAreSpaced: same truncation of the recorded scale activity to whole seconds.
- PoolKeepsMinimum: assumes that status writes land, deleted nodes leave within the window and no count exceeds the nodes present; CountProtectsMinimumIff shows that the last one is exact.
- LeaseExcludes: assumes the discipline that LeaseExclusionIff shows to be exact; a stale cache counts as delay between read and judgement, and all workers read one clock.
- Int64 overflow of resource sums and sequence numbers, and informer-cache staleness.
- Client construction, manager setup, flags, TLS, metrics, events, logs, condition reasons and messages.
- Which of several options of one name a creation request takes: both possibilities are covered.
- Proxmox HTTP calls, tasks, credentials and the choice of a host (`getAvailableNode`): the outcome is an input.
- `generateRandomMAC` and the rendering of network devices: the device text is an input.
- `controlplane_controller.go`: watch mapping and provider cache.
- `refreshPoolStatus` and the Available and Progressing conditions of a pool.
- Labels, owner reference and idempotency key of created claims, which nothing later reads.
- The fetch of a claim that no longer exists; a claim without finalizer that is being deleted stands for it.
- `ListMachines`, `GetUnschedulablePods` and the unused helpers of `internal/kube`.
