# The MicroK8s control-plane controller, modelled and proved

The controller keeps the Machines of a MicroK8s control plane at the number and the version its
`MicroK8sControlPlane` object asks for. Each Reconcile lists the Machines once and then creates at most one,
marks at most one for deletion, or upgrades nodes where they are; everything larger (a rolling upgrade, scaling
from five to three, winding down a deleted control plane) is what many such passes add up to. The proofs are
about those runs.

The project has three layers.

* **The code.** `Reconciler.Controller` is a class whose fields are what the API server holds and the object in
  memory; its methods are the controller's phases, loops and early returns included. `CreationOrder`,
  `NodeProvider` and `VersionWait` hold the loops that stand alone. Every method is proved equal to a function of
  the state before it and of the outcome of each call it makes.
* **The functions.** `Scaling`, `ControlPlane`, `Secrets` and `Reconciling` say what a pass does to the Machines,
  the status, the secrets and the stored object.
* **The runs.** `StaleRuns`, `FreshRuns`, `Lifecycle`, `CachedLives` and the modules built on them are about
  sequences of passes, environment steps and edits of the object.

`PassOutcomes` and `ReconcileOutcomes` tell what those functions come to once more, by the fields of what they are
given: version numbers, the strategy's value, the outcome of each call, the names of secrets, the stored counts. A
wrong definition shared by the code and the functions would contradict them.

How the outside world appears:

* A call that writes ends `Done`, `Failed`, or `LostReply`: an error to the caller although the write landed.
* The API server holds the Machines, the clones and the configurations as values in creation order. Machine names
  are never reused; a Machine is named by how many were created before it. Infrastructure clones and bootstrap
  configurations take generated names, and a creation under a name in use fails.
* `Clock` gives the creation timestamp of each Machine. Timestamps have a resolution of one second, so two
  Machines can share one. `Ticking` says that no two do; `NonDecreasing` says only that time does not run
  backwards. Most results about fresh lists assume neither; every row below that needs distinct seconds says so.
  `sort.Sort` is not stable: a pass may work on any arrangement of the list with non-decreasing timestamps, so the
  probe may look at any of the oldest Machines and scaling down may take any of them.
* The Machine list comes from the manager's cache and the control plane object from an uncached read. `StaleRuns`
  lets each pass act on any earlier state of the Machines; `FreshRuns` gives each pass the current list; in
  `Lifecycle` a list may be anything as long as an empty one means that there are no Machines; `CachedLives` has
  whole lives in which every list is one of some past state, and carries the results of `StaleRuns` over to them.
* In `Lifecycle` the object may be edited or deleted between the read at the start of a Reconcile and its writes.
  One Reconcile at a time works on an object, and only this controller writes its status and its finalizer.
* A Machine without a NodeRef in the in-place upgrade, an upgrade pod that could not be created, a marked Machine
  without a NodeRef in the victim loop, and a matching Machine without a provider identifier are nil dereferences
  in the code. They are outcomes of the model (`Stops`, `podCreated`, `Panics`, `Panicked`), not preconditions.

## Where the code does less than its comments and names suggest

* The floor of three Machines rests on distinct creation seconds: it holds on every stale run if and only if no two
  Machines share one (`FloorTightness.FloorIffDistinctSeconds`).
* With a current list as well, a Machine created in the second of an off-target one may be taken in its place, on
  target though it is (`VersionOrder.MarksOnTargetIff`), and while time stands still that goes on for ever: scaling and
  upgrading terminate if and only if no second lasts for ever (`Termination.TerminatesIffTimeMovesOn`).
* The comment at controllers/reconcile.go:163-164 says that a change of version during an upgrade is taken care of.
  A rolling upgrade from any Machines whose seconds leave the outcome decided reaches the target if and only if, of the
  Machines that scaling down keeps, the off-target ones are older than all others
  (`RollingUpgrade.UpgradeCompletesIff`). Going back to the version of the oldest Machine half way breaks that, and a
  run that starts with no Machines gets there (`Revert.RevertReached`).
* The message at controllers/reconcile.go:228 says of a version write that failed "We will retry". The next pass
  may upgrade again if and only if this one missed an oldest Machine (`InPlace.MayResumeIff`); at the desired count any
  other failed write or lookup is left behind for good (`InPlace.UpgradeIsAbandoned`,
  `InPlace.FailedWriteIsNotRetried`).
* A RollingUpgrade of one or two replicas makes one Machine and then stays there
  (`RollingUpgrade.SmallUpgradeStalls`).
* The wait for a node's upgrade compares text prefixes, so a node at 1.25 passes for 1.2
  (`VersionWait.LooksUpgradedIff`, `VersionWait.FalsePositive`). A malformed target, which the pattern at
  api/v1beta1/microk8scontrolplane_types.go:65 lets through, passes for every node.
* The kubeconfig secret is looked for in every namespace and read from one, so a namesake elsewhere keeps the
  controller from connecting (`Secrets.ConnectsIff`, `Secrets.NamesakeBlocks`).
* An empty list that is merely stale removes the finalizer with Machines still there, and nothing else does
  (`Lifecycle.OrphansIff`); a life whose lists are all past ones ends that way (`CachedLives.OrphanReached`).
* A host that holds one of the three placeholders filled in after it does not survive into the kubeconfig
  (`Kubeconfig.KubeconfigRoundTripIff`, `Kubeconfig.PlaceholderHostIsLost`).

## Model

| member | source | states |
|---|---|---|
| `StaleRuns.StaleFloor` | controllers/reconcile.go:263-290 | On every run whose passes act on arbitrary past lists, with replicas, version and strategy changing freely and calls failing or losing replies, each step that marks a Machine leaves at least three unmarked, given distinct creation seconds. |
| `StaleRuns.StaleMarksInOrder` | controllers/reconcile.go:529-591 | On those runs, with distinct creation seconds, at most one listed Machine is being deleted at any time, and the Machines ever marked are exactly a prefix of creation order. |
| `FloorTightness.OneDeletionIffDistinctSeconds` | controllers/utils.go:26-28 | For every non-decreasing clock, all stale runs have one deletion in flight at most if and only if no two Machines share a creation second. |
| `StaleRuns.PassKeepsChain` | controllers/reconcile.go:119-314 | The step of that proof, with distinct creation seconds: a pass on a stale list keeps the listed Machines a window of creation order with at most its first marked, and a new mark was decided on a list of at least four whose first Machine is still the first unmarked one. |
| `StaleRuns.LaggingViewBoundsFleet` | controllers/microk8scontrolplane_controller.go:228-245 | A pass whose list misses at most `lag` creations leaves at most replicas + 1 + lag Machines whenever it creates one. |
| `FloorTightness.FloorIffDistinctSeconds` | controllers/utils.go:26-28 | For every non-decreasing clock, all stale runs keep the floor if and only if no two Machines share a creation second. |
| `FloorTightness.TieBreaksFloor` | controllers/reconcile.go:529-579 | From the first shared second a concrete run is built, starting with no Machines, in which two passes on one list mark two Machines of four. |
| `CreationOrder.SortByCreationTimestamp` | controllers/utils.go:21-31 | Ordering by adjacent exchanges yields the same Machines with non-decreasing timestamps. |
| `CreationOrder.Swap` | controllers/utils.go:29-31 | Exactly the two places are exchanged and the multiset of Machines stays. |
| `CreationOrder.SortIsUnique` | controllers/utils.go:26-31 | With distinct timestamps every arrangement the sort may return is the same one, whatever order the list came in. |
| `FreshRuns.FreshPass` | controllers/reconcile.go:119-314 | Whatever seconds are shared and however the sort breaks ties: a pass on the current list first writes some versions to the target (only when upgrading in place), and then keeps the list, appends one new Machine, or marks exactly one Machine than which none is older. |
| `FreshRuns.StepLowers` | controllers/reconcile.go:132-314 | With a fixed spec and any clock, for every strategy, replica count and mixture of versions, marks and missing nodes: if all Machines created from number `horizon` on are younger than the off-target ones, every step that changes the Machines lowers one natural-number measure. |
| `FreshRuns.TickingIsBeyond` | controllers/utils.go:26-28 | With distinct seconds the next Machine is such a `horizon`. |
| `FreshRuns.RunTerminates` | controllers/reconcile.go:132-314 | So the number of changes plus what is left of the measure never exceeds the measure at the start. |
| `Termination.TerminatesIffTimeMovesOn` | controllers/reconcile.go:132-314 | For every non-decreasing clock: from every start and for every spec the fresh runs change the Machines a bounded number of times if and only if no second lasts for ever. |
| `Termination.StandingStillLoops` | controllers/reconcile.go:529-579 | Three replicas, RollingUpgrade, Machines [off, on, on] in one second that lasts: create one, it joins, it is marked though on target, it goes, and the list is the first one again, as often as one likes. |
| `FixedPoints.PassIsIdleIff` | controllers/reconcile.go:138-313 | When all calls succeed, a pass changes nothing exactly in the states of `Idle`, judged by its own sort of the list: desired count and first Machine on target or none; more than desired but at most three; more than desired with some Machine marked or without a node; or an in-place upgrade due whose first Machine has no node. |
| `FixedPoints.QuiescentIsIdle` | controllers/reconcile.go:138-313 | No environment step and no pass with successful calls changes the Machines exactly when every sort of the list is idle and every Machine is unmarked and has a node. |
| `FixedPoints.QuiescentFleet` | controllers/reconcile.go:138-313 | With three replicas or more that means: the desired count, all settled, and every oldest Machine on target. |
| `FixedPoints.NotQuiescentMoves` | controllers/reconcile.go:119-314 | Any other state has a step that changes the Machines. |
| `FixedPoints.CompleteRunExists` | controllers/reconcile.go:119-314 | For every spec, from every state with such a `horizon` (with distinct seconds, from every state), some run ends with nothing left to do. |
| `FixedPoints.RunStaysInBounds` | controllers/reconcile.go:171-290 | On fresh runs under any clock the list never exceeds the larger of an earlier length and replicas + 1, and once at least `replicas` Machines are unmarked no later state has fewer. |
| `RollingUpgrade.UpgradeDoesExactWork` | controllers/reconcile.go:144-290 | At least three replicas, and strategy Rolling from any Machines (any versions, marks and count) or Smart from any of which at least three are unmarked; seconds may be shared within the surplus, within the Machines replaced and within those that stay (`Decided`). Whenever nothing is left to do, exactly the surplus over D and then the off-target Machines before the first other one have gone, the number created makes up D, and the list is the remaining Machines followed by the created ones. |
| `RollingUpgrade.TickingDecides` | controllers/utils.go:26-28 | With distinct seconds every start is `Decided`. |
| `RollingUpgrade.UpgradeCompletesIff` | controllers/reconcile.go:152-164 | Under the same conditions no Machine is off target in the end if and only if, of the unmarked Machines at the start that scaling down keeps, the off-target ones come before all others. |
| `RollingUpgrade.RetargetedUpgrade` | controllers/reconcile.go:144-179 | Under the same conditions, from D unmarked Machines of any versions: as many creations and deletions as there are off-target Machines before the first other one, and success if and only if the off-target ones come first. |
| `RollingUpgrade.WholeUpgrade` | controllers/reconcile.go:144-179 | From D unmarked off-target Machines, each older than all created later and tied among themselves as they may be: exactly D creations and D deletions, and the Machines left are the D created ones, in order and at the target. |
| `SmallFleets.SmallStartGrows` | controllers/reconcile.go:180-261 | The Smart strategy from fewer than three settled Machines towards three or more, calls succeeding: when nothing is left to do nothing was marked, the missing Machines were created, and those of the start are all at the target if the oldest were off target, and otherwise all as they were. |
| `SmallFleets.SmallStartCompletesIff` | controllers/reconcile.go:180-261 | Such a run leaves a Machine off target exactly if one was and the oldest were not. |
| `RollingUpgrade.UpgradeStaysAvailable` | controllers/reconcile.go:144-290 | Under any clock, throughout an upgrade from D unmarked Machines the list holds D or D + 1 Machines, at least D of them unmarked. |
| `RollingUpgrade.StepKeepsWindow` | controllers/reconcile.go:144-290 | The invariant, for a `Decided` start: the unmarked Machines are those left of the surplus, then of the ones to be replaced, in whatever order their seconds let them go, followed by all others in their places; one more than desired only while some are to be replaced. |
| `RollingUpgrade.SmallUpgradeStalls` | controllers/reconcile.go:263-272 | Under any clock, RollingUpgrade with one or two replicas: never more than one creation, never a mark, the Machines of the start keep their versions; if an oldest one is off target, nothing is left to do only when exactly one Machine was created and the count is D + 1. |
| `VersionOrder.ProbeIsExactIff` | controllers/reconcile.go:132-143 | However the sort breaks ties, the version of machines[0] is off target exactly if some Machine's is, if and only if all the oldest Machines are off target or none at all is. |
| `VersionOrder.ProbeIsExact` | controllers/reconcile.go:132-143 | That is so when the off-target Machines are older than the others. |
| `VersionOrder.OrdersAgree` | controllers/utils.go:26-28 | With distinct seconds that is the order of the list. |
| `VersionOrder.StepKeepsOrderIff` | controllers/reconcile.go:148-164 | Outside in-place upgrades, under any clock, a step keeps the off-target Machines older than the others if and only if it creates none that is no younger than an off-target one. |
| `VersionOrder.MayMarkIff` | controllers/reconcile.go:529-579 | Under any clock, some pass on the current list marks a given unmarked Machine if and only if scaling down is due, all Machines are settled, and none is older. |
| `VersionOrder.MarksOnTargetIff` | controllers/reconcile.go:556-579 | With the off-target Machines first in the list, some pass marks an on-target Machine while one is off target if and only if scaling down is due, all are settled, and an on-target Machine shares the second of the oldest. |
| `VersionOrder.StepSparesOnTarget` | controllers/reconcile.go:556-579 | With the off-target Machines older than the others, no pass, in-place upgrades included, marks an on-target Machine while some Machine is off target. |
| `VersionOrder.RetargetingKeepsProbeExact` | controllers/reconcile.go:152-164 | On runs without in-place upgrades that change replicas and strategy at will and the version to one no Machine has, each Machine created being younger than those off target then: the probe tells, however ties are broken, in every state. |
| `VersionOrder.TickingCreatesYounger` | controllers/utils.go:26-28 | With distinct seconds each is. |
| `VersionOrder.RevertStalls` | controllers/reconcile.go:132-143 | With the desired count, going back to the version that the oldest Machines have while a newer one exists: the order is lost, a Machine is off target, and no pass changes the Machines. The exact condition is that of `RollingUpgrade.UpgradeCompletesIff`. |
| `VersionOrder.RestIsFinal` | controllers/reconcile.go:132-143 | Under any clock, with the desired count, nothing being deleted and no oldest Machine off target, no run changes a Machine any more except that nodes appear; whatever is off target stays so. |
| `Revert.RevertReached` | controllers/reconcile.go:152-164 | From no Machines, with distinct seconds, editing only version and replicas and never setting a strategy, a run reaches three Machines with the upgraded one youngest; going back then leaves that one off target and the controller at rest. |
| `InPlace.FullUpgrade` | controllers/reconcile.go:180-241 | For any sort of the list, a complete in-place pass at the desired count puts every Machine at the target and changes nothing else. |
| `InPlace.TurnsWrite` | controllers/reconcile.go:193-241 | Whatever each turn comes to (failed lookup, wrong annotation, failed or lost write, missing pod) whatever the count and the order of the turns: exactly the Machines that some turn writes are put at the target, and the switch is reached if and only if no turn ended the pass. |
| `InPlace.UpgradedNamesIff` | controllers/reconcile.go:193-229 | A Machine is written if and only if some turn, all turns before it complete, finds its node, has that annotation, and its update lands. |
| `InPlace.PartialUpgrade` | controllers/reconcile.go:193-241 | A pass that some turn ended, or at the desired count, does nothing but write those versions. |
| `InPlace.FailedLookup` | controllers/reconcile.go:193-199 | In particular, a pass whose k-th node lookup fails after k successful turns rewrites exactly the first k Machines of its sorted list. |
| `InPlace.MayResumeIff` | controllers/reconcile.go:132-143 | For any outcomes, any count and any clock: the next pass may find an upgrade due if and only if this one missed an off-target Machine than which none listed then is older. |
| `InPlace.PartialUpgradeResumesIff` | controllers/reconcile.go:132-143 | With distinct seconds: if and only if this one did not write the oldest Machine; with nodes annotated with their own Machines, if and only if its node was not found or its write failed. |
| `InPlace.FailedLookupResumesIff` | controllers/reconcile.go:132-143 | In particular, with distinct seconds, after a k-th lookup that fails, all Machines having been off target, if and only if k = 0. |
| `InPlace.FailedWriteIsNotRetried` | controllers/reconcile.go:223-229 | Two Machines of different seconds, every turn complete, only the second's version write fails: it stays off target and no upgrade is due. |
| `InPlace.UpgradeKeepsOrderIff` | controllers/reconcile.go:148-164 | For any outcomes and any clock, an in-place pass keeps the off-target Machines older than the others if and only if those it misses are older than those it writes. |
| `InPlace.StoppedUpgradeKeepsOrderIff` | controllers/reconcile.go:193-199 | In particular, with distinct seconds, when k successful turns are followed by a failed lookup or by none, if and only if k = 0, all were made, or Machine k was on target. |
| `InPlace.PartialUpgradeIsAbandoned` | controllers/reconcile.go:132-143 | At the desired count, with every oldest Machine written or on target and another off-target one missed, the next pass changes no Machine. |
| `InPlace.UpgradeIsAbandoned` | controllers/reconcile.go:132-143 | With nothing being deleted no later pass of any run does, and a Machine stays off target. |
| `BootConservation.RunSharesNothing` | controllers/reconcile.go:337-416 | On every stale run with any of the three creations failing: Machines created <= configurations created <= clones created, and no two Machines listed at any two times share a clone or a configuration. |
| `BootConservation.BootKeepsAccount` | controllers/reconcile.go:347-415 | One call of bootControlPlane keeps that account, whichever creation fails or loses its reply. |
| `ControlPlane.ConditionsKeepSound` | controllers/reconcile.go:418-428 | Giving the two conditions their initial values keeps counters and latches sound and takes nothing back. |
| `ControlPlane.MachinesKeepSound` | controllers/reconcile.go:246-313 | So does reconcileMachines by each of its exits. |
| `ControlPlane.UpdateKeepsSound` | controllers/status.go:45-104 | So does updateStatus, at every early return and error. |
| `ControlPlane.LiveUpdateCounts` | controllers/status.go:45-100 | An update that reaches the workload cluster sets ReadyReplicas to the number of ready labelled nodes, Replicas to the number of listed Machines, and Ready exactly when there is a labelled node. |
| `ReconcileOutcomes.ReachedUpdate` | controllers/status.go:45-100 | An update that reaches the workload cluster: counts of ready nodes among those with the label, and one labelled node, ready or not, makes the control plane ready, initialized and available; nothing else changes. |
| `ReconcileOutcomes.UnreachableUpdate` | controllers/status.go:45-78 | One on a deleting object, without a client, or with the identifier pass or the node list failed: not ready, none ready, all unavailable, and nothing else changes; with the Machine list failed nothing changes at all. |
| `ReconcileOutcomes.ConditionsStartFalse` | controllers/reconcile.go:418-428 | The two conditions become false, with their reasons, exactly where missing. |
| `ReconcileOutcomes.CreationReports` | controllers/reconcile.go:361-413 | The condition names the creation that failed; nothing is reported when all three succeed. |
| `ReconcileOutcomes.SettledReports` | controllers/reconcile.go:291-310 | At the desired count Bootstrapped is set exactly if it was or there are Machines and all have an internal address, with the conditions that go with it. |
| `ReconcileOutcomes.PassReports` | controllers/reconcile.go:171-310 | What each way through reconcileMachines says of the size. |
| `Secrets.ConnectsIff` | controllers/configs.go:77-149 | With all calls succeeding and the CA present, a client comes back exactly if the cluster's own secret exists or no namespace holds one of that name; it leaves the secret in place, and without a client nothing was written. |
| `Secrets.ConnectsMeans` | controllers/configs.go:77-149 | For all outcomes: a client exactly if listing, reading and connecting succeed and the own secret exists, or its name is free in all namespaces, an endpoint and a CA are there, and the creation succeeds. |
| `Secrets.CreatesMeans` | controllers/configs.go:92-122 | The secret is created under exactly those conditions, a lost reply included. |
| `Secrets.NamesakeBlocks` | controllers/configs.go:82-92 | A cluster whose CA is there, calls that all succeed, and a secret of the name in another namespace: no client and no secret. |
| `Secrets.OnlyAddsKubeconfig` | controllers/configs.go:92-122 | Nothing but the cluster's kubeconfig is ever added, nothing is removed, and a second call adds nothing more. |
| `Reconciling.ActKeepsSound` | controllers/microk8scontrolplane_controller.go:127-167 | Every way through Reconcile, failures included, stores a status with ReadyReplicas + UnavailableReplicas = Replicas and sound latches, and reverts none of Initialized, Bootstrapped, Available. |
| `ReconcileOutcomes.StoresCounts` | controllers/microk8scontrolplane_controller.go:142-155 | A live Reconcile that reaches the workload cluster and whose patch lands stores the number of listed Machines, the number of ready labelled nodes, and Ready exactly when some node is labelled. |
| `ReconcileOutcomes.StoresNoneReady` | controllers/microk8scontrolplane_controller.go:142-155 | One that does not reach it, or is on a deleting object, stores that none is ready. |
| `ReconcileOutcomes.StoresBootstrapped` | controllers/reconcile.go:291-310 | With the desired count, no upgrade due and internal addresses, a patch that lands stores Bootstrapped and the conditions MachinesBootstrapped, MachinesCreated, ComponentsHealthy and, when readiness is known, Resized. |
| `ReconcileOutcomes.StoresWaiting` | controllers/reconcile.go:292-300 | With an address missing it stores that bootstrapping is waited for. |
| `ReconcileOutcomes.NothingStored` | controllers/microk8scontrolplane_controller.go:142-159 | A failed patch, or a panic of the status update, leaves the stored object of a live pass alone. |
| `ReconcileOutcomes.FailedPatchKeepsStatus` | controllers/microk8scontrolplane_controller.go:151-155 | A failed patch leaves the stored status alone on a deleting object too. |
| `ReconcileOutcomes.FinalizerComesFirst` | controllers/microk8scontrolplane_controller.go:127-140 | The first Reconcile adds the finalizer if its patch lands, and does nothing else. |
| `ReconcileOutcomes.EditsSurvive` | controllers/microk8scontrolplane_controller.go:169-198 | Spec and deletion mark of the stored object stay as the user made them since the read. |
| `ReconcileOutcomes.GatesStop` | controllers/reconcile.go:46-62 | Without the infrastructure template, a valid endpoint or a list, no Machine is touched and only the status update shows. |
| `ReconcileOutcomes.LivePass` | controllers/reconcile.go:79-90 | Past its gates a live Reconcile makes one pass on the Machines, with clients exactly as they can be had. |
| `ReconcileOutcomes.LiveSecrets` | controllers/configs.go:77-149 | And asks for the kubeconfig when it upgrades in place, scales down and updates the status. |
| `Reconciling.WorkingStatusSound` | controllers/microk8scontrolplane_controller.go:161-166 | The same of the object in memory before the deferred update, after the normal and the delete path. |
| `Reconciling.FinalizerRemovedIff` | controllers/reconcile.go:443-454 | The finalizer goes exactly when the object read was being deleted, the list succeeded and was empty, and the update or the patch landed. |
| `Reconciling.DeletingCreatesNothing` | controllers/reconcile.go:443-484 | A pass on a deleting object creates no Machine, clone, configuration or secret. |
| `ReconcileOutcomes.RequestedIff` | controllers/reconcile.go:456-466 | A deletion request is made and lands exactly for the unmarked Machines before which every other request succeeded. |
| `ReconcileOutcomes.DeletionMarks` | controllers/reconcile.go:456-466 | A deleting pass marks exactly those Machines and changes nothing else about any. |
| `ReconcileOutcomes.DeletionClearsSecrets` | controllers/reconcile.go:468-479 | After a non-empty list with every request done, the secrets of the cluster's name with -kubeconfig, -ca and -jointoken in its namespace go as their deletions succeed, and no other; otherwise none does. |
| `ReconcileOutcomes.StoresDeleting` | controllers/reconcile.go:481-483 | The stored status then says that the control plane is being deleted, and the finalizer stays. |
| `Lifecycle.LifeKeepsInvariant` | controllers/microk8scontrolplane_controller.go:127-166 | In every reachable state, lists being arbitrary but empty only when there are no Machines: a Machine exists only under a finalizer, the counters add up, Ready implies Initialized and Available, and Bootstrapped agrees with its condition. |
| `Lifecycle.ActKeepsInvariant` | controllers/microk8scontrolplane_controller.go:127-166 | Its step for a whole Reconcile that acts on an object read earlier, which may have been edited or deleted since. |
| `Lifecycle.OrphansIff` | controllers/reconcile.go:443-454 | Without that proviso one Reconcile leaves Machines without a finalizer exactly when there are some, the object read was being deleted, the list came back empty, and the update or the patch landed. |
| `CachedLives.OrphanReached` | controllers/reconcile.go:443-454 | A whole life whose lists are all past ones: finalizer, first Machine, deletion by the user, and a Reconcile on the still empty cached list, after which the Machine exists without its control plane. |
| `CachedLives.LivesKeepFloor` | controllers/microk8scontrolplane_controller.go:161-166 | In every life whose lists are past ones, with distinct creation seconds, up to the first read of the deletion mark: no step marks a Machine and leaves fewer than three unmarked, at most one listed Machine is being deleted, and the oldest go first. |
| `CachedLives.FleetsAreStaleRun` | controllers/microk8scontrolplane_controller.go:228-245 | The Machines of such a life form a stale run. |
| `Lifecycle.LatchesHold` | controllers/status.go:88-100 | Between any two states of a life Initialized, Bootstrapped and the condition Available do not revert. |
| `Lifecycle.DeletionIsFinal` | controllers/reconcile.go:443-484 | Once a Reconcile has read the deletion mark: no Machine is ever created, every later step lowers (unmarked, total) or leaves marks and membership alone, and a kubeconfig secret found gone stays gone. |
| `Lifecycle.DeletionIsBounded` | controllers/reconcile.go:456-466 | In every life the steps after that which change marks or membership number at most the Machines unmarked then plus the Machines listed then. |
| `WindDown.WoundUpIff` | controllers/reconcile.go:443-484 | A deletion that neither the environment nor a Reconcile with the current list and successful calls can take further is complete, and only such a one: no Machine and no object is left. |
| `WindDown.WindDownExists` | controllers/reconcile.go:443-484 | From every state in which no Reconcile can act on a live object, some run ends there. |
| `WindDown.ReconcileMarksAll` | controllers/reconcile.go:456-466 | With the current list and successful deletions one Reconcile marks every Machine and changes nothing else about them. |
| `Reconciler.Controller.KubeconfigForCluster` | controllers/configs.go:77-149 | The search over all secrets and the conditional creation amount to `SecretsAfter`, and a client comes back exactly as `Connects` says. |
| `Reconciler.Controller.BootControlPlane` | controllers/reconcile.go:337-416 | Three creations in a row, each only after the one before was reported, with the condition of the one that failed. |
| `Reconciler.Controller.UpgradeInPlace` | controllers/reconcile.go:185-241 | The upgrade loop writes exactly the annotated Machines of the turns made, and finishes exactly if every turn did. |
| `Reconciler.Controller.UpgradeMachine` | controllers/reconcile.go:193-241 | One turn writes the Machine its node's annotation names, if anything, and the loop goes on exactly if the node was found and the pod created. |
| `Reconciler.Controller.FindVictim` | controllers/reconcile.go:529-568 | The backward loop over the list, in any order: the last listed Machine that is marked or has no node, or else the victim. |
| `Reconciler.Controller.ScaleDownControlPlane` | controllers/reconcile.go:514-592 | Ends as `ScaleDownOf` says, marks the victim and nothing else, and deletes the node of the victim or of a Machine that is being deleted. |
| `Reconciler.NodeGoesWithMachine` | controllers/reconcile.go:531-588 | A node of the workload cluster is deleted only when its Machine is being deleted or its deletion has just landed. |
| `Reconciler.HinderedEnds` | controllers/reconcile.go:531-559 | The last listed Machine that is marked or without a node decides: its node, if found, is deleted; marked without a node it is a panic; unmarked without one it is waited for. |
| `Reconciler.UnhinderedEnds` | controllers/reconcile.go:570-588 | With none such the victim's deletion is requested, and its node deleted exactly if that succeeds. |
| `Reconciler.NoClientEnds` | controllers/reconcile.go:515-525 | Without Machines or a client nothing is requested and no node deleted. |
| `Reconciler.AsksIff` | controllers/reconcile.go:529-579 | A deletion is asked for if and only if there is a client, the list is not empty, nothing is marked and all have nodes; the victim has minimum creation time and, with distinct times, is the machines[0] of the sorted list. |
| `Reconciler.LastUnsettled` | controllers/reconcile.go:531-559 | The Machine at which the backward loop stops: the last listed one that is marked or has no node, or none exactly if all are settled. |
| `Scaling.VictimIndex` | controllers/reconcile.go:529-568 | The victim's place: a minimum of creation time, and of several the one listed last. |
| `Reconciler.Controller.BootstrapCluster` | controllers/reconcile.go:486-512 | Succeeds exactly if there are Machines and each has an internal address, and then collects the first internal address of each, in order. |
| `Reconciler.Controller.SettleMachines` | controllers/reconcile.go:291-310 | The default case sets Bootstrapped and its condition together, or only makes the condition false. |
| `Reconciler.Controller.ProbeUpgrade` | controllers/reconcile.go:132-183 | The version probe and the choice of strategy: some upgrade is due exactly if the first version is well formed and differs from the target in major or minor number, or the target is malformed. |
| `Reconciler.Controller.UpgradeIfDue` | controllers/reconcile.go:143-244 | What happens before the switch, and exactly when the switch is reached. |
| `Reconciler.Controller.ResizeMachines` | controllers/reconcile.go:246-313 | The switch on the count: Machines, secrets and status. |
| `Reconciler.Controller.ReconcileMachines` | controllers/reconcile.go:119-314 | For some sort of the list, the imperative phase is `MachinesPass` on the Machines, `MachinesStatus` on the status, and touches no other secret than the kubeconfig. |
| `PassOutcomes.UpgradeDueIff` | controllers/reconcile.go:132-143 | An upgrade is due exactly if there are Machines, the first one's version is well formed, and the target is malformed or has another major or minor number. |
| `PassOutcomes.StrategyIff` | controllers/reconcile.go:138-183 | In place means InPlaceUpgrade, or the smart or unset strategy with fewer than three Machines; everything else rolls. |
| `PassOutcomes.SameReleaseIsIdle` | controllers/reconcile.go:134-143 | At the desired count with every Machine at the target's major and minor number, whatever the rest, no pass changes a Machine. |
| `PassOutcomes.PatchReleaseIsNotRolledOut` | controllers/reconcile.go:134-143 | So with nothing being deleted no run ever changes one, under any clock. |
| `PassOutcomes.RollingPassCreates` | controllers/reconcile.go:171-178 | A rolling upgrade due at the desired count only creates a Machine. |
| `PassOutcomes.NoClientNoUpgrade` | controllers/reconcile.go:185-188 | An in-place upgrade without a client changes nothing, nor does the pass go on. |
| `PassOutcomes.EndedUpgradeStops` | controllers/reconcile.go:193-241 | One that a missing node, a failed lookup or a missing pod ends writes its versions and does not go on. |
| `PassOutcomes.CompleteUpgradeResizes` | controllers/reconcile.go:241-246 | A complete one goes on to the switch on the count. |
| `PassOutcomes.QuietPassResizes` | controllers/reconcile.go:143-246 | So does a pass with no upgrade due, or with one to roll out at another count. |
| `PassOutcomes.SwitchOutcome` | controllers/reconcile.go:246-313 | Below the count one is created; above it, from four on, the victim is marked if there is a client, all are unmarked and have nodes, and the deletion lands; otherwise nothing happens. |
| `PassOutcomes.BootOutcome` | controllers/reconcile.go:337-416 | Exactly what is left by each outcome of the three creations, lost replies included, and what a new Machine looks like. |
| `Reconciler.Controller.ReconcileConditions` | controllers/reconcile.go:418-428 | The two conditions become false only where they were missing. |
| `Reconciler.Controller.ReconcileNormal` | controllers/reconcile.go:40-98 | The phases in order on one list, or nothing at all when an early return is taken. |
| `Reconciler.Controller.ReconcileDelete` | controllers/reconcile.go:443-484 | Marks the unmarked Machines in list order up to the first failure; only if none failed are the three secrets deleted. |
| `Reconciler.Controller.CountReady` | controllers/status.go:80-100 | Adds the number of ready labelled nodes to ReadyReplicas. |
| `Reconciler.Controller.ProvideIdentifiers` | controllers/status.go:107-149 | The pass over the nodes, on the lists it gets: succeeds exactly if every node goes through, panics exactly if the first that does not matches a Machine without an identifier. |
| `Reconciler.Controller.UpdateStatus` | controllers/status.go:33-104 | The status after each of its exits, the provider-identifier pass included, and no client asked for on a deleting object. |
| `Reconciler.Controller.Finish` | controllers/microk8scontrolplane_controller.go:142-159 | The deferred function: status, then one patch of what the pass changed, which a panic prevents. |
| `Reconciler.Controller.Reconcile` | controllers/microk8scontrolplane_controller.go:127-167 | A whole Reconcile past the gates is `Act` on everything the API server holds, for some sort of the list. |
| `NodeProvider.FindMachineWithAddress` | controllers/status.go:151-160 | The nested search returns the first listed Machine that has the address. |
| `NodeProvider.FirstWith` | controllers/status.go:151-160 | What "first listed Machine with the address" means, by position. |
| `NodeProvider.FirstMatchMeaning` | controllers/status.go:135-146 | The Machine chosen for a node is that of its first address that any Machine has, and none exactly if no address matches. |
| `NodeProvider.AssignedMeans` | controllers/status.go:131-148 | A node that is not ready, has an identifier, or matches no Machine is left as it is; any other gets the identifier of the first listed Machine with its first address that any Machine has. |
| `NodeProvider.GoesThroughIff` | controllers/status.go:131-148 | The pass gets past a node exactly if it leaves it alone or the match has an identifier and the update succeeds. |
| `NodeProvider.PassPanicsIff` | controllers/status.go:138-138 | It panics exactly if it gets to a ready node without identifier whose match has none. |
| `NodeProvider.UpdateProviderID` | controllers/status.go:131-148 | Without an error every ready node without identifier has the chosen Machine's and all others, those not ready or with an identifier among them, are untouched; on an error at node i exactly the nodes before i are processed (and i itself if only the reply was lost). |
| `NodeProvider.SecondPass` | controllers/status.go:131-148 | A second pass changes no node, and writes one again exactly if its identifier was written as the empty string. |
| `VersionWait.LooksUpgradedIff` | controllers/reconcile.go:655-659 | For all versions, the prefix test holds exactly if the target is malformed, or the node's version is well formed with equal majors and the target minor is the node's minor divided by a power of ten that leaves a digit; with as many digits, exactly if the minors are equal. |
| `VersionWait.DecPrefixIff` | controllers/reconcile.go:657-659 | For all numbers, decimal text is a prefix exactly if the number is the other with digits cut off. |
| `VersionWait.DecReads` | controllers/reconcile.go:657-659 | The decimal text of a number reads as that number. |
| `VersionWait.FalsePositive` | controllers/reconcile.go:657-659 | 1.25 passes for 1.2. |
| `VersionWait.WaitForNodeUpgrade` | controllers/reconcile.go:647-664 | At most 60 lookups; the wait ends at the first answer that is an error or looks upgraded, and fails exactly on an error. |
| `Template.SequentialFills` | controllers/configs.go:231-234 | For every host, four replacements in a row fill the template at once, except for what the last three do to the host. |
| `Template.ReplaceAllMeans` | controllers/configs.go:231-234 | For all texts, replacing falls into parts at the occurrences found from the left: joined by the placeholder they are the text, joined by the value the result, and no part holds an occurrence of its own. |
| `Template.AnyOrderFills` | controllers/configs.go:231-234 | Without a bracket in the values every order of the four replacements is one simultaneous substitution. |
| `Template.HostUnchangedIff` | controllers/configs.go:231-234 | The last three replacements leave the host alone exactly if it holds none of their placeholders. |
| `Kubeconfig.TemplateIsFilledAtOnceIff` | controllers/configs.go:34-56 | For the controller's template and all certificate and key bytes, the four replacements are one simultaneous substitution if and only if the host holds none of the three later placeholders. |
| `Kubeconfig.OrderIsFree` | controllers/configs.go:231-234 | For that template and a host without a bracket, every order of the four replacements gives the same kubeconfig. |
| `Kubeconfig.KubeconfigRoundTripIff` | controllers/configs.go:34-56 | For every one-line host and all bytes, host, CA, certificate and key are read back from the kubeconfig unchanged if and only if the host holds none of the three later placeholders. |
| `Kubeconfig.PlaceholderHostIsLost` | controllers/configs.go:231-234 | The hosts "<CACERT>", "<CERT>" and "<KEY>" are not read back, whatever the bytes. |
| `Kubeconfig.TemplateText` | controllers/configs.go:34-56 | The text of the kubeconfig around its four values, word for word. |
| `Kubeconfig.GeneratedParses` | controllers/configs.go:231-236 | In every case the bytes are read back unchanged, and the host as the last three replacements left it. |
| `Base64.RoundTrip` | controllers/configs.go:232-234 | Base64 with padding (section 4 of RFC 4648) decodes to the bytes encoded, for all byte sequences. |
| `Base64.GroupIsBase64` | controllers/configs.go:232-234 | Three bytes become the four base-64 digits of their 24 bits, most significant first. |
| `Base64.AlphabetIs` | controllers/configs.go:232-234 | The digits are written in the standard alphabet. |

## Left out

- Kubernetes clients, watches, access rules, manager start-up, logging, sleeps and connections: calls are outcomes chosen freely.
- The gates at controllers/microk8scontrolplane_controller.go:80-115 stop a Reconcile for any reason (`StopsAtGate`); what each one looks at is not modelled.
- API objects are values inside the `Controller` class; objects aliased between the cache and the code are not modelled. The Machine list sorted in place and the nodes are arrays.
- The sort algorithm of the Go library: one sort driven by Less and Swap is given, and the theorems hold for every arrangement a sort may return.
- Certificates, keys and PEM in genarateKubeconfig: arbitrary bytes, and one outcome for all their errors.
- The patch is atomic and touches status and finalizer; the patch helper's conflict handling and the summary condition are library code.
- Requeue results: the deferred function overwrites them at controllers/microk8scontrolplane_controller.go:157.
- The MachinesReady aggregate: an arbitrary condition, or none. The code takes the address of one loop variable for all Machines (controllers/reconcile.go:65-67), so its value is not meaningful.
- Severities and messages of conditions, and the condition set on the Cluster object in memory, which is not written back.
- The upgrade pod's contents and its removal.
- The workload cluster's nodes are what its lists return; they are not kept as state between two calls.
- The reference to the infrastructure template and the choice of a failure domain.
- Health checks: both functions in controllers/healthchecks.go succeed always, and are modelled so.
- The 32-bit width of the counters: they are unbounded integers.
- Semantic versioning: a version is major, minor and the rest, or malformed. Replicas and the version of every Machine are assumed set; controllers/reconcile.go:123 and controllers/reconcile.go:134 dereference them unchecked.
- Reconciler.Controller.Reconcile: starts after the gates, which are steps of `Lifecycle` that do nothing.
- Reconciler.Controller.ReconcileNormal: leaves out the returned result, which is overwritten, and takes the MachinesReady aggregate as given.
- Reconciler.Controller.UpdateStatus: leaves out the selector text copied at controllers/status.go:33, which is the same at every call.
- Reconciler.Controller.ScaleDownControlPlane: leaves out the requeue delays and the errors of deleting a node, after which the pass ends either way.
- Generated deep copies and manifests.
