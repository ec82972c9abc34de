/** What one Reconcile leaves behind, told by the fields of what it is given and of what is stored. */
module ReconcileOutcomes {
  import opened Types
  import opened Scaling
  import opened ControlPlane
  import opened Secrets
  import opened NodeProvider
  import opened Reconciling
  import opened PassOutcomes

  predicate True(st: Status, t: ConditionType) {
    t in st.conditions && st.conditions[t] == IsTrue
  }

  predicate False(st: Status, t: ConditionType, reason: Reason) {
    t in st.conditions && st.conditions[t] == IsFalse(reason)
  }

  /** Of all conditions only those in `changed` may differ. */
  predicate OnlyConditions(st: Status, st': Status, changed: set<ConditionType>) {
    forall t: ConditionType :: t !in changed ==>
      (t in st.conditions <==> t in st'.conditions)
      && (t in st.conditions ==> st'.conditions[t] == st.conditions[t])
  }

  // ---- the status update -------------------------------------------------------------------

  function ReadyOnes(nodes: seq<Node>): set<int> {
    set i | 0 <= i < |nodes| && nodes[i].labelled && nodes[i].ready
  }

  predicate AnyLabelled(nodes: seq<Node>) {
    exists i :: 0 <= i < |nodes| && nodes[i].labelled
  }

  /** With the Machines listed but the workload cluster out of reach or not asked, all are unavailable; everything else
      stays. With the list failed, all stays. */
  lemma UnreachableUpdate(st: Status, deleting: bool, c: StatusCalls)
    ensures c.listOk && (deleting || !c.client || !c.providerOk || !c.nodesOk) ==>
              var n := c.listed;
              StatusAfter(st, deleting, c)
              == st.(ready := false, replicas := n, readyReplicas := 0, unavailableReplicas := n)
    ensures !c.listOk ==> StatusAfter(st, deleting, c) == st
  {
  }

  /** With the workload cluster in reach, ready nodes are counted among those with the control-plane label, and one such
      node, ready or not, makes the control plane initialized, available and ready. */
  lemma ReachedUpdate(st: Status, c: StatusCalls)
    requires c.listOk && c.client && c.providerOk && c.nodesOk
    ensures
      var after, ready := StatusAfter(st, false, c), |ReadyOnes(c.nodes)|;
      && after.replicas == c.listed && after.readyReplicas == ready && after.unavailableReplicas == c.listed - ready
      && after.bootstrapped == st.bootstrapped && OnlyConditions(st, after, {Available})
      && if AnyLabelled(c.nodes) then after.ready && after.initialized && True(after, Available)
         else !after.ready && after.initialized == st.initialized && after.conditions == st.conditions
  {
    ReadyNodesIsCardinality(c.nodes);
    assert ReadyOnes(c.nodes) == set i | 0 <= i < |c.nodes| && Counted(c.nodes[i]);
  }

  // ---- the phases --------------------------------------------------------------------------

  /** The two conditions become false where they were missing, and nothing else changes. */
  lemma ConditionsStartFalse(st: Status)
    ensures
      var st' := InitConditions(st);
      && st' == st.(conditions := st'.conditions) && OnlyConditions(st, st', {Available, MachinesBootstrapped})
      && (if Available in st.conditions then st'.conditions[Available] == st.conditions[Available]
          else False(st', Available, WaitingForMicroK8sBoot))
      && (if MachinesBootstrapped in st.conditions then
            st'.conditions[MachinesBootstrapped] == st.conditions[MachinesBootstrapped]
          else False(st', MachinesBootstrapped, WaitingForMachines))
  {
  }

  /** The condition names the creation that failed, a lost reply being a failure too. */
  lemma CreationReports(api: Api, c: BootCalls, st: Status)
    ensures
      var st' := BootStatus(api, c, st);
      && st' == st.(conditions := st'.conditions) && OnlyConditions(st, st', {MachinesCreated})
      && (if !c.infra.Done? || c.infraName in api.infra then
            False(st', MachinesCreated, InfrastructureTemplateCloningFailed)
          else if !c.config.Done? || c.configName in api.configs then
            False(st', MachinesCreated, BootstrapTemplateCloningFailed)
          else if !c.machine.Done? then False(st', MachinesCreated, MachineGenerationFailed)
          else st' == st)
  {
  }

  predicate IsInternal(m: Machine) {
    exists a :: 0 <= a < |m.addresses| && m.addresses[a].kind == InternalIP
  }

  predicate AllHaveInternalIP(view: seq<Machine>) {
    forall i :: 0 <= i < |view| ==> IsInternal(view[i])
  }

  /** At the desired count: bootstrapped from the first time that there are Machines and all have an internal address.
      Until then only that condition is set. */
  lemma SettledReports(view: seq<Machine>, st: Status)
    ensures
      var st' := SettleStatus(view, st);
      && (st'.bootstrapped <==> st.bootstrapped || (|view| > 0 && AllHaveInternalIP(view)))
      && st' == st.(bootstrapped := st'.bootstrapped, conditions := st'.conditions)
      && (st'.bootstrapped ==>
            && True(st', MachinesCreated) && (MachinesReady in st.conditions ==> True(st', Resized))
            && (!st.bootstrapped ==> True(st', MachinesBootstrapped))
            && OnlyConditions(st, st', if st.bootstrapped then {MachinesCreated, Resized}
                                       else {MachinesCreated, Resized, MachinesBootstrapped})
            && (MachinesReady !in st.conditions ==>
                  OnlyConditions(st, st', {MachinesCreated, MachinesBootstrapped})))
      && (!st'.bootstrapped ==>
            False(st', MachinesBootstrapped, WaitingForMicroK8sBoot)
            && OnlyConditions(st, st', {MachinesBootstrapped}))
  {
    CanBootstrapMeans(view);
  }

  lemma CanBootstrapMeans(view: seq<Machine>)
    ensures CanBootstrap(view) <==> |view| > 0 && AllHaveInternalIP(view)
  {
    forall i | 0 <= i < |view|
      ensures HasInternalIP(view[i]) <==> IsInternal(view[i])
    {
    }
  }

  /** What a pass says of the size: growing, shrinking, or as settled; a first creation and a stopped in-place upgrade
      say nothing. */
  lemma PassReports(spec: Spec, view: seq<Machine>, calls: Calls, api: Api, st: Status)
    ensures
      var n, due := |view|, |view| > 0 && Differs(view[0].version, spec.version);
      var st' := MachinesStatus(spec, view, calls, api, st);
      if due && !WantsInPlace(spec, n) && n == spec.replicas then
        st' == BootStatus(api, calls.boot, st.(conditions := st.conditions[Resized := IsFalse(ScalingUp)]))
      else if due && WantsInPlace(spec, n) && (!calls.upgradeClient || SomeTurnEnds(view, calls.upgrade)) then st' == st
      else if n == 0 && n < spec.replicas then st' == BootStatus(api, calls.boot, st)
      else if n < spec.replicas then
        st' == BootStatus(api, calls.boot, st.(conditions := st.conditions[Resized := IsFalse(ScalingUp)]))
      else if n > spec.replicas then st' == st.(conditions := st.conditions[Resized := IsFalse(ScalingDown)])
      else st' == SettleStatus(view, st)
  {
    TurnEndsIff(view, calls.upgrade);
  }

  // ---- what gets stored --------------------------------------------------------------------

  /** The kubeconfig secret is there, and the calls that read it and connect succeed. */
  predicate InReach(cl: Cluster, k: KubeCalls, secrets: set<SecretKey>) {
    && k.list && k.cluster && k.get && k.connect
    && SecretKey(cl.namespace, cl.name + "-kubeconfig") in secrets
  }

  lemma InReachConnects(cl: Cluster, k: KubeCalls, secrets: set<SecretKey>)
    requires InReach(cl, k, secrets)
    ensures Connects(cl, k, secrets)
  {
    ConnectsMeans(cl, k, secrets);
  }

  /** Reconcile works on the stored object, which it protects already. */
  predicate OnStored(s: Server, read: Mcp) {
    s.stored == Some(read) && read.finalizer
  }

  lemma PhasesKeepSecrets(clock: Clock, cl: Cluster, s: Server, read: Mcp, c: ReconcileCalls)
    ensures s.secrets <= Normal(clock, cl, s, read, c).0.secrets
  {
  }

  lemma PhasesKeepObject(clock: Clock, cl: Cluster, s: Server, read: Mcp, c: ReconcileCalls)
    ensures Normal(clock, cl, s, read, c).1 == read.(status := Normal(clock, cl, s, read, c).1.status)
    ensures Normal(clock, cl, s, read, c).0.stored == s.stored
  {
  }

  /** A Reconcile that reaches the workload cluster and whose patch lands stores the counts it found. */
  lemma StoresCounts(clock: Clock, cl: Cluster, s: Server, read: Mcp, c: ReconcileCalls)
    requires OnStored(s, read) && !read.deleting && !c.patch.Failed?
    requires c.status.listOk && c.status.nodesOk && InReach(cl, c.statusKube, s.secrets) && PassSucceeds(c.provider)
    ensures
      var s', ready := Act(clock, cl, s, read, c), |ReadyOnes(c.status.nodes)|;
      && s'.stored.Some?
      && var st := s'.stored.value.status;
         && st.replicas == c.status.listed && st.readyReplicas == ready
         && st.unavailableReplicas == c.status.listed - ready
         && (st.ready <==> AnyLabelled(c.status.nodes))
         && (st.ready ==> st.initialized && True(st, Available))
  {
    PhasesKeepSecrets(clock, cl, s, read, c);
    PhasesKeepObject(clock, cl, s, read, c);
    var (done, working) := Normal(clock, cl, s, read, c);
    InReachConnects(cl, c.statusKube, done.secrets);
    ReachedUpdate(working.status, StatusWithClient(cl, c, done.secrets));
    SucceedsDoesNotPanic(c.provider);
  }

  /** Past its gates, a live Reconcile makes one pass on the Machines, with a client for each of its parts exactly if
      one is had from the secrets there at the time. */
  lemma LivePass(clock: Clock, cl: Cluster, s: Server, read: Mcp, c: ReconcileCalls)
    requires read.finalizer && !read.deleting && GatesOpen(c)
    ensures
      var n, due := |c.view|, |c.view| > 0 && Differs(c.view[0].version, read.spec.version);
      var upgraded :=
        if due && WantsInPlace(read.spec, n) then SecretsAfter(cl, c.upgradeKube, s.secrets) else s.secrets;
      var calls := c.machines.(
        upgradeClient := Connects(cl, c.upgradeKube, s.secrets), scaleClient := Connects(cl, c.scaleKube, upgraded));
      Act(clock, cl, s, read, c).api == MachinesPass(clock, read.spec, c.view, calls, s.api)
  {
  }

  /** And it asks for the kubeconfig when it upgrades in place, when it scales down, and when it updates the status. */
  lemma LiveSecrets(clock: Clock, cl: Cluster, s: Server, read: Mcp, c: ReconcileCalls)
    requires read.finalizer && !read.deleting && GatesOpen(c)
    ensures
      var n, due := |c.view|, |c.view| > 0 && Differs(c.view[0].version, read.spec.version);
      var inPlace := due && WantsInPlace(read.spec, n);
      var upgraded := if inPlace then SecretsAfter(cl, c.upgradeKube, s.secrets) else s.secrets;
      var ended := inPlace && (!Connects(cl, c.upgradeKube, s.secrets) || SomeTurnEnds(c.view, c.machines.upgrade));
      var scaled :=
        if !ended && n > read.spec.replicas && n >= 4 then SecretsAfter(cl, c.scaleKube, upgraded) else upgraded;
      Act(clock, cl, s, read, c).secrets == if c.status.listOk then SecretsAfter(cl, c.statusKube, scaled) else scaled
  {
    TurnEndsIff(c.view, c.machines.upgrade);
  }

  /** One that does not reach it stores that none is ready. */
  lemma StoresNoneReady(clock: Clock, cl: Cluster, s: Server, read: Mcp, c: ReconcileCalls)
    requires OnStored(s, read) && !c.patch.Failed? && c.status.listOk
    requires read.deleting || !c.statusKube.connect || !c.provider.listsOk
             || (!c.status.nodesOk && PassSucceeds(c.provider))
    ensures
      var s' := Act(clock, cl, s, read, c);
      s'.stored.Some? ==>
        var st := s'.stored.value.status;
        && !st.ready && st.replicas == c.status.listed
        && st.readyReplicas == 0 && st.unavailableReplicas == c.status.listed
    ensures !read.deleting ==> Act(clock, cl, s, read, c).stored.Some?
  {
    PhasesKeepObject(clock, cl, s, read, c);
    var (done, working) := if read.deleting then Deletion(cl, s, read, c) else Normal(clock, cl, s, read, c);
    UnreachableUpdate(working.status, working.deleting, StatusWithClient(cl, c, done.secrets));
    ConnectsMeans(cl, c.statusKube, done.secrets);
    if PassSucceeds(c.provider) {
      SucceedsDoesNotPanic(c.provider);
    }
  }

  /** The gates inside reconcile are open. */
  predicate GatesOpen(c: ReconcileCalls) {
    c.externalOk && c.endpointValid && c.listOk
  }

  /** What the phases leave in the status of a settled control plane. */
  lemma SettledPhases(clock: Clock, cl: Cluster, s: Server, read: Mcp, c: ReconcileCalls)
    requires GatesOpen(c) && |c.view| == read.spec.replicas
    requires |c.view| > 0 ==> !Differs(c.view[0].version, read.spec.version)
    ensures Normal(clock, cl, s, read, c).1.status == SettleStatus(c.view, PhasesBefore(c, read.status))
  {
    PassReports(read.spec, c.view, MachineCalls(cl, read.spec, c, s.secrets), s.api, PhasesBefore(c, read.status));
  }

  /** What of it is stored by a patch that lands. */
  lemma PatchStores(clock: Clock, cl: Cluster, s: Server, read: Mcp, c: ReconcileCalls)
    requires OnStored(s, read) && !read.deleting && !c.patch.Failed? && !PassPanics(c.provider)
    ensures
      var s', left := Act(clock, cl, s, read, c), Normal(clock, cl, s, read, c).1.status;
      && s'.stored.Some? && s'.stored.value.status.bootstrapped == left.bootstrapped
      && OnlyConditions(left, s'.stored.value.status, {Available})
  {
    PhasesKeepObject(clock, cl, s, read, c);
    var (done, working) := Normal(clock, cl, s, read, c);
    UpdateKeepsOthers(working.status, false, StatusWithClient(cl, c, done.secrets));
  }

  /** With the desired count, no upgrade due and all Machines at an internal address, a Reconcile whose patch lands
      stores that the control plane is bootstrapped, created and, once the Machines' readiness is known, resized. */
  lemma StoresBootstrapped(clock: Clock, cl: Cluster, s: Server, read: Mcp, c: ReconcileCalls)
    requires OnStored(s, read) && !read.deleting && !c.patch.Failed? && !PassPanics(c.provider) && GatesOpen(c)
    requires |c.view| == read.spec.replicas && |c.view| > 0 && !Differs(c.view[0].version, read.spec.version)
    requires AllHaveInternalIP(c.view) && (read.status.bootstrapped ==> True(read.status, MachinesBootstrapped))
    ensures
      var s' := Act(clock, cl, s, read, c);
      && s'.stored.Some?
      && var st := s'.stored.value.status;
         && st.bootstrapped && True(st, MachinesBootstrapped) && True(st, MachinesCreated)
         && True(st, ComponentsHealthy)
         && (c.aggregate.Some? || MachinesReady in read.status.conditions ==> True(st, Resized))
  {
    SettledPhases(clock, cl, s, read, c);
    PatchStores(clock, cl, s, read, c);
    BootstrappedPhases(c.view, c, read.status);
    ConditionsKept(Normal(clock, cl, s, read, c).1.status, Act(clock, cl, s, read, c).stored.value.status);
  }

  lemma BootstrappedPhases(view: seq<Machine>, c: ReconcileCalls, st: Status)
    requires |view| > 0 && AllHaveInternalIP(view) && (st.bootstrapped ==> True(st, MachinesBootstrapped))
    ensures
      var left := SettleStatus(view, PhasesBefore(c, st));
      && left.bootstrapped && True(left, MachinesBootstrapped) && True(left, MachinesCreated)
      && True(left, ComponentsHealthy)
      && (c.aggregate.Some? || MachinesReady in st.conditions ==> True(left, Resized))
  {
    PhasesSet(c, st);
    SettledReports(view, PhasesBefore(c, st));
  }

  lemma ConditionsKept(left: Status, stored: Status)
    requires OnlyConditions(left, stored, {Available})
    ensures forall t: ConditionType :: t != Available && True(left, t) ==> True(stored, t)
  {
  }

  /** With a Machine that has none, it stores that bootstrapping is waited for. */
  lemma StoresWaiting(clock: Clock, cl: Cluster, s: Server, read: Mcp, c: ReconcileCalls)
    requires OnStored(s, read) && !read.deleting && !c.patch.Failed? && !PassPanics(c.provider) && GatesOpen(c)
    requires |c.view| == read.spec.replicas && (|c.view| > 0 ==> !Differs(c.view[0].version, read.spec.version))
    requires !AllHaveInternalIP(c.view) && !read.status.bootstrapped
    ensures
      var s' := Act(clock, cl, s, read, c);
      && s'.stored.Some? && !s'.stored.value.status.bootstrapped
      && False(s'.stored.value.status, MachinesBootstrapped, WaitingForMicroK8sBoot)
  {
    SettledPhases(clock, cl, s, read, c);
    PhasesSet(c, read.status);
    SettledReports(c.view, PhasesBefore(c, read.status));
    PatchStores(clock, cl, s, read, c);
  }

  /** The conditions set before the Machines are looked at. */
  lemma PhasesSet(c: ReconcileCalls, st: Status)
    ensures
      var st' := PhasesBefore(c, st);
      && True(st', ComponentsHealthy)
      && (c.aggregate.Some? ==> MachinesReady in st'.conditions && st'.conditions[MachinesReady] == c.aggregate.value)
      && OnlyConditions(st, st', {ComponentsHealthy, MachinesReady, Available, MachinesBootstrapped})
      && (c.aggregate.None? ==> OnlyConditions(st, st', {ComponentsHealthy, Available, MachinesBootstrapped}))
      && st' == st.(conditions := st'.conditions)
      && (Available !in st.conditions ==> False(st', Available, WaitingForMicroK8sBoot))
      && (MachinesBootstrapped !in st.conditions ==> False(st', MachinesBootstrapped, WaitingForMachines))
      && (forall t :: t in {Available, MachinesBootstrapped} && t in st.conditions ==>
            t in st'.conditions && st'.conditions[t] == st.conditions[t])
  {
  }

  lemma UpdateKeepsOthers(st: Status, deleting: bool, c: StatusCalls)
    ensures
      var after := StatusAfter(st, deleting, c);
      after.bootstrapped == st.bootstrapped && OnlyConditions(st, after, {Available})
  {
  }

  /** A patch that fails, and a panic of the status update, leave the stored object of a live pass as it was. */
  lemma NothingStored(clock: Clock, cl: Cluster, s: Server, read: Mcp, c: ReconcileCalls)
    requires !read.deleting
    requires
      || c.patch.Failed?
      || (read.finalizer && c.status.listOk && InReach(cl, c.statusKube, s.secrets) && PassPanics(c.provider))
    ensures Act(clock, cl, s, read, c).stored == s.stored
  {
    if read.finalizer && !c.patch.Failed? {
      PhasesKeepSecrets(clock, cl, s, read, c);
      PhasesKeepObject(clock, cl, s, read, c);
      InReachConnects(cl, c.statusKube, Normal(clock, cl, s, read, c).0.secrets);
    }
  }

  /** A patch that fails leaves the stored status as it was, also on a deleting object. */
  lemma FailedPatchKeepsStatus(clock: Clock, cl: Cluster, s: Server, read: Mcp, c: ReconcileCalls)
    requires c.patch.Failed?
    ensures
      var s' := Act(clock, cl, s, read, c);
      s'.stored.Some? ==> s.stored.Some? && s'.stored.value.status == s.stored.value.status
  {
  }

  /** The first Reconcile only adds the finalizer. */
  lemma FinalizerComesFirst(clock: Clock, cl: Cluster, s: Server, read: Mcp, c: ReconcileCalls)
    requires !read.finalizer && s.stored == Some(read)
    ensures
      Act(clock, cl, s, read, c)
      == if c.patch.Failed? then s else s.(stored := Some(read.(finalizer := true)))
  {
  }

  /** What the user has edited since the object was read stays as it is. */
  lemma EditsSurvive(clock: Clock, cl: Cluster, s: Server, read: Mcp, c: ReconcileCalls)
    ensures
      var s' := Act(clock, cl, s, read, c);
      && (s'.stored.Some? ==> s.stored.Some?)
      && (s'.stored.Some? ==>
            && s'.stored.value.spec == s.stored.value.spec
            && s'.stored.value.deleting == s.stored.value.deleting)
  {
  }

  /** Without the infrastructure template, a control-plane endpoint or a list, no Machine is touched, and of the status
      only what the update sets. */
  lemma GatesStop(clock: Clock, cl: Cluster, s: Server, read: Mcp, c: ReconcileCalls)
    requires OnStored(s, read) && !read.deleting && !GatesOpen(c)
    ensures
      var s' := Act(clock, cl, s, read, c);
      && s'.api == s.api
      && (!c.status.listOk ==> s' == s)
      && (s'.stored.Some? ==> s'.stored.value.status.bootstrapped == read.status.bootstrapped
                              && OnlyConditions(read.status, s'.stored.value.status, {Available}))
  {
    UpdateKeepsOthers(read.status, false, StatusWithClient(cl, c, s.secrets));
  }

  // ---- deletion ----------------------------------------------------------------------------

  /** The request for Machine i is made and lands: all before it were marked already or their requests succeeded. */
  predicate LandsAt(listing: seq<Machine>, deletes: Name -> CallResult, i: int) {
    && 0 <= i < |listing| && !listing[i].deleting && !deletes(listing[i].name).Failed?
    && forall j :: 0 <= j < i ==> listing[j].deleting || deletes(listing[j].name).Done?
  }

  ghost predicate SomeLands(listing: seq<Machine>, deletes: Name -> CallResult, name: Name) {
    exists i :: LandsAt(listing, deletes, i) && listing[i].name == name
  }

  lemma {:induction false} RequestedIff(listing: seq<Machine>, deletes: Name -> CallResult, name: Name)
    ensures name in Requested(listing, deletes) <==> SomeLands(listing, deletes, name)
  {
    if |listing| == 0 {
    } else {
      var rest := listing[1..];
      RequestedIff(rest, deletes, name);
      if i :| && LandsAt(rest, deletes, i) && rest[i].name == name
              && (listing[0].deleting || deletes(listing[0].name).Done?) {
        assert forall j :: 0 < j < |listing| ==> listing[j] == rest[j - 1];
        assert LandsAt(listing, deletes, i + 1);
      }
      if i :| LandsAt(listing, deletes, i) && listing[i].name == name && i > 0 {
        assert forall j :: 0 <= j < |rest| ==> rest[j] == listing[j + 1];
        assert LandsAt(rest, deletes, i - 1);
      }
      if LandsAt(listing, deletes, 0) && listing[0].name == name {
        assert name in Requested(listing, deletes);
      }
    }
  }

  /** A deleting pass marks exactly the Machines whose request was made and landed. */
  lemma DeletionMarks(clock: Clock, cl: Cluster, s: Server, read: Mcp, c: ReconcileCalls, i: nat)
    requires read.deleting && read.finalizer && c.listOk && i < |s.api.machines|
    ensures
      var ms, m := Act(clock, cl, s, read, c).api.machines, s.api.machines[i];
      && |ms| == |s.api.machines|
      && ms[i] == if SomeLands(c.listing, c.deletes, m.name) then m.(deleting := true) else m
  {
    RequestedIff(c.listing, c.deletes, s.api.machines[i].name);
  }

  predicate AllDone(listing: seq<Machine>, deletes: Name -> CallResult) {
    forall i :: 0 <= i < |listing| ==> listing[i].deleting || deletes(listing[i].name).Done?
  }

  function ClusterSecret(cl: Cluster, suffix: string): SecretKey {
    SecretKey(cl.namespace, cl.name + suffix)
  }

  predicate IsClusterSecret(cl: Cluster, key: SecretKey) {
    key == ClusterSecret(cl, "-kubeconfig") || key == ClusterSecret(cl, "-ca") || key == ClusterSecret(cl, "-jointoken")
  }

  /** Once every Machine of a non-empty list is marked or has its deletion requested, the cluster's three secrets go as
      their deletions succeed, and no other; before that, and on an empty list, none. */
  lemma DeletionClearsSecrets(clock: Clock, cl: Cluster, s: Server, read: Mcp, c: ReconcileCalls, key: SecretKey)
    requires read.deleting && read.finalizer
    ensures
      var secrets := Act(clock, cl, s, read, c).secrets;
      if c.listOk && |c.listing| > 0 && AllDone(c.listing, c.deletes)
         && IsClusterSecret(cl, key) && c.secretDeletes(key)
      then key !in secrets
      else key in secrets <==> key in s.secrets
  {
  }

  /** And the stored status then says that the control plane is being deleted. */
  lemma StoresDeleting(clock: Clock, cl: Cluster, s: Server, read: Mcp, c: ReconcileCalls)
    requires OnStored(s, read) && read.deleting && !c.patch.Failed?
    requires c.listOk && |c.listing| > 0 && AllDone(c.listing, c.deletes)
    ensures
      var s' := Act(clock, cl, s, read, c);
      s'.stored.Some? && s'.stored.value.finalizer && False(s'.stored.value.status, Resized, Deleting)
  {
    var (done, working) := Deletion(cl, s, read, c);
    UpdateKeepsOthers(working.status, true, StatusWithClient(cl, c, done.secrets));
  }
}
