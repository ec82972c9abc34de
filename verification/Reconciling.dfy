/** controllers/microk8scontrolplane_controller.go and reconcileDelete: what one Reconcile does to everything the
    API server holds, as a function of the object it read and of the outcome of every call. */
module Reconciling {
  import opened Types
  import opened Scaling
  import opened ControlPlane
  import opened Secrets
  import opened NodeProvider

  datatype Server = Server(api: Api, secrets: set<SecretKey>, stored: Option<Mcp>)

  /** `listing` is the list of Machines the pass works on, `view` the same list once sorted. */
  datatype ReconcileCalls = ReconcileCalls(
    listOk: bool, listing: seq<Machine>, view: seq<Machine>,
    update: CallResult, deletes: Name -> CallResult, secretDeletes: SecretKey -> bool,
    externalOk: bool, endpointValid: bool, aggregate: Option<Condition>,
    machines: Calls, upgradeKube: KubeCalls, scaleKube: KubeCalls, nodeFound: bool,
    status: StatusCalls, statusKube: KubeCalls, provider: ProviderCalls, patch: CallResult)

  // ---- writing the object back -------------------------------------------------------------

  /** An object marked for deletion disappears with its last finalizer. */
  function Settle(m: Mcp): Option<Mcp> {
    if m.deleting && !m.finalizer then None else Some(m)
  }

  /** The patch sends the status and whatever the pass changed about the finalizer. */
  function Patched(stored: Option<Mcp>, read: Mcp, working: Mcp, result: CallResult): Option<Mcp> {
    if stored.None? || result.Failed? then stored else
    var finalizer := if working.finalizer != read.finalizer then working.finalizer else stored.value.finalizer;
    Settle(stored.value.(status := working.status, finalizer := finalizer))
  }

  // ---- deletion ----------------------------------------------------------------------------

  /** The Machines whose deletion is requested: in list order, up to the first request that fails. */
  function Requested(listing: seq<Machine>, deletes: Name -> CallResult): seq<Name> {
    if |listing| == 0 then []
    else if listing[0].deleting then Requested(listing[1..], deletes)
    else match deletes(listing[0].name)
      case Done => [listing[0].name] + Requested(listing[1..], deletes)
      case LostReply => [listing[0].name]
      case Failed => []
  }

  predicate AllRequested(listing: seq<Machine>, deletes: Name -> CallResult) {
    forall i :: 0 <= i < |listing| ==> listing[i].deleting || deletes(listing[i].name).Done?
  }

  function MarkAll(api: Api, names: seq<Name>): Api {
    api.(machines := seq(|api.machines|, i requires 0 <= i < |api.machines| =>
      var m := api.machines[i];
      if m.name in names then m.(deleting := true) else m))
  }

  function WithoutClusterSecrets(cl: Cluster, secrets: set<SecretKey>, gone: SecretKey -> bool): set<SecretKey> {
    set s | s in secrets && !(s in {KubeconfigKey(cl), CaKey(cl), JoinTokenKey(cl)} && gone(s))
  }

  /** reconcileDelete, and the object as the pass leaves it in memory. */
  function Deletion(cl: Cluster, s: Server, read: Mcp, c: ReconcileCalls): (Server, Mcp) {
    if !c.listOk then (s, read)
    else if |c.listing| == 0 then
      var stored :=
        if s.stored.Some? && c.update.Landed() then Settle(s.stored.value.(finalizer := false)) else s.stored;
      (s.(stored := stored), read.(finalizer := false))
    else
      var marked := s.(api := MarkAll(s.api, Requested(c.listing, c.deletes)));
      if !AllRequested(c.listing, c.deletes) then (marked, read)
      else
        (marked.(secrets := WithoutClusterSecrets(cl, s.secrets, c.secretDeletes)),
         read.(status := read.status.MarkFalse(Resized, Deleting)))
  }

  // ---- normal operation --------------------------------------------------------------------

  predicate NeedsUpgradeClient(spec: Spec, c: ReconcileCalls) {
    UpgradesInPlace(spec, c.view)
  }

  function UpgradeSecrets(cl: Cluster, spec: Spec, c: ReconcileCalls, secrets: set<SecretKey>): set<SecretKey> {
    if NeedsUpgradeClient(spec, c) then SecretsAfter(cl, c.upgradeKube, secrets) else secrets
  }

  /** The Machine calls, with the clients that kubeconfigForCluster gives. */
  function MachineCalls(cl: Cluster, spec: Spec, c: ReconcileCalls, secrets: set<SecretKey>): Calls {
    c.machines.(
      upgradeClient := Connects(cl, c.upgradeKube, secrets),
      scaleClient := Connects(cl, c.scaleKube, UpgradeSecrets(cl, spec, c, secrets)))
  }

  function ScaleSecrets(cl: Cluster, spec: Spec, c: ReconcileCalls, secrets: set<SecretKey>): set<SecretKey> {
    var s := UpgradeSecrets(cl, spec, c, secrets);
    if ReachesSwitch(spec, c.view, MachineCalls(cl, spec, c, secrets)) && ScalesDown(spec, c.view) then
      SecretsAfter(cl, c.scaleKube, s)
    else s
  }

  function PhasesBefore(c: ReconcileCalls, st: Status): Status {
    var a := if c.aggregate.Some? then st.(conditions := st.conditions[MachinesReady := c.aggregate.value]) else st;
    InitConditions(a.MarkTrue(ComponentsHealthy))
  }

  /** reconcile. */
  function Normal(clock: Clock, cl: Cluster, s: Server, read: Mcp, c: ReconcileCalls): (Server, Mcp) {
    if !c.externalOk || !c.endpointValid || !c.listOk then (s, read)
    else
      var calls := MachineCalls(cl, read.spec, c, s.secrets);
      (s.(api := MachinesPass(clock, read.spec, c.view, calls, s.api),
          secrets := ScaleSecrets(cl, read.spec, c, s.secrets)),
       read.(status := MachinesStatus(read.spec, c.view, calls, s.api, PhasesBefore(c, read.status))))
  }

  // ---- Reconcile ---------------------------------------------------------------------------

  function StatusWithClient(cl: Cluster, c: ReconcileCalls, secrets: set<SecretKey>): StatusCalls {
    c.status.(client := Connects(cl, c.statusKube, secrets), providerOk := PassSucceeds(c.provider))
  }

  /** The status update panics: a Machine matched a waiting node and has no identifier. */
  ghost predicate UpdatePanics(cl: Cluster, deleting: bool, c: ReconcileCalls, secrets: set<SecretKey>) {
    c.status.listOk && !deleting && Connects(cl, c.statusKube, secrets) && PassPanics(c.provider)
  }

  /** The deferred function: status first, then the patch, which a panic prevents. */
  ghost function Deferred(cl: Cluster, s: Server, read: Mcp, working: Mcp, c: ReconcileCalls): Server {
    var status := StatusAfter(working.status, working.deleting, StatusWithClient(cl, c, s.secrets));
    var secrets :=
      if c.status.listOk && !working.deleting then SecretsAfter(cl, c.statusKube, s.secrets) else s.secrets;
    var patched := Patched(s.stored, read, working.(status := status), c.patch);
    s.(secrets := secrets, stored := if UpdatePanics(cl, working.deleting, c, s.secrets) then s.stored else patched)
  }

  /** Everything after the gates, on the object `read` at the start. */
  ghost function Act(clock: Clock, cl: Cluster, s: Server, read: Mcp, c: ReconcileCalls): Server {
    if !read.finalizer then
      s.(stored := Patched(s.stored, read, read.(finalizer := true), c.patch))
    else
      var (done, working) := if read.deleting then Deletion(cl, s, read, c) else Normal(clock, cl, s, read, c);
      Deferred(cl, done, read, working, c)
  }

  // ---- one Reconcile -----------------------------------------------------------------------

  lemma AggregateKeepsSound(c: ReconcileCalls, st: Status)
    requires Sound(st)
    ensures Sound(PhasesBefore(c, st)) && Advances(st, PhasesBefore(c, st))
  {
  }

  /** The status of the object in memory when Reconcile returns, by whatever exit. */
  lemma WorkingStatusSound(clock: Clock, cl: Cluster, s: Server, read: Mcp, c: ReconcileCalls)
    requires Sound(read.status)
    ensures
      var working := (if read.deleting then Deletion(cl, s, read, c) else Normal(clock, cl, s, read, c)).1;
      Sound(working.status) && Advances(read.status, working.status)
  {
    AggregateKeepsSound(c, read.status);
    MachinesKeepSound(read.spec, c.view, MachineCalls(cl, read.spec, c, s.secrets), s.api,
                      PhasesBefore(c, read.status));
  }

  /** Every way through Reconcile leaves a stored status that adds up, and takes back nothing. */
  lemma ActKeepsSound(clock: Clock, cl: Cluster, s: Server, read: Mcp, c: ReconcileCalls)
    requires Sound(read.status) && (s.stored.Some? ==> s.stored.value.status == read.status)
    ensures
      var s' := Act(clock, cl, s, read, c);
      s'.stored.Some? ==>
        s.stored.Some? && Sound(s'.stored.value.status) && Advances(read.status, s'.stored.value.status)
  {
    if read.finalizer {
      WorkingStatusSound(clock, cl, s, read, c);
      var (done, working) := if read.deleting then Deletion(cl, s, read, c) else Normal(clock, cl, s, read, c);
      UpdateKeepsSound(working.status, working.deleting, StatusWithClient(cl, c, done.secrets));
    }
  }

  /** The finalizer is removed exactly when the object read was being deleted, the list came back empty and a
      write landed. With the list empty only because it is stale, the Machines outlive the control plane. */
  lemma FinalizerRemovedIff(clock: Clock, cl: Cluster, s: Server, read: Mcp, c: ReconcileCalls)
    requires read.finalizer && s.stored.Some? && s.stored.value.finalizer && (read.deleting ==> s.stored.value.deleting)
    ensures
      var s' := Act(clock, cl, s, read, c);
      && (s'.stored.None? || !s'.stored.value.finalizer <==>
            read.deleting && c.listOk && |c.listing| == 0 && (c.update.Landed() || c.patch.Landed()))
      && (read.deleting && c.listOk && |c.listing| == 0 ==> s'.api == s.api)
  {
  }

  /** A pass on a deleting object asks for no kubeconfig and creates nothing. */
  lemma DeletingCreatesNothing(clock: Clock, cl: Cluster, s: Server, read: Mcp, c: ReconcileCalls)
    requires read.deleting
    ensures
      var s' := Act(clock, cl, s, read, c);
      && s'.secrets <= s.secrets && s'.api.born == s.api.born
      && s'.api.infra == s.api.infra && s'.api.configs == s.api.configs
      && |s'.api.machines| == |s.api.machines|
  {
  }
}
