/** The controller's own code: phases that update the API server and the object in memory step by step, each
    proved against the functions of Scaling, ControlPlane, Secrets and Reconciling. */
module Reconciler {
  import opened Types
  import opened CreationOrder
  import opened Scaling
  import opened ControlPlane
  import opened Secrets
  import opened Reconciling
  import opened NodeProvider

  // ---- how scaleDownControlPlane ends ------------------------------------------------------

  datatype ScaleDown =
    | NoMachines
    | NoClient
    | CleansUp(machine: Machine)    // a Machine is being deleted: its node is deleted
    | Panics(machine: Machine)      // a Machine is being deleted that never had a node
    | AwaitsNode(machine: Machine)  // a Machine has no node yet
    | Asks(victim: Machine)         // the deletion of the victim is requested

  predicate Settled(m: Machine) {
    !m.deleting && m.nodeRef.Some?
  }

  /** The place of the last Machine listed that is being deleted or has no node. */
  function LastUnsettled(view: seq<Machine>): (k: Option<nat>)
    ensures k.None? <==> forall i :: 0 <= i < |view| ==> Settled(view[i])
    ensures k.Some? ==> k.value < |view| && !Settled(view[k.value])
    ensures k.Some? ==> forall i :: k.value < i < |view| ==> Settled(view[i])
  {
    if |view| == 0 then None
    else if !Settled(view[|view| - 1]) then Some(|view| - 1)
    else LastUnsettled(view[..|view| - 1])
  }

  function ScaleDownOf(view: seq<Machine>, client: bool): ScaleDown {
    if |view| == 0 then NoMachines
    else if !client then NoClient
    else match LastUnsettled(view)
      case Some(k) =>
        if !view[k].deleting then AwaitsNode(view[k])
        else if view[k].nodeRef.None? then Panics(view[k])
        else CleansUp(view[k])
      case None => Asks(Victim(view))
  }

  /** The node of the workload cluster whose deletion is requested. */
  function DeletedNode(r: ScaleDown, found: bool, delete: CallResult): Option<Name> {
    match r
    case CleansUp(machine) => if found then machine.nodeRef else None
    case Asks(victim) => if delete.Done? then victim.nodeRef else None
    case _ => None
  }

  /** Neither being deleted nor without a node. */
  predicate Unhindered(m: Machine) {
    !m.deleting && m.nodeRef.Some?
  }

  /** With a client, the last listed Machine that is being deleted or has no node decides how the loop ends: its node,
      if it can be looked up, is deleted; being deleted without ever having had one, it makes the controller panic; and
      if it just has none yet, it is waited for. */
  lemma HinderedEnds(view: seq<Machine>, found: bool, delete: CallResult, k: nat)
    requires k < |view| && !Unhindered(view[k]) && forall i :: k < i < |view| ==> Unhindered(view[i])
    ensures
      var r, m := ScaleDownOf(view, true), view[k];
      && (m.deleting && m.nodeRef.Some? ==> r == CleansUp(m))
      && (m.deleting && m.nodeRef.None? ==> r == Panics(m))
      && (!m.deleting ==> r == AwaitsNode(m))
      && DeletedNode(r, found, delete) == if m.deleting && found then m.nodeRef else None
  {
    UnsettledAt(view, k);
  }

  /** With a client and no such Machine, the victim's deletion is requested, and its node is deleted exactly if that
      succeeds. */
  lemma UnhinderedEnds(view: seq<Machine>, found: bool, delete: CallResult)
    requires |view| > 0 && forall i :: 0 <= i < |view| ==> Unhindered(view[i])
    ensures
      var r := ScaleDownOf(view, true);
      r == Asks(Victim(view)) && DeletedNode(r, found, delete) == if delete.Done? then Victim(view).nodeRef else None
  {
    assert forall i :: 0 <= i < |view| ==> Unhindered(view[i]) && Settled(view[i]);
  }

  /** Without a client, or Machines, no node is deleted. */
  lemma NoClientEnds(view: seq<Machine>, found: bool, delete: CallResult)
    ensures ScaleDownOf(view, false) == if |view| == 0 then NoMachines else NoClient
    ensures |view| == 0 ==> ScaleDownOf(view, true) == NoMachines
    ensures DeletedNode(ScaleDownOf(view, false), found, delete) == None
  {
  }

  /** A node is deleted only when its Machine is being deleted, or has just been marked. */
  lemma NodeGoesWithMachine(api: Api, view: seq<Machine>, client: bool, found: bool, delete: CallResult)
    requires DeletedNode(ScaleDownOf(view, client), found, delete).Some?
    ensures
      var r := ScaleDownOf(view, client);
      exists m :: m in view && m.nodeRef == DeletedNode(r, found, delete)
               && (m.deleting || (r.Asks? && delete.Landed() && m == r.victim))
  {
    var r := ScaleDownOf(view, client);
    var m := if r.Asks? then r.victim else r.machine;
    assert m in view && m.nodeRef == DeletedNode(r, found, delete);
  }

  /** A deletion is requested exactly when there are Machines, a client, and every Machine is settled; it is then
      the deletion of an oldest Machine, the first of the sorted view when no two share a creation second. */
  lemma AsksIff(view: seq<Machine>, client: bool)
    ensures ScaleDownOf(view, client).Asks? <==> client && MayDelete(view)
    ensures ScaleDownOf(view, client).Asks? ==>
              var victim := ScaleDownOf(view, client).victim;
              && victim in view && (forall m :: m in view ==> victim.created <= m.created)
              && (forall sorted :: IsSortOf(sorted, view) && StrictlySorted(sorted) ==>
                    |sorted| > 0 && victim == sorted[0])
  {
    if client && |view| > 0 {
      var k := LastUnsettled(view);
      if k.Some? {
        assert !Settled(view[k.value]);
      } else {
        forall i | 0 <= i < |view|
          ensures !view[i].deleting && view[i].nodeRef.Some?
        {
          assert Settled(view[i]);
        }
        forall sorted | IsSortOf(sorted, view) && StrictlySorted(sorted)
          ensures |sorted| > 0 && Victim(view) == sorted[0]
        {
          SameMembers(sorted, view);
          assert view[VictimIndex(view)] in sorted;
          assert sorted[0] in view;
        }
      }
    }
  }

  // ---- the addresses bootstrapCluster collects ---------------------------------------------

  function InternalAddress(addresses: seq<Address>): (r: Option<string>)
    ensures r.None? ==> forall i :: 0 <= i < |addresses| ==> addresses[i].kind != InternalIP
    ensures r.Some? ==> exists i :: && 0 <= i < |addresses| && addresses[i] == Address(InternalIP, r.value)
                                    && forall j :: 0 <= j < i ==> addresses[j].kind != InternalIP
  {
    if |addresses| == 0 then None
    else if addresses[0].kind.InternalIP? then Some(addresses[0].text)
    else InternalAddress(addresses[1..])
  }

  // ---- steps that compose ------------------------------------------------------------------

  lemma RewriteTwice(api: Api, a: seq<Name>, b: seq<Name>, version: Version)
    ensures Rewrite(Rewrite(api, a, version), b, version) == Rewrite(api, a + b, version)
  {
  }

  lemma RewriteNone(api: Api, version: Version)
    ensures Rewrite(api, [], version) == api
  {
  }

  /** What one turn of the in-place upgrade writes. */
  function TurnNames(m: Machine, u: NodeUpgrade): seq<Name> {
    if Stops(m, u) || !u.update.Landed() then [] else [u.annotated]
  }

  lemma FinishesNext(view: seq<Machine>, upgrade: Name -> NodeUpgrade)
    requires |view| > 0
    ensures UpgradeFinishes(view, upgrade) <==>
              Completes(view[0], upgrade(view[0].name)) && UpgradeFinishes(view[1..], upgrade)
  {
    var rest := view[1..];
    if UpgradeFinishes(rest, upgrade) && Completes(view[0], upgrade(view[0].name)) {
      forall i | 0 <= i < |view|
        ensures Completes(view[i], upgrade(view[i].name))
      {
        if i > 0 {
          assert Completes(rest[i - 1], upgrade(rest[i - 1].name));
        }
      }
    }
    if UpgradeFinishes(view, upgrade) {
      forall i | 0 <= i < |rest|
        ensures Completes(rest[i], upgrade(rest[i].name))
      {
        assert Completes(view[i + 1], upgrade(view[i + 1].name));
      }
    }
  }

  lemma NamesNext(view: seq<Machine>, upgrade: Name -> NodeUpgrade)
    requires |view| > 0
    ensures
      var u := upgrade(view[0].name);
      UpgradedNames(view, upgrade)
      == if Completes(view[0], u) then TurnNames(view[0], u) + UpgradedNames(view[1..], upgrade)
         else TurnNames(view[0], u)
  {
  }

  /** Of an upgrade that writes `all`, the turns made have written `done` and those of `rest` are to come. */
  ghost predicate Turns(
    all: seq<Name>, finishes: bool, upgrade: Name -> NodeUpgrade, rest: seq<Machine>, done: seq<Name>)
  {
    all == done + UpgradedNames(rest, upgrade) && finishes == UpgradeFinishes(rest, upgrade)
  }

  lemma TurnMade(all: seq<Name>, finishes: bool, upgrade: Name -> NodeUpgrade, rest: seq<Machine>, done: seq<Name>)
    requires |rest| > 0 && Turns(all, finishes, upgrade, rest, done)
    ensures
      var u, next := upgrade(rest[0].name), done + TurnNames(rest[0], upgrade(rest[0].name));
      if Completes(rest[0], u) then Turns(all, finishes, upgrade, rest[1..], next) else all == next && !finishes
  {
    FinishesNext(rest, upgrade);
    NamesNext(rest, upgrade);
  }

  lemma MarkTwice(api: Api, a: seq<Name>, b: Name)
    ensures MarkDeleting(MarkAll(api, a), b) == MarkAll(api, a + [b])
  {
  }

  lemma MarkNone(api: Api)
    ensures MarkAll(api, []) == api
  {
  }

  /** The switch looks at the calls for creating and deleting only, and in-place writes change no reference. */
  lemma ResizeIgnoresUpgradeCalls(clock: Clock, spec: Spec, view: seq<Machine>, c: Calls, calls: Calls, api: Api)
    requires calls == c.(upgradeClient := calls.upgradeClient, scaleClient := calls.scaleClient)
    ensures
      var up := Upgrade(spec, view, calls, api);
      && Resize(clock, spec, view, c.(scaleClient := calls.scaleClient), up) == Resize(clock, spec, view, calls, up)
      && forall st :: ResizeStatus(spec, view, c.boot, up, st) == ResizeStatus(spec, view, calls.boot, api, st)
  {
  }

  class Controller {
    const clock: Clock
    const cluster: Cluster

    // What the API server holds.
    var api: Api
    var secrets: set<SecretKey>
    var stored: Option<Mcp>

    // The object in memory.
    var mcp: Mcp

    constructor (clock: Clock, cluster: Cluster, api: Api, secrets: set<SecretKey>, mcp: Mcp)
      ensures this.clock == clock && this.cluster == cluster
      ensures Holding() == Server(api, secrets, Some(mcp)) && this.mcp == mcp
    {
      this.clock, this.cluster := clock, cluster;
      this.api, this.secrets, this.stored, this.mcp := api, secrets, Some(mcp), mcp;
    }

    function Holding(): Server
      reads this
    {
      Server(api, secrets, stored)
    }

    // ---- controllers/configs.go --------------------------------------------------------------

    method KubeconfigForCluster(k: KubeCalls) returns (connected: bool)
      modifies this`secrets
      ensures connected == Connects(cluster, k, old(secrets))
      ensures secrets == SecretsAfter(cluster, k, old(secrets))
    {
      if !k.list {
        return false;
      }
      var found := false;
      var items := secrets;
      while items != {}
        invariant items <= secrets
        invariant found <==> exists s :: s in secrets - items && s.name == KubeconfigKey(cluster).name
      {
        var s :| s in items;
        if s.name == cluster.name + "-kubeconfig" {
          assert s in secrets - (items - {s});
          found := true;
        }
        items := items - {s};
      }
      assert secrets - items == secrets;
      if !k.cluster {
        return false;
      }
      if !found && k.endpointValid {
        if !k.generate || CaKey(cluster) !in secrets {
          return false;
        }
        if k.create.Landed() {
          secrets := secrets + {KubeconfigKey(cluster)};
        }
        if !k.create.Done? {
          return false;
        }
      }
      connected := k.get && KubeconfigKey(cluster) in secrets && k.connect;
    }

    // ---- controllers/reconcile.go ------------------------------------------------------------

    method BootControlPlane(c: BootCalls)
      modifies this`api, this`mcp
      ensures api == Boot(clock, mcp.spec.version, c, old(api))
      ensures mcp == old(mcp).(status := BootStatus(old(api), c, old(mcp.status)))
    {
      var cloned := c.infra.Landed() && c.infraName !in api.infra;
      if cloned {
        api := api.(infra := api.infra + [c.infraName]);
      }
      if !cloned || !c.infra.Done? {
        mcp := mcp.(status := mcp.status.MarkFalse(MachinesCreated, InfrastructureTemplateCloningFailed));
        return;
      }
      var configured := c.config.Landed() && c.configName !in api.configs;
      if configured {
        api := api.(configs := api.configs + [c.configName]);
      }
      if !configured || !c.config.Done? {
        mcp := mcp.(status := mcp.status.MarkFalse(MachinesCreated, BootstrapTemplateCloningFailed));
        return;
      }
      if c.machine.Landed() {
        var refs := Refs(c.infraName, c.configName);
        var machine := Machine(|api.born|, clock(|api.born|), mcp.spec.version, refs, false, None, [], None);
        api := api.(machines := api.machines + [machine], born := api.born + [refs]);
      }
      if !c.machine.Done? {
        mcp := mcp.(status := mcp.status.MarkFalse(MachinesCreated, MachineGenerationFailed));
      }
    }

    /** One turn of the in-place upgrade: look the node up, then write the Machine its annotation names. */
    method UpgradeMachine(machine: Machine, u: NodeUpgrade) returns (goesOn: bool)
      modifies this`api
      ensures api == Rewrite(old(api), TurnNames(machine, u), mcp.spec.version)
      ensures goesOn == Completes(machine, u)
    {
      RewriteNone(api, mcp.spec.version);
      if machine.nodeRef.None? || u.LookupFailed? {
        return false;
      }
      if u.update.Landed() {
        api := Rewrite(api, [u.annotated], mcp.spec.version);
      }
      return u.podCreated;
    }

    /** The in-place upgrade; `finished` tells whether the pass goes on to the switch. */
    method UpgradeInPlace(machines: array<Machine>, kube: KubeCalls, upgrade: Name -> NodeUpgrade)
      returns (finished: bool)
      modifies this`api, this`secrets
      ensures secrets == SecretsAfter(cluster, kube, old(secrets))
      ensures
        var connected := Connects(cluster, kube, old(secrets));
        && finished == (connected && UpgradeFinishes(machines[..], upgrade))
        && api == if connected then Rewrite(old(api), UpgradedNames(machines[..], upgrade), mcp.spec.version)
                  else old(api)
    {
      var connected := KubeconfigForCluster(kube);
      if !connected {
        return false;
      }
      ghost var view := machines[..];
      ghost var done: seq<Name> := [];
      ghost var after := secrets;
      RewriteNone(api, mcp.spec.version);
      ghost var rest := view;
      ghost var all, finishes := UpgradedNames(view, upgrade), UpgradeFinishes(view, upgrade);
      for i := 0 to machines.Length
        invariant secrets == after
        invariant api == Rewrite(old(api), done, mcp.spec.version)
        invariant rest == view[i..] && Turns(all, finishes, upgrade, rest, done)
      {
        ghost var turn := TurnNames(machines[i], upgrade(machines[i].name));
        TurnMade(all, finishes, upgrade, rest, done);
        RewriteTwice(old(api), done, turn, mcp.spec.version);
        var goesOn := UpgradeMachine(machines[i], upgrade(machines[i].name));
        done := done + turn;
        rest := rest[1..];
        if !goesOn {
          return false;
        }
      }
      return true;
    }

    /** The backward loop of scaleDownControlPlane: the first unsettled Machine it meets, or else the victim. */
    method FindVictim(machines: array<Machine>) returns (unsettled: Option<Machine>, deleteMachine: Machine)
      requires machines.Length > 0
      ensures unsettled == match LastUnsettled(machines[..]) case Some(k) => Some(machines[k]) case None => None
      ensures unsettled.None? ==> deleteMachine == Victim(machines[..])
    {
      var n := machines.Length;
      deleteMachine := machines[n - 1];
      ghost var chosen := n - 1;
      var i := n;
      while i > 0
        invariant 0 <= i <= n && 0 <= chosen < n && (if i == n then chosen == n - 1 else i <= chosen)
        invariant deleteMachine == machines[chosen]
        invariant forall j :: i <= j < n ==> Settled(machines[j])
        invariant forall j :: i <= j < n ==> machines[chosen].created <= machines[j].created
        invariant forall j :: chosen < j < n ==> machines[chosen].created < machines[j].created
      {
        i := i - 1;
        var machine := machines[i];
        if machine.deleting || machine.nodeRef.None? {
          UnsettledAt(machines[..], i);
          return Some(machine), deleteMachine;
        }
        if machine.created < deleteMachine.created {
          deleteMachine := machine;
          chosen := i;
        }
      }
      VictimAt(machines[..], chosen);
      unsettled := None;
    }

    /** `found` tells whether the node of a Machine being deleted can be looked up; `node` is the one deleted. */
    method ScaleDownControlPlane(machines: array<Machine>, kube: KubeCalls, found: bool, delete: CallResult)
      returns (r: ScaleDown, node: Option<Name>)
      modifies this`api, this`secrets
      ensures r == ScaleDownOf(machines[..], Connects(cluster, kube, old(secrets)))
      ensures node == DeletedNode(r, found, delete)
      ensures secrets == if machines.Length > 0 then SecretsAfter(cluster, kube, old(secrets)) else old(secrets)
      ensures api == if r.Asks? && delete.Landed() then MarkDeleting(old(api), r.victim.name) else old(api)
    {
      if machines.Length == 0 {
        return NoMachines, None;
      }
      var connected := KubeconfigForCluster(kube);
      if !connected {
        return NoClient, None;
      }
      var unsettled, deleteMachine := FindVictim(machines);
      if unsettled.Some? {
        var machine := unsettled.value;
        if !machine.deleting {
          return AwaitsNode(machine), None;
        }
        if machine.nodeRef.None? {
          return Panics(machine), None;
        }
        return CleansUp(machine), if found then machine.nodeRef else None;
      }
      if delete.Landed() {
        api := MarkDeleting(api, deleteMachine.name);
      }
      return Asks(deleteMachine), if delete.Done? then deleteMachine.nodeRef else None;
    }

    method BootstrapCluster(machines: array<Machine>) returns (ok: bool, addresses: seq<string>)
      ensures ok == CanBootstrap(machines[..])
      ensures ok ==> |addresses| == machines.Length
      ensures ok ==> forall i :: 0 <= i < machines.Length ==>
                InternalAddress(machines[i].addresses) == Some(addresses[i])
    {
      addresses := [];
      for i := 0 to machines.Length
        invariant |addresses| == i
        invariant forall j :: 0 <= j < i ==> InternalAddress(machines[j].addresses) == Some(addresses[j])
        invariant forall j :: 0 <= j < i ==> HasInternalIP(machines[j])
      {
        var found := false;
        var listed := machines[i].addresses;
        var a := 0;
        while a < |listed| && !found
          invariant 0 <= a <= |listed|
          invariant !found ==> |addresses| == i && InternalAddress(listed) == InternalAddress(listed[a..])
          invariant found ==> |addresses| == i + 1 && InternalAddress(listed) == Some(addresses[i])
          invariant forall j :: 0 <= j < i ==> InternalAddress(machines[j].addresses) == Some(addresses[j])
          decreases |listed| - a, !found
        {
          if listed[a].kind.InternalIP? {
            addresses := addresses + [listed[a].text];
            found := true;
          } else {
            a := a + 1;
          }
        }
        if !found {
          assert !HasInternalIP(machines[..][i]);
          return false, addresses;
        }
      }
      ok := machines.Length > 0;
    }

    /** The default case of the switch: the desired count is there. */
    method SettleMachines(machines: array<Machine>)
      modifies this`mcp
      ensures mcp == old(mcp).(status := SettleStatus(machines[..], old(mcp.status)))
    {
      if !mcp.status.bootstrapped {
        var ok, _ := BootstrapCluster(machines);
        if !ok {
          mcp := mcp.(status := mcp.status.MarkFalse(MachinesBootstrapped, WaitingForMicroK8sBoot));
          return;
        }
        mcp := mcp.(status := mcp.status.MarkTrue(MachinesBootstrapped));
        mcp := mcp.(status := mcp.status.(bootstrapped := true));
      }
      if mcp.status.Has(MachinesReady) {
        mcp := mcp.(status := mcp.status.MarkTrue(Resized));
      }
      mcp := mcp.(status := mcp.status.MarkTrue(MachinesCreated));
    }

    /** The switch on the number of Machines. */
    method ResizeMachines(machines: array<Machine>, c: ReconcileCalls)
      modifies this`api, this`secrets, this`mcp
      ensures
        var spec, view := old(mcp.spec), machines[..];
        var client := Connects(cluster, c.scaleKube, old(secrets));
        && api == Resize(clock, spec, view, c.machines.(scaleClient := client), old(api))
        && secrets == (if ScalesDown(spec, view) then SecretsAfter(cluster, c.scaleKube, old(secrets))
                       else old(secrets))
        && mcp == old(mcp).(status := ResizeStatus(spec, view, c.machines.boot, old(api), old(mcp.status)))
    {
      var n := machines.Length;
      var replicas := mcp.spec.replicas;
      if n < replicas && n == 0 {
        BootControlPlane(c.machines.boot);
      } else if n < replicas && n > 0 {
        mcp := mcp.(status := mcp.status.MarkFalse(Resized, ScalingUp));
        BootControlPlane(c.machines.boot);
      } else if n > replicas {
        mcp := mcp.(status := mcp.status.MarkFalse(Resized, ScalingDown));
        if n < 4 {
          mcp := mcp.(status := mcp.status.MarkFalse(Resized, ScalingDown));
          return;
        }
        AsksIff(machines[..], Connects(cluster, c.scaleKube, secrets));
        var r, node := ScaleDownControlPlane(machines, c.scaleKube, c.nodeFound, c.machines.delete);
      } else {
        SettleMachines(machines);
      }
    }

    /** Compare the version of the oldest Machine with the target, and choose the way to upgrade. */
    method ProbeUpgrade(machines: array<Machine>) returns (rolling: bool, inPlace: bool)
      ensures rolling == (UpgradeDue(mcp.spec, machines[..]) && RollsOver(mcp.spec, machines.Length))
      ensures inPlace == UpgradesInPlace(mcp.spec, machines[..])
      ensures rolling || inPlace <==>
                && machines.Length > 0 && machines[0].version.Semver?
                && (mcp.spec.version.Malformed? || machines[0].version.major != mcp.spec.version.major
                    || machines[0].version.minor != mcp.spec.version.minor)
    {
      var n := machines.Length;
      if n == 0 {
        return false, false;
      }
      var oldVersion, newVersion := MajorMinor(machines[0].version), MajorMinor(mcp.spec.version);
      if oldVersion.None? || oldVersion == newVersion {
        return false, false;
      }
      var selected := if mcp.spec.strategy.Unset? then SmartUpgrade else mcp.spec.strategy;
      rolling := selected.RollingUpgrade? || (selected.SmartUpgrade? && n >= 3);
      inPlace := !rolling && (selected.InPlaceUpgrade? || (selected.SmartUpgrade? && n < 3));
    }

    /** What an off-target version leads to before the switch; `goesOn` tells whether the switch is reached. */
    method UpgradeIfDue(machines: array<Machine>, c: ReconcileCalls) returns (goesOn: bool)
      modifies this`api, this`secrets, this`mcp
      ensures
        var spec, view := old(mcp.spec), machines[..];
        var calls := MachineCalls(cluster, spec, c.(view := view), old(secrets));
        && goesOn == ReachesSwitch(spec, view, calls)
        && secrets == UpgradeSecrets(cluster, spec, c.(view := view), old(secrets))
        && (RollingCreates(spec, view) ==>
              && api == Boot(clock, spec.version, c.machines.boot, old(api))
              && var st := old(mcp.status).MarkFalse(Resized, ScalingUp);
                 mcp == old(mcp).(status := BootStatus(old(api), c.machines.boot, st)))
        && (!RollingCreates(spec, view) ==> api == Upgrade(spec, view, calls, old(api)) && mcp == old(mcp))
    {
      var rolling, inPlace := ProbeUpgrade(machines);
      if rolling && machines.Length == mcp.spec.replicas {
        mcp := mcp.(status := mcp.status.MarkFalse(Resized, ScalingUp));
        BootControlPlane(c.machines.boot);
        return false;
      }
      if inPlace {
        goesOn := UpgradeInPlace(machines, c.upgradeKube, c.machines.upgrade);
      } else {
        goesOn := true;
      }
    }

    method ReconcileMachines(machines: array<Machine>, c: ReconcileCalls)
      modifies this`api, this`secrets, this`mcp, machines
      ensures IsSortOf(machines[..], old(machines[..]))
      ensures
        var spec, sorted := old(mcp.spec), c.(view := machines[..]);
        var calls := MachineCalls(cluster, spec, sorted, old(secrets));
        && api == MachinesPass(clock, spec, machines[..], calls, old(api))
        && secrets == ScaleSecrets(cluster, spec, sorted, old(secrets))
        && mcp == old(mcp).(status := MachinesStatus(spec, machines[..], calls, old(api), old(mcp.status)))
    {
      if machines.Length > 0 {
        SortByCreationTimestamp(machines);
      }
      var goesOn := UpgradeIfDue(machines, c);
      if goesOn {
        ResizeMachines(machines, c);
        ghost var view := machines[..];
        ResizeIgnoresUpgradeCalls(clock, old(mcp.spec), view, c.machines,
                                  MachineCalls(cluster, old(mcp.spec), c.(view := view), old(secrets)), old(api));
      }
    }

    method ReconcileConditions()
      modifies this`mcp
      ensures mcp == old(mcp).(status := InitConditions(old(mcp.status)))
    {
      if !mcp.status.Has(Available) {
        mcp := mcp.(status := mcp.status.MarkFalse(Available, WaitingForMicroK8sBoot));
      }
      if !mcp.status.Has(MachinesBootstrapped) {
        mcp := mcp.(status := mcp.status.MarkFalse(MachinesBootstrapped, WaitingForMachines));
      }
    }

    /** reconcile; `view` is the sorted list it worked on. */
    method ReconcileNormal(c: ReconcileCalls) returns (ghost view: seq<Machine>)
      modifies this`api, this`secrets, this`mcp
      ensures c.externalOk && c.endpointValid && c.listOk ==> IsSortOf(view, c.listing)
      ensures (Holding(), mcp) == Normal(clock, cluster, old(Holding()), old(mcp), c.(view := view))
    {
      view := c.listing;
      if !c.externalOk || !c.endpointValid || !c.listOk {
        return;
      }
      var machines := new Machine[|c.listing|](i requires 0 <= i < |c.listing| => c.listing[i]);
      assert machines[..] == c.listing;
      if c.aggregate.Some? {
        mcp := mcp.(status := mcp.status.(conditions := mcp.status.conditions[MachinesReady := c.aggregate.value]));
      }
      mcp := mcp.(status := mcp.status.MarkTrue(ComponentsHealthy));
      ReconcileConditions();
      ReconcileMachines(machines, c);
      view := machines[..];
    }

    method DeleteClusterSecrets(gone: SecretKey -> bool)
      modifies this`secrets
      ensures secrets == WithoutClusterSecrets(cluster, old(secrets), gone)
    {
      if gone(KubeconfigKey(cluster)) {
        secrets := secrets - {KubeconfigKey(cluster)};
      }
      if gone(CaKey(cluster)) {
        secrets := secrets - {CaKey(cluster)};
      }
      if gone(JoinTokenKey(cluster)) {
        secrets := secrets - {JoinTokenKey(cluster)};
      }
    }

    method ReconcileDelete(c: ReconcileCalls)
      modifies this`api, this`secrets, this`stored, this`mcp
      ensures (Holding(), mcp) == Deletion(cluster, old(Holding()), old(mcp), c)
    {
      if !c.listOk {
        return;
      }
      if |c.listing| == 0 {
        mcp := mcp.(finalizer := false);
        if stored.Some? && c.update.Landed() {
          stored := Settle(stored.value.(finalizer := false));
        }
        return;
      }
      ghost var done: seq<Name> := [];
      MarkNone(api);
      for i := 0 to |c.listing|
        invariant secrets == old(secrets) && stored == old(stored) && mcp == old(mcp)
        invariant api == MarkAll(old(api), done)
        invariant Requested(c.listing, c.deletes) == done + Requested(c.listing[i..], c.deletes)
        invariant forall j :: 0 <= j < i ==> c.listing[j].deleting || c.deletes(c.listing[j].name).Done?
      {
        var machine := c.listing[i];
        assert c.listing[i..][0] == machine && c.listing[i..][1..] == c.listing[i + 1..];
        if machine.deleting {
          continue;
        }
        if c.deletes(machine.name).Landed() {
          MarkTwice(old(api), done, machine.name);
          api := MarkDeleting(api, machine.name);
          done := done + [machine.name];
        }
        if !c.deletes(machine.name).Done? {
          assert done + [] == done;
          return;
        }
      }
      assert done + [] == done;
      DeleteClusterSecrets(c.secretDeletes);
      mcp := mcp.(status := mcp.status.MarkFalse(Resized, Deleting));
    }

    // ---- controllers/status.go ---------------------------------------------------------------

    /** Count the ready nodes among the labelled ones into the status; `labelled` is how many were listed. */
    method CountReady(nodes: seq<Node>) returns (labelled: nat)
      modifies this`mcp
      ensures
        var was := old(mcp.status);
        mcp == old(mcp).(status := was.(readyReplicas := was.readyReplicas + ReadyNodes(nodes)))
      ensures labelled > 0 <==> SomeLabelled(nodes)
    {
      labelled := 0;
      ghost var was := mcp.status;
      for i := 0 to |nodes|
        invariant mcp == old(mcp).(status := was.(readyReplicas := was.readyReplicas + ReadyNodes(nodes[..i])))
        invariant labelled > 0 <==> exists j :: 0 <= j < i && nodes[j].labelled
      {
        assert nodes[..i + 1][..i] == nodes[..i];
        if nodes[i].labelled {
          labelled := labelled + 1;
          if nodes[i].ready {
            mcp := mcp.(status := mcp.status.(readyReplicas := mcp.status.readyReplicas + 1));
          }
        }
      }
      assert nodes[..|nodes|] == nodes;
    }

    /** updateProviderID on the lists it gets. */
    method ProvideIdentifiers(p: ProviderCalls) returns (ok: bool, panicked: bool)
      ensures ok == PassSucceeds(p) && panicked == PassPanics(p)
    {
      if !p.listsOk {
        return false, false;
      }
      var nodes := new Node[|p.nodes|](i requires 0 <= i < |p.nodes| => p.nodes[i]);
      assert forall i :: 0 <= i < |p.nodes| ==> nodes[i] == p.nodes[i];
      var r := UpdateProviderID(nodes, p.machines, p.updates);
      ok, panicked := r.Completed?, r.Panicked?;
    }

    method UpdateStatus(c: ReconcileCalls) returns (panicked: bool)
      modifies this`secrets, this`mcp
      ensures mcp == old(mcp).(status := StatusAfter(old(mcp.status), old(mcp.deleting),
                                                     StatusWithClient(cluster, c, old(secrets))))
      ensures secrets == if c.status.listOk && !old(mcp.deleting) then SecretsAfter(cluster, c.statusKube, old(secrets))
                         else old(secrets)
      ensures panicked == UpdatePanics(cluster, old(mcp.deleting), c, old(secrets))
    {
      var s := c.status;
      panicked := false;
      if !s.listOk {
        return;
      }
      mcp := mcp.(status := mcp.status.(ready := false, replicas := s.listed, readyReplicas := 0,
                                        unavailableReplicas := s.listed));
      if mcp.deleting {
        return;
      }
      var connected := KubeconfigForCluster(c.statusKube);
      if !connected {
        return;
      }
      var provided;
      provided, panicked := ProvideIdentifiers(c.provider);
      if !provided || !s.nodesOk {
        return;
      }
      var labelled := CountReady(s.nodes);
      mcp := mcp.(status := mcp.status.(unavailableReplicas := s.listed - mcp.status.readyReplicas));
      if labelled > 0 {
        mcp := mcp.(status := mcp.status.(initialized := true));
        mcp := mcp.(status := mcp.status.MarkTrue(Available));
        mcp := mcp.(status := mcp.status.(ready := true));
      }
    }

    // ---- controllers/microk8scontrolplane_controller.go --------------------------------------

    /** The deferred function. */
    method Finish(read: Mcp, c: ReconcileCalls)
      modifies this`secrets, this`stored, this`mcp
      ensures Holding() == Deferred(cluster, old(Holding()), read, old(mcp), c)
    {
      var panicked := UpdateStatus(c);
      if !panicked {
        stored := Patched(stored, read, mcp, c.patch);
      }
    }

    /** One Reconcile of the object `read` at its start, past the gates; `view` is the sorted list of a live pass. */
    method Reconcile(read: Mcp, c: ReconcileCalls) returns (ghost view: seq<Machine>)
      modifies this
      ensures Holding() == Act(clock, cluster, old(Holding()), read, c.(view := view))
      ensures read.finalizer && !read.deleting && c.externalOk && c.endpointValid && c.listOk ==>
                IsSortOf(view, c.listing)
    {
      view := c.listing;
      mcp := read;
      if !mcp.finalizer {
        mcp := mcp.(finalizer := true);
        stored := Patched(stored, read, mcp, c.patch);
        return;
      }
      if mcp.deleting {
        ReconcileDelete(c);
      } else {
        view := ReconcileNormal(c);
      }
      Finish(read, c);
    }
  }

  // ---- what the loops found ----------------------------------------------------------------

  lemma {:induction false} UnsettledAt(view: seq<Machine>, k: nat)
    requires k < |view| && !Settled(view[k]) && forall j :: k < j < |view| ==> Settled(view[j])
    ensures LastUnsettled(view) == Some(k)
  {
  }

  lemma VictimAt(view: seq<Machine>, k: nat)
    requires k < |view| && forall j :: 0 <= j < |view| ==> Settled(view[j])
    requires forall j :: 0 <= j < |view| ==> view[k].created <= view[j].created
    requires forall j :: k < j < |view| ==> view[k].created < view[j].created
    ensures LastUnsettled(view) == None && VictimIndex(view) == k
  {
  }
}
