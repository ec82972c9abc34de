/** The MicroK8sControlPlane object, and what each phase writes into its status. */
module ControlPlane {
  import opened Types
  import opened Scaling

  datatype ConditionType =
    MachinesReady | MachinesBootstrapped | Available | Resized | MachinesCreated | ComponentsHealthy

  datatype Reason =
    | WaitingForMachines | WaitingForMicroK8sBoot | ScalingUp | ScalingDown | Deleting | MachineNotReady
    | InfrastructureTemplateCloningFailed | BootstrapTemplateCloningFailed | MachineGenerationFailed

  datatype Condition = IsTrue | IsFalse(reason: Reason)

  datatype Status = Status(
    replicas: int, readyReplicas: int, unavailableReplicas: int,
    initialized: bool, ready: bool, bootstrapped: bool,
    conditions: map<ConditionType, Condition>)
  {
    predicate Has(t: ConditionType) {
      t in conditions
    }

    predicate Holds(t: ConditionType) {
      t in conditions && conditions[t].IsTrue?
    }

    function MarkTrue(t: ConditionType): Status {
      this.(conditions := conditions[t := IsTrue])
    }

    function MarkFalse(t: ConditionType, reason: Reason): Status {
      this.(conditions := conditions[t := IsFalse(reason)])
    }
  }

  const ZERO := Status(0, 0, 0, false, false, false, map[])

  datatype Mcp = Mcp(spec: Spec, status: Status, finalizer: bool, deleting: bool)

  // ---- phases of reconcile -----------------------------------------------------------------

  /** reconcileConditions: the two conditions start out false. */
  function InitConditions(st: Status): Status {
    var a := if st.Has(Available) then st else st.MarkFalse(Available, WaitingForMicroK8sBoot);
    if a.Has(MachinesBootstrapped) then a else a.MarkFalse(MachinesBootstrapped, WaitingForMachines)
  }

  function BootStatus(api: Api, c: BootCalls, st: Status): Status {
    if !InfraReported(api, c) then st.MarkFalse(MachinesCreated, InfrastructureTemplateCloningFailed)
    else if !ConfigReported(WithInfra(api, c), c) then st.MarkFalse(MachinesCreated, BootstrapTemplateCloningFailed)
    else if !c.machine.Done? then st.MarkFalse(MachinesCreated, MachineGenerationFailed)
    else st
  }

  predicate HasInternalIP(m: Machine) {
    exists i :: 0 <= i < |m.addresses| && m.addresses[i].kind.InternalIP?
  }

  /** bootstrapCluster: there is a Machine, and all have an internal address. */
  predicate CanBootstrap(view: seq<Machine>) {
    |view| > 0 && forall i :: 0 <= i < |view| ==> HasInternalIP(view[i])
  }

  function SettledStatus(st: Status): Status {
    var s := if st.Has(MachinesReady) then st.MarkTrue(Resized) else st;
    s.MarkTrue(MachinesCreated)
  }

  function SettleStatus(view: seq<Machine>, st: Status): Status {
    if st.bootstrapped then SettledStatus(st)
    else if CanBootstrap(view) then SettledStatus(st.MarkTrue(MachinesBootstrapped).(bootstrapped := true))
    else st.MarkFalse(MachinesBootstrapped, WaitingForMicroK8sBoot)
  }

  /** The switch at the end of reconcileMachines. */
  function ResizeStatus(spec: Spec, view: seq<Machine>, boot: BootCalls, api: Api, st: Status): Status {
    var n := |view|;
    if n < spec.replicas then BootStatus(api, boot, if n == 0 then st else st.MarkFalse(Resized, ScalingUp))
    else if n > spec.replicas then st.MarkFalse(Resized, ScalingDown)
    else SettleStatus(view, st)
  }

  /** What reconcileMachines leaves in the status, given what it creates a Machine from. */
  function MachinesStatus(spec: Spec, view: seq<Machine>, calls: Calls, api: Api, st: Status): Status {
    if RollingCreates(spec, view) then BootStatus(api, calls.boot, st.MarkFalse(Resized, ScalingUp))
    else if !ReachesSwitch(spec, view, calls) then st
    else ResizeStatus(spec, view, calls.boot, api, st)
  }

  // ---- the deferred status update ----------------------------------------------------------

  datatype Node = Node(name: Name, ready: bool, labelled: bool, providerID: string, addresses: seq<string>)

  /** The number of listed Machines, and the nodes of the workload cluster, as far as they can be had. */
  datatype StatusCalls = StatusCalls(
    listOk: bool, listed: nat, client: bool, providerOk: bool, nodesOk: bool, nodes: seq<Node>)

  function ReadyNodes(nodes: seq<Node>): (n: nat)
    ensures n <= |nodes|
  {
    if |nodes| == 0 then 0
    else ReadyNodes(nodes[..|nodes| - 1]) + (if nodes[|nodes| - 1].labelled && nodes[|nodes| - 1].ready then 1 else 0)
  }

  predicate SomeLabelled(nodes: seq<Node>) {
    exists i :: 0 <= i < |nodes| && nodes[i].labelled
  }

  predicate Live(deleting: bool, c: StatusCalls) {
    c.listOk && !deleting && c.client && c.providerOk && c.nodesOk
  }

  function StatusAfter(st: Status, deleting: bool, c: StatusCalls): Status {
    if !c.listOk then st else
    var reset := st.(ready := false, replicas := c.listed, readyReplicas := 0, unavailableReplicas := c.listed);
    if !Live(deleting, c) then reset else
    var counted := reset.(readyReplicas := ReadyNodes(c.nodes), unavailableReplicas := c.listed - ReadyNodes(c.nodes));
    if SomeLabelled(c.nodes) then counted.(initialized := true, ready := true).MarkTrue(Available) else counted
  }

  // ---- what holds of every status ----------------------------------------------------------

  predicate Balanced(st: Status) {
    st.readyReplicas + st.unavailableReplicas == st.replicas
  }

  predicate Latched(st: Status) {
    && (st.ready ==> st.initialized && st.Holds(Available))
    && (st.bootstrapped <==> st.Holds(MachinesBootstrapped))
  }

  predicate Sound(st: Status) {
    Balanced(st) && Latched(st)
  }

  /** What has come true stays true. */
  predicate Advances(a: Status, b: Status) {
    && (a.initialized ==> b.initialized)
    && (a.bootstrapped ==> b.bootstrapped)
    && (a.Holds(Available) ==> b.Holds(Available))
  }

  lemma ConditionsKeepSound(st: Status)
    requires Sound(st)
    ensures Sound(InitConditions(st)) && Advances(st, InitConditions(st))
  {
  }

  lemma SettleKeepsSound(view: seq<Machine>, st: Status)
    requires Sound(st)
    ensures Sound(SettleStatus(view, st)) && Advances(st, SettleStatus(view, st))
  {
  }

  lemma BootKeepsSound(api: Api, c: BootCalls, st: Status)
    requires Sound(st)
    ensures Sound(BootStatus(api, c, st)) && Advances(st, BootStatus(api, c, st))
  {
  }

  lemma MachinesKeepSound(spec: Spec, view: seq<Machine>, calls: Calls, api: Api, st: Status)
    requires Sound(st)
    ensures Sound(MachinesStatus(spec, view, calls, api, st))
    ensures Advances(st, MachinesStatus(spec, view, calls, api, st))
  {
    SettleKeepsSound(view, st);
    BootKeepsSound(api, calls.boot, st);
    BootKeepsSound(api, calls.boot, st.MarkFalse(Resized, ScalingUp));
  }

  lemma UpdateKeepsSound(st: Status, deleting: bool, c: StatusCalls)
    requires Sound(st)
    ensures Sound(StatusAfter(st, deleting, c)) && Advances(st, StatusAfter(st, deleting, c))
  {
  }

  predicate Counted(node: Node) {
    node.labelled && node.ready
  }

  /** An update that reaches the workload cluster counts exactly its ready labelled nodes. */
  lemma LiveUpdateCounts(st: Status, c: StatusCalls)
    requires Live(false, c)
    ensures
      var after := StatusAfter(st, false, c);
      && after.replicas == c.listed
      && after.readyReplicas == |set i | 0 <= i < |c.nodes| && Counted(c.nodes[i])|
      && (after.ready <==> SomeLabelled(c.nodes))
  {
    ReadyNodesIsCardinality(c.nodes);
  }

  lemma {:induction false} ReadyNodesIsCardinality(nodes: seq<Node>)
    ensures ReadyNodes(nodes) == |set i | 0 <= i < |nodes| && Counted(nodes[i])|
  {
    var all := set i | 0 <= i < |nodes| && Counted(nodes[i]);
    if |nodes| == 0 {
      assert all == {};
    } else {
      var n := |nodes| - 1;
      ReadyNodesIsCardinality(nodes[..n]);
      var before := set i | 0 <= i < n && Counted(nodes[..n][i]);
      assert before == set i | 0 <= i < n && Counted(nodes[i]);
      if Counted(nodes[n]) {
        assert all == before + {n};
      } else {
        assert all == before;
      }
    }
  }
}
