/** controllers/reconcile.go: what one pass of reconcileMachines does to the Machines, as functions
    of the sorted view it was given and of the outcome of every call it makes. */
module Scaling {
  import opened Types
  import opened CreationOrder

  // ---- the version probe -------------------------------------------------------------------

  /** semver.MajorMinor, whose "" for a malformed text is None here. */
  function MajorMinor(v: Version): Option<(nat, nat)> {
    match v
    case Semver(major, minor, _) => Some((major, minor))
    case Malformed(_) => None
  }

  predicate OffTarget(m: Machine, target: Version) {
    MajorMinor(m.version).Some? && MajorMinor(m.version) != MajorMinor(target)
  }

  function Effective(s: Strategy): Strategy {
    if s.Unset? then SmartUpgrade else s
  }

  /** Replace Machines one by one rather than upgrade them where they are. */
  predicate RollsOver(spec: Spec, n: nat) {
    var s := Effective(spec.strategy);
    s.RollingUpgrade? || (s.SmartUpgrade? && n >= 3)
  }

  predicate UpgradeDue(spec: Spec, view: seq<Machine>) {
    |view| > 0 && OffTarget(view[0], spec.version)
  }

  predicate RollingCreates(spec: Spec, view: seq<Machine>) {
    UpgradeDue(spec, view) && RollsOver(spec, |view|) && |view| == spec.replicas
  }

  predicate UpgradesInPlace(spec: Spec, view: seq<Machine>) {
    UpgradeDue(spec, view) && !RollsOver(spec, |view|)
  }

  // ---- the in-place pass -------------------------------------------------------------------

  /** One Machine's turn: `annotated` is the Machine named by its node's annotation. A pod that could
      not be created is dereferenced after the version write, which ends the pass. */
  datatype NodeUpgrade = LookupFailed | Found(annotated: Name, update: CallResult, podCreated: bool)

  predicate Stops(m: Machine, u: NodeUpgrade) {
    m.nodeRef.None? || u.LookupFailed?
  }

  predicate Completes(m: Machine, u: NodeUpgrade) {
    !Stops(m, u) && u.podCreated
  }

  predicate UpgradeFinishes(view: seq<Machine>, upgrade: Name -> NodeUpgrade) {
    forall i :: 0 <= i < |view| ==> Completes(view[i], upgrade(view[i].name))
  }

  /** The Machines whose version the pass writes, in order. */
  function UpgradedNames(view: seq<Machine>, upgrade: Name -> NodeUpgrade): seq<Name> {
    if |view| == 0 || Stops(view[0], upgrade(view[0].name)) then
      []
    else
      var u := upgrade(view[0].name);
      (if u.update.Landed() then [u.annotated] else [])
      + (if u.podCreated then UpgradedNames(view[1..], upgrade) else [])
  }

  function Rewrite(api: Api, names: seq<Name>, version: Version): Api {
    api.(machines := seq(|api.machines|, i requires 0 <= i < |api.machines| =>
      var m := api.machines[i];
      if m.name in names then m.(version := version) else m))
  }

  // ---- creating a Machine ------------------------------------------------------------------

  /** The outcome of the three creations and the names generated for the first two. */
  datatype BootCalls = BootCalls(
    infra: CallResult, infraName: Name, config: CallResult, configName: Name, machine: CallResult)

  predicate InfraLands(api: Api, c: BootCalls) {
    c.infra.Landed() && c.infraName !in api.infra
  }

  predicate ConfigLands(api: Api, c: BootCalls) {
    c.config.Landed() && c.configName !in api.configs
  }

  predicate InfraReported(api: Api, c: BootCalls) {
    InfraLands(api, c) && c.infra.Done?
  }

  predicate ConfigReported(api: Api, c: BootCalls) {
    ConfigLands(api, c) && c.config.Done?
  }

  function WithInfra(api: Api, c: BootCalls): Api {
    if InfraLands(api, c) then api.(infra := api.infra + [c.infraName]) else api
  }

  function WithConfig(api: Api, c: BootCalls): Api {
    if ConfigLands(api, c) then api.(configs := api.configs + [c.configName]) else api
  }

  function NewMachine(clock: Clock, api: Api, version: Version, refs: Refs): Machine {
    Machine(|api.born|, clock(|api.born|), version, refs, false, None, [], None)
  }

  function WithMachine(clock: Clock, api: Api, version: Version, c: BootCalls): Api {
    var refs := Refs(c.infraName, c.configName);
    if c.machine.Landed() then
      api.(machines := api.machines + [NewMachine(clock, api, version, refs)], born := api.born + [refs])
    else api
  }

  /** bootControlPlane: each creation is attempted only when the one before reported success. */
  function Boot(clock: Clock, version: Version, c: BootCalls, api: Api): Api {
    var a := WithInfra(api, c);
    if !InfraReported(api, c) then a else
    var b := WithConfig(a, c);
    if !ConfigReported(a, c) then b else
    WithMachine(clock, b, version, c)
  }

  predicate Boots(api: Api, c: BootCalls) {
    InfraReported(api, c) && ConfigReported(api, c) && c.machine.Landed()
  }

  // ---- scaling down ------------------------------------------------------------------------

  /** The place of the oldest Machine, and of several created in the same second the one listed last. */
  function VictimIndex(view: seq<Machine>): (k: nat)
    requires |view| > 0
    ensures k < |view|
    ensures forall j :: 0 <= j < |view| ==> view[k].created <= view[j].created
    ensures forall j :: k < j < |view| ==> view[k].created < view[j].created
  {
    if |view| == 1 then 0 else
    var k := 1 + VictimIndex(view[1..]);
    assert forall j :: 1 <= j < |view| ==> view[j] == view[1..][j - 1];
    if view[0].created < view[k].created then 0 else k
  }

  function Victim(view: seq<Machine>): Machine
    requires |view| > 0
  {
    view[VictimIndex(view)]
  }

  /** No Machine is being deleted and all have joined. */
  predicate MayDelete(view: seq<Machine>) {
    |view| > 0 && forall i :: 0 <= i < |view| ==> !view[i].deleting && view[i].nodeRef.Some?
  }

  /** Delete sets the deletion mark of the Machine of that name, if there still is one. */
  function MarkDeleting(api: Api, name: Name): Api {
    api.(machines := seq(|api.machines|, i requires 0 <= i < |api.machines| =>
      var m := api.machines[i];
      if m.name == name then m.(deleting := true) else m))
  }

  // ---- the pass ----------------------------------------------------------------------------

  datatype Calls = Calls(
    upgradeClient: bool, upgrade: Name -> NodeUpgrade,
    boot: BootCalls,
    scaleClient: bool, delete: CallResult)

  predicate ScalesDown(spec: Spec, view: seq<Machine>) {
    |view| > spec.replicas && |view| >= 4
  }

  predicate Deletes(spec: Spec, view: seq<Machine>, calls: Calls) {
    ScalesDown(spec, view) && calls.scaleClient && MayDelete(view) && calls.delete.Landed()
  }

  /** The switch at the end of reconcileMachines. */
  function Resize(clock: Clock, spec: Spec, view: seq<Machine>, calls: Calls, api: Api): Api {
    if |view| < spec.replicas then
      Boot(clock, spec.version, calls.boot, api)
    else if Deletes(spec, view, calls) then
      MarkDeleting(api, Victim(view).name)
    else api
  }

  /** The versions written before the switch. */
  function Upgrade(spec: Spec, view: seq<Machine>, calls: Calls, api: Api): Api {
    if UpgradesInPlace(spec, view) && calls.upgradeClient then
      Rewrite(api, UpgradedNames(view, calls.upgrade), spec.version)
    else api
  }

  predicate ReachesSwitch(spec: Spec, view: seq<Machine>, calls: Calls) {
    && !RollingCreates(spec, view)
    && (UpgradesInPlace(spec, view) ==> calls.upgradeClient && UpgradeFinishes(view, calls.upgrade))
  }

  /** reconcileMachines on a sorted view, applied to what the API server holds. */
  function MachinesPass(clock: Clock, spec: Spec, view: seq<Machine>, calls: Calls, api: Api): Api {
    if RollingCreates(spec, view) then
      Boot(clock, spec.version, calls.boot, api)
    else
      var upgraded := Upgrade(spec, view, calls, api);
      if ReachesSwitch(spec, view, calls) then Resize(clock, spec, view, calls, upgraded) else upgraded
  }

  /** A pass whose list was read from `snapshot` and whose writes land on `api`. */
  ghost predicate PassOn(clock: Clock, spec: Spec, snapshot: Api, api: Api, api': Api) {
    exists view, calls :: IsSortOf(view, snapshot.machines) && api' == MachinesPass(clock, spec, view, calls, api)
  }
}
