/** What a pass does, told by the fields of what it is given: versions by major and minor number, the strategy by its
    value in the spec, the outcomes of the calls one by one. */
module PassOutcomes {
  import opened Types
  import opened Scaling
  import opened FreshRuns
  import opened VersionOrder

  // ---- when an upgrade is due --------------------------------------------------------------

  /** Another major or minor number; whatever follows them makes no difference. A malformed version never differs, and
      every well-formed one differs from a malformed target. */
  predicate Differs(version: Version, target: Version) {
    version.Semver? && (target.Malformed? || version.major != target.major || version.minor != target.minor)
  }

  lemma UpgradeDueIff(spec: Spec, view: seq<Machine>)
    ensures UpgradeDue(spec, view) <==> |view| > 0 && Differs(view[0].version, spec.version)
  {
  }

  /** A strategy that is not set means the smart one. */
  predicate Smart(strategy: Strategy) {
    strategy.Unset? || strategy.SmartUpgrade?
  }

  /** In place by choice, or smartly with fewer than three Machines. */
  predicate WantsInPlace(spec: Spec, n: nat) {
    spec.strategy.InPlaceUpgrade? || (Smart(spec.strategy) && n < 3)
  }

  lemma StrategyIff(spec: Spec, n: nat)
    ensures RollsOver(spec, n) <==> !WantsInPlace(spec, n)
  {
  }

  // ---- what a pass comes to ----------------------------------------------------------------

  /** Some turn of the in-place upgrade ends the pass. */
  predicate SomeTurnEnds(view: seq<Machine>, upgrade: Name -> NodeUpgrade) {
    exists i :: 0 <= i < |view| &&
      var u := upgrade(view[i].name);
      view[i].nodeRef.None? || u.LookupFailed? || !u.podCreated
  }

  predicate AllSettled(view: seq<Machine>) {
    forall i :: 0 <= i < |view| ==> !view[i].deleting && view[i].nodeRef.Some?
  }

  /** A rolling upgrade is due at the desired count: one Machine is created, and nothing else happens. */
  lemma RollingPassCreates(clock: Clock, spec: Spec, view: seq<Machine>, calls: Calls, api: Api)
    requires |view| > 0 && Differs(view[0].version, spec.version)
    requires !WantsInPlace(spec, |view|) && |view| == spec.replicas
    ensures MachinesPass(clock, spec, view, calls, api) == Boot(clock, spec.version, calls.boot, api)
  {
  }

  lemma TurnEndsIff(view: seq<Machine>, upgrade: Name -> NodeUpgrade)
    ensures SomeTurnEnds(view, upgrade) <==> !UpgradeFinishes(view, upgrade)
  {
  }

  /** An in-place upgrade is due: without a client nothing happens. */
  lemma NoClientNoUpgrade(clock: Clock, spec: Spec, view: seq<Machine>, calls: Calls, api: Api)
    requires |view| > 0 && Differs(view[0].version, spec.version) && WantsInPlace(spec, |view|)
    requires !calls.upgradeClient
    ensures MachinesPass(clock, spec, view, calls, api) == api
  {
  }

  /** And a pass that a turn ends only writes versions. */
  lemma EndedUpgradeStops(clock: Clock, spec: Spec, view: seq<Machine>, calls: Calls, api: Api)
    requires |view| > 0 && Differs(view[0].version, spec.version) && WantsInPlace(spec, |view|)
    requires calls.upgradeClient && SomeTurnEnds(view, calls.upgrade)
    ensures MachinesPass(clock, spec, view, calls, api)
         == Rewrite(api, UpgradedNames(view, calls.upgrade), spec.version)
  {
    TurnEndsIff(view, calls.upgrade);
    assert UpgradesInPlace(spec, view) && !ReachesSwitch(spec, view, calls);
  }

  /** What the switch on the count does: one is created below it; above it and from four on one is marked, if there is
      a client, all are settled and the deletion lands; in all other cases nothing happens. */
  lemma SwitchOutcome(clock: Clock, spec: Spec, view: seq<Machine>, calls: Calls, api: Api)
    ensures
      var n := |view|;
      Resize(clock, spec, view, calls, api)
      == if n < spec.replicas then Boot(clock, spec.version, calls.boot, api)
         else if n > spec.replicas && n >= 4 && calls.scaleClient && AllSettled(view) && !calls.delete.Failed? then
           MarkDeleting(api, Victim(view).name)
         else api
  {
  }

  /** A pass with no upgrade due, or with one to be rolled out at another count, comes to the switch at once. */
  lemma QuietPassResizes(clock: Clock, spec: Spec, view: seq<Machine>, calls: Calls, api: Api)
    requires |view| > 0 && Differs(view[0].version, spec.version) ==>
               !WantsInPlace(spec, |view|) && |view| != spec.replicas
    ensures MachinesPass(clock, spec, view, calls, api) == Resize(clock, spec, view, calls, api)
  {
  }

  /** And a complete in-place upgrade comes to it with the versions written. */
  lemma CompleteUpgradeResizes(clock: Clock, spec: Spec, view: seq<Machine>, calls: Calls, api: Api)
    requires |view| > 0 && Differs(view[0].version, spec.version) && WantsInPlace(spec, |view|)
    requires calls.upgradeClient && !SomeTurnEnds(view, calls.upgrade)
    ensures
      var up := Rewrite(api, UpgradedNames(view, calls.upgrade), spec.version);
      MachinesPass(clock, spec, view, calls, api) == Resize(clock, spec, view, calls, up)
  {
    TurnEndsIff(view, calls.upgrade);
    assert UpgradesInPlace(spec, view) && ReachesSwitch(spec, view, calls);
  }

  /** Each creation is attempted only when the one before reported success; one whose reply is lost leaves its object.
      A Machine comes unmarked, without node, addresses or identifier. */
  lemma BootOutcome(clock: Clock, version: Version, c: BootCalls, api: Api)
    ensures
      var api', refs := Boot(clock, version, c, api), Refs(c.infraName, c.configName);
      var cloned := !c.infra.Failed? && c.infraName !in api.infra;
      var configured := cloned && c.infra.Done? && !c.config.Failed? && c.configName !in api.configs;
      var created := configured && c.config.Done? && !c.machine.Failed?;
      && api'.infra == (if cloned then api.infra + [c.infraName] else api.infra)
      && api'.configs == (if configured then api.configs + [c.configName] else api.configs)
      && api'.born == (if created then api.born + [refs] else api.born)
      && api'.machines == if created then
           api.machines + [Machine(|api.born|, clock(|api.born|), version, refs, false, None, [], None)]
         else api.machines
  {
  }

  // ---- another patch release ---------------------------------------------------------------

  predicate SameRelease(ms: seq<Machine>, target: Version) {
    forall i :: 0 <= i < |ms| ==> !Differs(ms[i].version, target)
  }

  /** At the desired count, with every Machine at the target's major and minor, no pass changes a Machine. */
  lemma SameReleaseIsIdle(clock: Clock, spec: Spec, api: Api)
    requires WellFormed(clock, api) && |api.machines| == spec.replicas && SameRelease(api.machines, spec.version)
    ensures forall api' :: PassOn(clock, spec, api, api, api') ==> api'.machines == api.machines
  {
    forall api' | PassOn(clock, spec, api, api, api')
      ensures api'.machines == api.machines
    {
      IdlePass(clock, spec, api, api');
    }
  }

  /** So a new patch release is never rolled out: with nothing being deleted no run ever changes a Machine, but for
      nodes that appear. */
  lemma PatchReleaseIsNotRolledOut(clock: Clock, spec: Spec, h: seq<Api>, k: nat)
    requires IsFreshRun(clock, spec, h) && k < |h|
    requires |h[0].machines| == spec.replicas && SameRelease(h[0].machines, spec.version)
    requires forall i :: 0 <= i < |h[0].machines| ==> !h[0].machines[i].deleting
    ensures SameFleet(h[0].machines, h[k].machines) && SameRelease(h[k].machines, spec.version)
  {
    RestIsFinal(clock, spec, h, k);
  }
}
