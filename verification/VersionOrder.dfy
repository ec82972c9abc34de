/** Why probing the oldest Machine is enough, and when it is not. */
module VersionOrder {
  import opened Types
  import opened CreationOrder
  import opened Scaling
  import opened StaleRuns
  import opened Ties
  import opened FreshRuns
  import opened FixedPoints

  // ---- the probe ---------------------------------------------------------------------------

  /** In the order of creation, every off-target Machine comes before every other one. */
  ghost predicate OldFirst(ms: seq<Machine>, target: Version) {
    forall i, j :: 0 <= i < j < |ms| && OffTarget(ms[j], target) ==> OffTarget(ms[i], target)
  }

  /** By their seconds, every off-target Machine is older than every other one. */
  ghost predicate OffOlder(ms: seq<Machine>, target: Version) {
    forall i, j :: 0 <= i < |ms| && 0 <= j < |ms| && OffTarget(ms[i], target) && !OffTarget(ms[j], target) ==>
      ms[i].created < ms[j].created
  }

  lemma OrdersAgree(ms: seq<Machine>, target: Version)
    requires StrictlySorted(ms)
    ensures OffOlder(ms, target) <==> OldFirst(ms, target)
  {
    if OffOlder(ms, target) {
      assert OldFirst(ms, target);
    } else {
      var i, j :| && 0 <= i < |ms| && 0 <= j < |ms| && OffTarget(ms[i], target) && !OffTarget(ms[j], target)
                  && ms[i].created >= ms[j].created;
      assert j < i;
    }
  }

  ghost predicate ProbeTells(ms: seq<Machine>, target: Version) {
    forall view :: IsSortOf(view, ms) && |view| > 0 ==> (OffTarget(view[0], target) <==> AnyOff(ms, target))
  }

  predicate OldestAreOff(ms: seq<Machine>, target: Version) {
    forall i :: 0 <= i < |ms| && Oldest(ms[i], ms) ==> OffTarget(ms[i], target)
  }

  /** The version at machines[0] tells whether any Machine is off target, however the sort breaks ties, exactly when all
      the oldest Machines are off target or none is at all. */
  lemma ProbeIsExactIff(ms: seq<Machine>, target: Version)
    ensures ProbeTells(ms, target) <==> !AnyOff(ms, target) || OldestAreOff(ms, target)
  {
    if ProbeTells(ms, target) && AnyOff(ms, target) {
      forall i | 0 <= i < |ms| && Oldest(ms[i], ms)
        ensures OffTarget(ms[i], target)
      {
        var view := SortWithHead(ms, i);
      }
    }
    forall view | IsSortOf(view, ms) && |view| > 0
      ensures (!AnyOff(ms, target) || OldestAreOff(ms, target)) ==>
                (OffTarget(view[0], target) <==> AnyOff(ms, target))
    {
      SameMembers(view, ms);
      HeadIsOldest(view, ms);
      var k := PlaceOf(ms, view[0]);
    }
  }

  /** That is so when the off-target Machines are older than the others. */
  lemma ProbeIsExact(ms: seq<Machine>, target: Version)
    requires OffOlder(ms, target)
    ensures ProbeTells(ms, target)
  {
    ProbeIsExactIff(ms, target);
    if x :| 0 <= x < |ms| && OffTarget(ms[x], target) {
      forall i | 0 <= i < |ms| && Oldest(ms[i], ms)
        ensures OffTarget(ms[i], target)
      {
        assert ms[i].created <= ms[x].created;
      }
    }
  }

  // ---- what keeps the order ----------------------------------------------------------------

  lemma FewerKeepOrder(ms: seq<Machine>, i: nat, target: Version)
    requires OffOlder(ms, target) && i < |ms|
    ensures OffOlder(ms[..i] + ms[i + 1..], target)
  {
    var rest := ms[..i] + ms[i + 1..];
    forall a, b | 0 <= a < |rest| && 0 <= b < |rest| && OffTarget(rest[a], target) && !OffTarget(rest[b], target)
      ensures rest[a].created < rest[b].created
    {
      assert rest[a] == ms[if a < i then a else a + 1];
      assert rest[b] == ms[if b < i then b else b + 1];
    }
  }

  lemma SameVersionsKeepOrder(s: seq<Machine>, t: seq<Machine>, target: Version)
    requires OffOlder(s, target) && |t| == |s|
    requires forall i :: 0 <= i < |s| ==> t[i].version == s[i].version && t[i].created == s[i].created
    ensures OffOlder(t, target)
  {
  }

  lemma AppendKeepsOrderIff(ms: seq<Machine>, m: Machine, target: Version)
    requires OffOlder(ms, target) && !OffTarget(m, target)
    ensures OffOlder(ms + [m], target) <==> !Behind(ms, target, m.created)
  {
    var t := ms + [m];
    if i :| 0 <= i < |ms| && OffTarget(ms[i], target) && m.created <= ms[i].created {
      assert t[i] == ms[i] && t[|ms|] == m;
    }
  }

  lemma EffectKeepsOrderIff(
    clock: Clock, spec: Spec, view: seq<Machine>, mid: seq<Machine>, api: Api, api': Api)
    requires Effect(clock, spec, view, mid, api, api') && OffOlder(api.machines, spec.version)
    requires mid == api.machines
    ensures OffOlder(api'.machines, spec.version) <==>
              |api'.born| == |api.born| || !Behind(api.machines, spec.version, clock(|api.born|))
  {
    if Creates(clock, spec, view, mid, api, api') {
      var refs :| && api'.machines == mid + [NewMachine(clock, api, spec.version, refs)]
                  && api'.born == api.born + [refs];
      AppendKeepsOrderIff(mid, NewMachine(clock, api, spec.version, refs), spec.version);
    } else {
      SameVersionsKeepOrder(api.machines, api'.machines, spec.version);
    }
  }

  /** Outside in-place upgrades a step keeps the off-target Machines older, under any clock, unless it creates a Machine
      in the second of an off-target one, and then it does not. */
  lemma StepKeepsOrderIff(clock: Clock, spec: Spec, api: Api, api': Api)
    requires WellFormed(clock, api) && FreshStep(clock, spec, api, api')
    requires OffOlder(api.machines, spec.version)
    requires RollsOver(spec, |api.machines|) || !AnyOff(api.machines, spec.version)
    ensures OffOlder(api'.machines, spec.version) <==>
              |api'.born| == |api.born| || !Behind(api.machines, spec.version, clock(|api.born|))
  {
    if JoinStep(api, api') {
      SameVersionsKeepOrder(api.machines, api'.machines, spec.version);
    } else if RemoveStep(api, api') {
      var i: nat :| Removes(api, i, api');
      FewerKeepOrder(api.machines, i, spec.version);
    } else {
      var view, mid := FreshPass(clock, spec, api, api');
      SameMembers(view, api.machines);
      ProbeIsExact(api.machines, spec.version);
      assert !UpgradesInPlace(spec, view);
      EffectKeepsOrderIff(clock, spec, view, mid, api, api');
    }
  }

  // ---- which Machine may be marked ---------------------------------------------------------

  /** Some pass on the current list marks the Machine at place k. */
  ghost predicate MayMark(clock: Clock, spec: Spec, api: Api, k: nat)
    requires k < |api.machines|
  {
    exists api' :: PassOn(clock, spec, api, api, api') && k < |api'.machines| && api'.machines[k].deleting
  }

  lemma MarkingPass(clock: Clock, spec: Spec, api: Api, k: nat)
    requires WellFormed(clock, api) && k < |api.machines|
    requires ScalesDown(spec, api.machines) && MayDelete(api.machines) && Oldest(api.machines[k], api.machines)
    ensures MayMark(clock, spec, api, k)
  {
    var view := SortWithVictim(api.machines, k);
    SortMayDelete(view, api.machines);
    var calls := Successful(api, 0, 0);
    var api' := MachinesPass(clock, spec, view, calls, api);
    var up := Upgrade(spec, view, calls, api);
    assert UpgradeFinishes(view, calls.upgrade);
    assert api' == MarkDeleting(up, api.machines[k].name);
    FreshUpgrade(clock, spec, view, calls, api);
    MarkHitsOne(clock, up, k);
    assert PassOn(clock, spec, api, api, api');
  }

  /** Under any clock a pass may mark a Machine exactly when scaling down is due, all Machines are settled, and no other
      is older. */
  lemma MayMarkIff(clock: Clock, spec: Spec, api: Api, k: nat)
    requires WellFormed(clock, api) && k < |api.machines| && Alive(api.machines[k])
    ensures MayMark(clock, spec, api, k) <==>
              && ScalesDown(spec, api.machines) && MayDelete(api.machines)
              && Oldest(api.machines[k], api.machines)
  {
    if MayMark(clock, spec, api, k) {
      var api' :| PassOn(clock, spec, api, api, api') && k < |api'.machines| && api'.machines[k].deleting;
      var view, mid := FreshPass(clock, spec, api, api');
      var i: nat :| MarksAt(spec, mid, api, api', i);
      assert i == k;
    } else if ScalesDown(spec, api.machines) && MayDelete(api.machines) && Oldest(api.machines[k], api.machines) {
      MarkingPass(clock, spec, api, k);
    }
  }

  /** With the off-target Machines first in the order of creation, some pass marks an on-target Machine while another is
      off target exactly when scaling down is due, all are settled, and an on-target Machine shares the second of the
      first one. */
  lemma MarksOnTargetIff(clock: Clock, spec: Spec, api: Api)
    requires WellFormed(clock, api) && Sorted(api.machines) && OldFirst(api.machines, spec.version)
    requires AnyOff(api.machines, spec.version) && forall i :: 0 <= i < |api.machines| ==> Alive(api.machines[i])
    ensures (exists k :: && 0 <= k < |api.machines| && !OffTarget(api.machines[k], spec.version)
                         && MayMark(clock, spec, api, k))
        <==> && ScalesDown(spec, api.machines) && MayDelete(api.machines)
             && exists k :: && 0 <= k < |api.machines| && !OffTarget(api.machines[k], spec.version)
                            && api.machines[k].created == api.machines[0].created
  {
    var ms := api.machines;
    forall k | 0 <= k < |ms|
      ensures MayMark(clock, spec, api, k) <==>
                ScalesDown(spec, ms) && MayDelete(ms) && ms[k].created == ms[0].created
    {
      MayMarkIff(clock, spec, api, k);
      assert Oldest(ms[k], ms) <==> ms[k].created == ms[0].created by {
        assert forall i :: 0 <= i < |ms| ==> ms[0].created <= ms[i].created;
      }
    }
  }

  /** While the off-target Machines are older than the others and there are some, no on-target Machine gets marked,
      in-place upgrades included. */
  lemma StepSparesOnTarget(clock: Clock, spec: Spec, api: Api, api': Api, i: nat)
    requires WellFormed(clock, api) && PassOn(clock, spec, api, api, api') && OffOlder(api.machines, spec.version)
    requires i < |api.machines| && Alive(api.machines[i])
    ensures i < |api'.machines| && api'.machines[i].name == api.machines[i].name
    ensures AnyOff(api.machines, spec.version) && !OffTarget(api.machines[i], spec.version) ==> Alive(api'.machines[i])
  {
    var view, mid := FreshPass(clock, spec, api, api');
    var ms := api.machines;
    if AnyOff(ms, spec.version) && !OffTarget(ms[i], spec.version) {
      var x :| 0 <= x < |ms| && OffTarget(ms[x], spec.version);
      assert !Oldest(ms[i], ms) by {
        assert ms[x].created < ms[i].created;
      }
    }
  }

  // ---- runs that retarget ------------------------------------------------------------------

  predicate Unseen(ms: seq<Machine>, version: Version) {
    forall i :: 0 <= i < |ms| ==>
      MajorMinor(ms[i].version).Some? && MajorMinor(ms[i].version) != MajorMinor(version)
  }

  /** Replicas and strategy change at will; the version stays, or becomes one that no Machine has. */
  ghost predicate RetargetStep(clock: Clock, specs: seq<Spec>, h: seq<Api>, k: nat)
    requires |h| == |specs| && k + 1 < |h|
  {
    && FreshStep(clock, specs[k], h[k], h[k + 1])
    && (specs[k + 1].version == specs[k].version || Unseen(h[k + 1].machines, specs[k + 1].version))
  }

  /** What is created is younger than the Machines that are off target then. */
  ghost predicate CreatesYounger(clock: Clock, specs: seq<Spec>, h: seq<Api>, k: nat)
    requires |h| == |specs| && k + 1 < |h|
  {
    |h[k + 1].born| > |h[k].born| ==> !Behind(h[k].machines, specs[k].version, clock(|h[k].born|))
  }

  ghost predicate IsRetargetingRun(clock: Clock, specs: seq<Spec>, h: seq<Api>) {
    && |h| == |specs| > 0 && WellFormed(clock, h[0]) && OffOlder(h[0].machines, specs[0].version)
    && (forall k :: 0 <= k < |h| ==>
          RollsOver(specs[k], |h[k].machines|) || !AnyOff(h[k].machines, specs[k].version))
    && (forall k :: 0 <= k < |h| - 1 ==> RetargetStep(clock, specs, h, k))
    && forall k :: 0 <= k < |h| - 1 ==> CreatesYounger(clock, specs, h, k)
  }

  lemma TickingCreatesYounger(clock: Clock, specs: seq<Spec>, h: seq<Api>, k: nat)
    requires Ticking(clock) && |h| == |specs| && k + 1 < |h| && WellFormed(clock, h[k])
    ensures CreatesYounger(clock, specs, h, k)
  {
    TickingIsBeyond(clock, h[k], specs[k].version);
  }

  lemma RetargetKeepsOrder(clock: Clock, specs: seq<Spec>, h: seq<Api>, k: nat)
    requires IsRetargetingRun(clock, specs, h) && k + 1 < |h|
    requires WellFormed(clock, h[k]) && OffOlder(h[k].machines, specs[k].version)
    ensures WellFormed(clock, h[k + 1]) && OffOlder(h[k + 1].machines, specs[k + 1].version)
  {
    assert RetargetStep(clock, specs, h, k) && CreatesYounger(clock, specs, h, k);
    StepKeepsWellFormed(clock, specs[k], h[k], h[k + 1]);
    StepBorn(clock, specs[k], h[k], h[k + 1]);
    StepKeepsOrderIff(clock, specs[k], h[k], h[k + 1]);
  }

  lemma {:induction false} RetargetingKeepsOrder(clock: Clock, specs: seq<Spec>, h: seq<Api>, k: nat)
    requires IsRetargetingRun(clock, specs, h) && k < |h|
    ensures WellFormed(clock, h[k]) && OffOlder(h[k].machines, specs[k].version)
  {
    if k == 0 {
    } else {
      RetargetingKeepsOrder(clock, specs, h, k - 1);
      RetargetKeepsOrder(clock, specs, h, k - 1);
    }
  }

  /** Upgrading again in the middle of an upgrade keeps the probe exact throughout. */
  lemma RetargetingKeepsProbeExact(clock: Clock, specs: seq<Spec>, h: seq<Api>, k: nat)
    requires IsRetargetingRun(clock, specs, h) && k < |h|
    ensures WellFormed(clock, h[k]) && OffOlder(h[k].machines, specs[k].version)
    ensures ProbeTells(h[k].machines, specs[k].version)
  {
    RetargetingKeepsOrder(clock, specs, h, k);
    ProbeIsExact(h[k].machines, specs[k].version);
  }

  // ---- at rest -----------------------------------------------------------------------------

  /** The same Machines, but for nodes that have appeared. */
  predicate SameFleet(s: seq<Machine>, t: seq<Machine>) {
    |s| == |t| && forall i :: 0 <= i < |s| ==> t[i] == s[i].(nodeRef := t[i].nodeRef)
  }

  predicate OldestAreOn(ms: seq<Machine>, target: Version) {
    forall i :: 0 <= i < |ms| && Oldest(ms[i], ms) ==> !OffTarget(ms[i], target)
  }

  /** As many Machines as desired, none being deleted, and whichever the probe looks at, no upgrade due. */
  predicate AtRest(spec: Spec, ms: seq<Machine>) {
    |ms| == spec.replicas && OldestAreOn(ms, spec.version) && forall i :: 0 <= i < |ms| ==> Alive(ms[i])
  }

  lemma NoneIsDue(spec: Spec, view: seq<Machine>, ms: seq<Machine>)
    requires IsSortOf(view, ms) && OldestAreOn(ms, spec.version)
    ensures |view| == |ms| && !UpgradeDue(spec, view)
  {
    SameMembers(view, ms);
    if |ms| > 0 {
      HeadIsOldest(view, ms);
      var k := PlaceOf(ms, view[0]);
    }
  }

  /** With the desired count and no upgrade due, a pass changes nothing. */
  lemma IdlePass(clock: Clock, spec: Spec, api: Api, api': Api)
    requires WellFormed(clock, api) && PassOn(clock, spec, api, api, api')
    requires |api.machines| == spec.replicas && OldestAreOn(api.machines, spec.version)
    ensures api'.machines == api.machines
  {
    var view, mid := FreshPass(clock, spec, api, api');
    NoneIsDue(spec, view, api.machines);
  }

  lemma SameFleetRests(spec: Spec, s: seq<Machine>, t: seq<Machine>)
    requires AtRest(spec, s) && SameFleet(s, t)
    ensures AtRest(spec, t)
  {
    forall i | 0 <= i < |t| && Oldest(t[i], t)
      ensures !OffTarget(t[i], spec.version)
    {
      assert forall j :: 0 <= j < |s| ==> t[i].created <= t[j].created;
      assert Oldest(s[i], s);
    }
  }

  lemma RestStep(clock: Clock, spec: Spec, api: Api, api': Api)
    requires WellFormed(clock, api) && FreshStep(clock, spec, api, api') && AtRest(spec, api.machines)
    ensures AtRest(spec, api'.machines) && SameFleet(api.machines, api'.machines)
  {
    if PassOn(clock, spec, api, api, api') {
      IdlePass(clock, spec, api, api');
    }
    SameFleetRests(spec, api.machines, api'.machines);
  }

  lemma RestRunStep(clock: Clock, spec: Spec, h: seq<Api>, k: nat)
    requires IsFreshRun(clock, spec, h) && k + 1 < |h| && AtRest(spec, h[k].machines)
    ensures AtRest(spec, h[k + 1].machines) && SameFleet(h[k].machines, h[k + 1].machines)
  {
    RunKeepsWellFormed(clock, spec, h, k);
    assert FreshStepAt(clock, spec, h, k);
    RestStep(clock, spec, h[k], h[k + 1]);
  }

  lemma SameFleetTwice(s: seq<Machine>, t: seq<Machine>, u: seq<Machine>)
    requires SameFleet(s, t) && SameFleet(t, u)
    ensures SameFleet(s, u)
  {
  }

  lemma SameFleetSameVersions(s: seq<Machine>, t: seq<Machine>, target: Version)
    requires SameFleet(s, t)
    ensures AnyOff(t, target) <==> AnyOff(s, target)
  {
    assert forall i :: 0 <= i < |s| ==> t[i].version == s[i].version;
  }

  /** From there no run changes a Machine any more, under any clock, off target or not. */
  lemma {:induction false} RestIsFinal(clock: Clock, spec: Spec, h: seq<Api>, k: nat)
    requires IsFreshRun(clock, spec, h) && k < |h| && AtRest(spec, h[0].machines)
    ensures AtRest(spec, h[k].machines) && SameFleet(h[0].machines, h[k].machines)
    ensures AnyOff(h[k].machines, spec.version) <==> AnyOff(h[0].machines, spec.version)
  {
    if k == 0 {
    } else {
      RestIsFinal(clock, spec, h, k - 1);
      RestRunStep(clock, spec, h, k - 1);
      SameFleetTwice(h[0].machines, h[k - 1].machines, h[k].machines);
    }
    SameFleetSameVersions(h[0].machines, h[k].machines, spec.version);
  }

  // ---- reverting ---------------------------------------------------------------------------

  /** Halfway through an upgrade the user goes back to the version the oldest Machines still have. The order is lost,
      and with the desired count no pass ever touches the Machines that were already upgraded. */
  lemma RevertStalls(clock: Clock, before: Version, after: Version, spec: Spec, api: Api)
    requires WellFormed(clock, api) && |api.machines| == spec.replicas && spec.version == before
    requires OffOlder(api.machines, after) && AnyOff(api.machines, after) && MajorMinor(after).Some?
    requires exists i :: 0 <= i < |api.machines| && api.machines[i].version == after
    requires forall i :: 0 <= i < |api.machines| && Oldest(api.machines[i], api.machines) ==>
               api.machines[i].version == before
    ensures !OffOlder(api.machines, spec.version) && AnyOff(api.machines, spec.version)
    ensures forall api' :: PassOn(clock, spec, api, api, api') ==> api'.machines == api.machines
  {
    var ms := api.machines;
    var i :| 0 <= i < |ms| && ms[i].version == after;
    var view := SortExists(ms);
    SameMembers(view, ms);
    HeadIsOldest(view, ms);
    var k := PlaceOf(ms, view[0]);
    ProbeIsExact(ms, after);
    assert OffTarget(ms[k], after) && !OffTarget(ms[k], before) && OffTarget(ms[i], before);
    assert ms[k].created <= ms[i].created;
    forall api' | PassOn(clock, spec, api, api, api')
      ensures api'.machines == ms
    {
      IdlePass(clock, spec, api, api');
    }
  }
}
