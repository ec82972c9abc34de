/** The in-place pass: complete, or stopped part way. */
module InPlace {
  import opened Types
  import opened CreationOrder
  import opened Scaling
  import opened Ties
  import opened FreshRuns
  import opened FixedPoints
  import opened VersionOrder

  // ---- what a pass writes, whatever its turns come to --------------------------------------

  /** Turn j is made: no earlier one ended the pass. */
  predicate Reached(view: seq<Machine>, upgrade: Name -> NodeUpgrade, j: nat) {
    j < |view| && forall i :: 0 <= i < j ==> Completes(view[i], upgrade(view[i].name))
  }

  /** Turn j is made and writes the Machine of this name. */
  predicate WritesAt(view: seq<Machine>, upgrade: Name -> NodeUpgrade, j: nat, name: Name) {
    && Reached(view, upgrade, j)
    && var u := upgrade(view[j].name);
       !Stops(view[j], u) && u.update.Landed() && u.annotated == name
  }

  predicate Written(view: seq<Machine>, upgrade: Name -> NodeUpgrade, name: Name) {
    exists j :: 0 <= j < |view| && WritesAt(view, upgrade, j, name)
  }

  lemma WritesLater(view: seq<Machine>, upgrade: Name -> NodeUpgrade, name: Name)
    requires |view| > 0 && Completes(view[0], upgrade(view[0].name))
    ensures Written(view, upgrade, name) <==> WritesAt(view, upgrade, 0, name) || Written(view[1..], upgrade, name)
  {
    assert forall i :: 0 <= i < |view| - 1 ==> view[1..][i] == view[i + 1];
    if j :| 0 <= j < |view| - 1 && WritesAt(view[1..], upgrade, j, name) {
      forall i | 0 <= i < j + 1
        ensures Completes(view[i], upgrade(view[i].name))
      {
        if i > 0 {
          assert Completes(view[1..][i - 1], upgrade(view[1..][i - 1].name));
        }
      }
      assert WritesAt(view, upgrade, j + 1, name);
    }
    if j :| 0 < j < |view| && WritesAt(view, upgrade, j, name) {
      assert WritesAt(view[1..], upgrade, j - 1, name);
    }
  }

  lemma {:induction false} UpgradedNamesIff(view: seq<Machine>, upgrade: Name -> NodeUpgrade, name: Name)
    ensures name in UpgradedNames(view, upgrade) <==> Written(view, upgrade, name)
  {
    if |view| == 0 {
    } else if Completes(view[0], upgrade(view[0].name)) {
      WritesLater(view, upgrade, name);
      UpgradedNamesIff(view[1..], upgrade, name);
    } else if WritesAt(view, upgrade, 0, name) {
    }
  }

  /** The Machines with those written by the turns of `view` at the target. */
  function WithWrites(ms: seq<Machine>, target: Version, view: seq<Machine>, upgrade: Name -> NodeUpgrade)
    : (r: seq<Machine>)
    ensures |r| == |ms|
  {
    seq(|ms|, i requires 0 <= i < |ms| =>
      if Written(view, upgrade, ms[i].name) then ms[i].(version := target) else ms[i])
  }

  /** Exactly the Machines that some turn writes are put at the target, in whatever order the turns are made; the switch
      is reached exactly if no turn ended the pass. */
  lemma TurnsWrite(spec: Spec, view: seq<Machine>, calls: Calls, api: Api)
    requires UpgradesInPlace(spec, view) && calls.upgradeClient
    ensures Upgrade(spec, view, calls, api)
         == api.(machines := WithWrites(api.machines, spec.version, view, calls.upgrade))
    ensures ReachesSwitch(spec, view, calls) <==>
              forall i :: 0 <= i < |view| ==> Completes(view[i], calls.upgrade(view[i].name))
  {
    var ms := api.machines;
    forall i | 0 <= i < |ms|
      ensures ms[i].name in UpgradedNames(view, calls.upgrade) <==> Written(view, calls.upgrade, ms[i].name)
    {
      UpgradedNamesIff(view, calls.upgrade, ms[i].name);
    }
    assert Upgrade(spec, view, calls, api).machines == WithWrites(ms, spec.version, view, calls.upgrade);
  }

  /** A pass ended by a turn, or at the desired count, does nothing but write those versions. */
  lemma PartialUpgrade(clock: Clock, spec: Spec, view: seq<Machine>, calls: Calls, api: Api)
    requires UpgradesInPlace(spec, view) && calls.upgradeClient
    requires |view| == spec.replicas || exists i :: 0 <= i < |view| && !Completes(view[i], calls.upgrade(view[i].name))
    ensures MachinesPass(clock, spec, view, calls, api)
         == api.(machines := WithWrites(api.machines, spec.version, view, calls.upgrade))
  {
    TurnsWrite(spec, view, calls, api);
  }

  // ---- whether the upgrade is taken up again -----------------------------------------------

  /** Off target, and not written by the pass. */
  predicate Missed(ms: seq<Machine>, target: Version, view: seq<Machine>, upgrade: Name -> NodeUpgrade, i: nat)
    requires i < |ms|
  {
    OffTarget(ms[i], target) && !Written(view, upgrade, ms[i].name)
  }

  /** The list after the pass: as before, but for versions and marks, and perhaps one more. */
  lemma PassLists(clock: Clock, spec: Spec, view: seq<Machine>, calls: Calls, api: Api)
    requires UpgradesInPlace(spec, view) && calls.upgradeClient && |view| == |api.machines|
    ensures
      var ms, ms' := api.machines, MachinesPass(clock, spec, view, calls, api).machines;
      && |ms| <= |ms'|
      && (forall i :: 0 <= i < |ms| ==>
            && ms'[i].created == ms[i].created
            && (OffTarget(ms'[i], spec.version) <==> Missed(ms, spec.version, view, calls.upgrade, i)))
      && forall i :: |ms| <= i < |ms'| ==> !OffTarget(ms'[i], spec.version)
  {
    TurnsWrite(spec, view, calls, api);
    var upgraded := Upgrade(spec, view, calls, api);
    var up := upgraded.machines;
    assert forall i :: 0 <= i < |up| ==>
             && up[i].created == api.machines[i].created
             && (OffTarget(up[i], spec.version) <==> Missed(api.machines, spec.version, view, calls.upgrade, i));
    ResizeLists(clock, spec, view, calls, upgraded);
  }

  lemma ResizeLists(clock: Clock, spec: Spec, view: seq<Machine>, calls: Calls, api: Api)
    ensures
      var ms, ms' := api.machines, Resize(clock, spec, view, calls, api).machines;
      && |ms| <= |ms'|
      && (forall i :: 0 <= i < |ms| ==> ms'[i].created == ms[i].created && ms'[i].version == ms[i].version)
      && forall i :: |ms| <= i < |ms'| ==> ms'[i].version == spec.version
  {
  }

  /** Whatever the turns come to, however many Machines there are and whatever seconds they share: the next pass may
      find an upgrade due exactly if this one missed a Machine than which none listed now is older. */
  lemma MayResumeIff(clock: Clock, spec: Spec, view: seq<Machine>, calls: Calls, api: Api)
    requires UpgradesInPlace(spec, view) && calls.upgradeClient && IsSortOf(view, api.machines)
    ensures
      var ms, ms' := api.machines, MachinesPass(clock, spec, view, calls, api).machines;
      (exists next :: IsSortOf(next, ms') && UpgradeDue(spec, next)) <==>
      (exists i: nat :: i < |ms| && Missed(ms, spec.version, view, calls.upgrade, i) && Oldest(ms[i], ms'))
  {
    SameMembers(view, api.machines);
    PassLists(clock, spec, view, calls, api);
    var ms, ms' := api.machines, MachinesPass(clock, spec, view, calls, api).machines;
    if next :| IsSortOf(next, ms') && UpgradeDue(spec, next) {
      SameMembers(next, ms');
      HeadIsOldest(next, ms');
      var k := PlaceOf(ms', next[0]);
      assert Missed(ms, spec.version, view, calls.upgrade, k) && Oldest(ms[k], ms');
    }
    if i: nat :| i < |ms| && Missed(ms, spec.version, view, calls.upgrade, i) && Oldest(ms[i], ms') {
      assert Oldest(ms'[i], ms');
      var next := SortWithHead(ms', i);
      SameMembers(next, ms');
    }
  }

  /** The nodes that can be looked up are annotated with their own Machines. */
  predicate OwnAnnotations(view: seq<Machine>, upgrade: Name -> NodeUpgrade) {
    forall i :: 0 <= i < |view| ==> upgrade(view[i].name).Found? ==> upgrade(view[i].name).annotated == view[i].name
  }

  lemma OwnWrites(clock: Clock, api: Api, view: seq<Machine>, upgrade: Name -> NodeUpgrade, i: nat)
    requires WellFormed(clock, api) && view == api.machines && OwnAnnotations(view, upgrade) && i < |view|
    ensures Written(view, upgrade, view[i].name) <==> WritesAt(view, upgrade, i, view[i].name)
  {
    if j :| 0 <= j < |view| && WritesAt(view, upgrade, j, view[i].name) {
      assert view[j].name == view[i].name;
      assert j == i;
    }
  }

  /** Without shared seconds: the next pass finds an upgrade due if and only if this one has not written the oldest
      Machine. With nodes annotated with their own Machines that is so exactly if its node could not be looked up or its
      version write failed; a later Machine's failure is never retried. */
  lemma PartialUpgradeResumesIff(clock: Clock, spec: Spec, view: seq<Machine>, calls: Calls, api: Api)
    requires Ticking(clock) && WellFormed(clock, api) && IsSortOf(view, api.machines)
    requires UpgradesInPlace(spec, view) && calls.upgradeClient
    ensures UpgradeDue(spec, MachinesPass(clock, spec, view, calls, api).machines) <==>
              !Written(view, calls.upgrade, view[0].name)
    ensures OwnAnnotations(view, calls.upgrade) ==>
              var u := calls.upgrade(view[0].name);
              Written(view, calls.upgrade, view[0].name) <==> !Stops(view[0], u) && u.update.Landed()
  {
    FreshView(clock, api, view);
    PassLists(clock, spec, view, calls, api);
    assert Missed(view, spec.version, view, calls.upgrade, 0) <==> !Written(view, calls.upgrade, view[0].name);
    if OwnAnnotations(view, calls.upgrade) {
      OwnWrites(clock, api, view, calls.upgrade, 0);
    }
  }

  /** What the pass misses is older than what it writes. */
  predicate MissesOlder(ms: seq<Machine>, target: Version, view: seq<Machine>, upgrade: Name -> NodeUpgrade) {
    forall i, j :: 0 <= i < |ms| && 0 <= j < |ms| && Missed(ms, target, view, upgrade, i) ==>
      OffTarget(ms[j], target) && Written(view, upgrade, ms[j].name) ==> ms[i].created < ms[j].created
  }

  /** A pass keeps the off-target Machines older than the others exactly when those it misses are older than those it
      writes: this is where the version probe stops telling the truth. */
  lemma UpgradeKeepsOrderIff(spec: Spec, view: seq<Machine>, calls: Calls, api: Api)
    requires OffOlder(api.machines, spec.version) && UpgradesInPlace(spec, view) && calls.upgradeClient
    ensures OffOlder(Upgrade(spec, view, calls, api).machines, spec.version) <==>
              MissesOlder(api.machines, spec.version, view, calls.upgrade)
  {
    TurnsWrite(spec, view, calls, api);
    WritesKeepOrderIff(api.machines, spec.version, view, calls.upgrade);
  }

  lemma WritesKeepOrderIff(ms: seq<Machine>, target: Version, view: seq<Machine>, upgrade: Name -> NodeUpgrade)
    requires OffOlder(ms, target)
    ensures OffOlder(WithWrites(ms, target, view, upgrade), target) <==> MissesOlder(ms, target, view, upgrade)
  {
    var t := WithWrites(ms, target, view, upgrade);
    assert forall i :: 0 <= i < |ms| ==>
             t[i].created == ms[i].created && (OffTarget(t[i], target) <==> Missed(ms, target, view, upgrade, i));
    if OffOlder(t, target) {
      forall i, j | 0 <= i < |ms| && 0 <= j < |ms| && Missed(ms, target, view, upgrade, i)
                    && OffTarget(ms[j], target) && Written(view, upgrade, ms[j].name)
        ensures ms[i].created < ms[j].created
      {
        assert OffTarget(t[i], target) && !OffTarget(t[j], target);
      }
    }
  }

  // ---- left behind -------------------------------------------------------------------------

  /** Each oldest Machine is on target once the pass is through. */
  predicate OldestAreDone(ms: seq<Machine>, target: Version, view: seq<Machine>, upgrade: Name -> NodeUpgrade) {
    forall j: nat :: j < |ms| && Oldest(ms[j], ms) ==> !Missed(ms, target, view, upgrade, j)
  }

  lemma LeftBehind(
    spec: Spec, ms: seq<Machine>, view: seq<Machine>, upgrade: Name -> NodeUpgrade, i: nat)
    requires OldestAreDone(ms, spec.version, view, upgrade)
    requires i < |ms| && Missed(ms, spec.version, view, upgrade, i)
    ensures
      var t := WithWrites(ms, spec.version, view, upgrade);
      && OldestAreOn(t, spec.version) && AnyOff(t, spec.version)
      && (Count(ms, Marked) == 0 && |ms| == spec.replicas ==> AtRest(spec, t))
  {
    var t := WithWrites(ms, spec.version, view, upgrade);
    assert t[i] == ms[i];
    CountZero(ms, Marked);
    assert forall j :: 0 <= j < |ms| ==> (Marked(ms[j]) <==> !Alive(t[j])) && t[j].created == ms[j].created;
    forall j | 0 <= j < |t| && Oldest(t[j], t)
      ensures !OffTarget(t[j], spec.version)
    {
      assert forall x :: 0 <= x < |ms| ==> t[j].created <= t[x].created;
      assert Oldest(ms[j], ms);
      assert !Missed(ms, spec.version, view, upgrade, j);
    }
  }

  lemma WritesKeepWellFormed(
    clock: Clock, api: Api, target: Version, view: seq<Machine>, upgrade: Name -> NodeUpgrade)
    requires WellFormed(clock, api)
    ensures WellFormed(clock, api.(machines := WithWrites(api.machines, target, view, upgrade)))
  {
  }

  /** With the desired count, once each oldest Machine is on target and another is left off target, the next pass at
      that target changes nothing. */
  lemma PartialUpgradeIsAbandoned(
    clock: Clock, spec: Spec, view: seq<Machine>, calls: Calls, api: Api, i: nat)
    requires WellFormed(clock, api) && IsSortOf(view, api.machines) && |view| == spec.replicas
    requires UpgradesInPlace(spec, view) && calls.upgradeClient
    requires OldestAreDone(api.machines, spec.version, view, calls.upgrade)
    requires i < |api.machines| && Missed(api.machines, spec.version, view, calls.upgrade, i)
    ensures
      var api' := MachinesPass(clock, spec, view, calls, api);
      && AnyOff(api'.machines, spec.version)
      && forall next :: PassOn(clock, spec, api', api', next) ==> next.machines == api'.machines
  {
    SameMembers(view, api.machines);
    PartialUpgrade(clock, spec, view, calls, api);
    LeftBehind(spec, api.machines, view, calls.upgrade, i);
    WritesKeepWellFormed(clock, api, spec.version, view, calls.upgrade);
    var api' := MachinesPass(clock, spec, view, calls, api);
    forall next | PassOn(clock, spec, api', api', next)
      ensures next.machines == api'.machines
    {
      IdlePass(clock, spec, api', next);
    }
  }

  /** And with nothing being deleted, no run of passes at that target ever changes a Machine again. */
  lemma UpgradeIsAbandoned(
    clock: Clock, spec: Spec, view: seq<Machine>, calls: Calls, api: Api, h: seq<Api>, k: nat, i: nat)
    requires WellFormed(clock, api) && IsSortOf(view, api.machines) && |view| == spec.replicas
    requires UpgradesInPlace(spec, view) && calls.upgradeClient && Count(api.machines, Marked) == 0
    requires OldestAreDone(api.machines, spec.version, view, calls.upgrade)
    requires i < |api.machines| && Missed(api.machines, spec.version, view, calls.upgrade, i)
    requires IsFreshRun(clock, spec, h) && h[0] == MachinesPass(clock, spec, view, calls, api) && k < |h|
    ensures SameFleet(h[0].machines, h[k].machines) && AnyOff(h[k].machines, spec.version)
  {
    SameMembers(view, api.machines);
    PartialUpgrade(clock, spec, view, calls, api);
    LeftBehind(spec, api.machines, view, calls.upgrade, i);
    RestIsFinal(clock, spec, h, k);
  }

  function OffTargetMachine(clock: Clock, n: nat): Machine {
    Machine(n, clock(n), Semver(1, 25, ".0"), Refs(n, n), false, Some(n), [], None)
  }

  lemma SecondIsLeft(clock: Clock, spec: Spec, ms: seq<Machine>, calls: Calls, api: Api)
    requires api.machines == ms && |ms| == 2 == spec.replicas && ms[0].created < ms[1].created
    requires Alive(ms[0]) && Alive(ms[1]) && OffTarget(ms[1], spec.version)
    requires UpgradesInPlace(spec, ms) && calls.upgradeClient
    requires Written(ms, calls.upgrade, ms[0].name) && !Written(ms, calls.upgrade, ms[1].name)
    ensures
      var next := MachinesPass(clock, spec, ms, calls, api);
      AtRest(spec, next.machines) && AnyOff(next.machines, spec.version)
  {
    PartialUpgrade(clock, spec, ms, calls, api);
    CountZero(ms, Marked);
    LeftBehind(spec, ms, ms, calls.upgrade, 1);
  }

  /** Two Machines of which only the second's version write fails. The loop logs that it will retry; it does not. */
  lemma FailedWriteIsNotRetried(clock: Clock) returns (spec: Spec, api: Api, calls: Calls)
    requires Ticking(clock)
    ensures WellFormed(clock, api) && IsSortOf(api.machines, api.machines) && |api.machines| == 2 == spec.replicas
    ensures UpgradesInPlace(spec, api.machines) && OwnAnnotations(api.machines, calls.upgrade)
    ensures UpgradeFinishes(api.machines, calls.upgrade)
    ensures
      var next := MachinesPass(clock, spec, api.machines, calls, api);
      AtRest(spec, next.machines) && AnyOff(next.machines, spec.version)
  {
    spec := Spec(2, Semver(1, 26, ".0"), InPlaceUpgrade);
    var ms := [OffTargetMachine(clock, 0), OffTargetMachine(clock, 1)];
    api := Api(ms, [Refs(0, 0), Refs(1, 1)], [0, 1], [0, 1]);
    var upgrade := (name: Name) => Found(name, if name == 0 then Done else Failed, true);
    calls := Calls(true, upgrade, BootCalls(Failed, 0, Failed, 0, Failed), false, Failed);
    WellFormedSorts(clock, api);
    assert WritesAt(ms, upgrade, 0, ms[0].name);
    OwnWrites(clock, api, ms, upgrade, 1);
    SecondIsLeft(clock, spec, ms, calls, api);
  }

  // ---- turns that succeed up to the k-th ---------------------------------------------------

  predicate AllOff(ms: seq<Machine>, target: Version) {
    forall i :: 0 <= i < |ms| ==> OffTarget(ms[i], target)
  }

  /** The first `k` turns find the node of their own Machine and write it. */
  predicate WorksUpTo(view: seq<Machine>, upgrade: Name -> NodeUpgrade, k: nat)
    requires k <= |view|
  {
    forall i :: 0 <= i < k ==>
      view[i].nodeRef.Some? && upgrade(view[i].name) == Found(view[i].name, Done, true)
  }

  /** Turn k ends the pass, or there is no turn k. */
  predicate StopsAt(view: seq<Machine>, upgrade: Name -> NodeUpgrade, k: nat)
    requires k <= |view|
  {
    WorksUpTo(view, upgrade, k) && (k < |view| ==> Stops(view[k], upgrade(view[k].name)))
  }

  lemma {:induction false} WrittenNames(view: seq<Machine>, upgrade: Name -> NodeUpgrade, k: nat)
    requires k <= |view| && StopsAt(view, upgrade, k)
    ensures |UpgradedNames(view, upgrade)| == k
    ensures forall i :: 0 <= i < k ==> UpgradedNames(view, upgrade)[i] == view[i].name
  {
    if k == 0 {
    } else {
      var u := upgrade(view[0].name);
      assert u == Found(view[0].name, Done, true);
      assert StopsAt(view[1..], upgrade, k - 1);
      WrittenNames(view[1..], upgrade, k - 1);
    }
  }

  /** The first k Machines at the target, the others as they were. */
  function UpgradedUpTo(ms: seq<Machine>, target: Version, k: nat): seq<Machine> {
    seq(|ms|, i requires 0 <= i < |ms| => if i < k then ms[i].(version := target) else ms[i])
  }

  lemma StoppedUpgrade(clock: Clock, spec: Spec, view: seq<Machine>, calls: Calls, api: Api, k: nat)
    requires Ticking(clock) && WellFormed(clock, api) && IsSortOf(view, api.machines)
    requires UpgradesInPlace(spec, view) && calls.upgradeClient
    requires k <= |view| && StopsAt(view, calls.upgrade, k)
    ensures Upgrade(spec, view, calls, api) == api.(machines := UpgradedUpTo(api.machines, spec.version, k))
    ensures ReachesSwitch(spec, view, calls) <==> k == |view|
  {
    FreshView(clock, api, view);
    WrittenNames(view, calls.upgrade, k);
    var names := UpgradedNames(view, calls.upgrade);
    forall i | 0 <= i < |view|
      ensures view[i].name in names <==> i < k
    {
      if i < k {
        assert names[i] == view[i].name;
      }
    }
    assert Upgrade(spec, view, calls, api).machines == UpgradedUpTo(api.machines, spec.version, k);
    if k < |view| {
      assert !Completes(view[k], calls.upgrade(view[k].name));
    } else {
      forall i | 0 <= i < |view|
        ensures Completes(view[i], calls.upgrade(view[i].name))
      {
      }
    }
  }

  lemma WorkedTurns(view: seq<Machine>, upgrade: Name -> NodeUpgrade, k: nat, name: Name)
    requires k <= |view| && StopsAt(view, upgrade, k)
    ensures Written(view, upgrade, name) <==> exists j :: 0 <= j < k && view[j].name == name
  {
    WrittenNames(view, upgrade, k);
    UpgradedNamesIff(view, upgrade, name);
    var names := UpgradedNames(view, upgrade);
    assert name in names <==> exists j :: 0 <= j < k && names[j] == name;
    if j :| 0 <= j < k && view[j].name == name {
      assert names[j] == name;
    }
  }

  /** A complete pass, in whatever order the sort puts Machines that share a second, brings every Machine to the target
      and changes nothing else. */
  lemma FullUpgrade(clock: Clock, spec: Spec, view: seq<Machine>, calls: Calls, api: Api)
    requires IsSortOf(view, api.machines) && |view| == spec.replicas
    requires UpgradesInPlace(spec, view) && calls.upgradeClient && WorksUpTo(view, calls.upgrade, |view|)
    ensures
      var api' := MachinesPass(clock, spec, view, calls, api);
      && |api'.machines| == |api.machines| && api' == api.(machines := api'.machines)
      && forall i :: 0 <= i < |api.machines| ==> api'.machines[i] == api.machines[i].(version := spec.version)
  {
    var ms := api.machines;
    SameMembers(view, ms);
    PartialUpgrade(clock, spec, view, calls, api);
    forall i | 0 <= i < |ms|
      ensures Written(view, calls.upgrade, ms[i].name)
    {
      assert ms[i] in view;
      var j := PlaceOf(view, ms[i]);
      WorkedTurns(view, calls.upgrade, |view|, ms[i].name);
    }
  }

  /** A pass whose k-th node lookup fails writes exactly Machines 0..k-1 of its list and ends there. */
  lemma FailedLookup(clock: Clock, spec: Spec, view: seq<Machine>, calls: Calls, api: Api, k: nat)
    requires WellFormed(clock, api) && IsSortOf(view, api.machines)
    requires UpgradesInPlace(spec, view) && calls.upgradeClient
    requires k < |view| && StopsAt(view, calls.upgrade, k)
    ensures
      var api' := MachinesPass(clock, spec, view, calls, api);
      && |api'.machines| == |api.machines| && api' == api.(machines := api'.machines)
      && forall i :: 0 <= i < |api.machines| ==>
           api'.machines[i]
           == if api.machines[i] in view[..k] then api.machines[i].(version := spec.version) else api.machines[i]
  {
    var ms := api.machines;
    SameMembers(view, ms);
    assert !Completes(view[k], calls.upgrade(view[k].name));
    PartialUpgrade(clock, spec, view, calls, api);
    forall i | 0 <= i < |ms|
      ensures Written(view, calls.upgrade, ms[i].name) <==> ms[i] in view[..k]
    {
      WorkedTurns(view, calls.upgrade, k, ms[i].name);
      if ms[i] in view[..k] {
        var j := PlaceOf(view[..k], ms[i]);
        assert view[j].name == ms[i].name;
      }
      if j :| 0 <= j < k && view[j].name == ms[i].name {
        assert view[j] in ms;
        var x := PlaceOf(ms, view[j]);
        assert view[..k][j] == ms[i];
      }
    }
  }

  /** If all Machines began off target, the next pass takes the upgrade up again exactly when nothing had been
      written: once the oldest Machine is at the target, the others are left behind. */
  lemma FailedLookupResumesIff(clock: Clock, spec: Spec, view: seq<Machine>, calls: Calls, api: Api, k: nat)
    requires Ticking(clock) && WellFormed(clock, api) && IsSortOf(view, api.machines)
    requires UpgradesInPlace(spec, view) && calls.upgradeClient && AllOff(view, spec.version)
    requires k < |view| && StopsAt(view, calls.upgrade, k)
    ensures
      var api' := MachinesPass(clock, spec, view, calls, api);
      && WellFormed(clock, api') && AnyOff(api'.machines, spec.version)
      && (UpgradesInPlace(spec, api'.machines) <==> k == 0)
  {
    FreshView(clock, api, view);
    StoppedUpgrade(clock, spec, view, calls, api, k);
    var api' := MachinesPass(clock, spec, view, calls, api);
    assert OffTarget(view[k], spec.version) && api'.machines[k] == view[k];
  }

  lemma PartWrittenOrder(ms: seq<Machine>, target: Version, k: nat)
    requires OldFirst(ms, target) && k <= |ms|
    ensures OldFirst(UpgradedUpTo(ms, target, k), target) <==> k == 0 || k == |ms| || !OffTarget(ms[k], target)
  {
    var t := UpgradedUpTo(ms, target, k);
    if 0 < k < |ms| && OffTarget(ms[k], target) {
      assert !OffTarget(t[0], target) && OffTarget(t[k], target);
    } else {
      forall i, j | 0 <= i < j < |t| && OffTarget(t[j], target)
        ensures OffTarget(t[i], target)
      {
        assert k <= j && OffTarget(ms[j], target);
      }
    }
  }

  /** A stopped upgrade keeps the off-target Machines first exactly when it wrote nothing or left none off target
      behind: this is where the version probe stops telling the truth. */
  lemma StoppedUpgradeKeepsOrderIff(clock: Clock, spec: Spec, view: seq<Machine>, calls: Calls, api: Api, k: nat)
    requires Ticking(clock) && WellFormed(clock, api) && IsSortOf(view, api.machines) && OldFirst(view, spec.version)
    requires UpgradesInPlace(spec, view) && calls.upgradeClient
    requires k <= |view| && StopsAt(view, calls.upgrade, k)
    ensures OldFirst(Upgrade(spec, view, calls, api).machines, spec.version) <==>
              k == 0 || k == |view| || !OffTarget(view[k], spec.version)
  {
    FreshView(clock, api, view);
    StoppedUpgrade(clock, spec, view, calls, api, k);
    PartWrittenOrder(view, spec.version, k);
  }
}
