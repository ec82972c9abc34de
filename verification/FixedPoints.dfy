/** When a pass on a fresh list changes nothing, and how far the list can grow or shrink. */
module FixedPoints {
  import opened Types
  import opened CreationOrder
  import opened Scaling
  import opened StaleRuns
  import opened Ties
  import opened FreshRuns

  /** Every call succeeds, generated names are new, and each node is annotated with its own Machine. */
  predicate AllSucceed(api: Api, calls: Calls) {
    && calls.upgradeClient && calls.scaleClient && calls.delete.Done?
    && InfraReported(api, calls.boot) && ConfigReported(api, calls.boot) && calls.boot.machine.Done?
    && forall i :: 0 <= i < |api.machines| ==>
         var name := api.machines[i].name;
         calls.upgrade(name) == Found(name, Done, true)
  }

  predicate Busy(m: Machine) {
    m.deleting || m.nodeRef.None?
  }

  /** With the list sorted as `view`. */
  predicate Idle(spec: Spec, view: seq<Machine>) {
    var n := |view|;
    if UpgradesInPlace(spec, view) then
      view[0].nodeRef.None?  // the node name of the first Machine is dereferenced: the pass panics
    else
      || (n == spec.replicas && !UpgradeDue(spec, view))
      || spec.replicas < n <= 3
      || (spec.replicas < n && exists i :: 0 <= i < n && Busy(view[i]))
  }

  lemma InPlaceChanges(spec: Spec, view: seq<Machine>, calls: Calls, api: Api)
    requires IsSortOf(view, api.machines) && UpgradesInPlace(spec, view) && AllSucceed(api, calls)
    requires view[0].nodeRef.Some?
    ensures
      var up := Upgrade(spec, view, calls, api);
      exists i :: 0 <= i < |api.machines| && up.machines[i].version == spec.version != api.machines[i].version
  {
    SameMembers(view, api.machines);
    var i := PlaceOf(api.machines, view[0]);
    var name := api.machines[i].name;
    assert calls.upgrade(name) == Found(name, Done, true);
    assert UpgradedNames(view, calls.upgrade)[0] == name;
    assert Upgrade(spec, view, calls, api).machines[i].version == spec.version;
  }

  lemma ResizeKeepsVersions(clock: Clock, spec: Spec, view: seq<Machine>, calls: Calls, api: Api)
    requires |view| == |api.machines|
    ensures
      var api' := Resize(clock, spec, view, calls, api);
      |api'.machines| >= |api.machines|
      && forall i :: 0 <= i < |api.machines| ==> api'.machines[i].version == api.machines[i].version
  {
  }

  lemma ResizeIdleIff(clock: Clock, spec: Spec, view: seq<Machine>, calls: Calls, api: Api)
    requires WellFormed(clock, api) && IsSortOf(view, api.machines) && AllSucceed(api, calls)
    requires !UpgradesInPlace(spec, view)
    ensures MachinesPass(clock, spec, view, calls, api) == api <==> Idle(spec, view)
    ensures MachinesPass(clock, spec, view, calls, api).machines == api.machines <==> Idle(spec, view)
  {
    SameMembers(view, api.machines);
    BootMachines(clock, spec.version, calls.boot, api);
    if Deletes(spec, view, calls) {
      FreshMark(clock, spec, view, calls, api);
      var k: nat :| MarksAt(spec, api.machines, api, MarkDeleting(api, Victim(view).name), k);
      SortMayDelete(view, api.machines);
      assert Alive(api.machines[k]);
    } else if ScalesDown(spec, view) {
      assert !MayDelete(view);
      var i :| 0 <= i < |view| && (view[i].deleting || view[i].nodeRef.None?);
      assert Busy(view[i]);
    }
  }

  /** With successful calls a pass is idle exactly in the states of `Idle`; any other state it changes. Seconds may be
      shared: the pass goes by its own sort of the list. */
  lemma PassIsIdleIff(clock: Clock, spec: Spec, view: seq<Machine>, calls: Calls, api: Api)
    requires WellFormed(clock, api) && IsSortOf(view, api.machines) && AllSucceed(api, calls)
    ensures MachinesPass(clock, spec, view, calls, api) == api <==> Idle(spec, view)
    ensures MachinesPass(clock, spec, view, calls, api).machines == api.machines <==> Idle(spec, view)
  {
    if UpgradesInPlace(spec, view) {
      SameMembers(view, api.machines);
      var upgraded := Upgrade(spec, view, calls, api);
      if view[0].nodeRef.None? {
        assert UpgradedNames(view, calls.upgrade) == [];
        assert upgraded.machines == api.machines;
        assert !Completes(view[0], calls.upgrade(view[0].name));
      } else {
        InPlaceChanges(spec, view, calls, api);
        ResizeKeepsVersions(clock, spec, view, calls, upgraded);
      }
    } else {
      ResizeIdleIff(clock, spec, view, calls, api);
    }
  }

  // ---- nothing left to do ------------------------------------------------------------------

  /** Neither the environment nor a pass whose calls succeed can change the Machines. */
  ghost predicate Quiescent(clock: Clock, spec: Spec, api: Api) {
    && (forall view, calls :: IsSortOf(view, api.machines) && AllSucceed(api, calls) ==>
          MachinesPass(clock, spec, view, calls, api).machines == api.machines)
    && (forall i :: 0 <= i < |api.machines| ==> !Busy(api.machines[i]))
  }

  function Successful(api: Api, infra: Name, config: Name): Calls {
    Calls(true, (name: Name) => Found(name, Done, true), BootCalls(Done, infra, Done, config, Done), true, Done)
  }

  lemma {:induction false} FreshName(used: seq<Name>) returns (name: Name)
    ensures name !in used && forall i :: 0 <= i < |used| ==> used[i] < name
  {
    if used == [] {
      name := 0;
    } else {
      name := FreshName(used[1..]);
      name := if name <= used[0] then used[0] + 1 else name;
      assert forall i :: 0 < i < |used| ==> used[i] == used[1..][i - 1];
    }
  }

  lemma QuiescentIsIdle(clock: Clock, spec: Spec, api: Api)
    requires WellFormed(clock, api)
    ensures Quiescent(clock, spec, api) <==>
              && (forall view :: IsSortOf(view, api.machines) ==> Idle(spec, view))
              && (forall i :: 0 <= i < |api.machines| ==> !Busy(api.machines[i]))
  {
    var infra := FreshName(api.infra);
    var config := FreshName(api.configs);
    var calls := Successful(api, infra, config);
    assert AllSucceed(api, calls);
    forall view: seq<Machine>, calls: Calls | IsSortOf(view, api.machines) && AllSucceed(api, calls)
      ensures MachinesPass(clock, spec, view, calls, api).machines == api.machines <==> Idle(spec, view)
    {
      PassIsIdleIff(clock, spec, view, calls, api);
    }
  }

  lemma WellFormedSorts(clock: Clock, api: Api)
    requires Ticking(clock) && WellFormed(clock, api)
    ensures IsSortOf(api.machines, api.machines)
  {
  }

  /** Nothing is left to do with three replicas or more: the count is right, no Machine is marked or without a node, and
      whichever oldest Machine the probe looks at is on target. */
  lemma QuiescentFleet(clock: Clock, spec: Spec, api: Api)
    requires WellFormed(clock, api) && spec.replicas >= 3 && Quiescent(clock, spec, api)
    ensures |api.machines| == spec.replicas && forall i :: 0 <= i < |api.machines| ==> !Busy(api.machines[i])
    ensures forall i :: 0 <= i < |api.machines| && Oldest(api.machines[i], api.machines) ==>
              !OffTarget(api.machines[i], spec.version)
  {
    QuiescentIsIdle(clock, spec, api);
    var ms := api.machines;
    var view := SortExists(ms);
    SameMembers(view, ms);
    forall i | 0 <= i < |view|
      ensures !Busy(view[i])
    {
      assert view[i] in ms;
    }
    forall i | 0 <= i < |ms| && Oldest(ms[i], ms)
      ensures !OffTarget(ms[i], spec.version)
    {
      var headed := SortWithHead(ms, i);
      SameMembers(headed, ms);
      assert headed[0] in ms;
    }
  }

  /** Whatever is not quiescent has a step that changes the Machines. */
  lemma NotQuiescentMoves(clock: Clock, spec: Spec, api: Api) returns (api': Api)
    requires !Quiescent(clock, spec, api)
    ensures FreshStep(clock, spec, api, api') && api'.machines != api.machines
  {
    if i :| 0 <= i < |api.machines| && Busy(api.machines[i]) {
      var m := api.machines[i];
      if m.deleting {
        api' := api.(machines := api.machines[..i] + api.machines[i + 1..]);
        assert Removes(api, i, api');
      } else {
        api' := api.(machines := api.machines[i := m.(nodeRef := Some(0))]);
        assert Joins(api, i, 0, api');
        assert api'.machines[i] != m;
      }
    } else {
      var view, calls :| IsSortOf(view, api.machines) && AllSucceed(api, calls)
        && MachinesPass(clock, spec, view, calls, api).machines != api.machines;
      api' := MachinesPass(clock, spec, view, calls, api);
      assert PassOn(clock, spec, api, api, api');
    }
  }

  lemma Precede(clock: Clock, spec: Spec, api: Api, h: seq<Api>)
    requires WellFormed(clock, api) && IsFreshRun(clock, spec, h) && FreshStep(clock, spec, api, h[0])
    ensures IsFreshRun(clock, spec, [api] + h)
  {
    var g := [api] + h;
    forall k | 0 <= k < |g| - 1
      ensures FreshStepAt(clock, spec, g, k)
    {
      if k > 0 {
        assert FreshStepAt(clock, spec, h, k - 1);
      }
    }
  }

  /** From every start, once time has moved on from the off-target Machines, some run ends with nothing left to do. */
  lemma {:induction false} CompleteRunExists(clock: Clock, spec: Spec, api: Api, horizon: nat) returns (h: seq<Api>)
    requires WellFormed(clock, api) && Beyond(clock, api.machines, spec.version, horizon)
    ensures IsFreshRun(clock, spec, h) && h[0] == api && Quiescent(clock, spec, h[|h| - 1])
    decreases Measure(clock, spec, api, horizon)
  {
    if Quiescent(clock, spec, api) {
      h := [api];
    } else {
      var next := NotQuiescentMoves(clock, spec, api);
      StepLowers(clock, spec, api, next, horizon);
      StepCatches(clock, spec, api, next);
      StepKeepsWellFormed(clock, spec, api, next);
      var rest := CompleteRunExists(clock, spec, next, horizon);
      Precede(clock, spec, api, rest);
      h := [api] + rest;
    }
  }

  // ---- bounds ------------------------------------------------------------------------------

  function Max(a: int, b: int): int {
    if a < b then b else a
  }

  ghost predicate ShapeKept(spec: Spec, api: Api, api': Api) {
    && |api'.machines| <= Max(|api.machines|, spec.replicas + 1)
    && (Unmarked(api) >= spec.replicas ==> Unmarked(api') >= spec.replicas)
  }

  lemma MarkShape(spec: Spec, mid: seq<Machine>, api: Api, api': Api, k: nat)
    requires MarksAt(spec, mid, api, api', k) && Count(mid, Alive) == Count(api.machines, Alive)
    ensures ShapeKept(spec, api, api')
  {
    CountZero(api.machines, Alive);
    CountReplace(mid, k, mid[k].(deleting := true), Alive);
  }

  lemma EffectShape(clock: Clock, spec: Spec, view: seq<Machine>, mid: seq<Machine>, api: Api, api': Api)
    requires Effect(clock, spec, view, mid, api, api')
    ensures ShapeKept(spec, api, api')
  {
    SameMembers(view, api.machines);
    CountDominates(mid, api.machines, Alive);
    CountDominates(api.machines, mid, Alive);
    if Creates(clock, spec, view, mid, api, api') {
      var refs :| && api'.machines == mid + [NewMachine(clock, api, spec.version, refs)]
                  && api'.born == api.born + [refs];
      CountConcat(mid, [NewMachine(clock, api, spec.version, refs)], Alive);
    } else if k: nat :| MarksAt(spec, mid, api, api', k) {
      MarkShape(spec, mid, api, api', k);
    }
  }

  lemma StepShape(clock: Clock, spec: Spec, api: Api, api': Api)
    requires WellFormed(clock, api) && FreshStep(clock, spec, api, api')
    ensures ShapeKept(spec, api, api')
  {
    if JoinStep(api, api') {
      CountDominates(api'.machines, api.machines, Alive);
    } else if RemoveStep(api, api') {
      var i: nat :| Removes(api, i, api');
      CountRemove(api.machines, i, Alive);
    } else {
      var view, mid := FreshPass(clock, spec, api, api');
      EffectShape(clock, spec, view, mid, api, api');
    }
  }

  lemma RunStepShape(clock: Clock, spec: Spec, h: seq<Api>, k: nat)
    requires IsFreshRun(clock, spec, h) && k + 1 < |h|
    ensures ShapeKept(spec, h[k], h[k + 1])
  {
    RunKeepsWellFormed(clock, spec, h, k);
    assert FreshStepAt(clock, spec, h, k);
    StepShape(clock, spec, h[k], h[k + 1]);
  }

  /** Under any clock the list never outgrows both its start and replicas + 1, and enough unmarked Machines stay
      enough. */
  lemma {:induction false} RunStaysInBounds(clock: Clock, spec: Spec, h: seq<Api>, j: nat, k: nat)
    requires IsFreshRun(clock, spec, h) && j <= k < |h|
    ensures |h[k].machines| <= Max(|h[j].machines|, spec.replicas + 1)
    ensures Unmarked(h[j]) >= spec.replicas ==> Unmarked(h[k]) >= spec.replicas
    decreases k
  {
    if j == k {
    } else {
      RunStaysInBounds(clock, spec, h, j, k - 1);
      RunStepShape(clock, spec, h, k - 1);
    }
  }
}
