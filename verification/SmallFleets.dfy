/** The smart strategy from fewer than three Machines when three or more are desired. */
module SmallFleets {
  import opened Types
  import opened CreationOrder
  import opened Scaling
  import opened StaleRuns
  import opened Ties
  import opened FreshRuns
  import opened FixedPoints
  import opened VersionOrder
  import opened InPlace

  ghost predicate SucceedingPass(clock: Clock, spec: Spec, api: Api, api': Api) {
    exists view, calls ::
      IsSortOf(view, api.machines) && AllSucceed(api, calls) && api' == MachinesPass(clock, spec, view, calls, api)
  }

  ghost predicate SucceedingStep(clock: Clock, spec: Spec, h: seq<Api>, k: nat)
    requires k + 1 < |h|
  {
    SucceedingPass(clock, spec, h[k], h[k + 1]) || JoinStep(h[k], h[k + 1]) || RemoveStep(h[k], h[k + 1])
  }

  /** A run whose calls succeed, from fewer than three Machines, all settled. The oldest are all off target or all not,
      as is the case when they are one. */
  ghost predicate IsSmallRun(clock: Clock, spec: Spec, h: seq<Api>) {
    && Effective(spec.strategy).SmartUpgrade? && spec.replicas >= 3
    && |h| > 0 && WellFormed(clock, h[0]) && |h[0].machines| < 3
    && (forall i :: 0 <= i < |h[0].machines| ==> !Busy(h[0].machines[i]))
    && (OldestAreOff(h[0].machines, spec.version) || OldestAreOn(h[0].machines, spec.version))
    && forall k :: 0 <= k < |h| - 1 ==> SucceedingStep(clock, spec, h, k)
  }

  /** What becomes of a Machine of the start: the first pass writes all of them if the oldest are off target. */
  function Settled(spec: Spec, start: seq<Machine>, i: nat): Machine
    requires i < |start|
  {
    if OldestAreOn(start, spec.version) then start[i] else start[i].(version := spec.version)
  }

  /** Nothing yet, or the Machines of the start after the first pass and then the created ones. */
  ghost predicate Grown(spec: Spec, start: Api, api: Api) {
    var s, ms, created := start.machines, api.machines, |api.born| - |start.born|;
    && 0 <= created && |ms| == |s| + created && |ms| <= spec.replicas
    && (forall i :: 0 <= i < |ms| ==> Alive(ms[i]))
    && (forall i :: 0 <= i < |s| ==> ms[i] == if created == 0 then s[i] else Settled(spec, s, i))
    && forall i :: |s| <= i < |ms| ==> ms[i].name == |start.born| + i - |s| && ms[i].version == spec.version
  }

  lemma GrownIsOn(spec: Spec, start: Api, api: Api)
    requires Grown(spec, start, api) && (|api.born| > |start.born| || OldestAreOn(start.machines, spec.version))
    ensures OldestAreOn(api.machines, spec.version)
  {
    var s, ms := start.machines, api.machines;
    forall i | 0 <= i < |ms| && Oldest(ms[i], ms)
      ensures !OffTarget(ms[i], spec.version)
    {
      if i < |s| && OldestAreOn(s, spec.version) {
        forall j | 0 <= j < |s|
          ensures s[i].created <= s[j].created
        {
          assert ms[i].created <= ms[j].created && ms[j] == s[j];
        }
        assert Oldest(s[i], s);
      }
    }
  }

  lemma QuietPassGrows(clock: Clock, spec: Spec, start: Api, api: Api, api': Api)
    requires WellFormed(clock, api) && Grown(spec, start, api) && PassOn(clock, spec, api, api, api')
    requires |api.born| > |start.born| || OldestAreOn(start.machines, spec.version)
    ensures Grown(spec, start, api')
  {
    GrownIsOn(spec, start, api);
    var view, mid := FreshPass(clock, spec, api, api');
    NoneIsDue(spec, view, api.machines);
    if Creates(clock, spec, view, mid, api, api') {
      var refs :| && api'.machines == mid + [NewMachine(clock, api, spec.version, refs)]
                  && api'.born == api.born + [refs];
    }
  }

  lemma AllAreWritten(view: seq<Machine>, ms: seq<Machine>, upgrade: Name -> NodeUpgrade)
    requires multiset(view) == multiset(ms)
    requires forall i :: 0 <= i < |ms| ==> ms[i].nodeRef.Some?
    requires forall i :: 0 <= i < |ms| ==> upgrade(ms[i].name) == Found(ms[i].name, Done, true)
    ensures forall i :: 0 <= i < |view| ==> Completes(view[i], upgrade(view[i].name))
    ensures forall i :: 0 <= i < |ms| ==> Written(view, upgrade, ms[i].name)
  {
    SameMembers(view, ms);
    forall i | 0 <= i < |view|
      ensures view[i].nodeRef.Some? && upgrade(view[i].name) == Found(view[i].name, Done, true)
    {
      assert view[i] in ms;
    }
    forall i | 0 <= i < |ms|
      ensures Written(view, upgrade, ms[i].name)
    {
      assert ms[i] in view;
      var j := PlaceOf(view, ms[i]);
      assert WritesAt(view, upgrade, j, ms[i].name);
    }
  }

  /** The first pass when the oldest Machines are off target: it writes all of them and creates one. */
  lemma FirstPass(clock: Clock, spec: Spec, start: Api, view: seq<Machine>, calls: Calls)
    requires Effective(spec.strategy).SmartUpgrade? && spec.replicas >= 3 && |start.machines| < 3
    requires forall i :: 0 <= i < |start.machines| ==> !Busy(start.machines[i])
    requires OldestAreOff(start.machines, spec.version) && !OldestAreOn(start.machines, spec.version)
    requires IsSortOf(view, start.machines) && AllSucceed(start, calls)
    ensures Grown(spec, start, MachinesPass(clock, spec, view, calls, start))
  {
    var ms := start.machines;
    SameMembers(view, ms);
    HeadIsOldest(view, ms);
    var k := PlaceOf(ms, view[0]);
    assert UpgradesInPlace(spec, view);
    assert forall i :: 0 <= i < |ms| ==> !Busy(ms[i]);
    AllAreWritten(view, ms, calls.upgrade);
    TurnsWrite(spec, view, calls, start);
    var up := Upgrade(spec, view, calls, start);
    BootMachines(clock, spec.version, calls.boot, up);
    assert MachinesPass(clock, spec, view, calls, start) == Boot(clock, spec.version, calls.boot, up);
  }

  lemma PassGrows(clock: Clock, spec: Spec, h: seq<Api>, k: nat)
    requires IsSmallRun(clock, spec, h) && k + 1 < |h|
    requires WellFormed(clock, h[k]) && Grown(spec, h[0], h[k]) && SucceedingPass(clock, spec, h[k], h[k + 1])
    ensures Grown(spec, h[0], h[k + 1])
  {
    var start, api := h[0], h[k];
    var view, calls :| IsSortOf(view, api.machines) && AllSucceed(api, calls)
                       && h[k + 1] == MachinesPass(clock, spec, view, calls, api);
    assert PassOn(clock, spec, api, api, h[k + 1]);
    if |api.born| > |start.born| || OldestAreOn(start.machines, spec.version) {
      QuietPassGrows(clock, spec, start, api, h[k + 1]);
    } else {
      assert api.machines == start.machines;
      FirstPass(clock, spec, api, view, calls);
    }
  }

  lemma StepGrows(clock: Clock, spec: Spec, h: seq<Api>, k: nat)
    requires IsSmallRun(clock, spec, h) && k + 1 < |h| && WellFormed(clock, h[k]) && Grown(spec, h[0], h[k])
    ensures WellFormed(clock, h[k + 1]) && Grown(spec, h[0], h[k + 1])
  {
    assert SucceedingStep(clock, spec, h, k);
    if SucceedingPass(clock, spec, h[k], h[k + 1]) {
      PassGrows(clock, spec, h, k);
      var view, calls :| IsSortOf(view, h[k].machines) && AllSucceed(h[k], calls)
                         && h[k + 1] == MachinesPass(clock, spec, view, calls, h[k]);
      assert PassOn(clock, spec, h[k], h[k], h[k + 1]);
    } else if JoinStep(h[k], h[k + 1]) {
      var i: nat, node: Name :| Joins(h[k], i, node, h[k + 1]);
      assert i < |h[0].machines| ==> !Busy(h[0].machines[i]);
    }
    StepKeepsWellFormed(clock, spec, h[k], h[k + 1]);
  }

  lemma {:induction false} RunGrows(clock: Clock, spec: Spec, h: seq<Api>, k: nat)
    requires IsSmallRun(clock, spec, h) && k < |h|
    ensures WellFormed(clock, h[k]) && Grown(spec, h[0], h[k])
  {
    if k == 0 {
    } else {
      RunGrows(clock, spec, h, k - 1);
      StepGrows(clock, spec, h, k - 1);
    }
  }

  /** When nothing is left to do: nothing was marked, the missing Machines were created, and those of the start are all
      at the target if the oldest were off target, and otherwise all as they were. */
  lemma SmallStartGrows(clock: Clock, spec: Spec, h: seq<Api>, k: nat)
    requires IsSmallRun(clock, spec, h) && k < |h| && Quiescent(clock, spec, h[k])
    ensures
      var s, ms := h[0].machines, h[k].machines;
      && |ms| == spec.replicas && |h[k].born| - |h[0].born| == spec.replicas - |s|
      && (forall i :: 0 <= i < |s| ==> ms[i] == Settled(spec, s, i))
      && (forall i :: |s| <= i < |ms| ==> ms[i].name == |h[0].born| + i - |s| && ms[i].version == spec.version)
  {
    RunGrows(clock, spec, h, k);
    QuiescentFleet(clock, spec, h[k]);
  }

  /** So the upgrade misses a Machine exactly if the oldest ones were on target and another was not. */
  lemma SmallStartCompletesIff(clock: Clock, spec: Spec, h: seq<Api>, k: nat)
    requires IsSmallRun(clock, spec, h) && k < |h| && Quiescent(clock, spec, h[k])
    ensures AnyOff(h[k].machines, spec.version) <==>
              AnyOff(h[0].machines, spec.version) && OldestAreOn(h[0].machines, spec.version)
  {
    SmallStartGrows(clock, spec, h, k);
    var s, ms := h[0].machines, h[k].machines;
    if i :| 0 <= i < |s| && OffTarget(s[i], spec.version) && OldestAreOn(s, spec.version) {
      assert ms[i] == s[i];
    }
  }
}
