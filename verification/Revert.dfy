/** A run in which the user starts an upgrade and takes it back half way. */
module Revert {
  import opened Types
  import opened CreationOrder
  import opened Scaling
  import opened StaleRuns
  import opened FreshRuns
  import opened FloorTightness
  import opened Ties
  import opened VersionOrder

  /** Every pass sees the current list; version and replicas are edited at will between two steps, and the strategy is
      never set. */
  ghost predicate EditedStep(clock: Clock, specs: seq<Spec>, h: seq<Api>, k: nat)
    requires k + 1 < |h| && |specs| + 1 == |h|
  {
    specs[k].strategy.Unset? && FreshStep(clock, specs[k], h[k], h[k + 1])
  }

  ghost predicate IsEditedRun(clock: Clock, specs: seq<Spec>, h: seq<Api>) {
    && |h| == |specs| + 1 && h[0] == NOTHING
    && forall k :: 0 <= k < |specs| ==> EditedStep(clock, specs, h, k)
  }

  ghost predicate Reaches(clock: Clock, specs: seq<Spec>, h: seq<Api>, api: Api) {
    IsEditedRun(clock, specs, h) && h[|h| - 1] == api
  }

  lemma Extended(clock: Clock, specs: seq<Spec>, h: seq<Api>, spec: Spec, api: Api)
    requires IsEditedRun(clock, specs, h) && spec.strategy.Unset? && FreshStep(clock, spec, h[|h| - 1], api)
    ensures Reaches(clock, specs + [spec], h + [api], api)
  {
    var specs', h' := specs + [spec], h + [api];
    forall k | 0 <= k < |specs'|
      ensures EditedStep(clock, specs', h', k)
    {
      if k < |specs| {
        assert EditedStep(clock, specs, h, k);
      }
    }
  }

  // ---- three Machines ----------------------------------------------------------------------

  const TO := Semver(1, 26, "")

  function Back(replicas: int): Spec {
    Spec(replicas, V, Unset)
  }

  function Up(replicas: int): Spec {
    Spec(replicas, TO, Unset)
  }

  function WithNew(clock: Clock, api: Api, version: Version): Api {
    var n := |api.born|;
    var m := NewMachine(clock, api, version, Refs(n, n));
    Api(api.machines + [m], api.born + [Refs(n, n)], api.infra + [n], api.configs + [n])
  }

  function Joined0(api: Api): Api
    requires |api.machines| > 0
  {
    var i := |api.machines| - 1;
    api.(machines := api.machines[i := api.machines[i].(nodeRef := Some(0))])
  }

  /** Create a Machine and let it join. */
  lemma CreateAndJoin(clock: Clock, specs: seq<Spec>, h: seq<Api>, spec: Spec, created: Api)
    returns (specs': seq<Spec>, h': seq<Api>)
    requires IsEditedRun(clock, specs, h)
    requires spec.strategy.Unset?
    requires created == WithNew(clock, h[|h| - 1], spec.version) && PassOn(clock, spec, h[|h| - 1], h[|h| - 1], created)
    ensures Reaches(clock, specs', h', Joined0(created))
  {
    Extended(clock, specs, h, spec, created);
    assert Joins(created, |created.machines| - 1, 0, Joined0(created));
    Extended(clock, specs + [spec], h + [created], spec, Joined0(created));
    specs', h' := specs + [spec] + [spec], h + [created] + [Joined0(created)];
  }

  lemma GrowFresh(clock: Clock, specs: seq<Spec>, h: seq<Api>, born: nat) returns (specs': seq<Spec>, h': seq<Api>)
    requires Ticking(clock) && Reaches(clock, specs, h, Stage(clock, 0, born))
    ensures Reaches(clock, specs', h', Stage(clock, 0, born + 1))
  {
    var api := Stage(clock, 0, born);
    var created := WithNew(clock, api, V);
    StageSorted(clock, 0, born);
    GrowPass(clock, born);
    assert created == MachinesPass(clock, Back(born + 1), api.machines, Creating(born), api);
    assert PassOn(clock, Back(born + 1), api, api, created);
    specs', h' := CreateAndJoin(clock, specs, h, Back(born + 1), created);
    StageGrows(clock, born);
    assert Joined0(created).machines == Stage(clock, 0, born + 1).machines;
  }

  lemma {:induction false} GrownFresh(clock: Clock, born: nat) returns (specs: seq<Spec>, h: seq<Api>)
    requires Ticking(clock)
    ensures Reaches(clock, specs, h, Stage(clock, 0, born))
  {
    if born == 0 {
      specs, h := [], [NOTHING];
      assert Stage(clock, 0, 0) == NOTHING;
    } else {
      specs, h := GrownFresh(clock, born - 1);
      specs, h := GrowFresh(clock, specs, h, born - 1);
    }
  }

  // ---- half an upgrade ---------------------------------------------------------------------

  function Upgraded3(clock: Clock): Machine {
    Joined(clock, 3).(version := TO)
  }

  /** Three Machines left, the youngest of them created by the upgrade. */
  function HalfWay(clock: Clock): Api {
    var r := seq(4, i requires 0 <= i => Refs(i, i));
    var n := seq(4, i requires 0 <= i => i);
    Api([Joined(clock, 1), Joined(clock, 2), Upgraded3(clock)], r, n, n)
  }

  lemma UpgradeCreates(clock: Clock)
    requires Ticking(clock)
    ensures
      var api := Stage(clock, 0, 3);
      PassOn(clock, Up(3), api, api, WithNew(clock, api, TO))
  {
    var api := Stage(clock, 0, 3);
    StageSorted(clock, 0, 3);
    var ms := api.machines;
    assert ms[0] == Joined(clock, 0);
    assert RollingCreates(Up(3), ms);
    assert 3 !in api.infra && 3 !in api.configs;
    assert MachinesPass(clock, Up(3), ms, Creating(3), api) == WithNew(clock, api, TO);
  }

  function FourListed(clock: Clock): Api {
    Joined0(WithNew(clock, Stage(clock, 0, 3), TO))
  }

  lemma FourAre(clock: Clock)
    ensures FourListed(clock).machines == [Joined(clock, 0), Joined(clock, 1), Joined(clock, 2), Upgraded3(clock)]
    ensures FourListed(clock) == HalfWay(clock).(machines := FourListed(clock).machines)
  {
    assert Stage(clock, 0, 3).machines == [Joined(clock, 0), Joined(clock, 1), Joined(clock, 2)];
  }

  lemma FourSorted(clock: Clock, ms: seq<Machine>)
    requires Ticking(clock) && |ms| == 4
    requires forall i :: 0 <= i < 4 ==> ms[i].created == clock(i)
    ensures IsSortOf(ms, ms) && VictimIndex(ms) == 0
  {
    assert forall i :: 0 < i < 4 ==> clock(0) < clock(i);
    LastOldestIsVictim(ms, 0);
  }

  lemma MarksFour(clock: Clock, api: Api)
    requires Ticking(clock)
    requires api.machines == [Joined(clock, 0), Joined(clock, 1), Joined(clock, 2), Upgraded3(clock)]
    ensures PassOn(clock, Up(3), api, api, MarkDeleting(api, 0))
  {
    var ms := api.machines;
    FourSorted(clock, ms);
    assert Victim(ms).name == 0 && Deletes(Up(3), ms, DELETING);
    assert MarkDeleting(api, 0) == MachinesPass(clock, Up(3), ms, DELETING, api);
  }

  lemma RemovesFirst(clock: Clock, api: Api)
    requires api.machines == [Joined(clock, 0), Joined(clock, 1), Joined(clock, 2), Upgraded3(clock)]
    ensures Removes(MarkDeleting(api, 0), 0, api.(machines := [Joined(clock, 1), Joined(clock, 2), Upgraded3(clock)]))
  {
    var marked := MarkDeleting(api, 0);
    assert marked.machines[..0] + marked.machines[1..] == [Joined(clock, 1), Joined(clock, 2), Upgraded3(clock)];
  }

  lemma HalfWayIsMixed(clock: Clock, ms: seq<Machine>)
    requires Ticking(clock) && ms == [Joined(clock, 1), Joined(clock, 2), Upgraded3(clock)]
    ensures OldFirst(ms, TO) && AnyOff(ms, TO) && !OldFirst(ms, V) && AnyOff(ms, V) && AtRest(Back(3), ms)
  {
    assert OffTarget(ms[2], V) && !OffTarget(ms[0], V) && OffTarget(ms[0], TO);
    assert ms[0].created < ms[2].created;
  }

  lemma HalfWayReached(clock: Clock, specs: seq<Spec>, h: seq<Api>) returns (specs': seq<Spec>, h': seq<Api>)
    requires Ticking(clock) && Reaches(clock, specs, h, FourListed(clock))
    ensures Reaches(clock, specs', h', HalfWay(clock))
  {
    FourAre(clock);
    var marked := MarkDeleting(FourListed(clock), 0);
    MarksFour(clock, FourListed(clock));
    RemovesFirst(clock, FourListed(clock));
    Extended(clock, specs, h, Up(3), marked);
    Extended(clock, specs + [Up(3)], h + [marked], Up(3), HalfWay(clock));
    specs', h' := specs + [Up(3)] + [Up(3)], h + [marked] + [HalfWay(clock)];
  }

  /** From no Machines at all, with only the version and the replicas edited: a state in which going back to the version
      of the oldest Machine leaves the youngest off target and the controller at rest, for good. */
  lemma RevertReached(clock: Clock) returns (specs: seq<Spec>, h: seq<Api>, back: Spec)
    requires Ticking(clock)
    ensures IsEditedRun(clock, specs, h)
    ensures
      var ms := h[|h| - 1].machines;
      && OldFirst(ms, TO) && AnyOff(ms, TO) && !OldFirst(ms, back.version) && AnyOff(ms, back.version)
      && AtRest(back, ms) && back.strategy.Unset?
  {
    specs, h := GrownFresh(clock, 3);
    UpgradeCreates(clock);
    specs, h := CreateAndJoin(clock, specs, h, Up(3), WithNew(clock, Stage(clock, 0, 3), TO));
    specs, h := HalfWayReached(clock, specs, h);
    back := Back(3);
    HalfWayIsMixed(clock, HalfWay(clock).machines);
  }
}
