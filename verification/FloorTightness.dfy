/** The floor of StaleRuns needs distinct creation seconds: whenever two Machines share one, some run breaks it. */
module FloorTightness {
  import opened Types
  import opened CreationOrder
  import opened Scaling
  import opened StaleRuns
  import opened Ties

  ghost predicate FirstTie(clock: Clock, k: nat) {
    clock(k) == clock(k + 1) && forall i: nat :: i < k ==> clock(i) < clock(i + 1)
  }

  lemma {:induction false} TieBetween(clock: Clock, a: nat, b: nat) returns (k: nat)
    requires NonDecreasing(clock) && a < b && clock(a) >= clock(b)
    ensures FirstTie(clock, k)
    decreases b
  {
    if i: nat :| i < b - 1 && clock(i) == clock(i + 1) {
      k := TieBetween(clock, i, i + 1);
    } else {
      assert clock(b - 1) == clock(b) by {
        assert clock(a) <= clock(b - 1) <= clock(b);
      }
      assert forall i: nat :: i < b - 1 ==> clock(i) <= clock(i + 1);
      k := b - 1;
    }
  }

  // ---- a family of states ------------------------------------------------------------------

  const V := Semver(1, 25, "")

  function Joined(clock: Clock, n: Name): Machine {
    Machine(n, clock(n), V, Refs(n, n), false, Some(0), [], None)
  }

  /** Machines gone..born-1 listed and joined, the older ones removed. */
  function Stage(clock: Clock, gone: nat, born: nat): Api
    requires gone <= born
  {
    Api(seq(born - gone, i requires 0 <= i => Joined(clock, gone + i)),
        seq(born, i requires 0 <= i => Refs(i, i)),
        seq(born, i requires 0 <= i => i), seq(born, i requires 0 <= i => i))
  }

  const NO_UPGRADE: Name -> NodeUpgrade := _ => LookupFailed

  function Creating(name: Name): Calls {
    Calls(false, NO_UPGRADE, BootCalls(Done, name, Done, name, Done), false, Failed)
  }

  const DELETING := Calls(false, NO_UPGRADE, BootCalls(Failed, 0, Failed, 0, Failed), true, Done)

  ghost predicate RunTo(clock: Clock, h: seq<Api>, last: Api) {
    IsStaleRun(clock, h) && h[|h| - 1] == last
  }

  lemma Extend(clock: Clock, h: seq<Api>, api: Api) returns (h': seq<Api>)
    requires IsStaleRun(clock, h)
    requires TouchStep(h[|h| - 1], api) || RemoveStep(h[|h| - 1], api)
          || exists s :: 0 <= s < |h| && SomePass(clock, h[s], h[|h| - 1], api)
    ensures h' == h + [api] && RunTo(clock, h', api)
  {
    h' := h + [api];
    var n := |h| - 1;
    assert StaleStep(clock, h', n) by {
      if s :| 0 <= s < |h| && SomePass(clock, h[s], h[n], api) {
        assert SomePass(clock, h'[s], h'[n], h'[n + 1]);
      }
    }
    forall k | 0 <= k < |h'| - 1
      ensures StaleStep(clock, h', k)
    {
      if k < n {
        assert StaleStep(clock, h, k);
        if s :| 0 <= s <= k && SomePass(clock, h[s], h[k], h[k + 1]) {
          assert SomePass(clock, h'[s], h'[k], h'[k + 1]);
        }
      }
    }
  }

  lemma StageSorted(clock: Clock, gone: nat, born: nat)
    requires NonDecreasing(clock) && gone <= born
    ensures Sorted(Stage(clock, gone, born).machines)
  {
    var ms := Stage(clock, gone, born).machines;
    forall i, j | 0 <= i < j < |ms|
      ensures ms[i].created <= ms[j].created
    {
      assert ms[i] == Joined(clock, gone + i) && ms[j] == Joined(clock, gone + j);
      assert clock(gone + i) <= clock(gone + j);
    }
  }

  function NotYetJoined(clock: Clock, n: Name): Machine {
    Joined(clock, n).(nodeRef := None)
  }

  /** The first `born` Machines, and one more that has not joined. */
  function WithCreated(clock: Clock, born: nat): Api {
    var api := Stage(clock, 0, born);
    Api(api.machines + [NotYetJoined(clock, born)], api.born + [Refs(born, born)],
        api.infra + [born], api.configs + [born])
  }

  lemma GrowPass(clock: Clock, born: nat)
    ensures
      var api := Stage(clock, 0, born);
      MachinesPass(clock, Spec(born + 1, V, Unset), api.machines, Creating(born), api)
      == WithCreated(clock, born)
  {
    var api := Stage(clock, 0, born);
    var spec := Spec(born + 1, V, Unset);
    assert !UpgradeDue(spec, api.machines);
    assert born !in api.infra && born !in api.configs;
  }

  lemma StageGrows(clock: Clock, born: nat)
    ensures Touches(WithCreated(clock, born), born, Joined(clock, born), Stage(clock, 0, born + 1))
  {
    var api, next := Stage(clock, 0, born), Stage(clock, 0, born + 1);
    assert next.machines == api.machines + [Joined(clock, born)];
    assert next.born == api.born + [Refs(born, born)];
    assert next.infra == api.infra + [born] && next.configs == api.configs + [born];
    assert (api.machines + [NotYetJoined(clock, born)])[born := Joined(clock, born)] == next.machines;
  }

  /** Create one more Machine and let it join. */
  lemma Grow(clock: Clock, h: seq<Api>, born: nat) returns (h': seq<Api>)
    requires NonDecreasing(clock) && RunTo(clock, h, Stage(clock, 0, born))
    ensures RunTo(clock, h', Stage(clock, 0, born + 1))
  {
    StageSorted(clock, 0, born);
    var spec := Spec(born + 1, V, Unset);
    var api := h[|h| - 1];
    var created := MachinesPass(clock, spec, api.machines, Creating(born), api);
    assert PassOn(clock, spec, api, api, created);
    assert SomePass(clock, h[|h| - 1], h[|h| - 1], created);
    var h1 := Extend(clock, h, created);
    GrowPass(clock, born);
    StageGrows(clock, born);
    h' := Extend(clock, h1, Stage(clock, 0, born + 1));
  }

  lemma RetireGone(clock: Clock, gone: nat, born: nat)
    requires gone < born
    ensures Removes(MarkDeleting(Stage(clock, gone, born), gone), 0, Stage(clock, gone + 1, born))
  {
    var ms := Stage(clock, gone, born).machines;
    assert forall i :: 0 <= i < |ms| ==> ms[i] == Joined(clock, gone + i);
    var marked, next := MarkDeleting(Stage(clock, gone, born), gone), Stage(clock, gone + 1, born);
    assert marked.machines[0].deleting;
    assert next.machines == marked.machines[..0] + marked.machines[1..];
  }

  lemma RetirePass(clock: Clock, gone: nat, born: nat)
    requires NonDecreasing(clock) && gone + 4 <= born && clock(gone) < clock(gone + 1)
    ensures
      var api := Stage(clock, gone, born);
      var marked := MachinesPass(clock, Spec(0, V, Unset), api.machines, DELETING, api);
      Removes(marked, 0, Stage(clock, gone + 1, born))
  {
    var api := Stage(clock, gone, born);
    var ms := api.machines;
    var spec := Spec(0, V, Unset);
    assert forall i :: 0 <= i < |ms| ==> ms[i] == Joined(clock, gone + i);
    assert !UpgradeDue(spec, ms) && MayDelete(ms);
    forall j | 0 < j < |ms|
      ensures ms[0].created < ms[j].created
    {
      assert clock(gone + 1) <= clock(gone + j);
    }
    LastOldestIsVictim(ms, 0);
    var marked := MarkDeleting(api, gone);
    assert marked == MachinesPass(clock, spec, ms, DELETING, api);
    RetireGone(clock, gone, born);
  }

  /** Mark the oldest Machine and let it go. */
  lemma Retire(clock: Clock, h: seq<Api>, gone: nat, born: nat) returns (h': seq<Api>)
    requires NonDecreasing(clock) && gone + 4 <= born && clock(gone) < clock(gone + 1)
    requires RunTo(clock, h, Stage(clock, gone, born))
    ensures RunTo(clock, h', Stage(clock, gone + 1, born))
  {
    StageSorted(clock, gone, born);
    var spec := Spec(0, V, Unset);
    var api := h[|h| - 1];
    var marked := MachinesPass(clock, spec, api.machines, DELETING, api);
    assert PassOn(clock, spec, api, api, marked);
    assert SomePass(clock, h[|h| - 1], h[|h| - 1], marked);
    var h1 := Extend(clock, h, marked);
    RetirePass(clock, gone, born);
    h' := Extend(clock, h1, Stage(clock, gone + 1, born));
  }

  lemma {:induction false} Grown(clock: Clock, born: nat) returns (h: seq<Api>)
    requires NonDecreasing(clock)
    ensures RunTo(clock, h, Stage(clock, 0, born))
  {
    if born == 0 {
      h := [NOTHING];
      assert Stage(clock, 0, 0) == NOTHING;
    } else {
      h := Grown(clock, born - 1);
      h := Grow(clock, h, born - 1);
    }
  }

  lemma {:induction false} Retired(clock: Clock, gone: nat, born: nat) returns (h: seq<Api>)
    requires NonDecreasing(clock) && gone + 3 <= born
    requires forall i: nat :: i < gone ==> clock(i) < clock(i + 1)
    ensures RunTo(clock, h, Stage(clock, gone, born))
    decreases gone
  {
    if gone == 0 {
      h := Grown(clock, born);
    } else {
      h := Retired(clock, gone - 1, born);
      h := Retire(clock, h, gone - 1, born);
    }
  }

  // ---- the breaking run --------------------------------------------------------------------

  /** Another order in which the unstable sort may return the Machines: the first comes last of those it ties with. */
  function Reordered(ms: seq<Machine>): (r: seq<Machine>)
    requires |ms| > 0
    ensures |r| == |ms|
  {
    FirstPutAt(ms, VictimIndex(ms))
  }

  lemma ReorderedIsSort(ms: seq<Machine>)
    requires |ms| > 0 && Sorted(ms)
    ensures IsSortOf(Reordered(ms), ms) && Victim(Reordered(ms)) == ms[0]
  {
    FirstPutSorts(ms, VictimIndex(ms));
  }

  lemma MarkFromStage(clock: Clock, h: seq<Api>, s: nat, view: seq<Machine>) returns (h': seq<Api>)
    requires IsStaleRun(clock, h) && s < |h|
    requires IsSortOf(view, h[s].machines) && |view| == 4 && MayDelete(view)
    requires forall i :: 0 <= i < 4 ==> view[i].version == V
    ensures RunTo(clock, h', MarkDeleting(h[|h| - 1], Victim(view).name)) && |h'| == |h| + 1 && h'[..|h|] == h
  {
    var api := MarkDeleting(h[|h| - 1], Victim(view).name);
    var spec := Spec(0, V, Unset);
    assert api == MachinesPass(clock, spec, view, DELETING, h[|h| - 1]);
    assert PassOn(clock, spec, h[s], h[|h| - 1], api);
    assert SomePass(clock, h[s], h[|h| - 1], api);
    h' := Extend(clock, h, api);
  }

  lemma TwoLeft(ms: seq<Machine>, v: nat)
    requires |ms| == 4 && 0 < v < 4 && ms[0].deleting && ms[v].deleting
    ensures Count(ms, Alive) <= 2
  {
    CountRemove(ms, v, Alive);
    var rest := ms[..v] + ms[v + 1..];
    assert rest[0] == ms[0] && |rest| == 3;
    CountRemove(rest, 0, Alive);
  }

  lemma TwoMarks(clock: Clock, k: nat, v: nat)
    requires 0 < v < 4
    ensures
      var one := MarkDeleting(Stage(clock, k, k + 4), k + v);
      var two := MarkDeleting(one, k);
      NewMark(one, two) && Unmarked(two) <= 2 && !OneDeletionInFlight(two)
  {
    var ms := Stage(clock, k, k + 4).machines;
    assert forall i :: 0 <= i < 4 ==> ms[i] == Joined(clock, k + i);
    var one := MarkDeleting(Stage(clock, k, k + 4), k + v);
    var two := MarkDeleting(one, k);
    assert one.machines[0].name == k && !one.machines[0].deleting;
    assert two.machines[0].deleting && two.machines[v].deleting;
    assert !EverMarked(one, k) && EverMarked(two, k);
    TwoLeft(two.machines, v);
  }

  ghost predicate Tied(api: Api, a: seq<Machine>, first: Name, b: seq<Machine>, second: Name) {
    && IsSortOf(a, api.machines) && |a| == 4 && MayDelete(a) && Victim(a).name == first
    && IsSortOf(b, api.machines) && |b| == 4 && MayDelete(b) && Victim(b).name == second
    && forall i :: 0 <= i < 4 ==> a[i].version == V && b[i].version == V
  }

  lemma SharedProperties(a: seq<Machine>, b: seq<Machine>)
    requires multiset(b) == multiset(a) && MayDelete(a)
    requires forall i :: 0 <= i < |a| ==> a[i].version == V
    ensures MayDelete(b) && |b| == |a| && forall i :: 0 <= i < |b| ==> b[i].version == V
  {
    SameMembers(b, a);
    forall i | 0 <= i < |b|
      ensures !b[i].deleting && b[i].nodeRef.Some? && b[i].version == V
    {
      assert b[i] in a;
    }
  }

  lemma TieIsNotFirst(ms: seq<Machine>)
    requires |ms| > 1 && ms[0].created == ms[1].created
    ensures VictimIndex(ms) > 0
  {
  }

  lemma StageIsTied(clock: Clock, k: nat)
    requires NonDecreasing(clock) && clock(k) == clock(k + 1)
    ensures
      var a := Stage(clock, k, k + 4).machines;
      && |a| == 4 && IsSortOf(a, a) && a[0].created == a[1].created && MayDelete(a)
      && forall i :: 0 <= i < 4 ==> a[i].name == k + i && a[i].version == V
  {
    StageSorted(clock, k, k + 4);
    var a := Stage(clock, k, k + 4).machines;
    assert forall i :: 0 <= i < 4 ==> a[i] == Joined(clock, k + i);
  }

  /** Two views of the same four tied Machines, the sort returning them in different orders. */
  lemma TiedViews(clock: Clock, k: nat) returns (a: seq<Machine>, v: nat, b: seq<Machine>)
    requires NonDecreasing(clock) && clock(k) == clock(k + 1)
    ensures 0 < v < 4 && Tied(Stage(clock, k, k + 4), a, k + v, b, k)
  {
    a := Stage(clock, k, k + 4).machines;
    StageIsTied(clock, k);
    b := Reordered(a);
    ReorderedIsSort(a);
    v := VictimIndex(a);
    TieIsNotFirst(a);
    SharedProperties(a, b);
  }

  /** Two passes that read the same list, whose sorted views differ in their victim. */
  lemma TwoStalePasses(clock: Clock, h0: seq<Api>, api: Api, a: seq<Machine>, b: seq<Machine>) returns (h: seq<Api>)
    requires RunTo(clock, h0, api)
    requires IsSortOf(a, api.machines) && |a| == 4 && MayDelete(a)
    requires IsSortOf(b, api.machines) && |b| == 4 && MayDelete(b)
    requires forall i :: 0 <= i < 4 ==> a[i].version == V && b[i].version == V
    ensures IsStaleRun(clock, h) && |h| >= 2
    ensures h[|h| - 2] == MarkDeleting(api, Victim(a).name)
    ensures h[|h| - 1] == MarkDeleting(h[|h| - 2], Victim(b).name)
  {
    var s := |h0| - 1;
    var h1 := MarkFromStage(clock, h0, s, a);
    assert h1[s] == h1[..|h0|][s] == api;
    h := MarkFromStage(clock, h1, s, b);
    assert h[|h| - 2] == h[..|h1|][|h1| - 1];
  }

  ghost predicate Clash(api: Api, a: seq<Machine>, b: seq<Machine>) {
    && IsSortOf(a, api.machines) && |a| == 4 && MayDelete(a)
    && IsSortOf(b, api.machines) && |b| == 4 && MayDelete(b)
    && (forall i :: 0 <= i < 4 ==> a[i].version == V && b[i].version == V)
    && var one := MarkDeleting(api, Victim(a).name);
       var two := MarkDeleting(one, Victim(b).name);
       NewMark(one, two) && Unmarked(two) <= 2 && !OneDeletionInFlight(two)
  }

  lemma ClashFrom(api: Api, a: seq<Machine>, first: Name, b: seq<Machine>, second: Name)
    requires Tied(api, a, first, b, second)
    requires NewMark(MarkDeleting(api, first), MarkDeleting(MarkDeleting(api, first), second))
    requires Unmarked(MarkDeleting(MarkDeleting(api, first), second)) <= 2
    requires !OneDeletionInFlight(MarkDeleting(MarkDeleting(api, first), second))
    ensures Clash(api, a, b)
  {
  }

  lemma StageClashes(clock: Clock, k: nat) returns (a: seq<Machine>, b: seq<Machine>)
    requires NonDecreasing(clock) && clock(k) == clock(k + 1)
    ensures Clash(Stage(clock, k, k + 4), a, b)
  {
    var v: nat;
    a, v, b := TiedViews(clock, k);
    TwoMarks(clock, k, v);
    ClashFrom(Stage(clock, k, k + 4), a, k + v, b, k);
  }

  lemma ClashBreaksFloor(clock: Clock, h0: seq<Api>, api: Api, a: seq<Machine>, b: seq<Machine>) returns (h: seq<Api>)
    requires RunTo(clock, h0, api) && Clash(api, a, b)
    ensures IsStaleRun(clock, h) && !KeepsFloor(h) && !OneDeletionInFlight(h[|h| - 1])
  {
    h := TwoStalePasses(clock, h0, api, a, b);
    var n := |h| - 2;
    assert NewMark(h[n], h[n + 1]);
    assert Unmarked(h[n + 1]) <= 2;
  }

  lemma TieBreaksFloor(clock: Clock, k: nat) returns (h: seq<Api>)
    requires NonDecreasing(clock) && FirstTie(clock, k)
    ensures IsStaleRun(clock, h) && !KeepsFloor(h) && !OneDeletionInFlight(h[|h| - 1])
  {
    var h0 := Retired(clock, k, k + 4);
    var a, b := StageClashes(clock, k);
    h := ClashBreaksFloor(clock, h0, Stage(clock, k, k + 4), a, b);
  }

  /** The floor holds on every stale run exactly when no two Machines share a creation second. */
  lemma FloorIffDistinctSeconds(clock: Clock)
    requires NonDecreasing(clock)
    ensures (forall h :: IsStaleRun(clock, h) ==> KeepsFloor(h)) <==> Ticking(clock)
  {
    if Ticking(clock) {
      forall h | IsStaleRun(clock, h)
        ensures KeepsFloor(h)
      {
        StaleFloor(clock, h);
      }
    } else {
      var a: nat, b: nat :| a < b && !(clock(a) < clock(b));
      var k := TieBetween(clock, a, b);
      var h := TieBreaksFloor(clock, k);
    }
  }

  /** And so does the rule of one deletion at a time. */
  lemma OneDeletionIffDistinctSeconds(clock: Clock)
    requires NonDecreasing(clock)
    ensures (forall h, k :: IsStaleRun(clock, h) && 0 <= k < |h| ==> OneDeletionInFlight(h[k])) <==> Ticking(clock)
  {
    if Ticking(clock) {
      forall h, k | IsStaleRun(clock, h) && 0 <= k < |h|
        ensures OneDeletionInFlight(h[k])
      {
        StaleMarksInOrder(clock, h, k);
      }
    } else {
      var a: nat, b: nat :| a < b && !(clock(a) < clock(b));
      var k := TieBetween(clock, a, b);
      var h := TieBreaksFloor(clock, k);
    }
  }
}
