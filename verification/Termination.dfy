/** Scaling and upgrading terminate exactly if time moves on: as long as Machines are created in the same second as an
    off-target one, scaling down may take a new Machine in its place, over and over. */
module Termination {
  import opened Types
  import opened CreationOrder
  import opened Scaling
  import opened StaleRuns
  import opened Ties
  import opened FreshRuns

  ghost predicate Passes(clock: Clock, second: int) {
    exists n: nat :: clock(n) > second
  }

  ghost predicate MovesOn(clock: Clock) {
    forall second: int :: Passes(clock, second)
  }

  /** From every start the runs change the Machines a bounded number of times. */
  ghost predicate Terminates(clock: Clock, spec: Spec, api: Api, bound: nat) {
    forall h, k :: IsFreshRun(clock, spec, h) && h[0] == api && 0 <= k < |h| ==> Changes(h, k) <= bound
  }

  ghost predicate Bounded(clock: Clock, spec: Spec, api: Api) {
    exists bound: nat :: Terminates(clock, spec, api, bound)
  }

  ghost predicate AlwaysTerminates(clock: Clock) {
    forall spec, api :: WellFormed(clock, api) ==> Bounded(clock, spec, api)
  }

  // ---- time moves on -----------------------------------------------------------------------

  lemma {:induction false} LatestSecond(ms: seq<Machine>) returns (second: int)
    ensures forall i :: 0 <= i < |ms| ==> ms[i].created <= second
  {
    if |ms| == 0 {
      second := 0;
    } else {
      second := LatestSecond(ms[1..]);
      second := if second < ms[0].created then ms[0].created else second;
      assert forall i :: 0 < i < |ms| ==> ms[i] == ms[1..][i - 1];
    }
  }

  lemma HorizonExists(clock: Clock, ms: seq<Machine>, target: Version) returns (horizon: nat)
    requires NonDecreasing(clock) && MovesOn(clock)
    ensures Beyond(clock, ms, target, horizon)
  {
    var second := LatestSecond(ms);
    assert Passes(clock, second);
    horizon :| clock(horizon) > second;
    assert forall n: nat :: horizon <= n ==> clock(horizon) <= clock(n);
  }

  lemma MovingOnTerminates(clock: Clock, spec: Spec, api: Api)
    requires NonDecreasing(clock) && MovesOn(clock) && WellFormed(clock, api)
    ensures Bounded(clock, spec, api)
  {
    var horizon := HorizonExists(clock, api.machines, spec.version);
    var bound := Measure(clock, spec, api, horizon);
    forall h, k | IsFreshRun(clock, spec, h) && h[0] == api && 0 <= k < |h|
      ensures Changes(h, k) <= bound
    {
      RunTerminates(clock, spec, h, horizon, k);
    }
    assert Terminates(clock, spec, api, bound);
  }

  // ---- time stands still -------------------------------------------------------------------

  ghost predicate StandsFrom(clock: Clock, n: nat) {
    forall m: nat :: n <= m ==> clock(m) == clock(n)
  }

  lemma {:induction false} StandsStill(clock: Clock, second: int, n: nat) returns (from: nat)
    requires NonDecreasing(clock) && forall m: nat :: clock(m) <= second
    ensures StandsFrom(clock, from)
    decreases second - clock(n)
  {
    if m: nat :| n <= m && clock(m) > clock(n) {
      from := StandsStill(clock, second, m);
    } else {
      from := n;
      assert forall m: nat :: n <= m ==> clock(n) <= clock(m);
    }
  }

  const OLD := Semver(1, 25, "")
  const TARGET := Semver(1, 26, "")
  const SPEC := Spec(3, TARGET, RollingUpgrade)

  function Member(clock: Clock, name: nat, version: Version): Machine {
    Machine(name, clock(name), version, Refs(name, name), false, Some(0), [], None)
  }

  /** An off-target Machine and then two others. */
  function Three(clock: Clock, from: nat): seq<Machine> {
    [Member(clock, from, OLD), Member(clock, from + 1, TARGET), Member(clock, from + 2, TARGET)]
  }

  /** Settled Machines that all share the second, the first of them off target. */
  ghost predicate Tied(clock: Clock, from: nat, ms: seq<Machine>) {
    && |ms| > 0 && OffTarget(ms[0], TARGET)
    && forall i :: 0 <= i < |ms| ==> ms[i].created == clock(from) && !ms[i].deleting && ms[i].nodeRef.Some?
  }

  function With(ms: seq<Machine>, born: nat): Api {
    Api(ms, seq(born, i requires 0 <= i => Refs(i, i)),
        seq(born, i requires 0 <= i => i), seq(born, i requires 0 <= i => i))
  }

  function New(clock: Clock, born: nat): Machine {
    Member(clock, born, TARGET).(nodeRef := None)
  }

  lemma AllTie(clock: Clock, from: nat, ms: seq<Machine>)
    requires StandsFrom(clock, from) && forall i :: 0 <= i < |ms| ==> ms[i].created == clock(from)
    ensures IsSortOf(ms, ms) && (|ms| > 0 ==> VictimIndex(ms) == |ms| - 1)
  {
    if |ms| > 0 {
      LastOldestIsVictim(ms, |ms| - 1);
    }
  }

  /** The oldest Machine is off target and the count is right: one is created. */
  lemma LoopCreates(clock: Clock, from: nat, ms: seq<Machine>, born: nat)
    requires StandsFrom(clock, from) && Tied(clock, from, ms) && |ms| == 3
    ensures PassOn(clock, SPEC, With(ms, born), With(ms, born), With(ms + [New(clock, born)], born + 1))
  {
    var api, next := With(ms, born), With(ms + [New(clock, born)], born + 1);
    AllTie(clock, from, ms);
    assert born !in api.infra && born !in api.configs;
    var calls := Calls(false, _ => LookupFailed, BootCalls(Done, born, Done, born, Done), false, Failed);
    assert RollingCreates(SPEC, ms);
    assert next.born == api.born + [Refs(born, born)];
    assert next.infra == api.infra + [born] && next.configs == api.configs + [born];
    assert MachinesPass(clock, SPEC, ms, calls, api) == next;
  }

  /** The created Machine ties with the others and is listed last: it is the victim. */
  lemma LoopMarks(clock: Clock, from: nat, ms: seq<Machine>, m: Machine, born: nat)
    requires StandsFrom(clock, from) && Tied(clock, from, ms + [m]) && |ms| == 3
    requires forall i :: 0 <= i < 3 ==> ms[i].name != m.name
    ensures PassOn(clock, SPEC, With(ms + [m], born), With(ms + [m], born), With(ms + [m.(deleting := true)], born))
  {
    var all := ms + [m];
    var api := With(all, born);
    AllTie(clock, from, all);
    var calls := Calls(false, _ => LookupFailed, BootCalls(Failed, 0, Failed, 0, Failed), true, Done);
    assert MayDelete(all);
    assert Deletes(SPEC, all, calls) && Victim(all) == m;
    assert MarkDeleting(api, m.name).machines == ms + [m.(deleting := true)];
    assert MachinesPass(clock, SPEC, all, calls, api) == MarkDeleting(api, m.name);
  }

  lemma LoopJoins(clock: Clock, ms: seq<Machine>, born: nat)
    ensures JoinStep(With(ms + [New(clock, born)], born + 1), With(ms + [Member(clock, born, TARGET)], born + 1))
  {
    var api := With(ms + [New(clock, born)], born + 1);
    assert api.machines[|ms| := api.machines[|ms|].(nodeRef := Some(0))] == ms + [Member(clock, born, TARGET)];
    assert Joins(api, |ms|, 0, With(ms + [Member(clock, born, TARGET)], born + 1));
  }

  lemma LoopRemoves(clock: Clock, ms: seq<Machine>, m: Machine, born: nat)
    requires m.deleting
    ensures RemoveStep(With(ms + [m], born), With(ms, born))
  {
    assert (ms + [m])[..|ms|] + (ms + [m])[|ms| + 1..] == ms;
    assert Removes(With(ms + [m], born), |ms|, With(ms, born));
  }

  lemma Then(clock: Clock, h: seq<Api>, api: Api) returns (h': seq<Api>)
    requires IsFreshRun(clock, SPEC, h) && FreshStep(clock, SPEC, h[|h| - 1], api)
    requires api.machines != h[|h| - 1].machines
    ensures h' == h + [api] && IsFreshRun(clock, SPEC, h')
    ensures Changes(h', |h|) == Changes(h, |h| - 1) + 1
  {
    h' := h + [api];
    forall k | 0 <= k < |h'| - 1
      ensures FreshStepAt(clock, SPEC, h', k)
    {
      if k < |h| - 1 {
        assert FreshStepAt(clock, SPEC, h, k);
      }
    }
    ChangesOfPrefix(h, h', |h| - 1);
  }

  lemma {:induction false} ChangesOfPrefix(h: seq<Api>, h': seq<Api>, k: nat)
    requires k < |h| <= |h'| && h'[..|h|] == h
    ensures Changes(h', k) == Changes(h, k)
  {
    assert h'[k] == h'[..|h|][k];
    if k == 0 {
    } else {
      assert h'[k - 1] == h'[..|h|][k - 1];
      ChangesOfPrefix(h, h', k - 1);
    }
  }

  lemma LastDiffers(ms: seq<Machine>, a: Machine, b: Machine)
    requires a != b
    ensures ms + [a] != ms + [b]
  {
    assert (ms + [a])[|ms|] == a && (ms + [b])[|ms|] == b;
  }

  lemma LongerDiffers(ms: seq<Machine>, m: Machine)
    ensures ms + [m] != ms
  {
    assert |ms + [m]| != |ms|;
  }

  lemma LoopGrows(clock: Clock, from: nat, ms: seq<Machine>, born: nat, h: seq<Api>) returns (h': seq<Api>)
    requires StandsFrom(clock, from) && Tied(clock, from, ms) && |ms| == 3
    requires IsFreshRun(clock, SPEC, h) && h[|h| - 1] == With(ms, born)
    ensures IsFreshRun(clock, SPEC, h') && h'[0] == h[0]
    ensures h'[|h'| - 1] == With(ms + [Member(clock, born, TARGET)], born + 1)
    ensures Changes(h', |h'| - 1) == Changes(h, |h| - 1) + 2
  {
    var m := Member(clock, born, TARGET);
    LoopCreates(clock, from, ms, born);
    h' := Then(clock, h, With(ms + [New(clock, born)], born + 1));
    LoopJoins(clock, ms, born);
    LastDiffers(ms, m, New(clock, born));
    LongerDiffers(ms, New(clock, born));
    h' := Then(clock, h', With(ms + [m], born + 1));
  }

  lemma LoopShrinks(clock: Clock, from: nat, ms: seq<Machine>, m: Machine, born: nat, h: seq<Api>)
    returns (h': seq<Api>)
    requires StandsFrom(clock, from) && Tied(clock, from, ms + [m]) && |ms| == 3
    requires !m.deleting && forall i :: 0 <= i < 3 ==> ms[i].name != m.name
    requires IsFreshRun(clock, SPEC, h) && h[|h| - 1] == With(ms + [m], born)
    ensures IsFreshRun(clock, SPEC, h') && h'[0] == h[0] && h'[|h'| - 1] == With(ms, born)
    ensures Changes(h', |h'| - 1) == Changes(h, |h| - 1) + 2
  {
    var gone := m.(deleting := true);
    LoopMarks(clock, from, ms, m, born);
    LastDiffers(ms, m, gone);
    LongerDiffers(ms, gone);
    h' := Then(clock, h, With(ms + [gone], born));
    LoopRemoves(clock, ms, gone, born);
    h' := Then(clock, h', With(ms, born));
  }

  /** Once round: create, join, mark, remove. */
  lemma OneLoop(clock: Clock, from: nat, ms: seq<Machine>, born: nat, h: seq<Api>) returns (h': seq<Api>)
    requires StandsFrom(clock, from) && Tied(clock, from, ms) && |ms| == 3 && from <= born
    requires forall i :: 0 <= i < 3 ==> ms[i].name < born
    requires IsFreshRun(clock, SPEC, h) && h[|h| - 1] == With(ms, born)
    ensures IsFreshRun(clock, SPEC, h') && h'[|h'| - 1] == With(ms, born + 1) && h'[0] == h[0]
    ensures Changes(h', |h'| - 1) == Changes(h, |h| - 1) + 4
  {
    h' := LoopGrows(clock, from, ms, born, h);
    h' := LoopShrinks(clock, from, ms, Member(clock, born, TARGET), born + 1, h');
  }

  lemma ThreeAreTied(clock: Clock, from: nat)
    requires StandsFrom(clock, from)
    ensures Tied(clock, from, Three(clock, from))
    ensures forall i :: 0 <= i < 3 ==> Three(clock, from)[i].name == from + i
  {
  }

  lemma LoopStarts(clock: Clock, from: nat)
    ensures WellFormed(clock, With(Three(clock, from), from + 3))
  {
  }

  lemma {:induction false} Loops(clock: Clock, from: nat, rounds: nat) returns (h: seq<Api>)
    requires StandsFrom(clock, from)
    ensures IsFreshRun(clock, SPEC, h) && h[0] == With(Three(clock, from), from + 3)
    ensures h[|h| - 1] == With(Three(clock, from), from + 3 + rounds)
    ensures Changes(h, |h| - 1) == 4 * rounds
  {
    if rounds == 0 {
      h := [With(Three(clock, from), from + 3)];
      LoopStarts(clock, from);
    } else {
      h := Loops(clock, from, rounds - 1);
      ThreeAreTied(clock, from);
      h := OneLoop(clock, from, Three(clock, from), from + 3 + rounds - 1, h);
    }
  }

  /** Three replicas and a RollingUpgrade, the off-target Machine listed first: with time standing still there are runs
      that replace a new Machine by another as often as one likes. */
  lemma StandingStillLoops(clock: Clock, from: nat, bound: nat)
    requires StandsFrom(clock, from)
    ensures !Terminates(clock, SPEC, With(Three(clock, from), from + 3), bound)
  {
    var h := Loops(clock, from, bound + 1);
    assert Changes(h, |h| - 1) > bound;
  }

  /** All fresh runs from all starts and for all specs are bounded if and only if no second lasts for ever. */
  lemma TerminatesIffTimeMovesOn(clock: Clock)
    requires NonDecreasing(clock)
    ensures AlwaysTerminates(clock) <==> MovesOn(clock)
  {
    if MovesOn(clock) {
      forall spec, api | WellFormed(clock, api)
        ensures Bounded(clock, spec, api)
      {
        MovingOnTerminates(clock, spec, api);
      }
    } else {
      var second: int :| !Passes(clock, second);
      var from := StandsStill(clock, second, 0);
      LoopStarts(clock, from);
      var start := With(Three(clock, from), from + 3);
      if Bounded(clock, SPEC, start) {
        var bound: nat :| Terminates(clock, SPEC, start, bound);
        StandingStillLoops(clock, from, bound);
      }
    }
  }
}
