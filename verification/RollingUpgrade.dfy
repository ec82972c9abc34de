/** The rolling upgrade that creating on the exact count and deleting above it add up to, from any start. */
module RollingUpgrade {
  import opened Types
  import opened CreationOrder
  import opened Scaling
  import opened StaleRuns
  import opened Ties
  import opened FreshRuns
  import opened FixedPoints
  import opened VersionOrder

  // ---- the Machines not being deleted ------------------------------------------------------

  function Live(ms: seq<Machine>): (r: seq<Machine>)
    ensures |r| == Count(ms, Alive)
    ensures forall i :: 0 <= i < |r| ==> Alive(r[i])
  {
    if |ms| == 0 then [] else (if Alive(ms[0]) then [ms[0]] else []) + Live(ms[1..])
  }

  lemma {:induction false} LiveConcat(s: seq<Machine>, t: seq<Machine>)
    ensures Live(s + t) == Live(s) + Live(t)
  {
    if |s| == 0 {
      assert s + t == t;
    } else {
      assert (s + t)[1..] == s[1..] + t;
      LiveConcat(s[1..], t);
    }
  }

  lemma {:induction false} AllLive(ms: seq<Machine>)
    ensures |Live(ms)| == |ms| <==> forall i :: 0 <= i < |ms| ==> Alive(ms[i])
    ensures |Live(ms)| == |ms| ==> Live(ms) == ms
  {
    CountZero(ms, Alive);
    if |ms| == 0 {
    } else {
      AllLive(ms[1..]);
    }
  }

  lemma {:induction false} LiveRemove(ms: seq<Machine>, i: nat)
    requires i < |ms| && ms[i].deleting
    ensures Live(ms[..i] + ms[i + 1..]) == Live(ms)
  {
    if i == 0 {
      assert ms[..i] + ms[i + 1..] == ms[1..];
    } else {
      assert (ms[..i] + ms[i + 1..])[1..] == ms[1..][..i - 1] + ms[1..][i..];
      LiveRemove(ms[1..], i - 1);
    }
  }

  lemma LiveOfLive(ms: seq<Machine>)
    requires forall i :: 0 <= i < |ms| ==> Alive(ms[i])
    ensures Live(ms) == ms
  {
    AllLive(ms);
  }

  lemma LiveSkips(ms: seq<Machine>)
    requires |ms| > 0 && ms[0].deleting
    ensures Live(ms) == Live(ms[1..])
  {
  }

  lemma LiveBetween(s: seq<Machine>, mt: seq<Machine>)
    requires |mt| > 0 && mt[0].deleting
    ensures Live(s + mt) == Live(s) + Live(mt[1..])
  {
    LiveConcat(s, mt);
    LiveSkips(mt);
  }

  lemma LiveMark(ms: seq<Machine>, k: nat)
    requires k < |ms| && forall i :: 0 <= i < |ms| ==> Alive(ms[i])
    ensures Live(ms) == ms && Live(ms[k := ms[k].(deleting := true)]) == ms[..k] + ms[k + 1..]
  {
    var m := ms[k].(deleting := true);
    var s, t := ms[..k], ms[k + 1..];
    var mt := [m] + t;
    assert ms[k := m] == s + mt && mt[1..] == t;
    LiveBetween(s, mt);
    LiveOfLive(ms);
    LiveOfLive(s);
    LiveOfLive(t);
  }

  lemma {:induction false} LiveJoin(ms: seq<Machine>, i: nat, node: Name)
    requires i < |ms|
    ensures
      var t := ms[i := ms[i].(nodeRef := Some(node))];
      && |Live(t)| == |Live(ms)|
      && forall j :: 0 <= j < |Live(ms)| ==> Live(t)[j] == Live(ms)[j].(nodeRef := Live(t)[j].nodeRef)
  {
    var t := ms[i := ms[i].(nodeRef := Some(node))];
    if i == 0 {
      assert t[1..] == ms[1..];
    } else {
      assert t[1..] == ms[1..][i - 1 := ms[1..][i - 1].(nodeRef := Some(node))];
      LiveJoin(ms[1..], i - 1, node);
    }
  }

  // ---- what an upgrade replaces ------------------------------------------------------------

  /** The number of off-target Machines before the first other one. */
  function Leading(ms: seq<Machine>, target: Version): (n: nat)
    ensures n <= |ms|
    ensures forall i :: 0 <= i < n ==> OffTarget(ms[i], target)
    ensures n < |ms| ==> !OffTarget(ms[n], target)
  {
    if |ms| == 0 || !OffTarget(ms[0], target) then 0 else 1 + Leading(ms[1..], target)
  }

  /** Of the unmarked Machines at the start, those above the desired number go first, whatever their version. */
  function Surplus(spec: Spec, initial: seq<Machine>): (n: nat)
    requires spec.replicas >= 0
    ensures n <= |initial|
  {
    if |initial| > spec.replicas then |initial| - spec.replicas else 0
  }

  function Kept(spec: Spec, initial: seq<Machine>): seq<Machine>
    requires spec.replicas >= 0
  {
    initial[Surplus(spec, initial)..]
  }

  /** How many of them go in all. */
  function Replaced(spec: Spec, initial: seq<Machine>): (n: nat)
    requires spec.replicas >= 0
    ensures n <= |initial|
  {
    Surplus(spec, initial) + Leading(Kept(spec, initial), spec.version)
  }

  /** `surplus` Machines go first, then those up to n, which are off target; the next one is not. */
  predicate Cut(spec: Spec, initial: seq<Machine>, surplus: nat, n: nat) {
    && surplus <= n <= |initial|
    && (if |initial| > spec.replicas then surplus == |initial| - spec.replicas else surplus == 0)
    && (forall j :: surplus <= j < n ==> OffTarget(initial[j], spec.version))
    && (n < |initial| ==> !OffTarget(initial[n], spec.version))
  }

  lemma ReplacedIsCut(spec: Spec, initial: seq<Machine>)
    requires spec.replicas >= 0
    ensures Cut(spec, initial, Surplus(spec, initial), Replaced(spec, initial))
  {
    LeadingFrom(initial, Surplus(spec, initial), spec.version);
  }

  lemma LeadingFrom(ms: seq<Machine>, surplus: nat, target: Version)
    requires surplus <= |ms|
    ensures
      var n := surplus + Leading(ms[surplus..], target);
      && n <= |ms| && (forall j :: surplus <= j < n ==> OffTarget(ms[j], target))
      && (n < |ms| ==> !OffTarget(ms[n], target))
  {
    var kept := ms[surplus..];
    assert forall j :: surplus <= j < |ms| ==> ms[j] == kept[j - surplus];
  }

  // ---- what shared seconds must leave alone ------------------------------------------------

  /** The first p of the initial Machines are older than the others, and than all created from `base` on. */
  ghost predicate OlderFirst(clock: Clock, initial: seq<Machine>, base: nat, p: nat) {
    && (forall i, j :: 0 <= i < p <= j < |initial| ==> initial[i].created < initial[j].created)
    && (forall i, n: nat :: 0 <= i < p && i < |initial| && base <= n ==> initial[i].created < clock(n))
  }

  ghost predicate DecidedAt(
    clock: Clock, spec: Spec, initial: seq<Machine>, base: nat, surplus: nat, n: nat)
  {
    && OlderFirst(clock, initial, base, surplus) && OlderFirst(clock, initial, base, n)
    && forall j :: n < j < |initial| && OffTarget(initial[j], spec.version) ==> initial[n].created < initial[j].created
  }

  /** Seconds are shared at most by Machines that scaling down takes, by Machines that the upgrade replaces, or by
      Machines that stay; and the first that stays is older than any off-target one that does. */
  ghost predicate Decided(clock: Clock, spec: Spec, initial: seq<Machine>, base: nat)
    requires spec.replicas >= 0
  {
    DecidedAt(clock, spec, initial, base, Surplus(spec, initial), Replaced(spec, initial))
  }

  lemma {:induction false} LiveAreListed(ms: seq<Machine>)
    ensures forall m :: m in Live(ms) ==> m in ms
  {
    if |ms| == 0 {
    } else {
      LiveAreListed(ms[1..]);
      assert forall m :: m in ms[1..] ==> m in ms;
    }
  }

  predicate NamesRise(ms: seq<Machine>) {
    forall i, j :: 0 <= i < j < |ms| ==> ms[i].name < ms[j].name
  }

  lemma RiseFrom(m: Machine, rest: seq<Machine>)
    requires NamesRise(rest) && forall x :: x in rest ==> m.name < x.name
    ensures NamesRise([m] + rest)
  {
  }

  lemma {:induction false} LiveNamesRise(ms: seq<Machine>)
    requires NamesRise(ms)
    ensures NamesRise(Live(ms))
  {
    if |ms| == 0 {
    } else {
      LiveNamesRise(ms[1..]);
      LiveAreListed(ms[1..]);
      RiseFrom(ms[0], Live(ms[1..]));
    }
  }

  lemma StrictIsDecided(clock: Clock, spec: Spec, initial: seq<Machine>, base: nat, surplus: nat, n: nat)
    requires StrictlySorted(initial) && surplus <= n <= |initial|
    requires forall i, m: nat :: 0 <= i < |initial| && base <= m ==> initial[i].created < clock(m)
    ensures DecidedAt(clock, spec, initial, base, surplus, n)
  {
  }

  /** It is enough that no two Machines share a second. */
  lemma TickingDecides(clock: Clock, spec: Spec, api: Api)
    requires Ticking(clock) && WellFormed(clock, api) && spec.replicas >= 0
    ensures Decided(clock, spec, Live(api.machines), |api.born|)
  {
    var live := Live(api.machines);
    LiveNamesRise(api.machines);
    LiveAreListed(api.machines);
    forall i | 0 <= i < |live|
      ensures live[i].name < |api.born| && live[i].created == clock(live[i].name)
    {
      assert live[i] in api.machines;
    }
    StrictIsDecided(clock, spec, live, |api.born|, Surplus(spec, live), Replaced(spec, live));
  }

  // ---- the invariant -----------------------------------------------------------------------

  /** m is `was` but for the node and what came with it. */
  predicate Stays(was: Machine, m: Machine) {
    m.name == was.name && m.version == was.version && m.created == was.created
  }

  /** The j-th Machine of the upgrade: first the initial ones, then the ones created, named from `base` on. */
  predicate Placed(clock: Clock, spec: Spec, initial: seq<Machine>, base: nat, j: int, m: Machine) {
    && 0 <= j
    && if j < |initial| then Stays(initial[j], m)
       else
         var name := base + j - |initial|;
         m.name == name && m.version == spec.version && m.created == clock(name)
  }

  /** m is one of the initial Machines from place `lo` to before `hi`. */
  predicate Among(initial: seq<Machine>, lo: int, hi: int, m: Machine) {
    exists j :: 0 <= j < |initial| && lo <= j < hi && Stays(initial[j], m)
  }

  /** How many Machines have been marked when `born` have been created and `live` are unmarked. */
  function Passed(initial: seq<Machine>, base: nat, live: seq<Machine>, born: nat): int {
    |initial| + born - base - |live|
  }

  /** The first `front` of the unmarked Machines are among those of the initial places from `lo` to before `hi`; all
      others are in their places. */
  predicate Split(
    clock: Clock, spec: Spec, initial: seq<Machine>, base: nat, live: seq<Machine>, passed: int, lo: int, hi: int)
  {
    && 0 <= hi - passed <= |live|
    && (forall i :: 0 <= i < hi - passed ==> Among(initial, lo, hi, live[i]))
    && (forall i :: hi - passed <= i < |live| ==> Placed(clock, spec, initial, base, passed + i, live[i]))
  }

  /** First the surplus goes, in any order that the seconds allow, and then those that the upgrade replaces. More than
      desired are left over from the start, or are one more with some Machine still to be replaced. */
  ghost predicate Window(
    clock: Clock, spec: Spec, initial: seq<Machine>, base: nat, surplus: nat, n: nat, live: seq<Machine>, born: nat)
  {
    var passed := Passed(initial, base, live, born);
    && base <= born && 0 <= passed <= n
    && (if passed < surplus then Split(clock, spec, initial, base, live, passed, 0, surplus)
        else Split(clock, spec, initial, base, live, passed, surplus, n))
    && (|live| > spec.replicas && born > base ==> |live| == spec.replicas + 1 && passed < n)
    && RollsOver(spec, |live|)
  }

  /** An oldest Machine is at the front as long as there is one. */
  lemma OldestIsFront(
    clock: Clock, spec: Spec, initial: seq<Machine>, base: nat, live: seq<Machine>, passed: int, lo: int, hi: nat,
    v: nat)
    requires Split(clock, spec, initial, base, live, passed, lo, hi) && passed < hi <= |initial| && 0 <= passed
    requires OlderFirst(clock, initial, base, hi)
    requires v < |live| && Oldest(live[v], live)
    ensures v < hi - passed
  {
    forall w: nat | hi - passed <= w < |live|
      ensures live[0].created < live[w].created
    {
      assert Among(initial, lo, hi, live[0]);
      assert Placed(clock, spec, initial, base, passed + w, live[w]);
    }
  }

  function Without(ms: seq<Machine>, v: nat): (r: seq<Machine>)
    requires v < |ms|
    ensures |r| == |ms| - 1
    ensures forall i :: 0 <= i < v ==> r[i] == ms[i]
    ensures forall i :: v <= i < |r| ==> r[i] == ms[i + 1]
  {
    ms[..v] + ms[v + 1..]
  }

  lemma SplitWithout(
    clock: Clock, spec: Spec, initial: seq<Machine>, base: nat, live: seq<Machine>, passed: int, lo: int, hi: int,
    v: nat)
    requires Split(clock, spec, initial, base, live, passed, lo, hi) && v < hi - passed
    ensures Split(clock, spec, initial, base, Without(live, v), passed + 1, lo, hi)
  {
    var live' := Without(live, v);
    forall i | 0 <= i < hi - passed - 1
      ensures Among(initial, lo, hi, live'[i])
    {
      assert Among(initial, lo, hi, live[if i < v then i else i + 1]);
    }
    forall i | hi - passed - 1 <= i < |live'|
      ensures Placed(clock, spec, initial, base, passed + 1 + i, live'[i])
    {
      assert Placed(clock, spec, initial, base, passed + (i + 1), live[i + 1]);
    }
  }

  /** Machines in their places are among those places. */
  lemma SplitFurther(
    clock: Clock, spec: Spec, initial: seq<Machine>, base: nat, live: seq<Machine>, passed: nat, lo: int, hi: nat)
    requires Split(clock, spec, initial, base, live, passed, lo, passed) && passed <= hi <= |initial|
    requires hi - passed <= |live|
    ensures Split(clock, spec, initial, base, live, passed, passed, hi)
  {
    forall i | 0 <= i < hi - passed
      ensures Among(initial, passed, hi, live[i])
    {
      assert Placed(clock, spec, initial, base, passed + i, live[i]);
    }
  }

  lemma MarkTakesSurplus(
    clock: Clock, spec: Spec, initial: seq<Machine>, base: nat, surplus: nat, n: nat, live: seq<Machine>, passed: nat,
    v: nat)
    requires passed < surplus <= n <= |initial| && n - passed <= |live|
    requires Split(clock, spec, initial, base, live, passed, 0, surplus)
    requires OlderFirst(clock, initial, base, surplus) && v < |live| && Oldest(live[v], live)
    ensures
      if passed + 1 < surplus then Split(clock, spec, initial, base, Without(live, v), passed + 1, 0, surplus)
      else Split(clock, spec, initial, base, Without(live, v), passed + 1, surplus, n)
  {
    OldestIsFront(clock, spec, initial, base, live, passed, 0, surplus, v);
    SplitWithout(clock, spec, initial, base, live, passed, 0, surplus, v);
    if passed + 1 == surplus {
      SplitFurther(clock, spec, initial, base, Without(live, v), surplus, 0, n);
    }
  }

  lemma MarkTakesReplaced(
    clock: Clock, spec: Spec, initial: seq<Machine>, base: nat, surplus: nat, n: nat, live: seq<Machine>, passed: nat,
    v: nat)
    requires surplus <= passed < n <= |initial|
    requires Split(clock, spec, initial, base, live, passed, surplus, n)
    requires OlderFirst(clock, initial, base, n) && v < |live| && Oldest(live[v], live)
    ensures Split(clock, spec, initial, base, Without(live, v), passed + 1, surplus, n)
  {
    OldestIsFront(clock, spec, initial, base, live, passed, surplus, n, v);
    SplitWithout(clock, spec, initial, base, live, passed, surplus, n, v);
  }

  lemma MarkKeepsWindow(
    clock: Clock, spec: Spec, initial: seq<Machine>, base: nat, surplus: nat, n: nat, live: seq<Machine>, born: nat,
    v: nat)
    requires spec.replicas >= 3 && Cut(spec, initial, surplus, n)
    requires Window(clock, spec, initial, base, surplus, n, live, born) && |live| > spec.replicas
    requires DecidedAt(clock, spec, initial, base, surplus, n) && v < |live| && Oldest(live[v], live)
    ensures Window(clock, spec, initial, base, surplus, n, Without(live, v), born)
  {
    var passed := Passed(initial, base, live, born);
    assert Passed(initial, base, Without(live, v), born) == passed + 1;
    if passed < surplus {
      MarkTakesSurplus(clock, spec, initial, base, surplus, n, live, passed, v);
    } else {
      MarkTakesReplaced(clock, spec, initial, base, surplus, n, live, passed, v);
    }
  }

  lemma FrontIsOff(
    clock: Clock, spec: Spec, initial: seq<Machine>, base: nat, surplus: nat, n: nat, live: seq<Machine>, passed: nat,
    v: nat)
    requires Cut(spec, initial, surplus, n) && Split(clock, spec, initial, base, live, passed, surplus, n)
    requires v < n - passed
    ensures OffTarget(live[v], spec.version)
  {
    assert Among(initial, surplus, n, live[v]);
  }

  lemma RestIsOn(
    clock: Clock, spec: Spec, initial: seq<Machine>, base: nat, surplus: nat, n: nat, live: seq<Machine>, v: nat)
    requires Cut(spec, initial, surplus, n) && Split(clock, spec, initial, base, live, n, surplus, n)
    requires DecidedAt(clock, spec, initial, base, surplus, n) && v < |live| && Oldest(live[v], live)
    ensures !OffTarget(live[v], spec.version)
  {
    assert Placed(clock, spec, initial, base, n + v, live[v]);
    assert Placed(clock, spec, initial, base, n, live[0]);
    assert live[v].created <= live[0].created;
  }

  /** Once those to be replaced have gone, every oldest Machine is on target; as long as some are left and the surplus
      is gone, every oldest Machine is off target. */
  lemma OldestTells(
    clock: Clock, spec: Spec, initial: seq<Machine>, base: nat, surplus: nat, n: nat, live: seq<Machine>, born: nat,
    v: nat)
    requires Cut(spec, initial, surplus, n) && Window(clock, spec, initial, base, surplus, n, live, born)
    requires DecidedAt(clock, spec, initial, base, surplus, n) && v < |live| && Oldest(live[v], live)
    requires |live| <= spec.replicas
    ensures OffTarget(live[v], spec.version) <==> Passed(initial, base, live, born) < n
  {
    var passed := Passed(initial, base, live, born);
    if passed < n {
      OldestIsFront(clock, spec, initial, base, live, passed, surplus, n, v);
      FrontIsOff(clock, spec, initial, base, surplus, n, live, passed, v);
    } else {
      RestIsOn(clock, spec, initial, base, surplus, n, live, v);
    }
  }

  lemma AppendKeepsSplit(
    clock: Clock, spec: Spec, initial: seq<Machine>, base: nat, live: seq<Machine>, passed: int, lo: int, hi: int,
    m: Machine)
    requires Split(clock, spec, initial, base, live, passed, lo, hi)
    requires Placed(clock, spec, initial, base, passed + |live|, m)
    ensures Split(clock, spec, initial, base, live + [m], passed, lo, hi)
  {
  }

  ghost predicate SomeOldestOff(spec: Spec, live: seq<Machine>) {
    exists v: nat :: v < |live| && Oldest(live[v], live) && OffTarget(live[v], spec.version)
  }

  /** At the desired count, the probe finds an upgrade due only while some Machine is still to be replaced. */
  lemma SomeAreLeft(
    clock: Clock, spec: Spec, initial: seq<Machine>, base: nat, surplus: nat, n: nat, live: seq<Machine>, born: nat)
    requires Cut(spec, initial, surplus, n) && Window(clock, spec, initial, base, surplus, n, live, born)
    requires DecidedAt(clock, spec, initial, base, surplus, n)
    requires |live| == spec.replicas && SomeOldestOff(spec, live)
    ensures Passed(initial, base, live, born) < n
  {
    var v: nat :| v < |live| && Oldest(live[v], live) && OffTarget(live[v], spec.version);
    OldestTells(clock, spec, initial, base, surplus, n, live, born, v);
  }

  lemma CreationKeepsWindow(
    clock: Clock, spec: Spec, initial: seq<Machine>, base: nat, surplus: nat, n: nat, live: seq<Machine>, born: nat,
    m: Machine)
    requires Cut(spec, initial, surplus, n) && Window(clock, spec, initial, base, surplus, n, live, born)
    requires DecidedAt(clock, spec, initial, base, surplus, n)
    requires |live| < spec.replicas || (|live| == spec.replicas && SomeOldestOff(spec, live))
    requires m.name == born && m.version == spec.version && m.created == clock(born)
    ensures Window(clock, spec, initial, base, surplus, n, live + [m], born + 1)
  {
    var passed := Passed(initial, base, live, born);
    assert surplus <= passed && Passed(initial, base, live + [m], born + 1) == passed;
    AppendKeepsSplit(clock, spec, initial, base, live, passed, surplus, n, m);
    if |live| == spec.replicas {
      SomeAreLeft(clock, spec, initial, base, surplus, n, live, born);
    }
  }

  lemma JoinKeepsSplit(
    clock: Clock, spec: Spec, initial: seq<Machine>, base: nat, live: seq<Machine>, passed: int, lo: int, hi: int,
    live': seq<Machine>)
    requires Split(clock, spec, initial, base, live, passed, lo, hi) && |live'| == |live|
    requires forall j :: 0 <= j < |live| ==> live'[j] == live[j].(nodeRef := live'[j].nodeRef)
    ensures Split(clock, spec, initial, base, live', passed, lo, hi)
  {
    forall i | 0 <= i < hi - passed
      ensures Among(initial, lo, hi, live'[i])
    {
      assert Among(initial, lo, hi, live[i]);
    }
    forall i | hi - passed <= i < |live'|
      ensures Placed(clock, spec, initial, base, passed + i, live'[i])
    {
      assert Placed(clock, spec, initial, base, passed + i, live[i]);
    }
  }

  lemma JoinKeepsWindow(
    clock: Clock, spec: Spec, initial: seq<Machine>, base: nat, surplus: nat, n: nat, live: seq<Machine>, born: nat,
    live': seq<Machine>)
    requires Window(clock, spec, initial, base, surplus, n, live, born) && |live'| == |live|
    requires forall j :: 0 <= j < |live| ==> live'[j] == live[j].(nodeRef := live'[j].nodeRef)
    ensures Window(clock, spec, initial, base, surplus, n, live', born)
  {
    var passed := Passed(initial, base, live, born);
    if passed < surplus {
      JoinKeepsSplit(clock, spec, initial, base, live, passed, 0, surplus, live');
    } else {
      JoinKeepsSplit(clock, spec, initial, base, live, passed, surplus, n, live');
    }
  }

  /** The window of a state, seen from the start. */
  ghost predicate InWindow(clock: Clock, spec: Spec, start: Api, api: Api)
    requires spec.replicas >= 0
  {
    var initial := Live(start.machines);
    Window(clock, spec, initial, |start.born|, Surplus(spec, initial), Replaced(spec, initial),
           Live(api.machines), |api.born|)
  }

  /** What a rolling pass can do to the unmarked Machines. */
  ghost predicate Moves(
    clock: Clock, spec: Spec, live: seq<Machine>, born: nat, live': seq<Machine>, born': nat)
  {
    || (live' == live && born' == born)
    || (&& born' == born + 1
        && (|live| < spec.replicas || (|live| == spec.replicas && SomeOldestOff(spec, live)))
        && exists m: Machine ::
             m.name == born && m.version == spec.version && m.created == clock(born) && live' == live + [m])
    || (&& |live| > spec.replicas && born' == born
        && exists v: nat :: v < |live| && Oldest(live[v], live) && live' == Without(live, v))
  }

  lemma RollingCreation(clock: Clock, spec: Spec, view: seq<Machine>, api: Api, api': Api)
    requires IsSortOf(view, api.machines) && Creates(clock, spec, view, api.machines, api, api')
    ensures Moves(clock, spec, Live(api.machines), |api.born|, Live(api'.machines), |api'.born|)
  {
    var ms := api.machines;
    SameMembers(view, ms);
    AllLive(ms);
    var refs :| && api'.machines == ms + [NewMachine(clock, api, spec.version, refs)]
                && api'.born == api.born + [refs];
    var m := NewMachine(clock, api, spec.version, refs);
    LiveConcat(ms, [m]);
    assert Live([m]) == [m];
    if |Live(ms)| == spec.replicas {
      HeadIsOldest(view, ms);
      var v := PlaceOf(ms, view[0]);
    }
  }

  lemma RollingPass(clock: Clock, spec: Spec, api: Api, api': Api)
    requires WellFormed(clock, api) && PassOn(clock, spec, api, api, api')
    requires RollsOver(spec, |Live(api.machines)|)
    ensures Moves(clock, spec, Live(api.machines), |api.born|, Live(api'.machines), |api'.born|)
  {
    var view, mid := FreshPass(clock, spec, api, api');
    var ms := api.machines;
    SameMembers(view, ms);
    assert RollsOver(spec, |view|) && mid == ms;
    if Creates(clock, spec, view, mid, api, api') {
      RollingCreation(clock, spec, view, api, api');
    } else if k: nat :| MarksAt(spec, mid, api, api', k) {
      assert forall i :: 0 <= i < |ms| ==> Alive(ms[i]);
      LiveMark(ms, k);
      assert Live(api'.machines) == Without(Live(ms), k);
    }
  }

  lemma MoveKeepsWindow(
    clock: Clock, spec: Spec, initial: seq<Machine>, base: nat, surplus: nat, n: nat, live: seq<Machine>, born: nat,
    live': seq<Machine>, born': nat)
    requires spec.replicas >= 3 && Cut(spec, initial, surplus, n)
    requires Window(clock, spec, initial, base, surplus, n, live, born)
    requires DecidedAt(clock, spec, initial, base, surplus, n) && Moves(clock, spec, live, born, live', born')
    ensures Window(clock, spec, initial, base, surplus, n, live', born')
  {
    if live' == live && born' == born {
      assert Window(clock, spec, initial, base, surplus, n, live', born');
    } else if born' == born + 1 {
      var m: Machine :|
        m.name == born && m.version == spec.version && m.created == clock(born) && live' == live + [m];
      CreationKeepsWindow(clock, spec, initial, base, surplus, n, live, born, m);
    } else {
      var v: nat :| v < |live| && Oldest(live[v], live) && live' == Without(live, v);
      MarkKeepsWindow(clock, spec, initial, base, surplus, n, live, born, v);
    }
  }

  lemma PassKeepsWindow(clock: Clock, spec: Spec, start: Api, api: Api, api': Api)
    requires spec.replicas >= 3 && Decided(clock, spec, Live(start.machines), |start.born|)
    requires WellFormed(clock, api) && InWindow(clock, spec, start, api) && PassOn(clock, spec, api, api, api')
    ensures InWindow(clock, spec, start, api')
  {
    RollingPass(clock, spec, api, api');
    var initial := Live(start.machines);
    ReplacedIsCut(spec, initial);
    MoveKeepsWindow(clock, spec, initial, |start.born|, Surplus(spec, initial), Replaced(spec, initial),
                    Live(api.machines), |api.born|, Live(api'.machines), |api'.born|);
  }

  lemma StepKeepsWindow(clock: Clock, spec: Spec, start: Api, api: Api, api': Api)
    requires spec.replicas >= 3 && Decided(clock, spec, Live(start.machines), |start.born|)
    requires WellFormed(clock, api) && InWindow(clock, spec, start, api) && FreshStep(clock, spec, api, api')
    ensures InWindow(clock, spec, start, api')
  {
    var initial := Live(start.machines);
    if JoinStep(api, api') {
      var i: nat, node: Name :| Joins(api, i, node, api');
      LiveJoin(api.machines, i, node);
      JoinKeepsWindow(clock, spec, initial, |start.born|, Surplus(spec, initial), Replaced(spec, initial),
                      Live(api.machines), |api.born|, Live(api'.machines));
    } else if RemoveStep(api, api') {
      var i: nat :| Removes(api, i, api');
      LiveRemove(api.machines, i);
    } else {
      PassKeepsWindow(clock, spec, start, api, api');
    }
  }

  /** A fresh run of a rolling strategy with at least three replicas, from any Machines whose shared seconds leave the
      outcome decided. The smart strategy rolls when three of them are unmarked. */
  ghost predicate IsRollingRun(clock: Clock, spec: Spec, h: seq<Api>) {
    && spec.replicas >= 3 && IsFreshRun(clock, spec, h)
    && RollsOver(spec, |Live(h[0].machines)|)
    && Decided(clock, spec, Live(h[0].machines), |h[0].born|)
  }

  lemma StartIsWindow(clock: Clock, spec: Spec, initial: seq<Machine>, base: nat, surplus: nat, n: nat)
    requires RollsOver(spec, |initial|) && surplus <= n <= |initial|
    requires surplus == 0 || surplus + spec.replicas == |initial|
    ensures Window(clock, spec, initial, base, surplus, n, initial, base)
  {
    forall i | 0 <= i < |initial|
      ensures Placed(clock, spec, initial, base, i, initial[i])
    {
    }
    forall i, hi | 0 <= i < hi <= |initial|
      ensures Among(initial, 0, hi, initial[i])
    {
      assert Stays(initial[i], initial[i]);
    }
  }

  lemma RunStepKeepsWindow(clock: Clock, spec: Spec, h: seq<Api>, k: nat)
    requires IsRollingRun(clock, spec, h) && k + 1 < |h| && InWindow(clock, spec, h[0], h[k])
    ensures InWindow(clock, spec, h[0], h[k + 1])
  {
    RunKeepsWellFormed(clock, spec, h, k);
    assert FreshStepAt(clock, spec, h, k);
    StepKeepsWindow(clock, spec, h[0], h[k], h[k + 1]);
  }

  lemma {:induction false} RunKeepsWindow(clock: Clock, spec: Spec, h: seq<Api>, k: nat)
    requires IsRollingRun(clock, spec, h) && k < |h|
    ensures InWindow(clock, spec, h[0], h[k])
  {
    if k == 0 {
      var initial := Live(h[0].machines);
      StartIsWindow(clock, spec, initial, |h[0].born|, Surplus(spec, initial), Replaced(spec, initial));
    } else {
      RunKeepsWindow(clock, spec, h, k - 1);
      RunStepKeepsWindow(clock, spec, h, k - 1);
    }
  }

  // ---- the theorems ------------------------------------------------------------------------

  function Created(start: Api, api: Api): int {
    |api.born| - |start.born|
  }

  /** How many Machines have been marked since the start. */
  function Retired(start: Api, api: Api): int {
    Passed(Live(start.machines), |start.born|, Live(api.machines), |api.born|)
  }

  function Removed(start: Api, api: Api): int {
    |start.machines| + Created(start, api) - |api.machines|
  }

  /** What is listed in the end: the Machines after those replaced, then the created ones. */
  ghost predicate IsResult(clock: Clock, spec: Spec, initial: seq<Machine>, base: nat, n: nat, ms: seq<Machine>) {
    && |ms| == spec.replicas
    && forall i :: 0 <= i < |ms| ==> Placed(clock, spec, initial, base, n + i, ms[i])
  }

  lemma {:induction false} OldestExists(ms: seq<Machine>) returns (v: nat)
    requires |ms| > 0
    ensures v < |ms| && Oldest(ms[v], ms)
  {
    if |ms| == 1 {
      v := 0;
    } else {
      var later := OldestExists(ms[1..]);
      v := later + 1;
      assert forall i :: 0 < i < |ms| ==> ms[i] == ms[1..][i - 1];
      v := if ms[0].created < ms[v].created then 0 else v;
    }
  }

  lemma StoppedWindow(
    clock: Clock, spec: Spec, initial: seq<Machine>, base: nat, surplus: nat, n: nat, live: seq<Machine>, born: nat)
    requires spec.replicas >= 3 && Cut(spec, initial, surplus, n)
    requires Window(clock, spec, initial, base, surplus, n, live, born)
    requires DecidedAt(clock, spec, initial, base, surplus, n) && |live| == spec.replicas
    requires OldestAreOn(live, spec.version)
    ensures Passed(initial, base, live, born) == n && IsResult(clock, spec, initial, base, n, live)
  {
    var v := OldestExists(live);
    OldestTells(clock, spec, initial, base, surplus, n, live, born, v);
  }

  lemma QuiescentIsLive(clock: Clock, spec: Spec, api: Api)
    requires WellFormed(clock, api) && spec.replicas >= 3 && Quiescent(clock, spec, api)
    ensures Live(api.machines) == api.machines && |api.machines| == spec.replicas
    ensures OldestAreOn(api.machines, spec.version)
  {
    QuiescentFleet(clock, spec, api);
    assert forall i :: 0 <= i < |api.machines| ==> !Busy(api.machines[i]);
    LiveOfLive(api.machines);
  }

  /** When nothing is left to do: scaling down took the surplus, the upgrade replaced the off-target Machines before the
      first other one, and what is listed are the Machines after those, then the created ones. */
  lemma UpgradeDoesExactWork(clock: Clock, spec: Spec, h: seq<Api>, k: nat)
    requires IsRollingRun(clock, spec, h) && k < |h| && Quiescent(clock, spec, h[k])
    ensures
      var start, end, initial := h[0], h[k], Live(h[0].machines);
      && Retired(start, end) == Replaced(spec, initial)
      && Created(start, end) == spec.replicas - (|initial| - Replaced(spec, initial))
      && IsResult(clock, spec, initial, |start.born|, Replaced(spec, initial), end.machines)
  {
    RunKeepsWindow(clock, spec, h, k);
    RunKeepsWellFormed(clock, spec, h, k);
    QuiescentIsLive(clock, spec, h[k]);
    var initial := Live(h[0].machines);
    ReplacedIsCut(spec, initial);
    StoppedWindow(clock, spec, initial, |h[0].born|, Surplus(spec, initial), Replaced(spec, initial),
                  h[k].machines, |h[k].born|);
  }

  predicate OffFrom(ms: seq<Machine>, n: nat, target: Version) {
    exists j :: n <= j < |ms| && OffTarget(ms[j], target)
  }

  lemma WhatIsLeft(clock: Clock, spec: Spec, initial: seq<Machine>, base: nat, n: nat, ms: seq<Machine>)
    requires IsResult(clock, spec, initial, base, n, ms) && |ms| >= |initial| - n
    ensures AnyOff(ms, spec.version) <==> OffFrom(initial, n, spec.version)
  {
    if i :| 0 <= i < |ms| && OffTarget(ms[i], spec.version) {
      assert Placed(clock, spec, initial, base, n + i, ms[i]);
    }
    if j :| n <= j < |initial| && OffTarget(initial[j], spec.version) {
      assert Placed(clock, spec, initial, base, n + (j - n), ms[j - n]);
    }
  }

  lemma OrderFromLeading(ms: seq<Machine>, target: Version)
    ensures OldFirst(ms, target) <==> !OffFrom(ms, Leading(ms, target), target)
  {
    var n := Leading(ms, target);
    if j :| n <= j < |ms| && OffTarget(ms[j], target) {
      assert !OffTarget(ms[n], target) && n < j;
    } else {
      assert forall j :: 0 <= j < |ms| && OffTarget(ms[j], target) ==> j < n;
    }
  }

  lemma OffAfterSurplus(initial: seq<Machine>, surplus: nat, n: nat, target: Version)
    requires surplus <= |initial|
    ensures OffFrom(initial[surplus..], n, target) <==> OffFrom(initial, surplus + n, target)
  {
    var kept := initial[surplus..];
    if j :| surplus + n <= j < |initial| && OffTarget(initial[j], target) {
      assert kept[j - surplus] == initial[j];
    }
  }

  lemma ResultIff(clock: Clock, spec: Spec, initial: seq<Machine>, base: nat, ms: seq<Machine>)
    requires spec.replicas >= 0 && IsResult(clock, spec, initial, base, Replaced(spec, initial), ms)
    requires |ms| >= |initial| - Replaced(spec, initial)
    ensures !AnyOff(ms, spec.version) <==> OldFirst(Kept(spec, initial), spec.version)
  {
    WhatIsLeft(clock, spec, initial, base, Replaced(spec, initial), ms);
    OrderFromLeading(Kept(spec, initial), spec.version);
    OffAfterSurplus(initial, Surplus(spec, initial), Leading(Kept(spec, initial), spec.version), spec.version);
  }

  /** The upgrade leaves no Machine off target if and only if, of the Machines that scaling down would keep, the
      off-target ones are older than all others. */
  lemma UpgradeCompletesIff(clock: Clock, spec: Spec, h: seq<Api>, k: nat)
    requires IsRollingRun(clock, spec, h) && k < |h| && Quiescent(clock, spec, h[k])
    ensures !AnyOff(h[k].machines, spec.version) <==> OldFirst(Kept(spec, Live(h[0].machines)), spec.version)
  {
    UpgradeDoesExactWork(clock, spec, h, k);
    ResultIff(clock, spec, Live(h[0].machines), |h[0].born|, h[k].machines);
  }

  /** As many Machines as desired, none being deleted; their versions are any mixture. */
  ghost predicate UpgradeStart(spec: Spec, api: Api) {
    |api.machines| == spec.replicas && forall i :: 0 <= i < |api.machines| ==> Alive(api.machines[i])
  }

  /** From as many Machines as desired: one creation and one deletion for each off-target Machine before the first
      other one, and success exactly when those are all of them. */
  lemma RetargetedUpgrade(clock: Clock, spec: Spec, h: seq<Api>, k: nat)
    requires IsRollingRun(clock, spec, h) && UpgradeStart(spec, h[0])
    requires k < |h| && Quiescent(clock, spec, h[k])
    ensures Created(h[0], h[k]) == Removed(h[0], h[k]) == Leading(h[0].machines, spec.version)
    ensures !AnyOff(h[k].machines, spec.version) <==> OldFirst(h[0].machines, spec.version)
  {
    AllLive(h[0].machines);
    UpgradeDoesExactWork(clock, spec, h, k);
    UpgradeCompletesIff(clock, spec, h, k);
  }

  /** From D off-target Machines that are older than all created later, whatever seconds are otherwise shared: exactly D
      creations and D deletions, and the Machines left are the D created ones. */
  lemma WholeUpgrade(clock: Clock, spec: Spec, h: seq<Api>, k: nat)
    requires spec.replicas >= 3 && Rolls(spec) && IsFreshRun(clock, spec, h) && UpgradeStart(spec, h[0])
    requires forall i :: 0 <= i < |h[0].machines| ==> OffTarget(h[0].machines[i], spec.version)
    requires forall i, n: nat :: 0 <= i < |h[0].machines| && |h[0].born| <= n ==> h[0].machines[i].created < clock(n)
    requires k < |h| && Quiescent(clock, spec, h[k])
    ensures
      var start, end := h[0], h[k];
      && Created(start, end) == Removed(start, end) == |end.machines| == spec.replicas
      && forall i :: 0 <= i < |end.machines| ==>
           end.machines[i].name == |start.born| + i && end.machines[i].version == spec.version
  {
    AllAreReplaced(clock, spec, h[0]);
    AllLive(h[0].machines);
    UpgradeDoesExactWork(clock, spec, h, k);
    ResultIsCreated(clock, spec, h[0].machines, |h[0].born|, h[k].machines);
  }

  lemma AllAreReplaced(clock: Clock, spec: Spec, start: Api)
    requires spec.replicas >= 3 && UpgradeStart(spec, start)
    requires forall i :: 0 <= i < |start.machines| ==> OffTarget(start.machines[i], spec.version)
    requires forall i, n: nat :: 0 <= i < |start.machines| && |start.born| <= n ==> start.machines[i].created < clock(n)
    ensures Live(start.machines) == start.machines && Replaced(spec, start.machines) == |start.machines|
    ensures Decided(clock, spec, start.machines, |start.born|)
  {
    LiveOfLive(start.machines);
    AllLeading(start.machines, spec.version);
    assert Kept(spec, start.machines) == start.machines;
  }

  lemma ResultIsCreated(clock: Clock, spec: Spec, initial: seq<Machine>, base: nat, ms: seq<Machine>)
    requires IsResult(clock, spec, initial, base, |initial|, ms)
    ensures forall i :: 0 <= i < |ms| ==> ms[i].name == base + i && ms[i].version == spec.version
  {
    forall i | 0 <= i < |ms|
      ensures ms[i].name == base + i && ms[i].version == spec.version
    {
      assert Placed(clock, spec, initial, base, |initial| + i, ms[i]);
    }
  }

  lemma AllLeading(ms: seq<Machine>, target: Version)
    requires forall i :: 0 <= i < |ms| ==> OffTarget(ms[i], target)
    ensures Leading(ms, target) == |ms|
  {
    var n := Leading(ms, target);
  }

  predicate Rolls(spec: Spec) {
    !Effective(spec.strategy).InPlaceUpgrade?
  }

  /** During the whole upgrade, under any clock, the list holds replicas or replicas + 1 Machines, replicas of them
      unmarked. */
  lemma UpgradeStaysAvailable(clock: Clock, spec: Spec, h: seq<Api>, k: nat)
    requires IsFreshRun(clock, spec, h) && UpgradeStart(spec, h[0]) && k < |h|
    ensures spec.replicas <= Unmarked(h[k]) <= |h[k].machines| <= spec.replicas + 1
  {
    CountZero(h[0].machines, Alive);
    RunStaysInBounds(clock, spec, h, 0, k);
  }

  // ---- one or two replicas -----------------------------------------------------------------

  /** The Machines of the start, none being deleted, and at most one created. */
  ghost predicate Stalled(spec: Spec, start: Api, api: Api) {
    && 0 <= Created(start, api) <= 1
    && |start.machines| == spec.replicas && |api.machines| == spec.replicas + Created(start, api)
    && (forall i :: 0 <= i < |api.machines| ==> Alive(api.machines[i]))
    && (forall i :: 0 <= i < |start.machines| ==> Stays(start.machines[i], api.machines[i]))
  }

  lemma EffectKeepsStalled(
    clock: Clock, spec: Spec, start: Api, view: seq<Machine>, mid: seq<Machine>, api: Api, api': Api)
    requires spec.strategy.RollingUpgrade? && 1 <= spec.replicas <= 2
    requires Stalled(spec, start, api) && Effect(clock, spec, view, mid, api, api')
    ensures Stalled(spec, start, api')
  {
    SameMembers(view, api.machines);
  }

  lemma StepKeepsStalled(clock: Clock, spec: Spec, start: Api, api: Api, api': Api)
    requires spec.strategy.RollingUpgrade? && 1 <= spec.replicas <= 2
    requires WellFormed(clock, api) && Stalled(spec, start, api) && FreshStep(clock, spec, api, api')
    ensures Stalled(spec, start, api')
  {
    if PassOn(clock, spec, api, api, api') {
      var view, mid := FreshPass(clock, spec, api, api');
      EffectKeepsStalled(clock, spec, start, view, mid, api, api');
    }
  }

  lemma RunStepKeepsStalled(clock: Clock, spec: Spec, h: seq<Api>, k: nat)
    requires spec.strategy.RollingUpgrade? && 1 <= spec.replicas <= 2
    requires IsFreshRun(clock, spec, h) && k + 1 < |h| && Stalled(spec, h[0], h[k])
    ensures Stalled(spec, h[0], h[k + 1])
  {
    RunKeepsWellFormed(clock, spec, h, k);
    assert FreshStepAt(clock, spec, h, k);
    StepKeepsStalled(clock, spec, h[0], h[k], h[k + 1]);
  }

  lemma {:induction false} RunKeepsStalled(clock: Clock, spec: Spec, h: seq<Api>, k: nat)
    requires spec.strategy.RollingUpgrade? && 1 <= spec.replicas <= 2
    requires IsFreshRun(clock, spec, h) && UpgradeStart(spec, h[0]) && k < |h|
    ensures Stalled(spec, h[0], h[k])
  {
    if k == 0 {
    } else {
      RunKeepsStalled(clock, spec, h, k - 1);
      RunStepKeepsStalled(clock, spec, h, k - 1);
    }
  }

  /** With one or two replicas the floor stops a RollingUpgrade after one creation, for good and under any clock: the
      Machines of the start are never marked nor written. If the probe may look at an off-target one at the start,
      nothing is left to do only with one Machine too many. */
  lemma SmallUpgradeStalls(clock: Clock, spec: Spec, h: seq<Api>, k: nat)
    requires spec.strategy.RollingUpgrade? && 1 <= spec.replicas <= 2
    requires IsFreshRun(clock, spec, h) && UpgradeStart(spec, h[0]) && k < |h|
    ensures Stalled(spec, h[0], h[k])
    ensures !OldestAreOn(h[0].machines, spec.version) && Quiescent(clock, spec, h[k]) ==> Created(h[0], h[k]) == 1
  {
    RunKeepsStalled(clock, spec, h, k);
    RunKeepsWellFormed(clock, spec, h, k);
    if !OldestAreOn(h[0].machines, spec.version) && Created(h[0], h[k]) == 0 {
      var i :| && 0 <= i < |h[0].machines| && Oldest(h[0].machines[i], h[0].machines)
               && OffTarget(h[0].machines[i], spec.version);
      var ms := h[k].machines;
      assert Stays(h[0].machines[i], ms[i]);
      assert Oldest(ms[i], ms);
      var view := SortWithHead(ms, i);
      SameMembers(view, ms);
      QuiescentIsIdle(clock, spec, h[k]);
    }
  }
}
