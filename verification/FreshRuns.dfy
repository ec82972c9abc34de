/** Runs in which every pass sees the current list and the spec stays as it is. */
module FreshRuns {
  import opened Types
  import opened CreationOrder
  import opened Scaling
  import opened StaleRuns
  import opened Ties

  ghost predicate WellFormed(clock: Clock, api: Api) {
    && (forall i, j :: 0 <= i < j < |api.machines| ==> api.machines[i].name < api.machines[j].name)
    && (forall i :: 0 <= i < |api.machines| ==>
          api.machines[i].name < |api.born| && api.machines[i].created == clock(api.machines[i].name))
  }

  /** The node of a Machine appears. */
  ghost predicate Joins(api: Api, i: nat, node: Name, api': Api) {
    && i < |api.machines| && Unjoined(api.machines[i])
    && api' == api.(machines := api.machines[i := api.machines[i].(nodeRef := Some(node))])
  }

  ghost predicate JoinStep(api: Api, api': Api) {
    exists i: nat, node: Name :: Joins(api, i, node, api')
  }

  ghost predicate FreshStep(clock: Clock, spec: Spec, api: Api, api': Api) {
    PassOn(clock, spec, api, api, api') || JoinStep(api, api') || RemoveStep(api, api')
  }

  ghost predicate FreshStepAt(clock: Clock, spec: Spec, h: seq<Api>, k: nat)
    requires k + 1 < |h|
  {
    FreshStep(clock, spec, h[k], h[k + 1])
  }

  ghost predicate IsFreshRun(clock: Clock, spec: Spec, h: seq<Api>) {
    && |h| > 0 && WellFormed(clock, h[0])
    && forall k :: 0 <= k < |h| - 1 ==> FreshStepAt(clock, spec, h, k)
  }

  // ---- what a fresh pass amounts to --------------------------------------------------------

  lemma BootMachines(clock: Clock, version: Version, c: BootCalls, api: Api)
    ensures
      var api' := Boot(clock, version, c, api);
      if Boots(api, c) then
        && api'.machines == api.machines + [NewMachine(clock, api, version, Refs(c.infraName, c.configName))]
        && api'.born == api.born + [Refs(c.infraName, c.configName)]
      else api'.machines == api.machines && api'.born == api.born
  {
  }

  /** The same Machines with some versions written, which only an in-place upgrade does. */
  ghost predicate Upgraded(spec: Spec, view: seq<Machine>, ms: seq<Machine>, mid: seq<Machine>) {
    && |mid| == |ms|
    && (forall i :: 0 <= i < |ms| ==>
          && mid[i] == ms[i].(version := mid[i].version)
          && (mid[i].version == ms[i].version || mid[i].version == spec.version))
    && (UpgradesInPlace(spec, view) || mid == ms)
  }

  ghost predicate Keeps(mid: seq<Machine>, api: Api, api': Api) {
    api'.machines == mid && api'.born == api.born
  }

  ghost predicate Appends(clock: Clock, spec: Spec, mid: seq<Machine>, api: Api, api': Api) {
    exists refs ::
      api'.machines == mid + [NewMachine(clock, api, spec.version, refs)] && api'.born == api.born + [refs]
  }

  ghost predicate Creates(clock: Clock, spec: Spec, view: seq<Machine>, mid: seq<Machine>, api: Api, api': Api) {
    && (|mid| < spec.replicas || RollingCreates(spec, view))
    && Appends(clock, spec, mid, api, api')
  }

  ghost predicate MarksAt(spec: Spec, mid: seq<Machine>, api: Api, api': Api, k: nat) {
    var ms := api.machines;
    && k < |ms| && |mid| == |ms| && Oldest(ms[k], ms)
    && ScalesDown(spec, ms) && MayDelete(ms)
    && api'.machines == mid[k := mid[k].(deleting := true)] && api'.born == api.born
  }

  /** What a fresh pass amounts to: `view` is some sort of the list, and `mid` the list once versions are written. */
  ghost predicate Effect(clock: Clock, spec: Spec, view: seq<Machine>, mid: seq<Machine>, api: Api, api': Api) {
    && IsSortOf(view, api.machines)
    && Upgraded(spec, view, api.machines, mid)
    && (|| Keeps(mid, api, api')
        || Creates(clock, spec, view, mid, api, api')
        || exists k: nat :: MarksAt(spec, mid, api, api', k))
  }

  lemma FreshBoot(clock: Clock, spec: Spec, view: seq<Machine>, c: BootCalls, api: Api)
    requires |api.machines| < spec.replicas || RollingCreates(spec, view)
    ensures
      var api' := Boot(clock, spec.version, c, api);
      Keeps(api.machines, api, api') || Creates(clock, spec, view, api.machines, api, api')
  {
    BootMachines(clock, spec.version, c, api);
  }

  lemma FreshUpgrade(clock: Clock, spec: Spec, view: seq<Machine>, calls: Calls, api: Api)
    requires WellFormed(clock, api)
    ensures
      var up := Upgrade(spec, view, calls, api);
      Upgraded(spec, view, api.machines, up.machines) && up.born == api.born && WellFormed(clock, up)
  {
  }

  /** A mark lands on the one Machine of that name and changes nothing else. */
  lemma MarkHitsOne(clock: Clock, api: Api, k: nat)
    requires WellFormed(clock, api) && k < |api.machines|
    ensures
      var api' := MarkDeleting(api, api.machines[k].name);
      api'.machines == api.machines[k := api.machines[k].(deleting := true)] && api'.born == api.born
  {
  }

  lemma PlaceOf(ms: seq<Machine>, m: Machine) returns (k: nat)
    requires m in ms
    ensures k < |ms| && ms[k] == m
  {
    k :| 0 <= k < |ms| && ms[k] == m;
  }

  lemma SortMayDelete(view: seq<Machine>, ms: seq<Machine>)
    requires multiset(view) == multiset(ms)
    ensures |view| == |ms| && (MayDelete(view) <==> MayDelete(ms))
  {
    SameMembers(view, ms);
    assert forall i :: 0 <= i < |ms| ==> ms[i] in view;
    assert forall i :: 0 <= i < |view| ==> view[i] in ms;
  }

  /** The mark of a pass, on the list with its versions written. */
  lemma FreshMark(clock: Clock, spec: Spec, view: seq<Machine>, calls: Calls, api: Api)
    requires WellFormed(clock, api) && IsSortOf(view, api.machines) && Deletes(spec, view, calls)
    ensures
      var up := Upgrade(spec, view, calls, api);
      exists k: nat :: MarksAt(spec, up.machines, api, MarkDeleting(up, Victim(view).name), k)
  {
    var up := Upgrade(spec, view, calls, api);
    SortMayDelete(view, api.machines);
    VictimIsOldest(view, api.machines);
    var k := PlaceOf(api.machines, Victim(view));
    FreshUpgrade(clock, spec, view, calls, api);
    MarkHitsOne(clock, up, k);
    assert MarksAt(spec, up.machines, api, MarkDeleting(up, Victim(view).name), k);
  }

  /** With a current list, whatever seconds are shared and however the sort breaks ties: a pass writes versions or not,
      and then keeps the list, appends one Machine or marks an oldest one. */
  lemma FreshPass(clock: Clock, spec: Spec, api: Api, api': Api) returns (view: seq<Machine>, mid: seq<Machine>)
    requires WellFormed(clock, api) && PassOn(clock, spec, api, api, api')
    ensures Effect(clock, spec, view, mid, api, api')
  {
    var calls: Calls;
    view, calls :| IsSortOf(view, api.machines) && api' == MachinesPass(clock, spec, view, calls, api);
    SameMembers(view, api.machines);
    FreshUpgrade(clock, spec, view, calls, api);
    var up := Upgrade(spec, view, calls, api);
    mid := up.machines;
    if RollingCreates(spec, view) {
      FreshBoot(clock, spec, view, calls.boot, api);
    } else if ReachesSwitch(spec, view, calls) {
      if |view| < spec.replicas {
        FreshBoot(clock, spec, view, calls.boot, up);
        if Creates(clock, spec, view, mid, up, api') {
          var refs :| && api'.machines == mid + [NewMachine(clock, up, spec.version, refs)]
                      && api'.born == up.born + [refs];
          assert NewMachine(clock, up, spec.version, refs) == NewMachine(clock, api, spec.version, refs);
        }
      } else if Deletes(spec, view, calls) {
        FreshMark(clock, spec, view, calls, api);
      }
    }
  }

  // ---- when no second is shared ------------------------------------------------------------

  lemma NamesOrderSeconds(clock: Clock, api: Api)
    requires Ticking(clock) && WellFormed(clock, api)
    ensures StrictlySorted(api.machines)
  {
  }

  /** The view is the list itself. */
  lemma FreshView(clock: Clock, api: Api, view: seq<Machine>)
    requires Ticking(clock) && WellFormed(clock, api) && IsSortOf(view, api.machines)
    ensures view == api.machines && StrictlySorted(view)
  {
    NamesOrderSeconds(clock, api);
    SortIsUnique(view, api.machines);
  }

  // ---- the measure -------------------------------------------------------------------------

  predicate AnyOff(ms: seq<Machine>, target: Version) {
    exists i :: 0 <= i < |ms| && OffTarget(ms[i], target)
  }

  /** Some off-target Machine is no older than this second. */
  predicate Behind(ms: seq<Machine>, target: Version, second: int) {
    exists i :: 0 <= i < |ms| && OffTarget(ms[i], target) && second <= ms[i].created
  }

  /** An unmarked Machine no younger than the youngest off-target one: a rolling upgrade may take it. */
  function MayGo(ms: seq<Machine>, target: Version): Machine -> bool {
    m => Alive(m) && Behind(ms, target, m.created)
  }

  function MustStay(ms: seq<Machine>, target: Version): Machine -> bool {
    m => Alive(m) && !Behind(ms, target, m.created)
  }

  function Lagging(ms: seq<Machine>, target: Version): nat {
    Count(ms, MayGo(ms, target))
  }

  function Staying(ms: seq<Machine>, target: Version): nat {
    Count(ms, MustStay(ms, target))
  }

  function Outdated(target: Version): Machine -> bool {
    (m: Machine) => m.version != target
  }

  function Abs(x: int): nat {
    if x < 0 then -x else x
  }

  /** How far the Machines that will stay are from the desired number, plus the Machines that may go. */
  function Distance(spec: Spec, ms: seq<Machine>): nat {
    Abs(spec.replicas - Staying(ms, spec.version)) + Lagging(ms, spec.version)
  }

  function Work(spec: Spec, ms: seq<Machine>): nat {
    2 * Distance(spec, ms) + Count(ms, Marked) + Count(ms, Unjoined) + Count(ms, Outdated(spec.version))
  }

  /** How many of the Machines created next, those named before `horizon`, are no younger than an off-target one: the
      upgrade may take them in its place. */
  function Wasted(clock: Clock, ms: seq<Machine>, target: Version, born: nat, horizon: nat): nat
    decreases horizon - born
  {
    if born >= horizon then 0
    else (if Behind(ms, target, clock(born)) then 1 else 0) + Wasted(clock, ms, target, born + 1, horizon)
  }

  function Measure(clock: Clock, spec: Spec, api: Api, horizon: nat): nat {
    Work(spec, api.machines) + 4 * Wasted(clock, api.machines, spec.version, |api.born|, horizon)
  }

  /** From the Machine named `horizon` on, all created are younger than the off-target ones. */
  ghost predicate Beyond(clock: Clock, ms: seq<Machine>, target: Version, horizon: nat) {
    forall n: nat :: horizon <= n ==> !Behind(ms, target, clock(n))
  }

  /** When no second is shared, that is so from the next Machine on. */
  lemma TickingIsBeyond(clock: Clock, api: Api, target: Version)
    requires Ticking(clock) && WellFormed(clock, api)
    ensures Beyond(clock, api.machines, target, |api.born|)
  {
  }

  lemma {:induction false} StayOrGo(ms: seq<Machine>, p: Machine -> bool, q: Machine -> bool, r: Machine -> bool)
    requires forall m :: p(m) <==> q(m) || r(m)
    requires forall m :: !(q(m) && r(m))
    ensures Count(ms, p) == Count(ms, q) + Count(ms, r)
  {
    if |ms| == 0 {
    } else {
      StayOrGo(ms[1..], p, q, r);
    }
  }

  lemma AliveStayOrGo(ms: seq<Machine>, target: Version)
    ensures Count(ms, Alive) == Staying(ms, target) + Lagging(ms, target)
  {
    StayOrGo(ms, Alive, MustStay(ms, target), MayGo(ms, target));
  }

  /** Every second behind in t is behind in s. */
  ghost predicate Catches(s: seq<Machine>, t: seq<Machine>, target: Version) {
    forall second :: Behind(t, target, second) ==> Behind(s, target, second)
  }

  lemma {:induction false} WastedCompare(
    clock: Clock, s: seq<Machine>, t: seq<Machine>, target: Version, born: nat, horizon: nat)
    requires Catches(s, t, target)
    ensures Wasted(clock, t, target, born, horizon) <= Wasted(clock, s, target, born, horizon)
    decreases horizon - born
  {
    if born >= horizon {
    } else {
      WastedCompare(clock, s, t, target, born + 1, horizon);
    }
  }

  /** When the unmarked Machines stay in number and fewer of them may go, the distance does not grow. */
  lemma DistanceCompare(spec: Spec, s: seq<Machine>, t: seq<Machine>)
    requires Count(t, Alive) == Count(s, Alive) && Lagging(t, spec.version) <= Lagging(s, spec.version)
    ensures Distance(spec, t) <= Distance(spec, s)
  {
    AliveStayOrGo(s, spec.version);
    AliveStayOrGo(t, spec.version);
  }

  // ---- creating, marking and removing ------------------------------------------------------

  lemma AppendKeepsBehind(ms: seq<Machine>, m: Machine, target: Version, second: int)
    requires !OffTarget(m, target)
    ensures Behind(ms + [m], target, second) <==> Behind(ms, target, second)
  {
    if i :| 0 <= i < |ms| && OffTarget(ms[i], target) && second <= ms[i].created {
      assert (ms + [m])[i] == ms[i];
    }
  }

  lemma AppendCounts(ms: seq<Machine>, m: Machine, target: Version)
    requires !OffTarget(m, target) && Alive(m)
    ensures
      var behind := Behind(ms, target, m.created);
      && Lagging(ms + [m], target) == Lagging(ms, target) + (if behind then 1 else 0)
      && Staying(ms + [m], target) == Staying(ms, target) + (if behind then 0 else 1)
  {
    var t := ms + [m];
    forall second
      ensures Behind(t, target, second) <==> Behind(ms, target, second)
    {
      AppendKeepsBehind(ms, m, target, second);
    }
    CountConcat(ms, [m], MayGo(t, target));
    CountConcat(ms, [m], MustStay(t, target));
    CountCompare(ms, MayGo(ms, target), ms, MayGo(t, target));
    CountCompare(ms, MayGo(t, target), ms, MayGo(ms, target));
    CountCompare(ms, MustStay(ms, target), ms, MustStay(t, target));
    CountCompare(ms, MustStay(t, target), ms, MustStay(ms, target));
  }

  /** While an off-target Machine is listed, not all that are listed stay. */
  lemma OffDoesNotStay(ms: seq<Machine>, target: Version)
    requires AnyOff(ms, target)
    ensures Staying(ms, target) < |ms|
  {
    var i :| 0 <= i < |ms| && OffTarget(ms[i], target);
    assert Behind(ms, target, ms[i].created);
    CountZero(ms, MustStay(ms, target));
  }

  lemma AppendLowers(clock: Clock, spec: Spec, mid: seq<Machine>, api: Api, api': Api, horizon: nat)
    requires Staying(mid, spec.version) < spec.replicas && Appends(clock, spec, mid, api, api')
    requires Beyond(clock, mid, spec.version, horizon)
    ensures Measure(clock, spec, api', horizon) < Measure(clock, spec, api.(machines := mid), horizon)
  {
    var refs :| && api'.machines == mid + [NewMachine(clock, api, spec.version, refs)]
                && api'.born == api.born + [refs];
    var m := NewMachine(clock, api, spec.version, refs);
    AppendCounts(mid, m, spec.version);
    CountConcat(mid, [m], Marked);
    CountConcat(mid, [m], Unjoined);
    CountConcat(mid, [m], Outdated(spec.version));
    forall second
      ensures Behind(api'.machines, spec.version, second) ==> Behind(mid, spec.version, second)
    {
      AppendKeepsBehind(mid, m, spec.version, second);
    }
    WastedCompare(clock, mid, api'.machines, spec.version, |api.born| + 1, horizon);
  }

  lemma MarkKeepsBehind(ms: seq<Machine>, k: nat, target: Version, second: int)
    requires k < |ms|
    ensures Behind(ms[k := ms[k].(deleting := true)], target, second) <==> Behind(ms, target, second)
  {
    var t := ms[k := ms[k].(deleting := true)];
    assert forall i :: 0 <= i < |ms| ==> t[i].version == ms[i].version && t[i].created == ms[i].created;
  }

  lemma CountReplace(s: seq<Machine>, k: nat, m: Machine, p: Machine -> bool)
    requires k < |s|
    ensures Count(s[k := m], p) == Count(s, p) - (if p(s[k]) then 1 else 0) + (if p(m) then 1 else 0)
  {
    assert s == s[..k] + ([s[k]] + s[k + 1..]);
    assert s[k := m] == s[..k] + ([m] + s[k + 1..]);
    CountConcat(s[..k], [s[k]] + s[k + 1..], p);
    CountConcat([s[k]], s[k + 1..], p);
    CountConcat(s[..k], [m] + s[k + 1..], p);
    CountConcat([m], s[k + 1..], p);
  }

  lemma MarkCounts(ms: seq<Machine>, k: nat, target: Version)
    requires k < |ms| && Alive(ms[k])
    ensures
      var t, behind := ms[k := ms[k].(deleting := true)], Behind(ms, target, ms[k].created);
      && Lagging(t, target) == Lagging(ms, target) - (if behind then 1 else 0)
      && Staying(t, target) == Staying(ms, target) - (if behind then 0 else 1)
  {
    var m := ms[k].(deleting := true);
    var t := ms[k := m];
    forall second
      ensures Behind(t, target, second) <==> Behind(ms, target, second)
    {
      MarkKeepsBehind(ms, k, target, second);
    }
    CountReplace(ms, k, m, MayGo(ms, target));
    CountReplace(ms, k, m, MustStay(ms, target));
    CountCompare(t, MayGo(ms, target), t, MayGo(t, target));
    CountCompare(t, MayGo(t, target), t, MayGo(ms, target));
    CountCompare(t, MustStay(ms, target), t, MustStay(t, target));
    CountCompare(t, MustStay(t, target), t, MustStay(ms, target));
  }

  /** With no Machine off target, all unmarked ones stay. */
  lemma NoneOffAllStay(ms: seq<Machine>, target: Version)
    requires !AnyOff(ms, target)
    ensures Lagging(ms, target) == 0
  {
    CountZero(ms, MayGo(ms, target));
  }

  lemma MarkLowers(clock: Clock, spec: Spec, ms: seq<Machine>, k: nat, born: seq<Refs>, api: Api, horizon: nat)
    requires |ms| > spec.replicas && k < |ms| && Oldest(ms[k], ms)
    requires forall i :: 0 <= i < |ms| ==> Alive(ms[i])
    requires api.machines == ms
    ensures
      var api' := api.(machines := ms[k := ms[k].(deleting := true)]);
      Measure(clock, spec, api', horizon) < Measure(clock, spec, api, horizon)
  {
    var m := ms[k].(deleting := true);
    var t := ms[k := m];
    MarkCounts(ms, k, spec.version);
    CountReplace(ms, k, m, Marked);
    CountReplace(ms, k, m, Unjoined);
    CountReplace(ms, k, m, Outdated(spec.version));
    CountZero(ms, Alive);
    AliveStayOrGo(ms, spec.version);
    if AnyOff(ms, spec.version) {
      var i :| 0 <= i < |ms| && OffTarget(ms[i], spec.version);
      assert Behind(ms, spec.version, ms[k].created);
    } else {
      NoneOffAllStay(ms, spec.version);
    }
    forall second
      ensures Behind(t, spec.version, second) <==> Behind(ms, spec.version, second)
    {
      MarkKeepsBehind(ms, k, spec.version, second);
    }
    WastedCompare(clock, ms, t, spec.version, |api.born|, horizon);
  }

  lemma RemoveCatches(ms: seq<Machine>, i: nat, target: Version)
    requires i < |ms|
    ensures Catches(ms, ms[..i] + ms[i + 1..], target)
  {
    var rest := ms[..i] + ms[i + 1..];
    forall second | Behind(rest, target, second)
      ensures Behind(ms, target, second)
    {
      var j :| 0 <= j < |rest| && OffTarget(rest[j], target) && second <= rest[j].created;
      assert rest[j] == ms[if j < i then j else j + 1];
    }
  }

  lemma RemoveLowers(clock: Clock, spec: Spec, api: Api, i: nat, horizon: nat)
    requires i < |api.machines| && api.machines[i].deleting
    ensures
      var rest := api.machines[..i] + api.machines[i + 1..];
      Measure(clock, spec, api.(machines := rest), horizon) < Measure(clock, spec, api, horizon)
  {
    var ms := api.machines;
    var rest := ms[..i] + ms[i + 1..];
    RemoveCatches(ms, i, spec.version);
    CountRemove(ms, i, Alive);
    CountRemove(ms, i, Marked);
    CountRemove(ms, i, Unjoined);
    CountRemove(ms, i, Outdated(spec.version));
    CountRemove(ms, i, MayGo(ms, spec.version));
    CountCompare(rest, MayGo(ms, spec.version), rest, MayGo(rest, spec.version));
    DistanceCompare(spec, ms, rest);
    WastedCompare(clock, ms, rest, spec.version, |api.born|, horizon);
  }

  // ---- joining and being written -----------------------------------------------------------

  ghost predicate Advances(spec: Spec, s: seq<Machine>, t: seq<Machine>) {
    && |s| == |t|
    && forall i :: 0 <= i < |s| ==>
         && t[i] == s[i].(version := t[i].version, nodeRef := t[i].nodeRef)
         && (t[i].version == s[i].version || t[i].version == spec.version)
         && (t[i].nodeRef == s[i].nodeRef || s[i].nodeRef.None?)
  }

  lemma AdvanceCatches(spec: Spec, s: seq<Machine>, t: seq<Machine>)
    requires Advances(spec, s, t)
    ensures Catches(s, t, spec.version)
  {
    forall second | Behind(t, spec.version, second)
      ensures Behind(s, spec.version, second)
    {
      var i :| 0 <= i < |t| && OffTarget(t[i], spec.version) && second <= t[i].created;
      assert OffTarget(s[i], spec.version) && second <= s[i].created;
    }
  }

  lemma AdvanceLowersWork(spec: Spec, s: seq<Machine>, t: seq<Machine>)
    requires Advances(spec, s, t)
    ensures Work(spec, t) <= Work(spec, s)
    ensures t != s ==> Work(spec, t) < Work(spec, s)
  {
    AdvanceCatches(spec, s, t);
    CountDominates(s, t, Alive);
    CountDominates(t, s, Alive);
    CountCompare(s, MayGo(s, spec.version), t, MayGo(t, spec.version));
    DistanceCompare(spec, s, t);
    CountDominates(s, t, Marked);
    CountDominates(s, t, Unjoined);
    CountDominates(s, t, Outdated(spec.version));
    if t != s {
      var i :| 0 <= i < |s| && t[i] != s[i];
      if t[i].version != s[i].version {
        assert Outdated(spec.version)(s[i]) && !Outdated(spec.version)(t[i]);
      } else {
        assert Unjoined(s[i]) && !Unjoined(t[i]);
      }
    }
  }

  /** Joining or being written the target version lowers the measure wherever it changes anything. */
  lemma AdvanceLowers(clock: Clock, spec: Spec, api: Api, t: seq<Machine>, horizon: nat)
    requires Advances(spec, api.machines, t)
    ensures
      var api' := api.(machines := t);
      && Measure(clock, spec, api', horizon) <= Measure(clock, spec, api, horizon)
      && (t != api.machines ==> Measure(clock, spec, api', horizon) < Measure(clock, spec, api, horizon))
  {
    AdvanceCatches(spec, api.machines, t);
    AdvanceLowersWork(spec, api.machines, t);
    WastedCompare(clock, api.machines, t, spec.version, |api.born|, horizon);
  }

  // ---- every step --------------------------------------------------------------------------

  ghost predicate Lowers(clock: Clock, spec: Spec, horizon: nat, api: Api, api': Api) {
    api'.machines != api.machines ==> Measure(clock, spec, api', horizon) < Measure(clock, spec, api, horizon)
  }

  lemma MeasureOfParts(clock: Clock, spec: Spec, horizon: nat, a: Api, b: Api)
    requires a.machines == b.machines && |a.born| == |b.born|
    ensures Measure(clock, spec, a, horizon) == Measure(clock, spec, b, horizon)
  {
  }

  lemma CreationLowers(
    clock: Clock, spec: Spec, view: seq<Machine>, mid: seq<Machine>, api: Api, api': Api, horizon: nat)
    requires IsSortOf(view, api.machines) && Upgraded(spec, view, api.machines, mid)
    requires Creates(clock, spec, view, mid, api, api') && Beyond(clock, mid, spec.version, horizon)
    ensures Measure(clock, spec, api', horizon) < Measure(clock, spec, api.(machines := mid), horizon)
  {
    if RollingCreates(spec, view) {
      HeadIsOldest(view, api.machines);
      var k := PlaceOf(api.machines, view[0]);
      OffDoesNotStay(mid, spec.version);
    }
    AppendLowers(clock, spec, mid, api, api', horizon);
  }

  lemma MarkingLowers(
    clock: Clock, spec: Spec, view: seq<Machine>, mid: seq<Machine>, api: Api, api': Api, k: nat, horizon: nat)
    requires Upgraded(spec, view, api.machines, mid) && MarksAt(spec, mid, api, api', k)
    ensures Measure(clock, spec, api', horizon) < Measure(clock, spec, api.(machines := mid), horizon)
  {
    forall i | 0 <= i < |mid|
      ensures Alive(mid[i]) && mid[k].created <= mid[i].created
    {
      assert Alive(api.machines[i]) && api.machines[k].created <= api.machines[i].created;
    }
    MarkLowers(clock, spec, mid, k, api.born, api.(machines := mid), horizon);
    MeasureOfParts(clock, spec, horizon, api', api.(machines := mid[k := mid[k].(deleting := true)]));
  }

  lemma EffectKeepsWellFormed(
    clock: Clock, spec: Spec, view: seq<Machine>, mid: seq<Machine>, api: Api, api': Api)
    requires WellFormed(clock, api) && Effect(clock, spec, view, mid, api, api')
    ensures WellFormed(clock, api')
  {
  }

  lemma EffectLowers(
    clock: Clock, spec: Spec, view: seq<Machine>, mid: seq<Machine>, api: Api, api': Api, horizon: nat)
    requires Effect(clock, spec, view, mid, api, api')
    requires Beyond(clock, api.machines, spec.version, horizon)
    ensures Lowers(clock, spec, horizon, api, api')
  {
    AdvanceLowers(clock, spec, api, mid, horizon);
    AdvanceCatches(spec, api.machines, mid);
    if Keeps(mid, api, api') {
      MeasureOfParts(clock, spec, horizon, api', api.(machines := mid));
    } else if Creates(clock, spec, view, mid, api, api') {
      CreationLowers(clock, spec, view, mid, api, api', horizon);
    } else {
      var k: nat :| MarksAt(spec, mid, api, api', k);
      MarkingLowers(clock, spec, view, mid, api, api', k, horizon);
    }
  }

  lemma StepKeepsWellFormed(clock: Clock, spec: Spec, api: Api, api': Api)
    requires WellFormed(clock, api) && FreshStep(clock, spec, api, api')
    ensures WellFormed(clock, api')
  {
    if PassOn(clock, spec, api, api, api') {
      var view, mid := FreshPass(clock, spec, api, api');
      EffectKeepsWellFormed(clock, spec, view, mid, api, api');
    }
  }

  /** Under any clock, strategy, replicas and start: with the off-target Machines older than all created from `horizon`
      on, each step that changes the Machines lowers the measure. */
  lemma StepLowers(clock: Clock, spec: Spec, api: Api, api': Api, horizon: nat)
    requires WellFormed(clock, api) && FreshStep(clock, spec, api, api')
    requires Beyond(clock, api.machines, spec.version, horizon)
    ensures Lowers(clock, spec, horizon, api, api')
  {
    if JoinStep(api, api') {
      var i: nat, node: Name :| Joins(api, i, node, api');
      AdvanceLowers(clock, spec, api, api'.machines, horizon);
      MeasureOfParts(clock, spec, horizon, api', api.(machines := api'.machines));
    } else if RemoveStep(api, api') {
      var i: nat :| Removes(api, i, api');
      RemoveLowers(clock, spec, api, i, horizon);
    } else {
      var view, mid := FreshPass(clock, spec, api, api');
      EffectLowers(clock, spec, view, mid, api, api', horizon);
    }
  }

  /** No step brings an off-target Machine. */
  lemma EffectCatches(clock: Clock, spec: Spec, view: seq<Machine>, mid: seq<Machine>, api: Api, api': Api)
    requires Effect(clock, spec, view, mid, api, api')
    ensures Catches(api.machines, api'.machines, spec.version)
  {
    AdvanceCatches(spec, api.machines, mid);
    forall second | Behind(api'.machines, spec.version, second)
      ensures Behind(mid, spec.version, second)
    {
      if Creates(clock, spec, view, mid, api, api') {
        var refs :| && api'.machines == mid + [NewMachine(clock, api, spec.version, refs)]
                    && api'.born == api.born + [refs];
        AppendKeepsBehind(mid, NewMachine(clock, api, spec.version, refs), spec.version, second);
      } else if k: nat :| MarksAt(spec, mid, api, api', k) {
        MarkKeepsBehind(mid, k, spec.version, second);
      }
    }
  }

  lemma StepCatches(clock: Clock, spec: Spec, api: Api, api': Api)
    requires WellFormed(clock, api) && FreshStep(clock, spec, api, api')
    ensures Catches(api.machines, api'.machines, spec.version)
  {
    if JoinStep(api, api') {
      AdvanceCatches(spec, api.machines, api'.machines);
    } else if RemoveStep(api, api') {
      var i: nat :| Removes(api, i, api');
      RemoveCatches(api.machines, i, spec.version);
    } else {
      var view, mid := FreshPass(clock, spec, api, api');
      EffectCatches(clock, spec, view, mid, api, api');
    }
  }

  /** How many of the first k steps changed the Machines. */
  function Changes(h: seq<Api>, k: nat): nat
    requires k < |h|
  {
    if k == 0 then 0 else Changes(h, k - 1) + (if h[k].machines != h[k - 1].machines then 1 else 0)
  }

  lemma {:induction false} RunKeepsWellFormed(clock: Clock, spec: Spec, h: seq<Api>, k: nat)
    requires IsFreshRun(clock, spec, h) && k < |h|
    ensures WellFormed(clock, h[k])
  {
    if k == 0 {
    } else {
      RunKeepsWellFormed(clock, spec, h, k - 1);
      assert FreshStepAt(clock, spec, h, k - 1);
      StepKeepsWellFormed(clock, spec, h[k - 1], h[k]);
    }
  }

  lemma RunStepLowers(clock: Clock, spec: Spec, h: seq<Api>, k: nat, horizon: nat)
    requires IsFreshRun(clock, spec, h) && k + 1 < |h| && Beyond(clock, h[k].machines, spec.version, horizon)
    ensures Beyond(clock, h[k + 1].machines, spec.version, horizon)
    ensures Lowers(clock, spec, horizon, h[k], h[k + 1])
    ensures h[k + 1].machines == h[k].machines ==>
              Measure(clock, spec, h[k + 1], horizon) <= Measure(clock, spec, h[k], horizon)
  {
    RunKeepsWellFormed(clock, spec, h, k);
    assert FreshStepAt(clock, spec, h, k);
    StepLowers(clock, spec, h[k], h[k + 1], horizon);
    StepCatches(clock, spec, h[k], h[k + 1]);
    StepBorn(clock, spec, h[k], h[k + 1]);
    WastedLater(clock, h[k].machines, spec.version, |h[k].born|, |h[k + 1].born|, horizon);
  }

  lemma StepBorn(clock: Clock, spec: Spec, api: Api, api': Api)
    requires WellFormed(clock, api) && FreshStep(clock, spec, api, api')
    ensures |api.born| <= |api'.born|
  {
    if PassOn(clock, spec, api, api, api') {
      var view, mid := FreshPass(clock, spec, api, api');
    }
  }

  lemma {:induction false} WastedLater(
    clock: Clock, ms: seq<Machine>, target: Version, born: nat, later: nat, horizon: nat)
    requires born <= later
    ensures Wasted(clock, ms, target, later, horizon) <= Wasted(clock, ms, target, born, horizon)
    decreases later - born
  {
    if born == later {
    } else {
      WastedLater(clock, ms, target, born + 1, later, horizon);
    }
  }

  /** Scaling and upgrading terminate once time has moved on: a run changes the Machines at most as often as its start
      measures. */
  lemma {:induction false} RunTerminates(clock: Clock, spec: Spec, h: seq<Api>, horizon: nat, k: nat)
    requires IsFreshRun(clock, spec, h) && k < |h| && Beyond(clock, h[0].machines, spec.version, horizon)
    ensures Beyond(clock, h[k].machines, spec.version, horizon)
    ensures Changes(h, k) + Measure(clock, spec, h[k], horizon) <= Measure(clock, spec, h[0], horizon)
    decreases k
  {
    if k == 0 {
    } else {
      RunTerminates(clock, spec, h, horizon, k - 1);
      RunStepLowers(clock, spec, h, k - 1, horizon);
    }
  }
}
