/** Runs in which every pass of the controller acts on some past list of the Machines: the manager's client
    answers from a cache. Replicas, version and strategy are whatever the pass finds, so they change freely. */
module StaleRuns {
  import opened Types
  import opened CreationOrder
  import opened Scaling

  // ---- steps -------------------------------------------------------------------------------

  /** The status or the spec of one Machine changes: it joins, gets addresses, has its version edited. */
  ghost predicate Touches(api: Api, i: nat, m: Machine, api': Api) {
    && i < |api.machines|
    && m == api.machines[i].(version := m.version, nodeRef := m.nodeRef,
                             addresses := m.addresses, providerID := m.providerID)
    && api' == api.(machines := api.machines[i := m])
  }

  /** A Machine marked for deletion goes away once its finalizers are gone. */
  ghost predicate Removes(api: Api, i: nat, api': Api) {
    && i < |api.machines| && api.machines[i].deleting
    && api' == api.(machines := api.machines[..i] + api.machines[i + 1..])
  }

  ghost predicate TouchStep(api: Api, api': Api) {
    exists i: nat, m: Machine :: Touches(api, i, m, api')
  }

  ghost predicate RemoveStep(api: Api, api': Api) {
    exists i: nat :: Removes(api, i, api')
  }

  ghost predicate SomePass(clock: Clock, snapshot: Api, api: Api, api': Api) {
    exists spec :: PassOn(clock, spec, snapshot, api, api')
  }

  ghost predicate StaleStep(clock: Clock, h: seq<Api>, k: nat)
    requires k + 1 < |h|
  {
    || TouchStep(h[k], h[k + 1])
    || RemoveStep(h[k], h[k + 1])
    || exists s :: 0 <= s <= k && SomePass(clock, h[s], h[k], h[k + 1])
  }

  ghost predicate IsStaleRun(clock: Clock, h: seq<Api>) {
    && |h| > 0 && h[0] == NOTHING
    && forall k :: 0 <= k < |h| - 1 ==> StaleStep(clock, h, k)
  }

  // ---- what the theorems speak of ----------------------------------------------------------

  function Unmarked(api: Api): nat {
    Count(api.machines, Alive)
  }

  /** The Machine of this name was created and has been marked for deletion, whether or not it is still listed. */
  ghost predicate EverMarked(api: Api, name: Name) {
    && name < |api.born|
    && forall i :: 0 <= i < |api.machines| ==> api.machines[i].name == name ==> api.machines[i].deleting
  }

  ghost predicate NewMark(api: Api, api': Api) {
    exists name: Name :: !EverMarked(api, name) && name < |api.born| && EverMarked(api', name)
  }

  /** No step of the run marks a Machine and leaves fewer than three unmarked. */
  ghost predicate KeepsFloor(h: seq<Api>) {
    forall k :: 0 <= k < |h| - 1 ==> NewMark(h[k], h[k + 1]) ==> Unmarked(h[k + 1]) >= 3
  }

  ghost predicate MarksFormPrefix(api: Api) {
    forall a: Name, b: Name :: a < b && EverMarked(api, b) ==> EverMarked(api, a)
  }

  ghost predicate OneDeletionInFlight(api: Api) {
    forall i, j :: 0 <= i < |api.machines| && 0 <= j < |api.machines| ==>
      api.machines[i].deleting && api.machines[j].deleting ==> i == j
  }

  // ---- the invariant -----------------------------------------------------------------------

  function Gone(api: Api): int {
    |api.born| - |api.machines|
  }

  /** How many Machines were ever marked, when Chain holds. */
  function Marks(api: Api): int {
    Gone(api) + (if |api.machines| > 0 && api.machines[0].deleting then 1 else 0)
  }

  /** The listed Machines are the latest ones created, in order, and only the first may be marked. */
  ghost predicate Chain(clock: Clock, api: Api) {
    && |api.machines| <= |api.born|
    && forall i :: 0 <= i < |api.machines| ==>
         var m := api.machines[i];
         m.name == Gone(api) + i && m.created == clock(m.name) && (m.deleting ==> i == 0)
  }

  ghost predicate NotBefore(a: Api, b: Api) {
    Gone(a) <= Gone(b) && Marks(a) <= Marks(b) && |a.born| <= |b.born|
  }

  lemma ChainIsSorted(clock: Clock, api: Api)
    requires Ticking(clock) && Chain(clock, api)
    ensures StrictlySorted(api.machines)
  {
  }

  lemma TouchKeepsChain(clock: Clock, api: Api, i: nat, m: Machine, api': Api)
    requires Chain(clock, api) && Touches(api, i, m, api')
    ensures Chain(clock, api') && NotBefore(api, api') && Marks(api') == Marks(api)
  {
  }

  lemma RemoveKeepsChain(clock: Clock, api: Api, i: nat, api': Api)
    requires Chain(clock, api) && Removes(api, i, api')
    ensures Chain(clock, api') && NotBefore(api, api') && Marks(api') == Marks(api)
  {
  }

  lemma BootKeepsChain(clock: Clock, version: Version, c: BootCalls, api: Api)
    requires Chain(clock, api)
    ensures
      var api' := Boot(clock, version, c, api);
      Chain(clock, api') && NotBefore(api, api') && Marks(api') == Marks(api)
  {
  }

  lemma RewriteKeepsChain(clock: Clock, names: seq<Name>, version: Version, api: Api)
    requires Chain(clock, api)
    ensures
      var api' := Rewrite(api, names, version);
      Chain(clock, api') && NotBefore(api, api') && Marks(api') == Marks(api) && |api'.born| == |api.born|
  {
  }

  /** A mark decided on a snapshot that had none hits the oldest Machine or nothing at all. */
  lemma MarkKeepsChain(clock: Clock, snapshot: Api, api: Api)
    requires Ticking(clock) && Chain(clock, snapshot) && Chain(clock, api) && NotBefore(snapshot, api)
    requires MayDelete(snapshot.machines)
    ensures
      var api' := MarkDeleting(api, Victim(snapshot.machines).name);
      && Chain(clock, api') && NotBefore(api, api')
      && (|| Marks(api') == Marks(api)
          || (Marks(api') == Marks(api) + 1 == Marks(snapshot) + 1 && |api'.born| == |api.born|))
  {
  }

  /** One pass on a stale view: the chain goes on, and a new mark was decided when the chain was no further. */
  lemma PassKeepsChain(clock: Clock, spec: Spec, snapshot: Api, api: Api, api': Api)
    requires Ticking(clock) && Chain(clock, snapshot) && Chain(clock, api) && NotBefore(snapshot, api)
    requires PassOn(clock, spec, snapshot, api, api')
    ensures Chain(clock, api') && NotBefore(api, api')
    ensures Marks(api') > Marks(api) ==>
              Marks(api') == Marks(api) + 1 == Gone(snapshot) + 1 && |snapshot.machines| >= 4
  {
    var view: seq<Machine>, calls: Calls :| && IsSortOf(view, snapshot.machines)
                                            && api' == MachinesPass(clock, spec, view, calls, api);
    ChainIsSorted(clock, snapshot);
    SortIsUnique(view, snapshot.machines);
    BootKeepsChain(clock, spec.version, calls.boot, api);
    RewriteKeepsChain(clock, UpgradedNames(view, calls.upgrade), spec.version, api);
    var upgraded := Upgrade(spec, view, calls, api);
    if ReachesSwitch(spec, view, calls) {
      BootKeepsChain(clock, spec.version, calls.boot, upgraded);
      if Deletes(spec, view, calls) {
        MarkKeepsChain(clock, snapshot, upgraded);
      }
    }
  }

  lemma StepKeepsChain(clock: Clock, h: seq<Api>, k: nat)
    requires Ticking(clock) && k + 1 < |h| && StaleStep(clock, h, k)
    requires forall s :: 0 <= s <= k ==> Chain(clock, h[s]) && NotBefore(h[s], h[k])
    ensures Chain(clock, h[k + 1]) && NotBefore(h[k], h[k + 1])
    ensures Marks(h[k + 1]) > Marks(h[k]) ==>
              && Marks(h[k + 1]) == Marks(h[k]) + 1
              && exists s :: 0 <= s <= k && Marks(h[k]) == Gone(h[s]) && |h[s].machines| >= 4
  {
    if TouchStep(h[k], h[k + 1]) {
      var i: nat, m: Machine :| Touches(h[k], i, m, h[k + 1]);
      TouchKeepsChain(clock, h[k], i, m, h[k + 1]);
    } else if RemoveStep(h[k], h[k + 1]) {
      var i: nat :| Removes(h[k], i, h[k + 1]);
      RemoveKeepsChain(clock, h[k], i, h[k + 1]);
    } else {
      var s :| 0 <= s <= k && SomePass(clock, h[s], h[k], h[k + 1]);
      var spec :| PassOn(clock, spec, h[s], h[k], h[k + 1]);
      PassKeepsChain(clock, spec, h[s], h[k], h[k + 1]);
    }
  }

  lemma RunStepKeepsChain(clock: Clock, h: seq<Api>, k: nat)
    requires Ticking(clock) && IsStaleRun(clock, h) && k + 1 < |h|
    requires forall s :: 0 <= s <= k ==> Chain(clock, h[s]) && NotBefore(h[s], h[k])
    ensures Chain(clock, h[k + 1]) && NotBefore(h[k], h[k + 1])
  {
    assert StaleStep(clock, h, k);
    StepKeepsChain(clock, h, k);
  }

  /** Every state of a run is a chain, and no earlier state is further along it. */
  lemma {:induction false} RunIsChain(clock: Clock, h: seq<Api>, k: nat)
    requires Ticking(clock) && IsStaleRun(clock, h) && k < |h|
    ensures forall s :: 0 <= s <= k ==> Chain(clock, h[s]) && NotBefore(h[s], h[k])
  {
    if k == 0 {
    } else {
      RunIsChain(clock, h, k - 1);
      RunStepKeepsChain(clock, h, k - 1);
    }
  }

  // ---- the theorems ------------------------------------------------------------------------

  lemma EverMarkedIsPrefix(clock: Clock, api: Api, name: Name)
    requires Chain(clock, api)
    ensures EverMarked(api, name) <==> name < Marks(api)
  {
    var i := name - Gone(api);
    if 0 <= i < |api.machines| {
      assert api.machines[i].name == name;
    }
  }

  lemma UnmarkedOfChain(clock: Clock, api: Api)
    requires Chain(clock, api)
    ensures Unmarked(api) == |api.born| - Marks(api)
  {
    if |api.machines| > 0 {
      var rest := api.machines[1..];
      assert forall i :: 0 <= i < |rest| ==> rest[i] == api.machines[i + 1] && Alive(rest[i]);
      CountZero(rest, Alive);
    }
  }

  /** At most one listed Machine is ever being deleted, and the Machines ever marked are the oldest ones. */
  lemma StaleMarksInOrder(clock: Clock, h: seq<Api>, k: nat)
    requires Ticking(clock) && IsStaleRun(clock, h) && k < |h|
    ensures OneDeletionInFlight(h[k]) && MarksFormPrefix(h[k])
  {
    RunIsChain(clock, h, k);
    forall name: Name
      ensures EverMarked(h[k], name) <==> name < Marks(h[k])
    {
      EverMarkedIsPrefix(clock, h[k], name);
    }
  }

  /** When no two Machines share a creation second, no stale view makes the controller break the floor. */
  lemma StaleFloor(clock: Clock, h: seq<Api>)
    requires Ticking(clock) && IsStaleRun(clock, h)
    ensures KeepsFloor(h)
  {
    forall k | 0 <= k < |h| - 1 && NewMark(h[k], h[k + 1])
      ensures Unmarked(h[k + 1]) >= 3
    {
      var name: Name :| !EverMarked(h[k], name) && name < |h[k].born| && EverMarked(h[k + 1], name);
      RunIsChain(clock, h, k);
      RunIsChain(clock, h, k + 1);
      EverMarkedIsPrefix(clock, h[k], name);
      EverMarkedIsPrefix(clock, h[k + 1], name);
      StepKeepsChain(clock, h, k);
      UnmarkedOfChain(clock, h[k + 1]);
    }
  }

  // ---- size --------------------------------------------------------------------------------

  lemma PassGrowth(clock: Clock, spec: Spec, snapshot: Api, api: Api, api': Api)
    requires PassOn(clock, spec, snapshot, api, api')
    ensures |api.born| <= |api'.born| <= |api.born| + 1
    ensures |api'.machines| - |api.machines| <= |api'.born| - |api.born|
  {
  }

  /** The list grows by at most the number of Machines created, whatever the step. */
  lemma StepGrowth(clock: Clock, h: seq<Api>, k: nat)
    requires k + 1 < |h| && StaleStep(clock, h, k)
    ensures |h[k].born| <= |h[k + 1].born| <= |h[k].born| + 1
    ensures |h[k + 1].machines| - |h[k].machines| <= |h[k + 1].born| - |h[k].born|
  {
    if s :| 0 <= s <= k && SomePass(clock, h[s], h[k], h[k + 1]) {
      var spec :| PassOn(clock, spec, h[s], h[k], h[k + 1]);
      PassGrowth(clock, spec, h[s], h[k], h[k + 1]);
    }
  }

  lemma RunStepGrowth(clock: Clock, h: seq<Api>, k: nat)
    requires IsStaleRun(clock, h) && k + 1 < |h|
    ensures |h[k].born| <= |h[k + 1].born|
    ensures |h[k + 1].machines| - |h[k].machines| <= |h[k + 1].born| - |h[k].born|
  {
    assert StaleStep(clock, h, k);
    StepGrowth(clock, h, k);
  }

  lemma {:induction false} RunGrowth(clock: Clock, h: seq<Api>, s: nat, k: nat)
    requires IsStaleRun(clock, h) && s <= k < |h|
    ensures |h[s].born| <= |h[k].born|
    ensures |h[k].machines| - |h[s].machines| <= |h[k].born| - |h[s].born|
    decreases k
  {
    if s == k {
    } else {
      RunGrowth(clock, h, s, k - 1);
      RunStepGrowth(clock, h, k - 1);
    }
  }

  /** A pass whose view misses at most `lag` creations leaves at most replicas + 1 + lag Machines when it creates. */
  lemma LaggingViewBoundsFleet(clock: Clock, h: seq<Api>, s: nat, k: nat, spec: Spec, lag: nat)
    requires IsStaleRun(clock, h) && s <= k < |h| - 1
    requires PassOn(clock, spec, h[s], h[k], h[k + 1])
    requires |h[k].born| - |h[s].born| <= lag
    requires |h[k + 1].born| > |h[k].born|
    ensures |h[k + 1].machines| <= spec.replicas + 1 + lag
  {
    RunGrowth(clock, h, s, k);
    var view: seq<Machine>, calls: Calls :| && IsSortOf(view, h[s].machines)
                                            && h[k + 1] == MachinesPass(clock, spec, view, calls, h[k]);
    SameMembers(view, h[s].machines);
  }
}
