/** Whole lives of a control plane: it is created, reconciled, edited and deleted at any moment, also between the
    read at the start of a Reconcile and its writes. Calls fail at will throughout. The lists may be any lists at
    all, as long as an empty one means that there are no Machines. */
module Lifecycle {
  import opened Types
  import opened CreationOrder
  import opened StaleRuns
  import opened ControlPlane
  import opened Secrets
  import opened Reconciling

  /** `reading` is the object a Reconcile in progress has read. */
  datatype World = World(server: Server, reading: Option<Mcp>)

  // ---- steps -------------------------------------------------------------------------------

  predicate Begins(w: World, w': World) {
    w.reading.None? && w.server.stored.Some? && w' == w.(reading := w.server.stored)
  }

  /** A gate stops the Reconcile: paused, no owner, infrastructure not ready. */
  predicate StopsAtGate(w: World, w': World) {
    w' == w.(reading := None)
  }

  /** A list may be stale or wrong, but it is empty only when there are no Machines. */
  ghost predicate HonestlyEmpty(api: Api, c: ReconcileCalls) {
    IsSortOf(c.view, c.listing) && (|c.listing| == 0 ==> |api.machines| == 0)
  }

  ghost predicate Acts(clock: Clock, cl: Cluster, w: World, w': World) {
    && w.reading.Some?
    && exists c :: HonestlyEmpty(w.server.api, c) && w' == World(Act(clock, cl, w.server, w.reading.value, c), None)
  }

  /** Deletion marks an object that has finalizers and removes one that has none. */
  predicate UserDeletes(w: World, w': World) {
    && w.server.stored.Some?
    && w' == w.(server := w.server.(stored := Settle(w.server.stored.value.(deleting := true))))
  }

  ghost predicate UserEdits(w: World, w': World) {
    && w.server.stored.Some?
    && exists spec :: w' == w.(server := w.server.(stored := Some(w.server.stored.value.(spec := spec))))
  }

  ghost predicate MachineStep(w: World, w': World) {
    && w' == w.(server := w.server.(api := w'.server.api))
    && (TouchStep(w.server.api, w'.server.api) || RemoveStep(w.server.api, w'.server.api))
  }

  /** Others write any secret, but the kubeconfig of this cluster they at most delete. */
  predicate SecretStep(cl: Cluster, w: World, w': World) {
    && w' == w.(server := w.server.(secrets := w'.server.secrets))
    && (KubeconfigKey(cl) in w'.server.secrets ==> KubeconfigKey(cl) in w.server.secrets)
  }

  /** A step in which the controller writes nothing. */
  ghost predicate OtherStep(cl: Cluster, w: World, w': World) {
    || Begins(w, w') || StopsAtGate(w, w')
    || UserDeletes(w, w') || UserEdits(w, w') || MachineStep(w, w') || SecretStep(cl, w, w')
  }

  ghost predicate Step(clock: Clock, cl: Cluster, w: World, w': World) {
    OtherStep(cl, w, w') || Acts(clock, cl, w, w')
  }

  ghost predicate Starts(w: World) {
    && w.reading.None? && w.server.api == NOTHING
    && w.server.stored.Some? && w.server.stored.value.status == ZERO && !w.server.stored.value.deleting
  }

  ghost predicate StepAt(clock: Clock, cl: Cluster, h: seq<World>, k: nat)
    requires k + 1 < |h|
  {
    Step(clock, cl, h[k], h[k + 1])
  }

  ghost predicate IsLife(clock: Clock, cl: Cluster, h: seq<World>) {
    && |h| > 0 && Starts(h[0])
    && forall k :: 0 <= k < |h| - 1 ==> StepAt(clock, cl, h, k)
  }

  // ---- invariants --------------------------------------------------------------------------

  /** A Machine exists only under a finalizer. */
  predicate Protected(w: World) {
    |w.server.api.machines| > 0 ==> w.server.stored.Some? && w.server.stored.value.finalizer
  }

  /** What a Reconcile in progress read still tells about the stored object. */
  predicate Current(w: World) {
    var s, r := w.server.stored, w.reading;
    && (s.Some? && s.value.deleting ==> s.value.finalizer)
    && (r.Some? && r.value.deleting ==> r.value.finalizer)
    && (r.Some? && r.value.finalizer ==> s.Some? && s.value.finalizer)
    && (r.Some? && r.value.deleting && s.Some? ==> s.value.deleting)
    && (r.Some? && s.Some? ==> r.value.status == s.value.status)
  }

  predicate StatusesSound(w: World) {
    && (w.server.stored.Some? ==> Sound(w.server.stored.value.status))
    && (w.reading.Some? ==> Sound(w.reading.value.status))
  }

  predicate Invariant(w: World) {
    Protected(w) && Current(w) && StatusesSound(w)
  }

  lemma ActKeepsProtected(clock: Clock, cl: Cluster, s: Server, read: Mcp, c: ReconcileCalls)
    requires Invariant(World(s, Some(read))) && HonestlyEmpty(s.api, c)
    ensures Protected(World(Act(clock, cl, s, read, c), None))
    ensures
      var s' := Act(clock, cl, s, read, c).stored;
      && (s'.Some? && s'.value.deleting ==> s'.value.finalizer)
      && (s.stored.None? ==> s'.None?)
      && (s'.Some? ==> s'.value.deleting == s.stored.value.deleting)
  {
  }

  /** Without that proviso, one Reconcile leaves Machines without a finalizer exactly when there are some, the object
      it read was being deleted, its list came back empty and one of the two writes landed. */
  lemma OrphansIff(clock: Clock, cl: Cluster, s: Server, read: Mcp, c: ReconcileCalls)
    requires Invariant(World(s, Some(read)))
    ensures
      !Protected(World(Act(clock, cl, s, read, c), None)) <==>
        && |s.api.machines| > 0 && read.deleting
        && c.listOk && |c.listing| == 0 && (c.update.Landed() || c.patch.Landed())
  {
  }

  lemma ActKeepsInvariant(clock: Clock, cl: Cluster, w: World, w': World)
    requires Invariant(w) && Acts(clock, cl, w, w')
    ensures Invariant(w')
  {
    var c :| HonestlyEmpty(w.server.api, c) && w' == World(Act(clock, cl, w.server, w.reading.value, c), None);
    ActKeepsProtected(clock, cl, w.server, w.reading.value, c);
    ActKeepsSound(clock, cl, w.server, w.reading.value, c);
  }

  lemma StepKeepsInvariant(clock: Clock, cl: Cluster, w: World, w': World)
    requires Invariant(w) && Step(clock, cl, w, w')
    ensures Invariant(w')
  {
    if Acts(clock, cl, w, w') {
      ActKeepsInvariant(clock, cl, w, w');
    }
  }

  /** In every reachable state an existing Machine implies the finalizer, the counters add up, and the latches
      agree with their conditions. */
  lemma {:induction false} LifeKeepsInvariant(clock: Clock, cl: Cluster, h: seq<World>, k: nat)
    requires IsLife(clock, cl, h) && k < |h|
    ensures Invariant(h[k])
  {
    if k == 0 {
    } else {
      LifeKeepsInvariant(clock, cl, h, k - 1);
      assert StepAt(clock, cl, h, k - 1);
      StepKeepsInvariant(clock, cl, h[k - 1], h[k]);
    }
  }

  // ---- latches over time -------------------------------------------------------------------

  lemma StepAdvances(clock: Clock, cl: Cluster, w: World, w': World)
    requires Invariant(w) && Step(clock, cl, w, w') && w'.server.stored.Some?
    ensures w.server.stored.Some? && Advances(w.server.stored.value.status, w'.server.stored.value.status)
  {
    if Acts(clock, cl, w, w') {
      var c :| HonestlyEmpty(w.server.api, c) && w' == World(Act(clock, cl, w.server, w.reading.value, c), None);
      ActKeepsProtected(clock, cl, w.server, w.reading.value, c);
      ActKeepsSound(clock, cl, w.server, w.reading.value, c);
    }
  }

  /** Initialized, Bootstrapped and the Available condition never revert while the control plane exists. */
  lemma {:induction false} LatchesHold(clock: Clock, cl: Cluster, h: seq<World>, j: nat, k: nat)
    requires IsLife(clock, cl, h) && j <= k < |h| && h[k].server.stored.Some?
    ensures h[j].server.stored.Some?
    ensures Advances(h[j].server.stored.value.status, h[k].server.stored.value.status)
    decreases k
  {
    if j == k {
    } else {
      LifeKeepsInvariant(clock, cl, h, k - 1);
      assert StepAt(clock, cl, h, k - 1);
      StepAdvances(clock, cl, h[k - 1], h[k]);
      LatchesHold(clock, cl, h, j, k - 1);
    }
  }

  // ---- after the deletion has been observed ------------------------------------------------

  /** No Reconcile can act on a live object any more. */
  predicate DeletionSeen(w: World) {
    && (w.server.stored.Some? ==> w.server.stored.value.deleting)
    && (w.reading.Some? ==> w.reading.value.deleting)
  }

  /** (unmarked, listed) goes down, or nothing about marks and membership changed. */
  predicate Dwindles(a: Api, b: Api) {
    || (Unmarked(b) < Unmarked(a) && |b.machines| <= |a.machines|)
    || (Unmarked(b) == Unmarked(a) && |b.machines| < |a.machines|)
    || SameMarks(a, b)
  }

  predicate SameMarks(a: Api, b: Api) {
    && |b.machines| == |a.machines|
    && forall i :: 0 <= i < |a.machines| ==>
         b.machines[i].name == a.machines[i].name && b.machines[i].deleting == a.machines[i].deleting
  }

  lemma DwindlesLowers(a: Api, b: Api)
    requires Dwindles(a, b)
    ensures
      var left := Unmarked(b) + |b.machines|;
      if SameMarks(a, b) then left == Unmarked(a) + |a.machines| else left < Unmarked(a) + |a.machines|
  {
    if SameMarks(a, b) {
      CountDominates(a.machines, b.machines, Alive);
      CountDominates(b.machines, a.machines, Alive);
    }
  }

  lemma MarksDwindle(api: Api, names: seq<Name>)
    ensures Dwindles(api, MarkAll(api, names))
  {
    var marked := MarkAll(api, names);
    CountDominates(api.machines, marked.machines, Alive);
    if i :| 0 <= i < |api.machines| && marked.machines[i].deleting != api.machines[i].deleting {
      assert Alive(api.machines[i]) && !Alive(marked.machines[i]);
    }
  }

  lemma ActAfterDeletion(clock: Clock, cl: Cluster, w: World, w': World)
    requires Invariant(w) && DeletionSeen(w) && Acts(clock, cl, w, w')
    ensures DeletionSeen(w')
    ensures w'.server.api.born == w.server.api.born && Dwindles(w.server.api, w'.server.api)
    ensures w'.server.secrets <= w.server.secrets
  {
    var c :| HonestlyEmpty(w.server.api, c) && w' == World(Act(clock, cl, w.server, w.reading.value, c), None);
    ActKeepsProtected(clock, cl, w.server, w.reading.value, c);
    DeletingCreatesNothing(clock, cl, w.server, w.reading.value, c);
    MarksDwindle(w.server.api, Requested(c.listing, c.deletes));
  }

  lemma RemovalDwindles(api: Api, api': Api)
    requires RemoveStep(api, api')
    ensures Dwindles(api, api')
  {
    var i: nat :| Removes(api, i, api');
    CountRemove(api.machines, i, Alive);
  }

  lemma StepAfterDeletion(clock: Clock, cl: Cluster, w: World, w': World)
    requires Invariant(w) && DeletionSeen(w) && Step(clock, cl, w, w')
    ensures DeletionSeen(w')
    ensures w'.server.api.born == w.server.api.born && Dwindles(w.server.api, w'.server.api)
    ensures KubeconfigKey(cl) in w'.server.secrets ==> KubeconfigKey(cl) in w.server.secrets
  {
    if Acts(clock, cl, w, w') {
      ActAfterDeletion(clock, cl, w, w');
    } else if MachineStep(w, w') && RemoveStep(w.server.api, w'.server.api) {
      RemovalDwindles(w.server.api, w'.server.api);
    }
  }

  lemma LifeStepAfterDeletion(clock: Clock, cl: Cluster, h: seq<World>, k: nat)
    requires IsLife(clock, cl, h) && k + 1 < |h| && DeletionSeen(h[k])
    ensures DeletionSeen(h[k + 1])
    ensures h[k + 1].server.api.born == h[k].server.api.born && Dwindles(h[k].server.api, h[k + 1].server.api)
    ensures KubeconfigKey(cl) in h[k + 1].server.secrets ==> KubeconfigKey(cl) in h[k].server.secrets
  {
    LifeKeepsInvariant(clock, cl, h, k);
    assert StepAt(clock, cl, h, k);
    StepAfterDeletion(clock, cl, h[k], h[k + 1]);
  }

  lemma {:induction false} SeenStays(clock: Clock, cl: Cluster, h: seq<World>, j: nat, k: nat)
    requires IsLife(clock, cl, h) && j <= k < |h| && DeletionSeen(h[j])
    ensures DeletionSeen(h[k]) && h[k].server.api.born == h[j].server.api.born
    ensures KubeconfigKey(cl) in h[k].server.secrets ==> KubeconfigKey(cl) in h[j].server.secrets
    decreases k
  {
    if j == k {
    } else {
      SeenStays(clock, cl, h, j, k - 1);
      LifeStepAfterDeletion(clock, cl, h, k - 1);
    }
  }

  /** Once a Reconcile has read the deletion mark, at step j: no Machine is ever created again, each later step
      lowers (unmarked, listed) or leaves the marks alone, and a kubeconfig secret found gone stays gone. */
  lemma DeletionIsFinal(clock: Clock, cl: Cluster, h: seq<World>, j: nat, i: nat, k: nat)
    requires IsLife(clock, cl, h) && j <= i <= k < |h|
    requires h[j].reading.Some? && h[j].reading.value.deleting
    ensures h[k].server.api.born == h[j].server.api.born
    ensures k + 1 < |h| ==> Dwindles(h[k].server.api, h[k + 1].server.api)
    ensures KubeconfigKey(cl) !in h[i].server.secrets ==> KubeconfigKey(cl) !in h[k].server.secrets
  {
    LifeKeepsInvariant(clock, cl, h, j);
    SeenStays(clock, cl, h, j, i);
    SeenStays(clock, cl, h, i, k);
    if k + 1 < |h| {
      LifeStepAfterDeletion(clock, cl, h, k);
    }
  }

  /** How many of the steps from j to k changed marks or membership. */
  function MarkChanges(h: seq<World>, j: nat, k: nat): nat
    requires j <= k < |h|
    decreases k
  {
    if j == k then 0
    else MarkChanges(h, j, k - 1) + (if SameMarks(h[k - 1].server.api, h[k].server.api) then 0 else 1)
  }

  /** In every life, after the deletion mark has been read at step j, marks and membership change at most once for each
      Machine left unmarked then and once for each listed then. */
  lemma {:induction false} DeletionIsBounded(clock: Clock, cl: Cluster, h: seq<World>, j: nat, k: nat)
    requires IsLife(clock, cl, h) && j <= k < |h|
    requires h[j].reading.Some? && h[j].reading.value.deleting
    ensures
      var start, now := h[j].server.api, h[k].server.api;
      MarkChanges(h, j, k) + Unmarked(now) + |now.machines| <= Unmarked(start) + |start.machines|
    decreases k
  {
    if j == k {
    } else {
      DeletionIsBounded(clock, cl, h, j, k - 1);
      DeletionIsFinal(clock, cl, h, j, k - 1, k - 1);
      DwindlesLowers(h[k - 1].server.api, h[k].server.api);
    }
  }
}
