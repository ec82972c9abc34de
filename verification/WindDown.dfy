/** The deletion of a control plane comes to its end. */
module WindDown {
  import opened Types
  import opened CreationOrder
  import opened StaleRuns
  import opened Ties
  import opened ControlPlane
  import opened Secrets
  import opened NodeProvider
  import opened Reconciling
  import opened Lifecycle

  /** The list is the current one, and the calls that delete and write back succeed. */
  ghost predicate Succeeds(api: Api, c: ReconcileCalls) {
    && multiset(c.listing) == multiset(api.machines) && IsSortOf(c.view, c.listing)
    && c.listOk && c.update.Done? && c.patch.Done? && forall name :: c.deletes(name).Done?
  }

  /** Nothing is left that goes away by itself, and no Reconcile whose calls succeed changes a Machine or the object's
      existence. */
  ghost predicate WoundUp(clock: Clock, cl: Cluster, s: Server) {
    && (forall i :: 0 <= i < |s.api.machines| ==> Alive(s.api.machines[i]))
    && forall c :: s.stored.Some? && Succeeds(s.api, c) ==>
         var s' := Act(clock, cl, s, s.stored.value, c);
         s'.api.machines == s.api.machines && s'.stored.Some?
  }

  // ---- calls that succeed exist ------------------------------------------------------------

  const NO_KUBE := KubeCalls(false, false, false, false, Failed, false, false)

  function DeletingCalls(listing: seq<Machine>, view: seq<Machine>): ReconcileCalls {
    var machines :=
      Scaling.Calls(false, _ => Scaling.LookupFailed, Scaling.BootCalls(Failed, 0, Failed, 0, Failed), false, Failed);
    ReconcileCalls(
      true, listing, view, Done, _ => Done, _ => true, true, true, None, machines, NO_KUBE, NO_KUBE, false,
      StatusCalls(true, |listing|, false, false, false, []), NO_KUBE, ProviderCalls(false, [], [], _ => Failed), Done)
  }

  lemma CallsExist(api: Api) returns (c: ReconcileCalls)
    ensures Succeeds(api, c)
  {
    var view := SortExists(api.machines);
    c := DeletingCalls(api.machines, view);
  }

  // ---- what such a Reconcile does ----------------------------------------------------------

  lemma {:induction false} AllAreRequested(listing: seq<Machine>, deletes: Name -> CallResult)
    requires forall name :: deletes(name).Done?
    ensures forall m :: m in listing && Alive(m) ==> m.name in Requested(listing, deletes)
  {
    if |listing| == 0 {
    } else {
      AllAreRequested(listing[1..], deletes);
      assert listing == [listing[0]] + listing[1..];
    }
  }

  /** With Machines left, every one of them ends up marked. */
  lemma ReconcileMarksAll(clock: Clock, cl: Cluster, s: Server, read: Mcp, c: ReconcileCalls)
    requires read.deleting && read.finalizer && Succeeds(s.api, c) && |s.api.machines| > 0
    ensures
      var s' := Act(clock, cl, s, read, c);
      && |s'.api.machines| == |s.api.machines|
      && forall i :: 0 <= i < |s'.api.machines| ==> s'.api.machines[i] == s.api.machines[i].(deleting := true)
  {
    SameMembers(c.listing, s.api.machines);
    AllAreRequested(c.listing, c.deletes);
    forall i | 0 <= i < |s.api.machines|
      ensures Alive(s.api.machines[i]) ==> s.api.machines[i].name in Requested(c.listing, c.deletes)
    {
      assert s.api.machines[i] in c.listing;
    }
  }

  /** With none left, the object goes. */
  lemma ReconcileRemovesObject(clock: Clock, cl: Cluster, s: Server, read: Mcp, c: ReconcileCalls)
    requires read.deleting && read.finalizer && Succeeds(s.api, c) && |s.api.machines| == 0
    requires s.stored.Some? && s.stored.value.deleting
    ensures Act(clock, cl, s, read, c).api == s.api && Act(clock, cl, s, read, c).stored.None?
  {
    SameMembers(c.listing, s.api.machines);
  }

  /** A deletion that can go no further is complete: no Machine and no object is left. */
  lemma WoundUpIff(clock: Clock, cl: Cluster, s: Server)
    requires Invariant(World(s, None)) && DeletionSeen(World(s, None))
    ensures WoundUp(clock, cl, s) <==> |s.api.machines| == 0 && s.stored.None?
  {
    if s.stored.Some? {
      var c := CallsExist(s.api);
      if |s.api.machines| > 0 {
        ReconcileMarksAll(clock, cl, s, s.stored.value, c);
        assert !Alive(Act(clock, cl, s, s.stored.value, c).api.machines[0]);
      } else {
        ReconcileRemovesObject(clock, cl, s, s.stored.value, c);
      }
    }
  }

  // ---- and it gets there -------------------------------------------------------------------

  function Left(w: World): nat {
    (if w.server.stored.Some? then 1 else 0) + |w.server.api.machines| + Unmarked(w.server.api)
  }

  ghost predicate Follow(clock: Clock, cl: Cluster, h: seq<World>) {
    |h| > 0 && forall k :: 0 <= k < |h| - 1 ==> StepAt(clock, cl, h, k)
  }

  lemma Precedes(clock: Clock, cl: Cluster, w: World, h: seq<World>)
    requires Follow(clock, cl, h) && Step(clock, cl, w, h[0])
    ensures Follow(clock, cl, [w] + h)
  {
    forall k | 0 <= k < |h|
      ensures StepAt(clock, cl, [w] + h, k)
    {
      if k > 0 {
        assert StepAt(clock, cl, h, k - 1);
      }
    }
  }

  /** One Reconcile with successful calls lowers what is left, unless Machines that are marked already have to go. */
  lemma ReconcileLowers(clock: Clock, cl: Cluster, w: World) returns (reading: World, w': World)
    requires Invariant(w) && DeletionSeen(w) && w.reading.None? && w.server.stored.Some?
    requires forall i :: 0 <= i < |w.server.api.machines| ==> Alive(w.server.api.machines[i])
    ensures Step(clock, cl, w, reading) && Step(clock, cl, reading, w')
    ensures Left(w') < Left(w) && w'.reading.None?
  {
    var s := w.server;
    var read := s.stored.value;
    reading := w.(reading := Some(read));
    var c := CallsExist(s.api);
    w' := World(Act(clock, cl, s, read, c), None);
    SameMembers(c.listing, s.api.machines);
    assert HonestlyEmpty(s.api, c) && Acts(clock, cl, reading, w');
    if |s.api.machines| == 0 {
      ReconcileRemovesObject(clock, cl, s, read, c);
    } else {
      ReconcileMarksAll(clock, cl, s, read, c);
      CountZero(w'.server.api.machines, Alive);
      CountZero(s.api.machines, Alive);
    }
  }

  lemma RemovalLowers(clock: Clock, cl: Cluster, w: World, i: nat) returns (w': World)
    requires i < |w.server.api.machines| && w.server.api.machines[i].deleting
    ensures Step(clock, cl, w, w') && Left(w') < Left(w) && w'.reading == w.reading
  {
    var api := w.server.api;
    var rest := api.(machines := api.machines[..i] + api.machines[i + 1..]);
    w' := w.(server := w.server.(api := rest));
    assert Removes(api, i, rest);
    CountRemove(api.machines, i, Alive);
    assert MachineStep(w, w');
  }

  /** From every state in which no Reconcile can act on a live object any more, some run ends with nothing left. */
  lemma {:induction false} WindDownExists(clock: Clock, cl: Cluster, w: World) returns (h: seq<World>)
    requires Invariant(w) && DeletionSeen(w) && w.reading.None?
    ensures Follow(clock, cl, h) && h[0] == w
    ensures |h[|h| - 1].server.api.machines| == 0 && h[|h| - 1].server.stored.None?
    decreases Left(w)
  {
    if i :| 0 <= i < |w.server.api.machines| && w.server.api.machines[i].deleting {
      var next := RemovalLowers(clock, cl, w, i);
      StepKeepsInvariant(clock, cl, w, next);
      StepAfterDeletion(clock, cl, w, next);
      var rest := WindDownExists(clock, cl, next);
      Precedes(clock, cl, w, rest);
      h := [w] + rest;
    } else if w.server.stored.None? {
      h := [w];
    } else {
      var reading, next := ReconcileLowers(clock, cl, w);
      StepKeepsInvariant(clock, cl, w, reading);
      StepAfterDeletion(clock, cl, w, reading);
      StepKeepsInvariant(clock, cl, reading, next);
      StepAfterDeletion(clock, cl, reading, next);
      var rest := WindDownExists(clock, cl, next);
      Precedes(clock, cl, reading, rest);
      Precedes(clock, cl, w, [reading] + rest);
      h := [w] + ([reading] + rest);
    }
  }
}
