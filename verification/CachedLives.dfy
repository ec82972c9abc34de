/** Whole lives in which every list comes from the manager's cache: it is the list of some past state. */
module CachedLives {
  import opened Types
  import opened CreationOrder
  import opened Scaling
  import opened StaleRuns
  import opened ControlPlane
  import opened Secrets
  import opened NodeProvider
  import opened Reconciling
  import opened Lifecycle

  ghost predicate ListedIn(api: Api, c: ReconcileCalls) {
    multiset(c.listing) == multiset(api.machines) && IsSortOf(c.view, c.listing)
  }

  ghost predicate ActsOn(clock: Clock, cl: Cluster, snapshot: Api, w: World, w': World) {
    && w.reading.Some?
    && exists c :: ListedIn(snapshot, c) && w' == World(Act(clock, cl, w.server, w.reading.value, c), None)
  }

  ghost predicate CachedStep(clock: Clock, cl: Cluster, h: seq<World>, k: nat)
    requires k + 1 < |h|
  {
    || OtherStep(cl, h[k], h[k + 1])
    || exists s :: 0 <= s <= k && ActsOn(clock, cl, h[s].server.api, h[k], h[k + 1])
  }

  ghost predicate IsCachedLife(clock: Clock, cl: Cluster, h: seq<World>) {
    && |h| > 0 && Starts(h[0])
    && forall k :: 0 <= k < |h| - 1 ==> CachedStep(clock, cl, h, k)
  }

  // ---- the floor, for lives ----------------------------------------------------------------

  function Fleets(h: seq<World>): (r: seq<Api>)
    ensures |r| == |h| && forall k :: 0 <= k < |h| ==> r[k] == h[k].server.api
  {
    seq(|h|, k requires 0 <= k < |h| => h[k].server.api)
  }

  /** A pass on no Machines with none desired does nothing. */
  lemma IdleIsPass(clock: Clock, api: Api)
    ensures SomePass(clock, NOTHING, api, api)
  {
    var spec := Spec(0, Malformed(""), Unset);
    var calls := Calls(false, _ => LookupFailed, BootCalls(Failed, 0, Failed, 0, Failed), false, Failed);
    assert MachinesPass(clock, spec, [], calls, api) == api;
    assert IsSortOf([], []);
    assert PassOn(clock, spec, NOTHING, api, api);
  }

  /** On an object that is not being deleted, a Reconcile leaves the Machines alone or makes one pass. */
  lemma ActIsPass(clock: Clock, cl: Cluster, snapshot: Api, s: Server, read: Mcp, c: ReconcileCalls)
    requires ListedIn(snapshot, c) && !read.deleting
    ensures
      var api' := Act(clock, cl, s, read, c).api;
      api' == s.api || SomePass(clock, snapshot, s.api, api')
  {
    if read.finalizer && c.externalOk && c.endpointValid && c.listOk {
      var calls := MachineCalls(cl, read.spec, c, s.secrets);
      assert IsSortOf(c.view, snapshot.machines);
      assert PassOn(clock, read.spec, snapshot, s.api, MachinesPass(clock, read.spec, c.view, calls, s.api));
    }
  }

  lemma FleetStep(clock: Clock, cl: Cluster, h: seq<World>, k: nat)
    requires h != [] && h[0].server.api == NOTHING && k + 1 < |h| && CachedStep(clock, cl, h, k)
    requires h[k].reading.Some? ==> !h[k].reading.value.deleting
    ensures StaleStep(clock, Fleets(h), k)
  {
    var g := Fleets(h);
    if exists s :: 0 <= s <= k && ActsOn(clock, cl, h[s].server.api, h[k], h[k + 1]) {
      var s :| 0 <= s <= k && ActsOn(clock, cl, h[s].server.api, h[k], h[k + 1]);
      var c :| && ListedIn(h[s].server.api, c)
               && h[k + 1] == World(Act(clock, cl, h[k].server, h[k].reading.value, c), None);
      ActIsPass(clock, cl, h[s].server.api, h[k].server, h[k].reading.value, c);
      assert g[k + 1] == g[k] || SomePass(clock, g[s], g[k], g[k + 1]);
    }
    IdleIsPass(clock, g[k]);
    assert g[k + 1] == g[k] ==> SomePass(clock, g[0], g[k], g[k + 1]);
  }

  lemma FleetsAreStaleRun(clock: Clock, cl: Cluster, h: seq<World>)
    requires IsCachedLife(clock, cl, h)
    requires forall k :: 0 <= k < |h| && h[k].reading.Some? ==> !h[k].reading.value.deleting
    ensures IsStaleRun(clock, Fleets(h))
  {
    forall k | 0 <= k < |h| - 1
      ensures StaleStep(clock, Fleets(h), k)
    {
      FleetStep(clock, cl, h, k);
    }
  }

  /** Up to the first read of the deletion mark, whatever the cache answers and whichever calls fail: no step marks a
      Machine and leaves fewer than three unmarked, one deletion is in flight at most, and the oldest go first. */
  lemma LivesKeepFloor(clock: Clock, cl: Cluster, h: seq<World>, k: nat)
    requires Ticking(clock) && IsCachedLife(clock, cl, h) && k < |h|
    requires forall k :: 0 <= k < |h| && h[k].reading.Some? ==> !h[k].reading.value.deleting
    ensures KeepsFloor(Fleets(h))
    ensures OneDeletionInFlight(h[k].server.api) && MarksFormPrefix(h[k].server.api)
  {
    FleetsAreStaleRun(clock, cl, h);
    StaleFloor(clock, Fleets(h));
    StaleMarksInOrder(clock, Fleets(h), k);
  }

  // ---- a life that orphans a Machine -------------------------------------------------------

  const KUBE_FAILS := KubeCalls(false, false, false, false, Failed, false, false)

  /** Every call of a Reconcile on an empty list succeeds, but none to the workload cluster. */
  const ON_EMPTY: ReconcileCalls :=
    ReconcileCalls(
      true, [], [], Done, _ => Done, _ => true, true, true, None,
      Calls(false, _ => LookupFailed, BootCalls(Done, 0, Done, 0, Done), false, Failed),
      KUBE_FAILS, KUBE_FAILS, false,
      StatusCalls(true, 0, false, false, false, []), KUBE_FAILS, ProviderCalls(false, [], [], _ => Failed), Done)

  function Fresh(): Server {
    Server(NOTHING, {}, Some(Mcp(Spec(1, Semver(1, 25, ""), Unset), ZERO, false, false)))
  }

  ghost function Acted(clock: Clock, cl: Cluster, s: Server): Server
    requires s.stored.Some?
  {
    Act(clock, cl, s, s.stored.value, ON_EMPTY)
  }

  function Deleted(s: Server): Server
    requires s.stored.Some?
  {
    s.(stored := Settle(s.stored.value.(deleting := true)))
  }

  /** A Reconcile on the empty list, which the server had at the start. */
  lemma ReconcileOnEmpty(clock: Clock, cl: Cluster, h: seq<World>, s: Server) returns (h': seq<World>)
    requires IsCachedLife(clock, cl, h) && h[|h| - 1] == World(s, None) && s.stored.Some?
    ensures IsCachedLife(clock, cl, h') && h'[|h'| - 1] == World(Acted(clock, cl, s), None)
  {
    var reading := World(s, s.stored);
    assert Begins(h[|h| - 1], reading);
    var h1 := ThenOther(clock, cl, h, reading);
    assert ListedIn(NOTHING, ON_EMPTY);
    assert ActsOn(clock, cl, h1[0].server.api, reading, World(Acted(clock, cl, s), None));
    h' := ThenActs(clock, cl, h1, 0, World(Acted(clock, cl, s), None));
  }

  lemma ThenOther(clock: Clock, cl: Cluster, h: seq<World>, w: World) returns (h': seq<World>)
    requires IsCachedLife(clock, cl, h) && OtherStep(cl, h[|h| - 1], w)
    ensures IsCachedLife(clock, cl, h') && h' == h + [w]
  {
    h' := h + [w];
    StepsStay(clock, cl, h, w);
    assert CachedStep(clock, cl, h', |h| - 1);
  }

  lemma ThenActs(clock: Clock, cl: Cluster, h: seq<World>, s: nat, w: World) returns (h': seq<World>)
    requires IsCachedLife(clock, cl, h) && s < |h| && ActsOn(clock, cl, h[s].server.api, h[|h| - 1], w)
    ensures IsCachedLife(clock, cl, h') && h' == h + [w]
  {
    h' := h + [w];
    StepsStay(clock, cl, h, w);
    assert ActsOn(clock, cl, h'[s].server.api, h'[|h| - 1], h'[|h|]);
    assert CachedStep(clock, cl, h', |h| - 1);
  }

  lemma StepsStay(clock: Clock, cl: Cluster, h: seq<World>, w: World)
    requires IsCachedLife(clock, cl, h)
    ensures forall k :: 0 <= k < |h| - 1 ==> CachedStep(clock, cl, h + [w], k)
  {
    var h' := h + [w];
    forall k | 0 <= k < |h| - 1
      ensures CachedStep(clock, cl, h', k)
    {
      assert CachedStep(clock, cl, h, k);
      if s :| 0 <= s <= k && ActsOn(clock, cl, h[s].server.api, h[k], h[k + 1]) {
        assert ActsOn(clock, cl, h'[s].server.api, h'[k], h'[k + 1]);
      }
    }
  }

  lemma FirstAct(clock: Clock, cl: Cluster)
    ensures
      var s := Acted(clock, cl, Fresh());
      && s.api == NOTHING && s.secrets == {} && s.stored == Some(Fresh().stored.value.(finalizer := true))
  {
  }

  lemma SecondAct(clock: Clock, cl: Cluster, s: Server)
    requires s.api == NOTHING && s.secrets == {} && s.stored == Some(Fresh().stored.value.(finalizer := true))
    ensures
      var s' := Acted(clock, cl, s);
      && |s'.api.machines| == 1 && s'.stored.Some? && s'.stored.value.finalizer && !s'.stored.value.deleting
  {
    var spec, calls := s.stored.value.spec, MachineCalls(cl, s.stored.value.spec, ON_EMPTY, s.secrets);
    assert MachinesPass(clock, spec, [], calls, s.api) == Boot(clock, spec.version, calls.boot, s.api);
  }

  lemma LastAct(clock: Clock, cl: Cluster, s: Server)
    requires s.stored.Some? && s.stored.value.finalizer && s.stored.value.deleting
    ensures Acted(clock, cl, s).api == s.api && Acted(clock, cl, s).stored.None?
  {
  }

  /** A life whose lists are all past ones and at whose end a Machine exists without a control plane: the object gets
      its finalizer, a Machine is created, the user deletes the object, and the cache still answers with none. */
  lemma OrphanReached(clock: Clock, cl: Cluster) returns (h: seq<World>)
    ensures IsCachedLife(clock, cl, h)
    ensures
      var last := h[|h| - 1];
      !Protected(last) && |last.server.api.machines| == 1 && last.server.stored.None?
  {
    h := [World(Fresh(), None)];
    h := ReconcileOnEmpty(clock, cl, h, Fresh());
    FirstAct(clock, cl);
    var guarded := Acted(clock, cl, Fresh());
    h := ReconcileOnEmpty(clock, cl, h, guarded);
    SecondAct(clock, cl, guarded);
    var one := Acted(clock, cl, guarded);
    assert UserDeletes(World(one, None), World(Deleted(one), None));
    h := ThenOther(clock, cl, h, World(Deleted(one), None));
    h := ReconcileOnEmpty(clock, cl, h, Deleted(one));
    LastAct(clock, cl, Deleted(one));
  }
}
