/** What the three creations of bootControlPlane leave behind over whole runs, stale views and failures included. */
module BootConservation {
  import opened Types
  import opened CreationOrder
  import opened Scaling
  import opened StaleRuns

  predicate Distinct(names: seq<Name>) {
    forall i, j :: 0 <= i < j < |names| ==> names[i] != names[j]
  }

  predicate Claims(r: Refs, api: Api) {
    r.infra in api.infra && r.config in api.configs
  }

  predicate Disjoint(r: Refs, s: Refs) {
    r.infra != s.infra && r.config != s.config
  }

  predicate BornApart(api: Api) {
    && (forall k :: 0 <= k < |api.born| ==> Claims(api.born[k], api))
    && (forall j, k :: 0 <= j < k < |api.born| ==> Disjoint(api.born[j], api.born[k]))
  }

  predicate Registered(m: Machine, api: Api) {
    m.name < |api.born| && m.refs == api.born[m.name]
  }

  /** Every Machine ever created has an infrastructure clone and a bootstrap configuration of its own. */
  predicate Accounted(api: Api) {
    && |api.born| <= |api.configs| <= |api.infra|
    && Distinct(api.infra) && Distinct(api.configs)
    && BornApart(api)
    && forall i :: 0 <= i < |api.machines| ==> Registered(api.machines[i], api)
  }

  /** What was created stays on record. */
  ghost predicate Grows(a: Api, b: Api) {
    a.born <= b.born && a.infra <= b.infra && a.configs <= b.configs
  }

  lemma InfraKeepsAccount(c: BootCalls, api: Api)
    requires Accounted(api)
    ensures Accounted(WithInfra(api, c)) && Grows(api, WithInfra(api, c))
  {
  }

  lemma ConfigKeepsAccount(c: BootCalls, api: Api)
    requires Accounted(api) && |api.configs| < |api.infra|
    ensures Accounted(WithConfig(api, c)) && Grows(api, WithConfig(api, c))
  {
  }

  lemma MachineKeepsAccount(clock: Clock, version: Version, c: BootCalls, api: Api)
    requires Accounted(api) && |api.born| < |api.configs|
    requires Claims(Refs(c.infraName, c.configName), api)
    requires forall k :: 0 <= k < |api.born| ==> Disjoint(api.born[k], Refs(c.infraName, c.configName))
    ensures
      var api' := WithMachine(clock, api, version, c);
      Accounted(api') && Grows(api, api')
  {
  }

  lemma BootKeepsAccount(clock: Clock, version: Version, c: BootCalls, api: Api)
    requires Accounted(api)
    ensures Accounted(Boot(clock, version, c, api)) && Grows(api, Boot(clock, version, c, api))
  {
    var a := WithInfra(api, c);
    InfraKeepsAccount(c, api);
    if InfraReported(api, c) {
      var b := WithConfig(a, c);
      ConfigKeepsAccount(c, a);
      if ConfigReported(a, c) {
        forall k | 0 <= k < |b.born|
          ensures Disjoint(b.born[k], Refs(c.infraName, c.configName))
        {
          assert Claims(api.born[k], api);
        }
        MachineKeepsAccount(clock, version, c, b);
      }
    }
  }

  lemma RewriteKeepsAccount(names: seq<Name>, version: Version, api: Api)
    requires Accounted(api)
    ensures Accounted(Rewrite(api, names, version)) && Grows(api, Rewrite(api, names, version))
  {
  }

  lemma MarkKeepsAccount(name: Name, api: Api)
    requires Accounted(api)
    ensures Accounted(MarkDeleting(api, name)) && Grows(api, MarkDeleting(api, name))
  {
  }

  lemma PassKeepsAccount(clock: Clock, spec: Spec, snapshot: Api, api: Api, api': Api)
    requires Accounted(api) && PassOn(clock, spec, snapshot, api, api')
    ensures Accounted(api') && Grows(api, api')
  {
    var view: seq<Machine>, calls: Calls :| && IsSortOf(view, snapshot.machines)
                                            && api' == MachinesPass(clock, spec, view, calls, api);
    var up := Upgrade(spec, view, calls, api);
    RewriteKeepsAccount(UpgradedNames(view, calls.upgrade), spec.version, api);
    BootKeepsAccount(clock, spec.version, calls.boot, api);
    BootKeepsAccount(clock, spec.version, calls.boot, up);
    if Deletes(spec, view, calls) {
      MarkKeepsAccount(Victim(view).name, up);
    }
  }

  lemma SharesNothing(a: Api, b: Api, m: Machine, n: Machine)
    requires Accounted(b) && Grows(a, b) && Registered(m, a) && Registered(n, b) && m.name != n.name
    ensures Disjoint(m.refs, n.refs)
  {
  }

  lemma StepKeepsAccount(clock: Clock, h: seq<Api>, k: nat)
    requires k + 1 < |h| && StaleStep(clock, h, k) && Accounted(h[k])
    ensures Accounted(h[k + 1]) && Grows(h[k], h[k + 1])
  {
    if TouchStep(h[k], h[k + 1]) {
    } else if RemoveStep(h[k], h[k + 1]) {
    } else {
      var s :| 0 <= s <= k && SomePass(clock, h[s], h[k], h[k + 1]);
      var spec :| PassOn(clock, spec, h[s], h[k], h[k + 1]);
      PassKeepsAccount(clock, spec, h[s], h[k], h[k + 1]);
    }
  }

  lemma RunStepKeepsAccount(clock: Clock, h: seq<Api>, k: nat)
    requires IsStaleRun(clock, h) && k + 1 < |h| && Accounted(h[k])
    ensures Accounted(h[k + 1]) && Grows(h[k], h[k + 1])
  {
    assert StaleStep(clock, h, k);
    StepKeepsAccount(clock, h, k);
  }

  lemma {:induction false} RunKeepsAccount(clock: Clock, h: seq<Api>, k: nat)
    requires IsStaleRun(clock, h) && k < |h|
    ensures Accounted(h[k])
  {
    if k == 0 {
    } else {
      RunKeepsAccount(clock, h, k - 1);
      RunStepKeepsAccount(clock, h, k - 1);
    }
  }

  lemma GrowsTwice(a: Api, b: Api, c: Api)
    requires Grows(a, b) && Grows(b, c)
    ensures Grows(a, c)
  {
  }

  lemma {:induction false} RunGrows(clock: Clock, h: seq<Api>, j: nat, k: nat)
    requires IsStaleRun(clock, h) && j <= k < |h|
    ensures Grows(h[j], h[k])
    decreases k
  {
    if j == k {
    } else {
      RunGrows(clock, h, j, k - 1);
      RunKeepsAccount(clock, h, k - 1);
      RunStepKeepsAccount(clock, h, k - 1);
      GrowsTwice(h[j], h[k - 1], h[k]);
    }
  }

  /** On every run, whatever fails and however stale the views: machines created <= configurations created <=
      infrastructure clones created, and no two Machines, listed at any two times, share one of either. */
  lemma RunSharesNothing(clock: Clock, h: seq<Api>, j: nat, k: nat)
    requires IsStaleRun(clock, h) && j <= k < |h|
    ensures |h[k].born| <= |h[k].configs| <= |h[k].infra|
    ensures forall m, n :: m in h[j].machines && n in h[k].machines && m.name != n.name ==>
              m.refs.infra != n.refs.infra && m.refs.config != n.refs.config
  {
    RunKeepsAccount(clock, h, j);
    RunKeepsAccount(clock, h, k);
    RunGrows(clock, h, j, k);
    forall m, n | m in h[j].machines && n in h[k].machines && m.name != n.name
      ensures Disjoint(m.refs, n.refs)
    {
      SharesNothing(h[j], h[k], m, n);
    }
  }
}
