/** controllers/status.go: giving the nodes of the workload cluster their provider identifiers. */
module NodeProvider {
  import opened Types
  import opened ControlPlane

  // ---- finding the Machine of an address ---------------------------------------------------

  predicate HasAddress(m: Machine, address: string) {
    exists a :: 0 <= a < |m.addresses| && m.addresses[a].text == address
  }

  /** The first listed Machine with that address, of whatever type. */
  ghost predicate IsFirstWith(machines: seq<Machine>, address: string, r: Option<Machine>) {
    match r
    case None => forall i :: 0 <= i < |machines| ==> !HasAddress(machines[i], address)
    case Some(m) =>
      exists i :: 0 <= i < |machines| && machines[i] == m && HasAddress(m, address)
               && forall j :: 0 <= j < i ==> !HasAddress(machines[j], address)
  }

  function FirstWith(machines: seq<Machine>, address: string): (r: Option<Machine>)
    ensures IsFirstWith(machines, address, r)
  {
    if |machines| == 0 then None
    else
      var n := |machines| - 1;
      var before := FirstWith(machines[..n], address);
      if before.Some? then
        assert forall i :: 0 <= i < n ==> machines[..n][i] == machines[i];
        before
      else
        assert forall i :: 0 <= i < n ==> machines[..n][i] == machines[i];
        if HasAddress(machines[n], address) then Some(machines[n]) else None
  }

  lemma FirstWithIsUnique(machines: seq<Machine>, address: string, r: Option<Machine>)
    requires IsFirstWith(machines, address, r)
    ensures r == FirstWith(machines, address)
  {
  }

  method FindMachineWithAddress(machines: seq<Machine>, address: string) returns (r: Option<Machine>)
    ensures r == FirstWith(machines, address)
  {
    for i := 0 to |machines|
      invariant forall j :: 0 <= j < i ==> !HasAddress(machines[j], address)
    {
      var machine := machines[i];
      for a := 0 to |machine.addresses|
        invariant forall b :: 0 <= b < a ==> machine.addresses[b].text != address
      {
        if machine.addresses[a].text == address {
          r := Some(machine);
          FirstWithIsUnique(machines, address, r);
          return;
        }
      }
    }
    r := None;
    FirstWithIsUnique(machines, address, r);
  }

  // ---- one node ----------------------------------------------------------------------------

  /** The Machine of the first address that any Machine has. */
  function FirstMatch(addresses: seq<string>, machines: seq<Machine>): Option<Machine> {
    if |addresses| == 0 then None
    else if FirstWith(machines, addresses[0]).Some? then FirstWith(machines, addresses[0])
    else FirstMatch(addresses[1..], machines)
  }

  predicate Waiting(node: Node) {
    node.ready && node.providerID == ""
  }

  /** The Machine whose identifier a pass writes into the node, if any. */
  function Source(node: Node, machines: seq<Machine>): Option<Machine> {
    if Waiting(node) then FirstMatch(node.addresses, machines) else None
  }

  function Assigned(node: Node, machines: seq<Machine>): Node {
    match Source(node, machines)
    case Some(Machine(_, _, _, _, _, _, _, Some(id))) => node.(providerID := id)
    case _ => node
  }

  lemma {:induction false} FirstMatchMeaning(addresses: seq<string>, machines: seq<Machine>)
    ensures
      match FirstMatch(addresses, machines)
      case None => forall a :: 0 <= a < |addresses| ==> FirstWith(machines, addresses[a]).None?
      case Some(m) =>
        exists a :: 0 <= a < |addresses| && FirstWith(machines, addresses[a]) == Some(m)
                 && forall b :: 0 <= b < a ==> FirstWith(machines, addresses[b]).None?
  {
    if |addresses| == 0 {
    } else {
      FirstMatchMeaning(addresses[1..], machines);
      assert forall a :: 0 < a < |addresses| ==> addresses[a] == addresses[1..][a - 1];
      if FirstWith(machines, addresses[0]).None? {
        match FirstMatch(addresses[1..], machines)
        case None =>
        case Some(m) =>
          var a :| 0 <= a < |addresses| - 1 && FirstWith(machines, addresses[1..][a]) == Some(m)
                && forall b :: 0 <= b < a ==> FirstWith(machines, addresses[1..][b]).None?;
          assert addresses[a + 1] == addresses[1..][a];
          forall b | 0 <= b < a + 1
            ensures FirstWith(machines, addresses[b]).None?
          {
            if b > 0 {
              assert addresses[b] == addresses[1..][b - 1];
            }
          }
      }
    }
  }

  /** A second pass changes no node, and updates one again exactly when its identifier was written as "". */
  lemma SecondPass(node: Node, machines: seq<Machine>)
    ensures Assigned(Assigned(node, machines), machines) == Assigned(node, machines)
    ensures Source(node, machines).Some? && Source(node, machines).value.providerID.Some? ==>
              (Source(Assigned(node, machines), machines).Some? <==>
                 Source(node, machines).value.providerID.value == "")
  {
  }

  /** Machine j is the first listed that has the a-th address of the node, and no Machine has an earlier one. */
  predicate IsMatch(node: Node, machines: seq<Machine>, a: int, j: int) {
    && 0 <= a < |node.addresses| && 0 <= j < |machines|
    && (exists b :: 0 <= b < |machines[j].addresses| && machines[j].addresses[b].text == node.addresses[a])
    && (forall i, b :: 0 <= i < j && 0 <= b < |machines[i].addresses| ==>
          machines[i].addresses[b].text != node.addresses[a])
    && forall e, i, b :: 0 <= e < a && 0 <= i < |machines| && 0 <= b < |machines[i].addresses| ==>
         machines[i].addresses[b].text != node.addresses[e]
  }

  ghost predicate HasMatch(node: Node, machines: seq<Machine>) {
    exists a, j :: IsMatch(node, machines, a, j)
  }

  lemma MatchIsFound(node: Node, machines: seq<Machine>, a: int, j: int)
    requires IsMatch(node, machines, a, j)
    ensures FirstMatch(node.addresses, machines) == Some(machines[j])
  {
    FirstMatchMeaning(node.addresses, machines);
    forall e | 0 <= e < a
      ensures FirstWith(machines, node.addresses[e]).None?
    {
      NoneHas(machines, node.addresses[e]);
    }
    assert HasAddress(machines[j], node.addresses[a]);
    FirstWithIsUnique(machines, node.addresses[a], Some(machines[j]));
    FirstMatchAt(node.addresses, machines, a);
  }

  lemma NoneHas(machines: seq<Machine>, address: string)
    requires forall i, b :: 0 <= i < |machines| && 0 <= b < |machines[i].addresses| ==>
               machines[i].addresses[b].text != address
    ensures FirstWith(machines, address).None?
  {
    FirstWithIsUnique(machines, address, None);
  }

  lemma {:induction false} FirstMatchAt(addresses: seq<string>, machines: seq<Machine>, a: nat)
    requires a < |addresses| && FirstWith(machines, addresses[a]).Some?
    requires forall e :: 0 <= e < a ==> FirstWith(machines, addresses[e]).None?
    ensures FirstMatch(addresses, machines) == FirstWith(machines, addresses[a])
  {
    if a == 0 {
    } else {
      FirstMatchAt(addresses[1..], machines, a - 1);
    }
  }

  lemma FoundIsMatch(node: Node, machines: seq<Machine>)
    requires FirstMatch(node.addresses, machines).Some?
    ensures HasMatch(node, machines)
  {
    FirstMatchMeaning(node.addresses, machines);
    var m := FirstMatch(node.addresses, machines).value;
    var a :| 0 <= a < |node.addresses| && FirstWith(machines, node.addresses[a]) == Some(m)
          && forall e :: 0 <= e < a ==> FirstWith(machines, node.addresses[e]).None?;
    var j :| 0 <= j < |machines| && machines[j] == m && HasAddress(m, node.addresses[a])
          && forall i :: 0 <= i < j ==> !HasAddress(machines[i], node.addresses[a]);
    forall e, i, b | 0 <= e < a && 0 <= i < |machines| && 0 <= b < |machines[i].addresses|
      ensures machines[i].addresses[b].text != node.addresses[e]
    {
      assert FirstWith(machines, node.addresses[e]).None?;
      assert !HasAddress(machines[i], node.addresses[e]);
    }
    forall i, b | 0 <= i < j && 0 <= b < |machines[i].addresses|
      ensures machines[i].addresses[b].text != node.addresses[a]
    {
      assert !HasAddress(machines[i], node.addresses[a]);
    }
    assert IsMatch(node, machines, a, j);
  }

  /** A node that is not ready, has an identifier already, or matches no Machine is left as it is. A ready one without
      gets the identifier of its match, if that has one. */
  lemma AssignedMeans(node: Node, machines: seq<Machine>)
    ensures !node.ready || node.providerID != "" || !HasMatch(node, machines) ==> Assigned(node, machines) == node
    ensures forall a, j :: node.ready && node.providerID == "" && IsMatch(node, machines, a, j) ==>
              var id := machines[j].providerID;
              Assigned(node, machines) == if id.Some? then node.(providerID := id.value) else node
  {
    if FirstMatch(node.addresses, machines).Some? {
      FoundIsMatch(node, machines);
    }
    forall a, j | IsMatch(node, machines, a, j)
      ensures FirstMatch(node.addresses, machines) == Some(machines[j])
    {
      MatchIsFound(node, machines, a, j);
    }
  }

  /** The pass gets past a node exactly if it leaves it alone or its match has an identifier and the update succeeds. */
  lemma GoesThroughIff(node: Node, machines: seq<Machine>, update: CallResult)
    ensures GoesThrough(node, machines, update) <==>
              || !node.ready || node.providerID != "" || !HasMatch(node, machines)
              || (update.Done? && exists a, j :: IsMatch(node, machines, a, j) && machines[j].providerID.Some?)
  {
    if FirstMatch(node.addresses, machines).Some? {
      FoundIsMatch(node, machines);
    }
    forall a, j | IsMatch(node, machines, a, j)
      ensures FirstMatch(node.addresses, machines) == Some(machines[j])
    {
      MatchIsFound(node, machines, a, j);
    }
  }

  // ---- the pass ----------------------------------------------------------------------------

  /** How the pass ends: at an update that reports an error, or at a Machine without an identifier. */
  datatype Outcome = Completed | UpdateFailed(at: nat) | Panicked(at: nat)

  predicate GoesThrough(node: Node, machines: seq<Machine>, update: CallResult) {
    var source := Source(node, machines);
    source.None? || (source.value.providerID.Some? && update.Done?)
  }

  ghost predicate Processed(before: seq<Node>, after: seq<Node>, machines: seq<Machine>, n: nat)
    requires |before| == |after| && n <= |before|
  {
    && (forall i :: 0 <= i < n ==> after[i] == Assigned(before[i], machines))
    && (forall i :: n <= i < |before| ==> after[i] == before[i])
  }

  /** What updateProviderID is given: two lists, had or not, and the outcome of each update. */
  datatype ProviderCalls = ProviderCalls(
    listsOk: bool, nodes: seq<Node>, machines: seq<Machine>, updates: nat -> CallResult)

  predicate PassSucceeds(p: ProviderCalls) {
    p.listsOk && forall i :: 0 <= i < |p.nodes| ==> GoesThrough(p.nodes[i], p.machines, p.updates(i))
  }

  /** The first node at which the pass does not go through matches a Machine without an identifier. */
  predicate PassPanics(p: ProviderCalls) {
    p.listsOk && exists i :: && 0 <= i < |p.nodes|
                             && Source(p.nodes[i], p.machines).Some?
                             && Source(p.nodes[i], p.machines).value.providerID.None?
                             && forall j :: 0 <= j < i ==> GoesThrough(p.nodes[j], p.machines, p.updates(j))
  }

  lemma SucceedsDoesNotPanic(p: ProviderCalls)
    requires PassSucceeds(p)
    ensures !PassPanics(p)
  {
  }

  /** The pass panics exactly if it gets to a ready node without identifier whose match has none either. */
  lemma PassPanicsIff(p: ProviderCalls)
    ensures PassPanics(p) <==>
              p.listsOk && exists i, a, j ::
                && 0 <= i < |p.nodes| && p.nodes[i].ready && p.nodes[i].providerID == ""
                && IsMatch(p.nodes[i], p.machines, a, j) && p.machines[j].providerID.None?
                && forall e :: 0 <= e < i ==> GoesThrough(p.nodes[e], p.machines, p.updates(e))
  {
    forall i, a, j | 0 <= i < |p.nodes| && IsMatch(p.nodes[i], p.machines, a, j)
      ensures FirstMatch(p.nodes[i].addresses, p.machines) == Some(p.machines[j])
    {
      MatchIsFound(p.nodes[i], p.machines, a, j);
    }
    if PassPanics(p) {
      var i :| && 0 <= i < |p.nodes|
               && Source(p.nodes[i], p.machines).Some?
               && Source(p.nodes[i], p.machines).value.providerID.None?
               && forall e :: 0 <= e < i ==> GoesThrough(p.nodes[e], p.machines, p.updates(e));
      FoundIsMatch(p.nodes[i], p.machines);
      var a, j :| IsMatch(p.nodes[i], p.machines, a, j);
    }
  }

  method UpdateProviderID(nodes: array<Node>, machines: seq<Machine>, updates: nat -> CallResult) returns (r: Outcome)
    modifies nodes
    ensures r.Completed? <==> forall i :: 0 <= i < nodes.Length ==> GoesThrough(old(nodes[i]), machines, updates(i))
    ensures r.Completed? ==> Processed(old(nodes[..]), nodes[..], machines, nodes.Length)
    ensures !r.Completed? ==>
              && r.at < nodes.Length && !GoesThrough(old(nodes[r.at]), machines, updates(r.at))
              && forall i :: 0 <= i < r.at ==> GoesThrough(old(nodes[i]), machines, updates(i))
    ensures !r.Completed? ==>
              Processed(old(nodes[..]), nodes[..], machines,
                        if r.UpdateFailed? && updates(r.at).LostReply? then r.at + 1 else r.at)
    ensures forall i :: 0 <= i < nodes.Length && (!old(nodes[i]).ready || old(nodes[i]).providerID != "") ==>
              nodes[i] == old(nodes[i])
    ensures r.Panicked? <==> !r.Completed? && Source(old(nodes[r.at]), machines).value.providerID.None?
  {
    for i := 0 to nodes.Length
      invariant Processed(old(nodes[..]), nodes[..], machines, i)
      invariant forall j :: 0 <= j < i ==> GoesThrough(old(nodes[j]), machines, updates(j))
    {
      var node := nodes[i];
      assert node == old(nodes[..])[i];
      if !node.ready || node.providerID != "" {
        continue;
      }
      var machine: Option<Machine> := None;
      var a := 0;
      while a < |node.addresses| && machine.None?
        invariant 0 <= a <= |node.addresses|
        invariant FirstMatch(node.addresses, machines)
               == if machine.Some? then machine else FirstMatch(node.addresses[a..], machines)
        invariant Processed(old(nodes[..]), nodes[..], machines, i)
        decreases |node.addresses| - a
      {
        machine := FindMachineWithAddress(machines, node.addresses[a]);
        a := a + 1;
      }
      if machine.Some? {
        if machine.value.providerID.None? {
          return Panicked(i);
        }
        if updates(i).Landed() {
          nodes[i] := node.(providerID := machine.value.providerID.value);
        }
        if !updates(i).Done? {
          return UpdateFailed(i);
        }
      }
    }
    return Completed;
  }
}
