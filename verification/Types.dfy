/** The objects the controller reads and writes, and the outcome of one API call. */
module Types {
  datatype Option<+T> = None | Some(value: T)

  // Object names are only compared for equality. A Machine's name is the number of Machines created before it.
  type Name = nat

  /** A version string. A text that is not semantic versioning still passes the CRD's pattern when its tail is odd. */
  datatype Version = Semver(major: nat, minor: nat, rest: string) | Malformed(text: string)

  datatype Strategy = Unset | SmartUpgrade | InPlaceUpgrade | RollingUpgrade

  datatype AddressType = InternalIP | ExternalIP | InternalDNS | ExternalDNS | Hostname
  datatype Address = Address(kind: AddressType, text: string)

  /** The infrastructure object and the bootstrap configuration a Machine was created with. */
  datatype Refs = Refs(infra: Name, config: Name)

  datatype Machine = Machine(
    name: Name,
    created: int,
    version: Version,
    refs: Refs,
    deleting: bool,
    nodeRef: Option<Name>,
    addresses: seq<Address>,
    providerID: Option<string>)

  datatype Spec = Spec(replicas: int, version: Version, strategy: Strategy)

  /** What became of one call that writes: a lost reply is an error to the caller although the write landed. */
  datatype CallResult = Done | Failed | LostReply {
    predicate Landed() { !Failed? }
  }

  /** The Machines listed by the API server in creation order, and everything ever created.
      `born[k]` holds the references of the Machine named k, whether it still exists or not. */
  datatype Api = Api(machines: seq<Machine>, born: seq<Refs>, infra: seq<Name>, configs: seq<Name>)

  const NOTHING := Api([], [], [], [])

  /** The creation timestamp of each Machine ever created. */
  type Clock = nat -> int

  ghost predicate Ticking(clock: Clock) {
    forall a: nat, b: nat :: a < b ==> clock(a) < clock(b)
  }

  predicate Alive(m: Machine) {
    !m.deleting
  }

  predicate Marked(m: Machine) {
    m.deleting
  }

  predicate Unjoined(m: Machine) {
    m.nodeRef.None?
  }

  function Count(ms: seq<Machine>, p: Machine -> bool): (n: nat)
    ensures n <= |ms|
  {
    if |ms| == 0 then 0 else (if p(ms[0]) then 1 else 0) + Count(ms[1..], p)
  }

  lemma {:induction false} CountConcat(s: seq<Machine>, t: seq<Machine>, p: Machine -> bool)
    ensures Count(s + t, p) == Count(s, p) + Count(t, p)
  {
    if |s| == 0 {
      assert s + t == t;
    } else {
      assert (s + t)[1..] == s[1..] + t;
      CountConcat(s[1..], t, p);
    }
  }

  /** Fewer Machines have a property that implies another's at the same place, strictly if some place is lost. */
  lemma {:induction false} CountCompare(s: seq<Machine>, p: Machine -> bool, t: seq<Machine>, q: Machine -> bool)
    requires |s| == |t|
    requires forall i :: 0 <= i < |s| ==> q(t[i]) ==> p(s[i])
    ensures Count(t, q) <= Count(s, p)
    ensures (exists i :: 0 <= i < |s| && p(s[i]) && !q(t[i])) ==> Count(t, q) < Count(s, p)
  {
    if |s| == 0 {
    } else {
      CountCompare(s[1..], p, t[1..], q);
      if i :| 0 < i < |s| && p(s[i]) && !q(t[i]) {
        assert p(s[1..][i - 1]) && !q(t[1..][i - 1]);
      }
    }
  }

  lemma CountDominates(s: seq<Machine>, t: seq<Machine>, p: Machine -> bool)
    requires |s| == |t|
    requires forall i :: 0 <= i < |s| ==> p(t[i]) ==> p(s[i])
    ensures Count(t, p) <= Count(s, p)
    ensures (exists i :: 0 <= i < |s| && p(s[i]) && !p(t[i])) ==> Count(t, p) < Count(s, p)
  {
    CountCompare(s, p, t, p);
  }

  lemma {:induction false} CountRemove(s: seq<Machine>, i: nat, p: Machine -> bool)
    requires i < |s|
    ensures Count(s[..i] + s[i + 1..], p) == Count(s, p) - (if p(s[i]) then 1 else 0)
  {
    assert s == s[..i] + ([s[i]] + s[i + 1..]);
    CountConcat(s[..i], [s[i]] + s[i + 1..], p);
    CountConcat([s[i]], s[i + 1..], p);
    CountConcat(s[..i], s[i + 1..], p);
  }

  lemma {:induction false} CountZero(s: seq<Machine>, p: Machine -> bool)
    ensures Count(s, p) == 0 <==> forall i :: 0 <= i < |s| ==> !p(s[i])
    ensures Count(s, p) == |s| <==> forall i :: 0 <= i < |s| ==> p(s[i])
  {
    if |s| == 0 {
    } else {
      CountZero(s[1..], p);
      assert s == [s[0]] + s[1..];
      assert forall i :: 0 < i < |s| ==> s[i] == s[1..][i - 1];
      assert forall i :: 0 <= i < |s| - 1 ==> s[1..][i] == s[i + 1];
    }
  }
}
