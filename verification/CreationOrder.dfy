/** controllers/utils.go: ordering the listed Machines by creation timestamp. */
module CreationOrder {
  import opened Types

  predicate Sorted(ms: seq<Machine>) {
    forall i, j :: 0 <= i < j < |ms| ==> ms[i].created <= ms[j].created
  }

  predicate StrictlySorted(ms: seq<Machine>) {
    forall i, j :: 0 <= i < j < |ms| ==> ms[i].created < ms[j].created
  }

  /** What an unstable sort promises: any arrangement of the same Machines with non-decreasing timestamps. */
  ghost predicate IsSortOf(sorted: seq<Machine>, listed: seq<Machine>) {
    Sorted(sorted) && multiset(sorted) == multiset(listed)
  }

  predicate Less(a: array<Machine>, i: nat, j: nat)
    requires i < a.Length && j < a.Length
    reads a
  {
    a[j].created > a[i].created
  }

  method Swap(a: array<Machine>, i: nat, j: nat)
    requires i < a.Length && j < a.Length
    modifies a
    ensures a[..] == old(a[..])[i := old(a[j])][j := old(a[i])]
    ensures multiset(a[..]) == multiset(old(a[..]))
  {
    a[i], a[j] := a[j], a[i];
  }

  /** Insertion by adjacent swaps, driven only by Less and Swap, as sort.Interface prescribes. */
  method SortByCreationTimestamp(a: array<Machine>)
    modifies a
    ensures IsSortOf(a[..], old(a[..]))
  {
    var i := 0;
    while i < a.Length
      invariant i <= a.Length
      invariant Sorted(a[..i])
      invariant multiset(a[..]) == multiset(old(a[..]))
    {
      var j := i;
      while j > 0 && Less(a, j, j - 1)
        invariant j <= i < a.Length
        invariant forall x, y :: 0 <= x < y <= i && y != j ==> a[x].created <= a[y].created
        invariant multiset(a[..]) == multiset(old(a[..]))
      {
        Swap(a, j, j - 1);
        j := j - 1;
      }
      i := i + 1;
    }
    assert a[..i] == a[..];
  }

  lemma SameMembers(s: seq<Machine>, t: seq<Machine>)
    requires multiset(s) == multiset(t)
    ensures |s| == |t|
    ensures forall m :: m in s <==> m in t
  {
    assert |multiset(s)| == |s| && |multiset(t)| == |t|;
    forall m
      ensures m in s <==> m in t
    {
      assert m in multiset(s) <==> m in multiset(t);
    }
  }

  lemma SameHead(s: seq<Machine>, t: seq<Machine>)
    requires IsSortOf(s, t) && StrictlySorted(t) && |t| > 0
    ensures |s| > 0 && s[0] == t[0]
  {
    SameMembers(s, t);
    assert s[0] in t && t[0] in s;
  }

  lemma SameTail(s: seq<Machine>, t: seq<Machine>)
    requires |s| > 0 && |t| > 0 && s[0] == t[0] && multiset(s) == multiset(t)
    ensures multiset(s[1..]) == multiset(t[1..])
  {
    assert s == [s[0]] + s[1..] && t == [t[0]] + t[1..];
    assert multiset(s[1..]) == multiset(s) - multiset{s[0]};
    assert multiset(t[1..]) == multiset(t) - multiset{t[0]};
  }

  /** With distinct timestamps the sort has one possible result, whatever order the list came in. */
  lemma {:induction false} SortIsUnique(s: seq<Machine>, t: seq<Machine>)
    requires IsSortOf(s, t) && StrictlySorted(t)
    ensures s == t
  {
    if |t| == 0 {
      SameMembers(s, t);
    } else {
      SameHead(s, t);
      SameTail(s, t);
      SortIsUnique(s[1..], t[1..]);
      assert s == [s[0]] + s[1..] && t == [t[0]] + t[1..];
    }
  }
}
