/** What creation seconds that several Machines share leave open: the sort may put any of the oldest Machines first,
    and scaling down may choose any of them. */
module Ties {
  import opened Types
  import opened CreationOrder
  import opened Scaling

  /** Time does not run backwards, but seconds may be shared. */
  ghost predicate NonDecreasing(clock: Clock) {
    forall a: nat, b: nat :: a <= b ==> clock(a) <= clock(b)
  }

  /** No Machine is older. */
  predicate Oldest(m: Machine, ms: seq<Machine>) {
    forall i :: 0 <= i < |ms| ==> m.created <= ms[i].created
  }

  // ---- a sort exists -----------------------------------------------------------------------

  function Insert(m: Machine, ms: seq<Machine>): seq<Machine> {
    if |ms| == 0 || m.created <= ms[0].created then [m] + ms else [ms[0]] + Insert(m, ms[1..])
  }

  lemma {:induction false} InsertPermutes(m: Machine, ms: seq<Machine>)
    ensures multiset(Insert(m, ms)) == multiset([m] + ms)
  {
    if |ms| == 0 || m.created <= ms[0].created {
    } else {
      InsertPermutes(m, ms[1..]);
      assert [m] + ms == [m] + [ms[0]] + ms[1..];
    }
  }

  lemma {:induction false} InsertSorts(m: Machine, ms: seq<Machine>)
    requires Sorted(ms)
    ensures Sorted(Insert(m, ms))
  {
    if |ms| == 0 || m.created <= ms[0].created {
    } else {
      var tail := Insert(m, ms[1..]);
      InsertSorts(m, ms[1..]);
      InsertPermutes(m, ms[1..]);
      SameMembers(tail, [m] + ms[1..]);
      OldestFirst(ms[0], tail);
    }
  }

  lemma OldestFirst(m: Machine, tail: seq<Machine>)
    requires Sorted(tail) && forall x :: x in tail ==> m.created <= x.created
    ensures Sorted([m] + tail)
  {
  }

  lemma {:induction false} SortExists(ms: seq<Machine>) returns (view: seq<Machine>)
    ensures IsSortOf(view, ms)
  {
    if |ms| == 0 {
      view := [];
    } else {
      view := SortExists(ms[1..]);
      assert ms == [ms[0]] + ms[1..];
      InsertSorts(ms[0], view);
      InsertPermutes(ms[0], view);
      view := Insert(ms[0], view);
    }
  }

  // ---- the head and the victim of a sort ---------------------------------------------------

  lemma SortKeepsOldest(view: seq<Machine>, ms: seq<Machine>, m: Machine)
    requires multiset(view) == multiset(ms)
    ensures Oldest(m, view) <==> Oldest(m, ms)
  {
    SameMembers(view, ms);
    assert forall i :: 0 <= i < |ms| ==> ms[i] in view;
    assert forall i :: 0 <= i < |view| ==> view[i] in ms;
  }

  /** The version probe looks at one of the oldest Machines. */
  lemma HeadIsOldest(view: seq<Machine>, ms: seq<Machine>)
    requires IsSortOf(view, ms) && |ms| > 0
    ensures |view| == |ms| && view[0] in ms && Oldest(view[0], ms)
  {
    SameMembers(view, ms);
    SortKeepsOldest(view, ms, view[0]);
  }

  /** Scaling down chooses one of the oldest Machines. */
  lemma VictimIsOldest(view: seq<Machine>, ms: seq<Machine>)
    requires IsSortOf(view, ms) && |ms| > 0
    ensures |view| == |ms| && Victim(view) in ms && Oldest(Victim(view), ms)
  {
    SameMembers(view, ms);
    SortKeepsOldest(view, ms, Victim(view));
  }

  /** And it may look at any of them. */
  lemma SortWithHead(ms: seq<Machine>, k: nat) returns (view: seq<Machine>)
    requires k < |ms| && Oldest(ms[k], ms)
    ensures IsSortOf(view, ms) && |view| > 0 && view[0] == ms[k]
  {
    var others := ms[..k] + ms[k + 1..];
    var rest := SortExists(others);
    view := [ms[k]] + rest;
    TakenOut(ms, k);
    forall x | x in rest
      ensures ms[k].created <= x.created
    {
      SameMembers(rest, others);
    }
    OldestFirst(ms[k], rest);
  }

  lemma TakenOut(ms: seq<Machine>, k: nat)
    requires k < |ms|
    ensures multiset(ms) == multiset([ms[k]] + (ms[..k] + ms[k + 1..]))
  {
    assert ms == ms[..k] + [ms[k]] + ms[k + 1..];
  }

  /** The first Machine put behind place v. */
  function FirstPutAt(ms: seq<Machine>, v: nat): (r: seq<Machine>)
    requires v < |ms|
    ensures |r| == |ms|
  {
    ms[1..v + 1] + [ms[0]] + ms[v + 1..]
  }

  lemma FirstPutPermutes(ms: seq<Machine>, v: nat)
    requires v < |ms|
    ensures multiset(FirstPutAt(ms, v)) == multiset(ms)
  {
    assert ms == [ms[0]] + ms[1..v + 1] + ms[v + 1..];
  }

  lemma FirstPutSorts(ms: seq<Machine>, v: nat)
    requires v < |ms| && Sorted(ms) && ms[v].created == ms[0].created
    requires forall j :: v < j < |ms| ==> ms[0].created < ms[j].created
    ensures IsSortOf(FirstPutAt(ms, v), ms) && Victim(FirstPutAt(ms, v)) == ms[0]
  {
    var r := FirstPutAt(ms, v);
    forall i | 0 <= i <= v
      ensures r[i].created == ms[0].created
    {
      assert i < v ==> r[i] == ms[i + 1] && ms[0].created <= ms[i + 1].created <= ms[v].created;
    }
    assert forall i :: v < i < |ms| ==> r[i] == ms[i];
    LastOldestIsVictim(r, v);
    FirstPutPermutes(ms, v);
  }

  lemma LastOldestIsVictim(view: seq<Machine>, k: nat)
    requires k < |view|
    requires forall j :: 0 <= j < |view| ==> view[k].created <= view[j].created
    requires forall j :: k < j < |view| ==> view[k].created < view[j].created
    ensures VictimIndex(view) == k
  {
  }

  /** And it may choose any of them. */
  lemma SortWithVictim(ms: seq<Machine>, k: nat) returns (view: seq<Machine>)
    requires k < |ms| && Oldest(ms[k], ms)
    ensures IsSortOf(view, ms) && |view| > 0 && Victim(view) == ms[k]
  {
    var first := SortWithHead(ms, k);
    SameMembers(first, ms);
    var v := VictimIndex(first);
    FirstPutSorts(first, v);
    view := FirstPutAt(first, v);
  }
}
