// Lists of nodes, as values: the circular list of the allocator and dlist.
module Lists {
  ghost predicate NoDup(l: seq<nat>) {
    forall x, y :: 0 <= x < y < |l| ==> l[x] != l[y]
  }

  lemma {:induction false} ListLength(l: seq<nat>, s: set<nat>)
    requires NoDup(l) && forall i :: i in l <==> i in s
    ensures |l| == |s|
  {
    if l == [] {
      assert s == {};
    } else {
      assert l[0] in l;
      forall i ensures i in l[1..] <==> i in s - {l[0]} {
        assert i in l <==> i == l[0] || i in l[1..];
      }
      ListLength(l[1..], s - {l[0]});
    }
  }

  // A circular list with one entry unlinked.
  function Without(l: seq<nat>, i: nat): seq<nat> {
    if l == [] then []
    else if l[0] == i then l[1..]
    else [l[0]] + Without(l[1..], i)
  }

  lemma {:induction false} WithoutFacts(l: seq<nat>, i: nat)
    requires NoDup(l)
    ensures NoDup(Without(l, i))
    ensures forall j :: j in Without(l, i) <==> j in l && j != i
  {
    if l != [] {
      assert l == [l[0]] + l[1..];
      if l[0] != i {
        WithoutFacts(l[1..], i);
        assert l[0] !in Without(l[1..], i);
      }
    }
  }
}
