/** Aligned power-of-two blocks: the combinatorics under the buddy allocator.

    A pool of 2^top pages is described by one header per page.  `owner[p]` names the
    first page of the block that page p belongs to; a page that owns itself starts a block. */
module BuddyBlocks {
  import opened Bits

  datatype BlockType = TypeFree | TypeUser | TypePage | TypeSlab | TypeError

  datatype Header = Header(order: nat, inList: bool, isWaste: bool, kind: BlockType)

  // i is a multiple of 2^k, digit by digit.
  predicate Aligned(i: nat, k: nat) {
    k == 0 || (i % 2 == 0 && Aligned(i / 2, k - 1))
  }

  lemma {:induction false} AlignedIsMultiple(i: nat, k: nat)
    ensures Aligned(i, k) <==> i % Pow2(k) == 0
  {
    if k != 0 {
      AlignedIsMultiple(i / 2, k - 1);
      DivModHalf(i, Pow2(k - 1));
    }
  }

  lemma AlignedHalf(i: nat, k: nat)
    requires k > 0 && Aligned(i, k)
    ensures i == 2 * (i / 2) && Aligned(i / 2, k - 1)
  {
  }

  lemma AlignedDouble(a: nat, k: nat)
    requires Aligned(a, k)
    ensures Aligned(2 * a, k + 1)
  {
  }

  lemma AlignedZero(i: nat)
    ensures Aligned(i, 0) && (Aligned(i, 1) <==> i % 2 == 0)
  {
  }

  // Splitting an aligned block gives two aligned halves that are buddies.
  lemma {:induction false} Halves(i: nat, k: nat)
    requires Aligned(i, k + 1)
    ensures Aligned(i, k) && Aligned(i + Pow2(k), k)
    ensures Xor(i, Pow2(k)) == i + Pow2(k)
  {
    hide Xor, Aligned, Pow2;
    AlignedHalf(i, k + 1);
    if k == 0 {
      AlignedZero(i);
      AlignedZero(i + Pow2(0));
      XorOne(i);
      assert Pow2(0) == 1 by { Pow2Zero(); }
    } else {
      var a := i / 2;
      Pow2Step(k);
      Halves(a, k - 1);
      XorDouble(a, Pow2(k - 1));
      AlignedDouble(a, k - 1);
      AlignedDouble(a + Pow2(k - 1), k - 1);
    }
  }

  function Min(a: nat, b: nat): nat { if a <= b then a else b }

  // The XOR buddy of an aligned block is the other half of the enclosing block, inside the pool.
  lemma {:induction false} BuddyFacts(i: nat, k: nat, top: nat)
    requires Aligned(i, k) && i < Pow2(top) && k < top
    ensures var b := Xor(i, Pow2(k));
            && b < Pow2(top) && Aligned(b, k) && Xor(b, Pow2(k)) == i
            && (b == i + Pow2(k) || i == b + Pow2(k))
            && Aligned(Min(i, b), k + 1) && Min(i, b) + 2 * Pow2(k) <= Pow2(top)
  {
    hide Xor, Aligned, Pow2;
    Pow2Step(top);
    if k == 0 {
      Pow2Zero();
      XorOne(i);
      var b := Xor(i, 1);
      XorOne(b);
      AlignedZero(b);
      AlignedZero(Min(i, b));
    } else {
      AlignedHalf(i, k);
      Pow2Step(k);
      var a := i / 2;
      BuddyFacts(a, k - 1, top - 1);
      var c := Xor(a, Pow2(k - 1));
      XorDouble(a, Pow2(k - 1));
      XorDouble(c, Pow2(k - 1));
      AlignedDouble(c, k - 1);
      AlignedDouble(Min(a, c), k);
      assert Min(i, 2 * c) == 2 * Min(a, c);
    }
  }

  // A block as large as the pool has its buddy just past the pool.
  lemma {:induction false} TopBuddy(i: nat, top: nat)
    requires Aligned(i, top) && i < Pow2(top)
    ensures i == 0 && Xor(i, Pow2(top)) == Pow2(top)
  {
    hide Xor, Aligned, Pow2;
    if top == 0 {
      Pow2Zero();
      XorOne(0);
    } else {
      Pow2Step(top);
      AlignedHalf(i, top);
      TopBuddy(i / 2, top - 1);
      XorDouble(0, Pow2(top - 1));
    }
  }

  // An aligned block that is larger than 2^k and holds one buddy holds both.
  lemma {:induction false} LargerHoldsBoth(i: nat, k: nat, j: nat, m: nat)
    requires Aligned(i, k) && Aligned(j, m) && k < m
    requires var b := Xor(i, Pow2(k)); j <= b < j + Pow2(m)
    ensures j <= i < j + Pow2(m)
  {
    hide Xor, Aligned, Pow2;
    Pow2Step(m);
    AlignedHalf(j, m);
    var a, c, q := i / 2, j / 2, Pow2(m - 1);
    if k == 0 {
      Pow2Zero();
      XorOne(i);
      assert 2 * a <= Xor(i, 1) <= 2 * a + 1;
      assert c <= a < c + q;
    } else {
      AlignedHalf(i, k);
      Pow2Step(k);
      XorDouble(a, Pow2(k - 1));
      assert c <= Xor(a, Pow2(k - 1)) < c + q;
      LargerHoldsBoth(a, k - 1, c, m - 1);
    }
  }

  // Two aligned blocks of the same size that overlap are the same block.
  lemma {:induction false} SameSizeOverlap(i: nat, j: nat, k: nat)
    requires Aligned(i, k) && Aligned(j, k) && j <= i < j + Pow2(k)
    ensures i == j
  {
    if k != 0 {
      SameSizeOverlap(i / 2, j / 2, k - 1);
    }
  }

  ghost predicate IsBlock(owner: seq<nat>, i: nat) {
    i < |owner| && owner[i] == i
  }

  // Every page lies in the block of its owner.
  ghost predicate OwnersCover(h: seq<Header>, owner: seq<nat>)
    requires |h| == |owner| + 1
  {
    forall p {:trigger owner[p]} :: 0 <= p < |owner| ==>
      IsBlock(owner, owner[p]) && owner[p] <= p < owner[p] + Pow2(h[owner[p]].order)
  }

  // Every block is aligned to its own size and inside the pool.
  ghost predicate BlocksFit(h: seq<Header>, owner: seq<nat>, top: nat)
    requires |h| == |owner| + 1
  {
    forall i: nat {:trigger IsBlock(owner, i)} :: IsBlock(owner, i) ==>
      h[i].order <= top && Aligned(i, h[i].order) && i + Pow2(h[i].order) <= |owner|
  }

  // Every page of a block is owned by that block.
  ghost predicate BlocksOwn(h: seq<Header>, owner: seq<nat>)
    requires |h| == |owner| + 1
  {
    forall i: nat, p {:trigger IsBlock(owner, i), owner[p]} ::
      IsBlock(owner, i) && i <= p < i + Pow2(h[i].order) && p < |owner| ==> owner[p] == i
  }

  // The blocks cover every page exactly once, each aligned to its own size.
  ghost predicate Partition(h: seq<Header>, owner: seq<nat>, top: nat) {
    && |owner| == Pow2(top)
    && |h| == Pow2(top) + 1
    && OwnersCover(h, owner)
    && BlocksFit(h, owner, top)
    && BlocksOwn(h, owner)
  }

  ghost predicate CoveredBy(h: seq<Header>, i: nat, p: nat) {
    i < |h| && i <= p < i + Pow2(h[i].order)
  }

  ghost predicate Covered(h: seq<Header>, starts: set<nat>, p: nat) {
    exists i :: i in starts && CoveredBy(h, i, p)
  }

  // Said without owners: every page lies in one block and in no other.
  ghost predicate ExactCover(h: seq<Header>, starts: set<nat>, top: nat)
    requires |h| == Pow2(top) + 1
  {
    && (forall i :: i in starts ==> i < Pow2(top) && i % Pow2(h[i].order) == 0 && i + Pow2(h[i].order) <= Pow2(top))
    && (forall p: nat :: p < Pow2(top) ==> Covered(h, starts, p))
    && (forall i, j :: i in starts && j in starts && i < j ==> i + Pow2(h[i].order) <= j)
  }

  ghost function Starts(owner: seq<nat>): set<nat> {
    set i: nat | i < |owner| && IsBlock(owner, i)
  }

  lemma PartitionCovers(h: seq<Header>, owner: seq<nat>, top: nat)
    requires Partition(h, owner, top)
    ensures ExactCover(h, Starts(owner), top)
  {
    forall i | i in Starts(owner)
      ensures i < Pow2(top) && i % Pow2(h[i].order) == 0 && i + Pow2(h[i].order) <= Pow2(top)
    {
      AlignedIsMultiple(i, h[i].order);
    }
    forall p: nat | p < Pow2(top)
      ensures Covered(h, Starts(owner), p)
    {
      assert owner[p] in Starts(owner) && CoveredBy(h, owner[p], p);
    }
    forall i, j | i in Starts(owner) && j in Starts(owner) && i < j
      ensures i + Pow2(h[i].order) <= j
    {
      assert owner[j] == j;
    }
  }

  // Some block among the first n pages has the smallest order there.
  lemma {:induction false} SmallestBlock(h: seq<Header>, owner: seq<nat>, top: nat, n: nat) returns (i: nat)
    requires Partition(h, owner, top) && 0 < n <= |owner|
    ensures i < n && IsBlock(owner, i)
    ensures forall j :: 0 <= j < n && IsBlock(owner, j) ==> h[i].order <= h[j].order
  {
    if n == 1 {
      assert owner[0] == 0;
      i := 0;
    } else {
      i := SmallestBlock(h, owner, top, n - 1);
      if IsBlock(owner, n - 1) && h[n - 1].order < h[i].order {
        i := n - 1;
      }
    }
  }

  // Two blocks of equal order that together form a block of the next order.
  ghost predicate BuddyPair(h: seq<Header>, owner: seq<nat>, top: nat, i: nat)
    requires |h| == |owner| + 1
  {
    && IsBlock(owner, i) && h[i].order < top
    && IsBlock(owner, Xor(i, Pow2(h[i].order)))
    && h[Xor(i, Pow2(h[i].order))].order == h[i].order
  }

  // Every partition other than the single block contains a pair of buddies.
  lemma BuddyPairExists(h: seq<Header>, owner: seq<nat>, top: nat) returns (i: nat)
    requires Partition(h, owner, top) && h[0].order < top
    ensures BuddyPair(h, owner, top, i)
  {
    assert owner[0] == 0;
    i := SmallestBlock(h, owner, top, |owner|);
    var k := h[i].order;
    BuddyFacts(i, k, top);
    var b := Xor(i, Pow2(k));
    var j := owner[b];
    if h[j].order > k {
      LargerHoldsBoth(i, k, j, h[j].order);
      assert false;
    }
    SameSizeOverlap(b, j, k);
  }

  // Splitting block i of order k + 1: pages of the right half get a new owner.
  ghost function SplitOwner(owner: seq<nat>, b: nat, k: nat): (r: seq<nat>)
    ensures |r| == |owner|
    ensures forall p :: 0 <= p < |owner| ==> r[p] == if b <= p < b + Pow2(k) then b else owner[p]
  {
    seq(|owner|, p requires 0 <= p < |owner| => if b <= p < b + Pow2(k) then b else owner[p])
  }

  // h', owner' is what splitting block i into two blocks of order k leaves.
  ghost predicate SplitOf(h: seq<Header>, owner: seq<nat>, top: nat, i: nat, k: nat, h': seq<Header>, owner': seq<nat>) {
    && Partition(h, owner, top) && IsBlock(owner, i) && h[i].order == k + 1
    && |h'| == |h| && h'[i].order == k
    && (i + Pow2(k) < |h| ==> h'[i + Pow2(k)].order == k)
    && (forall p :: 0 <= p < |h| && p != i && p != i + Pow2(k) ==> h'[p].order == h[p].order)
    && owner' == SplitOwner(owner, i + Pow2(k), k)
  }

  lemma SplitPartition(h: seq<Header>, owner: seq<nat>, top: nat, i: nat, k: nat, h': seq<Header>, owner': seq<nat>)
    requires SplitOf(h, owner, top, i, k, h', owner')
    ensures i + Pow2(k) < |owner| && !IsBlock(owner, i + Pow2(k))
    ensures Partition(h', owner', top)
  {
    SplitOwnerAt(h, owner, top, i, i);
    SplitCovers(h, owner, top, i, k, h', owner');
    SplitFits(h, owner, top, i, k, h', owner');
    SplitOwns(h, owner, top, i, k, h', owner');
  }

  // After a split a page is owned by its old owner or by the new right half.
  lemma SplitOwnerAt(h: seq<Header>, owner: seq<nat>, top: nat, i: nat, p: nat)
    requires Partition(h, owner, top) && IsBlock(owner, i) && h[i].order > 0 && p < |owner|
    ensures var k := h[i].order - 1;
            var b := i + Pow2(k);
            var owner' := SplitOwner(owner, b, k);
            && b < |owner| && owner[b] == i
            && IsBlock(owner', owner'[p])
            && (if b <= p < b + Pow2(k) then owner'[p] == b
                else if owner[p] == i then owner'[p] == i && i <= p < b
                else owner'[p] == owner[p] && owner[p] != b && owner[p] <= p < owner[p] + Pow2(h[owner[p]].order))
  {
    var k := h[i].order - 1;
    var b := i + Pow2(k);
    assert owner[b] == i;
    var j := owner[p];
    assert IsBlock(owner, j);
    assert owner[j] == j;
  }

  lemma SplitCovers(h: seq<Header>, owner: seq<nat>, top: nat, i: nat, k: nat, h': seq<Header>, owner': seq<nat>)
    requires SplitOf(h, owner, top, i, k, h', owner')
    ensures OwnersCover(h', owner')
  {
    forall p | 0 <= p < |owner'|
      ensures IsBlock(owner', owner'[p]) && owner'[p] <= p < owner'[p] + Pow2(h'[owner'[p]].order)
    {
      SplitOwnerAt(h, owner, top, i, p);
    }
  }

  lemma SplitFits(h: seq<Header>, owner: seq<nat>, top: nat, i: nat, k: nat, h': seq<Header>, owner': seq<nat>)
    requires SplitOf(h, owner, top, i, k, h', owner')
    ensures BlocksFit(h', owner', top)
  {
    hide Aligned, Xor, Pow2;
    Halves(i, k);
    Pow2Step(k + 1);
    assert forall j: nat :: IsBlock(owner', j) ==> j == i + Pow2(k) || IsBlock(owner, j);
  }

  lemma SplitOwns(h: seq<Header>, owner: seq<nat>, top: nat, i: nat, k: nat, h': seq<Header>, owner': seq<nat>)
    requires SplitOf(h, owner, top, i, k, h', owner')
    ensures BlocksOwn(h', owner')
  {
    hide Aligned, Pow2;
    Pow2Step(k + 1);
    var b := i + Pow2(k);
    forall j: nat, p | IsBlock(owner', j) && j <= p < j + Pow2(h'[j].order) && p < |owner'|
      ensures owner'[p] == j
    {
      assert j == b || IsBlock(owner, j);
      assert owner[p] == if j == b then i else j;
    }
  }

  // A split adds the right half to the blocks.
  lemma SplitBlocks(h: seq<Header>, owner: seq<nat>, top: nat, i: nat, k: nat, h': seq<Header>, owner': seq<nat>)
    requires SplitOf(h, owner, top, i, k, h', owner')
    ensures forall p: nat :: p < |owner| ==> (IsBlock(owner', p) <==> IsBlock(owner, p) || p == i + Pow2(k))
  {
    forall p: nat | p < |owner| ensures IsBlock(owner', p) <==> IsBlock(owner, p) || p == i + Pow2(k) {
      SplitOwnerAt(h, owner, top, i, p);
    }
  }

  ghost function MergeOwner(owner: seq<nat>, m: nat, k: nat): (r: seq<nat>)
    ensures |r| == |owner|
    ensures forall p :: 0 <= p < |owner| ==> r[p] == if m <= p < m + 2 * Pow2(k) then m else owner[p]
  {
    seq(|owner|, p requires 0 <= p < |owner| => if m <= p < m + 2 * Pow2(k) then m else owner[p])
  }

  // h', owner' is what joining the buddies at m and m + 2^k leaves.
  ghost predicate MergeOf(h: seq<Header>, owner: seq<nat>, top: nat, m: nat, k: nat, h': seq<Header>, owner': seq<nat>) {
    && Partition(h, owner, top)
    && IsBlock(owner, m) && IsBlock(owner, m + Pow2(k))
    && h[m].order == k && h[m + Pow2(k)].order == k && k < top && Aligned(m, k + 1)
    && |h'| == |h| && h'[m].order == k + 1
    && (forall p :: 0 <= p < |h| && p != m ==> h'[p].order == h[p].order)
    && owner' == MergeOwner(owner, m, k)
  }

  lemma MergePartition(h: seq<Header>, owner: seq<nat>, top: nat, m: nat, k: nat, h': seq<Header>, owner': seq<nat>)
    requires MergeOf(h, owner, top, m, k, h', owner')
    ensures Partition(h', owner', top)
  {
    MergeCovers(h, owner, top, m, k, h', owner');
    MergeFits(h, owner, top, m, k, h', owner');
    MergeOwns(h, owner, top, m, k, h', owner');
  }

  // A merge takes the right half out of the blocks.
  lemma MergeBlocks(h: seq<Header>, owner: seq<nat>, top: nat, m: nat, k: nat, h': seq<Header>, owner': seq<nat>)
    requires MergeOf(h, owner, top, m, k, h', owner')
    ensures forall p: nat :: p < |owner| ==> (IsBlock(owner', p) <==> IsBlock(owner, p) && p != m + Pow2(k))
  {
    assert forall q :: m <= q < m + 2 * Pow2(k) ==> owner[q] == if q < m + Pow2(k) then m else m + Pow2(k);
  }

  lemma MergeCovers(h: seq<Header>, owner: seq<nat>, top: nat, m: nat, k: nat, h': seq<Header>, owner': seq<nat>)
    requires MergeOf(h, owner, top, m, k, h', owner')
    ensures OwnersCover(h', owner')
  {
    var b := m + Pow2(k);
    assert forall q :: m <= q < m + 2 * Pow2(k) ==> owner[q] == if q < b then m else b;
    forall p | 0 <= p < |owner'|
      ensures IsBlock(owner', owner'[p]) && owner'[p] <= p < owner'[p] + Pow2(h'[owner'[p]].order)
    {
      assert IsBlock(owner, owner[p]);
    }
  }

  lemma MergeFits(h: seq<Header>, owner: seq<nat>, top: nat, m: nat, k: nat, h': seq<Header>, owner': seq<nat>)
    requires MergeOf(h, owner, top, m, k, h', owner')
    ensures BlocksFit(h', owner', top)
  {
    assert forall j: nat :: IsBlock(owner', j) ==> IsBlock(owner, j);
  }

  lemma MergeOwns(h: seq<Header>, owner: seq<nat>, top: nat, m: nat, k: nat, h': seq<Header>, owner': seq<nat>)
    requires MergeOf(h, owner, top, m, k, h', owner')
    ensures BlocksOwn(h', owner')
  {
    var b := m + Pow2(k);
    assert forall q :: m <= q < m + 2 * Pow2(k) ==> owner[q] == if q < b then m else b;
    forall j: nat, p | IsBlock(owner', j) && j <= p < j + Pow2(h'[j].order) && p < |owner'|
      ensures owner'[p] == j
    {
      assert IsBlock(owner, j);
      if j != m {
        assert owner[p] == j;
      }
    }
  }
}
