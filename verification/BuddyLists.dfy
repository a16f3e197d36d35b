/** Free lists and waste list of a buddy pool, as values.

    `Core` is what every step of the allocator keeps, also in the middle of an allocation or a
    release, when the block being worked on is on no list.  Each lemma below is one such step. */
module BuddyLists {
  import opened Bits
  import opened BuddyBlocks
  import opened Lists

  // Free list k holds exactly the listed usable blocks of order k.
  ghost predicate FreeMatch(h: seq<Header>, owner: seq<nat>, free: seq<seq<nat>>)
    requires |h| == |owner| + 1
  {
    forall k :: 0 <= k < |free| ==> ListMatch(h, owner, free[k], k)
  }

  ghost predicate ListMatch(h: seq<Header>, owner: seq<nat>, l: seq<nat>, k: nat)
    requires |h| == |owner| + 1
  {
    && NoDup(l)
    && forall i :: i in l ==> IsBlock(owner, i) && h[i].inList && !h[i].isWaste && h[i].order == k
  }

  ghost predicate WasteMatch(h: seq<Header>, owner: seq<nat>, waste: seq<nat>)
    requires |h| == |owner| + 1
  {
    && NoDup(waste)
    && forall i :: i in waste ==> IsBlock(owner, i) && h[i].inList && h[i].isWaste
  }

  // in_list is set only for blocks, and only for blocks that are on their list.
  ghost predicate FlagsMatch(h: seq<Header>, owner: seq<nat>, free: seq<seq<nat>>, waste: seq<nat>)
    requires |h| == |owner| + 1
  {
    forall i: nat :: i < |owner| && h[i].inList ==>
      && IsBlock(owner, i)
      && (if h[i].isWaste then i in waste else h[i].order < |free| && i in free[h[i].order])
  }

  // A listed header that could be merged with block i.
  ghost predicate MergeableBuddy(h: seq<Header>, top: nat, i: nat)
    requires i < |h|
  {
    && h[i].order < top
    && Xor(i, Pow2(h[i].order)) < |h|
    && h[Xor(i, Pow2(h[i].order))].inList
    && h[Xor(i, Pow2(h[i].order))].order == h[i].order
  }

  // No two buddies of equal order are both listed.
  ghost predicate Coalesced(h: seq<Header>, top: nat) {
    forall i: nat :: i < |h| && h[i].inList ==> !MergeableBuddy(h, top, i)
  }

  ghost predicate Core(h: seq<Header>, owner: seq<nat>, top: nat, free: seq<seq<nat>>, waste: seq<nat>) {
    && Partition(h, owner, top)
    && |free| == top + 1
    && FreeMatch(h, owner, free)
    && WasteMatch(h, owner, waste)
    && FlagsMatch(h, owner, free, waste)
    && Coalesced(h, top)
    && !h[Pow2(top)].inList
  }

  // The header lists a block belongs on, with the block appended.
  function PushFree(h: Header, i: nat, free: seq<seq<nat>>): seq<seq<nat>>
    requires h.order < |free|
  {
    if h.isWaste then free else free[h.order := free[h.order] + [i]]
  }

  function PushWaste(h: Header, i: nat, waste: seq<nat>): seq<nat> {
    if h.isWaste then waste + [i] else waste
  }

  function DropFree(h: Header, i: nat, free: seq<seq<nat>>): seq<seq<nat>>
    requires h.order < |free|
  {
    if h.isWaste then free else free[h.order := Without(free[h.order], i)]
  }

  function DropWaste(h: Header, i: nat, waste: seq<nat>): seq<nat> {
    if h.isWaste then Without(waste, i) else waste
  }

  // list_push_back of a block that has no listed buddy of its own order.
  lemma PushStep(h: seq<Header>, owner: seq<nat>, top: nat, free: seq<seq<nat>>, waste: seq<nat>, i: nat)
    requires Core(h, owner, top, free, waste) && IsBlock(owner, i) && !h[i].inList
    requires !MergeableBuddy(h, top, i)
    ensures h[i].order <= top
    ensures Core(h[i := h[i].(inList := true)], owner, top, PushFree(h[i], i, free), PushWaste(h[i], i, waste))
  {
    var h' := h[i := h[i].(inList := true)];
    var free', waste' := PushFree(h[i], i, free), PushWaste(h[i], i, waste);
    SameOrders(h, h', owner, top);
    assert FreeMatch(h', owner, free') by {
      forall k | 0 <= k < |free'| ensures ListMatch(h', owner, free'[k], k) {
        assert ListMatch(h, owner, free[k], k);
      }
    }
    assert FlagsMatch(h', owner, free', waste');
    PushCoalesced(h, owner, top, free, waste, i);
  }

  lemma PushCoalesced(h: seq<Header>, owner: seq<nat>, top: nat, free: seq<seq<nat>>, waste: seq<nat>, i: nat)
    requires Core(h, owner, top, free, waste) && IsBlock(owner, i) && !h[i].inList
    requires !MergeableBuddy(h, top, i)
    ensures Coalesced(h[i := h[i].(inList := true)], top)
  {
    var h' := h[i := h[i].(inList := true)];
    forall j: nat | j < |h'| && h'[j].inList ensures !MergeableBuddy(h', top, j) {
      if h[j].order < top {
        BuddyFacts(j, h[j].order, top);
      }
    }
  }

  // list_remove of a listed block.
  lemma DropStep(h: seq<Header>, owner: seq<nat>, top: nat, free: seq<seq<nat>>, waste: seq<nat>, i: nat)
    requires Core(h, owner, top, free, waste) && i < |owner| && h[i].inList
    ensures IsBlock(owner, i) && h[i].order <= top
    ensures Core(h[i := h[i].(inList := false)], owner, top, DropFree(h[i], i, free), DropWaste(h[i], i, waste))
  {
    var h' := h[i := h[i].(inList := false)];
    assert IsBlock(owner, i);
    var free', waste' := DropFree(h[i], i, free), DropWaste(h[i], i, waste);
    SameOrders(h, h', owner, top);
    assert FreeMatch(h', owner, free') by {
      forall k | 0 <= k < |free'| ensures ListMatch(h', owner, free'[k], k) {
        assert ListMatch(h, owner, free[k], k);
        WithoutFacts(free[k], i);
      }
    }
    assert WasteMatch(h', owner, waste') by {
      WithoutFacts(waste, i);
    }
    assert FlagsMatch(h', owner, free', waste') by {
      WithoutFacts(waste, i);
      assert ListMatch(h, owner, free[h[i].order], h[i].order);
      WithoutFacts(free[h[i].order], i);
    }
    assert Coalesced(h', top) by {
      forall j: nat | j < |h'| && h'[j].inList ensures !MergeableBuddy(h', top, j) {
        assert !MergeableBuddy(h, top, j);
      }
    }
  }

  // The partition depends only on the orders.
  lemma SameOrders(h: seq<Header>, h': seq<Header>, owner: seq<nat>, top: nat)
    requires Partition(h, owner, top) && |h'| == |h|
    requires forall p :: 0 <= p < |h| ==> h'[p].order == h[p].order
    ensures Partition(h', owner, top)
  {
  }

  // Where split_block puts the new header: the middle of the block, which heads no block yet.
  lemma SplitTarget(h: seq<Header>, owner: seq<nat>, top: nat, free: seq<seq<nat>>, waste: seq<nat>, i: nat, k: nat)
    requires Core(h, owner, top, free, waste) && IsBlock(owner, i) && h[i].order == k + 1
    ensures Xor(i, Pow2(k)) == i + Pow2(k) < |owner|
    ensures !IsBlock(owner, i + Pow2(k)) && !h[i + Pow2(k)].inList
    ensures Aligned(i, k) && k < top && i < Pow2(top)
  {
    Halves(i, k);
    SplitOwnerAt(h, owner, top, i, i);
  }

  // Splitting an unlisted block of order k + 1; both halves are unlisted blocks afterwards.
  lemma SplitStep(h: seq<Header>, owner: seq<nat>, top: nat, free: seq<seq<nat>>, waste: seq<nat>, i: nat, k: nat,
                  b: nat, h': seq<Header>, owner': seq<nat>)
    requires Core(h, owner, top, free, waste) && IsBlock(owner, i) && !h[i].inList && h[i].order == k + 1
    requires b == i + Pow2(k) < |owner| && !IsBlock(owner, b) && !h[b].inList
    requires h' == h[i := h[i].(order := k)][b := h[b].(order := k)]
    requires owner' == SplitOwner(owner, b, k)
    ensures Core(h', owner', top, free, waste)
    ensures forall p: nat :: p < |owner| ==> (IsBlock(owner', p) <==> IsBlock(owner, p) || p == b)
  {
    hide Coalesced, FreeMatch, WasteMatch, BlocksFit, OwnersCover;
    SplitPartition(h, owner, top, i, k, h', owner');
    SplitBlocks(h, owner, top, i, k, h', owner');
    QuietStep(h, owner, h', owner', top, free, waste);
  }

  // What try_merge_buddy reads: the XOR buddy's header is in the table, and it is listed with
  // our order exactly if it is a listed block that forms the next larger block with us.
  lemma MergeTarget(h: seq<Header>, owner: seq<nat>, top: nat, free: seq<seq<nat>>, waste: seq<nat>, i: nat, k: nat)
    requires Core(h, owner, top, free, waste) && IsBlock(owner, i) && h[i].order == k
    ensures k <= top && Xor(i, Pow2(k)) <= Pow2(top) == |owner|
    ensures var b := Xor(i, Pow2(k));
            && (MergeableBuddy(h, top, i) <==> h[b].inList && h[b].order == k)
            && (h[b].inList && h[b].order == k ==>
                  && b < |owner| && k < top && IsBlock(owner, b)
                  && (b == i + Pow2(k) || i == b + Pow2(k)) && Aligned(Min(i, b), k + 1))
  {
    hide FreeMatch, WasteMatch, Coalesced, Aligned, Pow2, Xor, OwnersCover, BlocksOwn;
    if k < top {
      BuddyFacts(i, k, top);
    } else {
      TopBuddy(i, top);
    }
  }

  // Joining two unlisted buddies of order k.
  lemma MergeStep(h: seq<Header>, owner: seq<nat>, top: nat, free: seq<seq<nat>>, waste: seq<nat>, m: nat, k: nat,
                  b: nat, h': seq<Header>, owner': seq<nat>)
    requires Core(h, owner, top, free, waste) && b == m + Pow2(k)
    requires IsBlock(owner, m) && IsBlock(owner, b) && !h[m].inList && !h[b].inList
    requires h[m].order == k && h[b].order == k && k < top && Aligned(m, k + 1)
    requires h' == h[m := h[m].(order := k + 1)] && owner' == MergeOwner(owner, m, k)
    ensures Core(h', owner', top, free, waste)
    ensures forall p: nat :: p < |owner| ==> (IsBlock(owner', p) <==> IsBlock(owner, p) && p != b)
  {
    hide Coalesced, FreeMatch, WasteMatch, BlocksFit, OwnersCover, BlocksOwn, MergeOwner, Aligned;
    MergePartition(h, owner, top, m, k, h', owner');
    MergeBlocks(h, owner, top, m, k, h', owner');
    QuietStep(h, owner, h', owner', top, free, waste);
  }

  // The block type is not part of the invariant.
  lemma KindStep(h: seq<Header>, owner: seq<nat>, top: nat, free: seq<seq<nat>>, waste: seq<nat>,
                 i: nat, t: BlockType, h': seq<Header>)
    requires Core(h, owner, top, free, waste) && IsBlock(owner, i) && !h[i].inList
    requires h' == h[i := h[i].(kind := t)]
    ensures Core(h', owner, top, free, waste)
    ensures Live(h', owner) == Live(h, owner)[i := Block(h[i].order, t)]
  {
    SameOrders(h, h', owner, top);
    QuietStep(h, owner, h', owner, top, free, waste);
  }

  // What pool_find_block reads from a free list.
  lemma FreeEntry(h: seq<Header>, owner: seq<nat>, top: nat, free: seq<seq<nat>>, waste: seq<nat>, a: nat, i: nat)
    requires Core(h, owner, top, free, waste) && a <= top && i in free[a]
    ensures IsBlock(owner, i) && h[i].inList && !h[i].isWaste && h[i].order == a
    ensures i + Pow2(a) <= |owner| == Pow2(top)
  {
    assert ListMatch(h, owner, free[a], a);
  }

  lemma LiveEntry(h: seq<Header>, owner: seq<nat>, i: nat)
    requires |h| == |owner| + 1
    ensures i in Live(h, owner) <==> IsBlock(owner, i) && !h[i].inList
    ensures i in Live(h, owner) ==> Live(h, owner)[i] == Block(h[i].order, h[i].kind)
  {
  }

  // Changing unlisted headers, with the listed blocks staying blocks, keeps the list invariants.
  lemma QuietStep(h: seq<Header>, owner: seq<nat>, h': seq<Header>, owner': seq<nat>,
                  top: nat, free: seq<seq<nat>>, waste: seq<nat>)
    requires Core(h, owner, top, free, waste) && Partition(h', owner', top)
    requires forall p :: 0 <= p < |h| ==> h'[p].inList == h[p].inList && (h[p].inList ==> h'[p] == h[p])
    requires forall p: nat :: p < |owner| && h[p].inList ==> IsBlock(owner', p)
    ensures Core(h', owner', top, free, waste)
  {
    assert FreeMatch(h', owner', free) by {
      forall k | 0 <= k < |free| ensures ListMatch(h', owner', free[k], k) {
        assert ListMatch(h, owner, free[k], k);
      }
    }
    assert Coalesced(h', top) by {
      forall j: nat | j < |h'| && h'[j].inList ensures !MergeableBuddy(h', top, j) {
        assert !MergeableBuddy(h, top, j);
      }
    }
  }

  datatype Block = Block(order: nat, kind: BlockType)

  // The live allocations: blocks on no list.
  ghost function Live(h: seq<Header>, owner: seq<nat>): map<nat, Block>
    requires |h| == |owner| + 1
  {
    map i: nat | i < |owner| && IsBlock(owner, i) && !h[i].inList :: Block(h[i].order, h[i].kind)
  }

  lemma PushLive(h: seq<Header>, owner: seq<nat>, i: nat)
    requires |h| == |owner| + 1 && i < |owner|
    ensures Live(h[i := h[i].(inList := true)], owner) == Live(h, owner) - {i}
  {
  }

  lemma DropLive(h: seq<Header>, owner: seq<nat>, i: nat)
    requires |h| == |owner| + 1 && IsBlock(owner, i) && h[i].inList
    ensures i !in Live(h, owner)
    ensures Live(h[i := h[i].(inList := false)], owner) == Live(h, owner)[i := Block(h[i].order, h[i].kind)]
  {
  }

  lemma SplitLive(h: seq<Header>, owner: seq<nat>, i: nat, k: nat, b: nat, h': seq<Header>, owner': seq<nat>)
    requires |h| == |owner| + 1 && |owner'| == |owner| && IsBlock(owner, i) && !h[i].inList
    requires b < |owner| && !IsBlock(owner, b) && !h[b].inList
    requires h' == h[i := h[i].(order := k)][b := h[b].(order := k)]
    requires forall p: nat :: p < |owner| ==> (IsBlock(owner', p) <==> IsBlock(owner, p) || p == b)
    ensures b !in Live(h, owner)
    ensures Live(h', owner') == Live(h, owner)[i := Block(k, h[i].kind)][b := Block(k, h[b].kind)]
  {
  }

  lemma MergeLive(h: seq<Header>, owner: seq<nat>, m: nat, k: nat, b: nat, h': seq<Header>, owner': seq<nat>)
    requires |h| == |owner| + 1 && |owner'| == |owner| && IsBlock(owner, m) && b != m
    requires h' == h[m := h[m].(order := k + 1)] && !h[m].inList
    requires forall p: nat :: p < |owner| ==> (IsBlock(owner', p) <==> IsBlock(owner, p) && p != b)
    ensures Live(h', owner') == (Live(h, owner) - {b})[m := Block(k + 1, h[m].kind)]
  {
  }

  // Live allocations never overlap.
  lemma LiveApart(h: seq<Header>, owner: seq<nat>, top: nat, i: nat, j: nat)
    requires Partition(h, owner, top)
    requires i in Live(h, owner) && j in Live(h, owner) && i < j
    ensures i + Pow2(Live(h, owner)[i].order) <= j
  {
    assert owner[j] == j;
  }

  // With nothing allocated, everything has been joined back into one block.
  lemma NothingLive(h: seq<Header>, owner: seq<nat>, top: nat, free: seq<seq<nat>>, waste: seq<nat>)
    requires Core(h, owner, top, free, waste) && !h[0].isWaste
    requires Live(h, owner) == map[]
    ensures free[top] == [0] && waste == []
    ensures forall k :: 0 <= k < top ==> free[k] == []
  {
    forall i: nat | IsBlock(owner, i) ensures h[i].inList {
      assert i !in Live(h, owner);
    }
    if h[0].order < top {
      var i := BuddyPairExists(h, owner, top);
      assert false;
    }
    assert IsBlock(owner, 0) by { assert owner[0] == 0; }
    assert forall i: nat :: IsBlock(owner, i) ==> i == 0 by {
      assert forall p :: 0 <= p < |owner| ==> owner[p] == 0;
    }
    forall k | 0 <= k < top ensures free[k] == [] {
      assert ListMatch(h, owner, free[k], k);
      ListLength(free[k], {});
    }
    ListLength(waste, {});
    assert ListMatch(h, owner, free[top], top);
    assert h[0].inList && h[0].order == top;
    ListLength(free[top], {0});
    assert free[top][0] in free[top];
  }

  // Pages held by the live allocations among the first n page numbers.
  ghost function LivePages(live: map<nat, Block>, n: nat): nat {
    if n == 0 then 0
    else LivePages(live, n - 1) + (if n - 1 in live then Pow2(live[n - 1].order) else 0)
  }

  lemma {:induction false} LivePagesAdd(live: map<nat, Block>, n: nat, i: nat, b: Block)
    requires i !in live
    ensures LivePages(live[i := b], n) == LivePages(live, n) + (if i < n then Pow2(b.order) else 0)
  {
    if n != 0 {
      LivePagesAdd(live, n - 1, i, b);
    }
  }

  lemma LivePagesRemove(live: map<nat, Block>, n: nat, i: nat)
    requires i in live && i < n
    ensures LivePages(live - {i}, n) == LivePages(live, n) - Pow2(live[i].order)
  {
    LivePagesAdd(live - {i}, n, i, live[i]);
    assert (live - {i})[i := live[i]] == live;
  }
}
