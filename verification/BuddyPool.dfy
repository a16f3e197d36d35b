/** One memory pool of the static buddy allocator.

    Pages are named by their index in the pool.  The headers are the array that `init_pool` lays
    out in front of the pages; the circular lists threaded through them are kept as sequences of
    page indices.  `pages - waste` is the index from which `init_pool` flags headers as waste. */
module BuddyPool {
  import opened Bits
  import opened Options
  import opened Orders
  import opened Words
  import opened BuddyBlocks
  import opened BuddyLists
  import opened Lists

  // The largest order with a non-empty free list, or zero.
  ghost predicate IsMaxOrderFree(free: seq<seq<nat>>, m: nat) {
    && m < |free|
    && (forall k :: m < k < |free| ==> free[k] == [])
    && (m > 0 ==> free[m] != [])
  }

  // Headers that differ at most in order and list membership.
  ghost predicate SameMarks(h: seq<Header>, h': seq<Header>) {
    && |h| == |h'|
    && forall p :: 0 <= p < |h| ==> h'[p].isWaste == h[p].isWaste && h'[p].kind == h[p].kind
  }

  // A listed block whose first n pages are usable; waste is a suffix, so the last of them decides.
  ghost predicate Suits(h: seq<Header>, i: nat, n: nat) {
    0 < n && i + n - 1 < |h| && !h[i + n - 1].isWaste
  }

  // Which in-range headers `init_pool` flags: from pages - waste, in 64-bit arithmetic, up to total.
  predicate FlaggedWaste(total: nat, pages: nat, waste: nat, i: nat) {
    (pages as int - waste as int) % SIZE_MOD <= i < total
  }

  // A region of five pages, one of which holds the headers: the block of order 3 has pages past the
  // table, which no header flags.
  lemma WasteUnflagged()
    ensures GetOrder(5) == 3 && Pow2(3) == 4 + 4 && !FlaggedWaste(5, 4, 4, 5)
    ensures !forall i: nat :: 4 <= i < 4 + 4 ==> FlaggedWaste(5, 4, 4, i)
  {
    hide GetOrder;
    GetOrderLeast(5);
    WasteFlagging(5, 4, 4);
  }

  // All pages past the usable ones are flagged exactly when the subtraction does not wrap and
  // every page of the rounded-up pool has a header.
  lemma WasteFlagging(total: nat, pages: nat, waste: nat)
    requires pages <= total <= pages + waste < SIZE_MOD
    ensures (forall i: nat :: pages <= i < pages + waste ==> FlaggedWaste(total, pages, waste, i))
            <==> waste == 0 || (waste <= pages && total == pages + waste)
    ensures waste <= pages ==> forall i: nat :: FlaggedWaste(total, pages, waste, i) <==> pages - waste <= i < total
  {
    if waste > 0 {
      assert FlaggedWaste(total, pages, waste, pages + waste - 1) ==> total == pages + waste;
      if waste > pages {
        assert (pages - waste) % SIZE_MOD == pages - waste + SIZE_MOD;
        assert !FlaggedWaste(total, pages, waste, pages);
      }
    }
  }

  class Pool {
    const top: nat
    const pages: nat
    const waste: nat
    const headers: array<Header>
    var freeLists: seq<seq<nat>>
    var wasteList: seq<nat>
    var freePages: nat
    var maxOrderFree: nat
    ghost var owner: seq<nat>

    ghost predicate Shape()
      reads this
    {
      && headers.Length == Pow2(top) + 1
      && |owner| == Pow2(top)
      && |freeLists| == top + 1
    }

    ghost predicate CoreHolds()
      reads this, headers
    {
      Shape() && Core(headers[..], owner, top, freeLists, wasteList)
    }

    // Waste is the suffix of the pool from page index pages - waste.
    ghost predicate WasteSuffix()
      requires headers.Length == Pow2(top) + 1
      reads headers
    {
      && pages + waste == Pow2(top) && waste < pages
      && forall p :: 0 <= p < Pow2(top) ==> headers[p].isWaste == (p >= pages - waste)
    }

    ghost function Allocations(): map<nat, Block>
      requires Shape()
      reads this, headers
    {
      Live(headers[..], owner)
    }

    // Every allocation starts on a usable page.
    ghost predicate UsableStarts()
      requires Shape()
      reads this, headers
    {
      forall i :: i in Allocations() ==> i < |owner| && !headers[i].isWaste
    }

    ghost predicate Valid()
      reads this, headers
    {
      && CoreHolds()
      && WasteSuffix()
      && UsableStarts()
      && IsMaxOrderFree(freeLists, maxOrderFree)
      && freePages == (pages - LivePages(Allocations(), Pow2(top))) % SIZE_MOD
    }

    constructor (order: nat, usable: nat)
      requires usable <= Pow2(order) < 2 * usable && Pow2(order) < SIZE_MOD
      ensures Valid() && fresh(headers)
      ensures top == order && pages == usable && freePages == usable
      ensures Allocations() == map[]
    {
      hide Core, Live, LivePages, Pow2;
      var n := Pow2(order);
      top := order;
      pages := usable;
      waste := n - usable;
      headers := new Header[n + 1](i => Header(0, false, false, TypeFree));
      freeLists := seq(order, k => []) + [[0]];
      wasteList := [];
      freePages := usable;
      maxOrderFree := order;
      owner := seq(n, p => 0);
      new;
      for i := pages - waste to n
        modifies headers
        invariant forall p :: 0 <= p < headers.Length ==>
          headers[p] == Header(0, false, pages - waste <= p < i, TypeFree)
      {
        headers[i] := headers[i].(isWaste := true);
      }
      headers[0] := headers[0].(order := order, inList := true);
      InitialCore(headers[..], owner, order, freeLists);
      NoLivePages(Pow2(order));
    }

    // list_push_back onto the list the block belongs on.
    method Push(i: nat)
      requires CoreHolds() && IsBlock(owner, i) && !headers[i].inList
      requires !MergeableBuddy(headers[..], top, i)
      modifies this`freeLists, this`wasteList, headers
      ensures CoreHolds()
      ensures headers[..] == old(headers[..])[i := old(headers[i]).(inList := true)]
      ensures headers[i].order <= top && freeLists == PushFree(headers[i], i, old(freeLists))
      ensures Allocations() == old(Allocations()) - {i}
    {
      hide Core, Live, MergeableBuddy;
      ghost var h := headers[..];
      PushStep(h, owner, top, freeLists, wasteList, i);
      PushLive(h, owner, i);
      headers[i] := headers[i].(inList := true);
      assert headers[..] == h[i := h[i].(inList := true)];
      if !headers[i].isWaste {
        freeLists := freeLists[headers[i].order := freeLists[headers[i].order] + [i]];
      } else {
        wasteList := wasteList + [i];
      }
    }

    // list_remove.
    method Remove(i: nat)
      requires CoreHolds() && i < |owner| && headers[i].inList
      modifies this`freeLists, this`wasteList, headers
      ensures CoreHolds() && IsBlock(owner, i)
      ensures headers[..] == old(headers[..])[i := old(headers[i]).(inList := false)]
      ensures headers[i].order <= top && freeLists == DropFree(headers[i], i, old(freeLists))
      ensures i !in old(Allocations())
      ensures Allocations() == old(Allocations())[i := Block(headers[i].order, headers[i].kind)]
    {
      hide Core, Live;
      ghost var h := headers[..];
      DropStep(h, owner, top, freeLists, wasteList, i);
      DropLive(h, owner, i);
      headers[i] := headers[i].(inList := false);
      assert headers[..] == h[i := h[i].(inList := false)];
      if !headers[i].isWaste {
        freeLists := freeLists[headers[i].order := Without(freeLists[headers[i].order], i)];
      } else {
        wasteList := Without(wasteList, i);
      }
    }

    // Halve an unlisted block and list the right half.
    method SplitBlock(i: nat)
      requires CoreHolds() && IsBlock(owner, i) && !headers[i].inList && headers[i].order > 0
      modifies this`freeLists, this`wasteList, this`owner, headers
      ensures CoreHolds() && IsBlock(owner, i) && !headers[i].inList
      ensures headers[i].order == old(headers[i]).order - 1
      ensures SameMarks(old(headers[..]), headers[..])
      ensures forall k :: 0 <= k <= top && k != headers[i].order ==> freeLists[k] == old(freeLists[k])
      ensures Allocations() == old(Allocations())[i := Block(headers[i].order, headers[i].kind)]
    {
      hide Core, Live, Xor, Pow2, Aligned, SplitOwner;
      ghost var h, o := headers[..], owner;
      var k := headers[i].order - 1;
      SplitTarget(h, o, top, freeLists, wasteList, i, k);
      headers[i] := headers[i].(order := k);
      var b := Xor(i, Pow2(k));
      headers[b] := headers[b].(order := k);
      owner := SplitOwner(o, b, k);
      assert headers[..] == h[i := h[i].(order := k)][b := h[b].(order := k)];
      SplitStep(h, o, top, freeLists, wasteList, i, k, b, headers[..], owner);
      SplitLive(h, o, i, k, b, headers[..], owner);
      BuddyFacts(i, k, top);
      assert Live(h, o)[i := Block(k, h[i].kind)][b := Block(k, h[b].kind)] - {b} ==
             Live(h, o)[i := Block(k, h[i].kind)];
      Push(b);
    }

    // Join an unlisted block with its buddy, if the buddy is listed with the same order.
    method TryMergeBuddy(i: nat) returns (r: Option<nat>)
      requires CoreHolds() && pages + waste == Pow2(top) && IsBlock(owner, i) && !headers[i].inList
      modifies this`freeLists, this`wasteList, this`owner, headers
      ensures CoreHolds() && SameMarks(old(headers[..]), headers[..])
      ensures r.Some? <==> old(MergeableBuddy(headers[..], top, i))
      ensures r.None? ==> headers[..] == old(headers[..]) && owner == old(owner)
      ensures r.None? ==> freeLists == old(freeLists) && wasteList == old(wasteList)
      ensures r.Some? ==>
        && r.value <= i && IsBlock(owner, r.value) && !headers[r.value].inList
        && r.value !in old(Allocations()) - {i}
        && headers[r.value].order == old(headers[i]).order + 1 <= top
        && Allocations() == (old(Allocations()) - {i})[r.value := Block(headers[r.value].order, headers[r.value].kind)]
      ensures forall k :: 0 <= k <= top && k != old(headers[i]).order ==> freeLists[k] == old(freeLists[k])
      ensures forall k :: 0 <= k <= top && old(freeLists[k]) == [] ==> freeLists[k] == []
    {
      hide Core, Live, Xor, Pow2, Aligned, MergeOwner, MergeableBuddy;
      var k := headers[i].order;
      var b := Xor(i, Pow2(k));
      MergeTarget(headers[..], owner, top, freeLists, wasteList, i, k);
      r := None;
      if b <= pages + waste && headers[b].order == k && headers[b].inList {
        Remove(b);
        ghost var h, o := headers[..], owner;
        var m := if i <= b then i else b;
        headers[m] := headers[m].(order := k + 1);
        owner := MergeOwner(o, m, k);
        assert headers[..] == h[m := h[m].(order := k + 1)];
        MergeStep(h, o, top, freeLists, wasteList, m, k, m + Pow2(k), headers[..], owner);
        MergeLive(h, o, m, k, m + Pow2(k), headers[..], owner);
        r := Some(m);
      }
    }

    // Merge upwards as long as there is a listed buddy.
    method MergeUp(i: nat) returns (c: nat)
      requires CoreHolds() && pages + waste == Pow2(top) && IsBlock(owner, i) && !headers[i].inList
      modifies this`freeLists, this`wasteList, this`owner, headers
      ensures CoreHolds() && SameMarks(old(headers[..]), headers[..])
      ensures c <= i && IsBlock(owner, c) && !headers[c].inList && headers[c].order <= top
      ensures !MergeableBuddy(headers[..], top, c)
      ensures Allocations() - {c} == old(Allocations()) - {i}
      ensures forall k :: 0 <= k <= top && old(freeLists[k]) == [] ==> freeLists[k] == []
      ensures forall k :: headers[c].order <= k <= top ==> freeLists[k] == old(freeLists[k])
    {
      hide Core, Live, Pow2, MergeableBuddy;
      BlockOrder(headers[..], owner, top, freeLists, wasteList, i);
      c := i;
      var block := TryMergeBuddy(i);
      while block.Some?
        invariant CoreHolds() && SameMarks(old(headers[..]), headers[..])
        invariant forall k :: 0 <= k <= top && old(freeLists[k]) == [] ==> freeLists[k] == []
        invariant var d := if block.Some? then block.value else c;
          && d <= i && IsBlock(owner, d) && !headers[d].inList && headers[d].order <= top
          && Allocations() - {d} == old(Allocations()) - {i}
          && (forall k :: headers[d].order <= k <= top ==> freeLists[k] == old(freeLists[k]))
        invariant block.None? ==> !MergeableBuddy(headers[..], top, c)
        decreases top - headers[if block.Some? then block.value else c].order, block.Some?
      {
        c := block.value;
        block := TryMergeBuddy(c);
      }
    }

    // Release a block: merge it, list the result and keep the largest free order up to date.
    method FreeBlock(i: nat)
      requires CoreHolds() && pages + waste == Pow2(top) && IsBlock(owner, i) && !headers[i].inList
      requires IsMaxOrderFree(freeLists, maxOrderFree)
      modifies this`freeLists, this`wasteList, this`owner, this`maxOrderFree, headers
      ensures CoreHolds() && SameMarks(old(headers[..]), headers[..])
      ensures Allocations() == old(Allocations()) - {i}
      ensures (forall p :: 0 <= p <= i ==> !old(headers[..])[p].isWaste) ==> IsMaxOrderFree(freeLists, maxOrderFree)
    {
      hide Core, Live, Pow2, MergeableBuddy;
      var freeBlock := MergeUp(i);
      if !headers[freeBlock].isWaste && maxOrderFree < headers[freeBlock].order {
        maxOrderFree := headers[freeBlock].order;
      }
      Push(freeBlock);
    }

    // Some free list from the given order up holds a block whose first n pages are usable.
    ghost predicate HasSuitable(order: nat, n: nat)
      requires Shape()
      reads this, headers
    {
      exists k, i :: order <= k <= top && i in freeLists[k] && Suits(headers[..], i, n)
    }

    // Take the last suitable entry of the first free list, from the given order up, that has one.
    method FindBlock(order: nat, n: nat) returns (r: Option<nat>)
      requires CoreHolds() && 0 < n <= Pow2(order)
      modifies this`freeLists, this`wasteList, headers
      ensures CoreHolds()
      ensures r.None? ==> headers[..] == old(headers[..]) && freeLists == old(freeLists) && wasteList == old(wasteList)
      ensures r.Some? <==> old(HasSuitable(order, n))
      ensures r.Some? ==>
        && IsBlock(owner, r.value) && SameMarks(old(headers[..]), headers[..])
        && order <= headers[r.value].order <= top
        && r.value in old(freeLists)[headers[r.value].order]
        && !headers[r.value].inList && !headers[r.value].isWaste && Suits(headers[..], r.value, n)
        && r.value !in old(Allocations())
        && Allocations() == old(Allocations())[r.value := Block(headers[r.value].order, headers[r.value].kind)]
        && (forall k :: 0 <= k <= top && old(freeLists[k]) == [] ==> freeLists[k] == [])
        && (forall k, i :: order <= k < headers[r.value].order && i in old(freeLists)[k] ==> !Suits(old(headers[..]), i, n))
    {
      hide Core, Live, Pow2;
      var a := order;
      while a <= top
        invariant order <= a && freeLists == old(freeLists) && headers[..] == old(headers[..]) && CoreHolds()
        invariant wasteList == old(wasteList)
        invariant forall k, i :: order <= k < a && k <= top && i in freeLists[k] ==> !Suits(headers[..], i, n)
      {
        var x := |freeLists[a]|;
        while x > 0
          invariant freeLists == old(freeLists) && headers[..] == old(headers[..]) && CoreHolds()
          invariant 0 <= x <= |freeLists[a]|
          invariant wasteList == old(wasteList)
          invariant forall y :: x <= y < |freeLists[a]| ==> !Suits(headers[..], freeLists[a][y], n)
        {
          x := x - 1;
          var block := freeLists[a][x];
          FreeEntry(headers[..], owner, top, freeLists, wasteList, a, block);
          Pow2Mono(order, a);
          if !headers[block + n - 1].isWaste {
            Remove(block);
            return Some(block);
          }
        }
        a := a + 1;
      }
      r := None;
    }

    // Split a block down to the requested order.
    method Carve(i: nat, order: nat)
      requires CoreHolds() && IsBlock(owner, i) && !headers[i].inList && order <= headers[i].order
      modifies this`freeLists, this`wasteList, this`owner, headers
      ensures CoreHolds() && IsBlock(owner, i) && !headers[i].inList && headers[i].order == order
      ensures SameMarks(old(headers[..]), headers[..])
      ensures Allocations() == old(Allocations())[i := Block(order, headers[i].kind)]
      ensures forall k :: old(headers[i]).order <= k <= top ==> freeLists[k] == old(freeLists[k])
    {
      hide Core, Live, Pow2;
      LiveEntry(headers[..], owner, i);
      while headers[i].order > order
        invariant CoreHolds() && IsBlock(owner, i) && !headers[i].inList
        invariant order <= headers[i].order <= old(headers[i]).order
        invariant SameMarks(old(headers[..]), headers[..])
        invariant Allocations() == old(Allocations())[i := Block(headers[i].order, headers[i].kind)]
        invariant forall k :: old(headers[i]).order <= k <= top ==> freeLists[k] == old(freeLists[k])
      {
        SplitBlock(i);
      }
    }

    // Step the cached largest free order down to a non-empty list.
    method LowerMaxOrderFree()
      requires Shape() && maxOrderFree <= top && forall k :: maxOrderFree < k <= top ==> freeLists[k] == []
      modifies this`maxOrderFree
      ensures IsMaxOrderFree(freeLists, maxOrderFree)
    {
      while maxOrderFree > 0 && freeLists[maxOrderFree] == []
        invariant Shape() && maxOrderFree <= top
        invariant forall k :: maxOrderFree < k <= top ==> freeLists[k] == []
      {
        maxOrderFree := maxOrderFree - 1;
      }
    }

    method SetKind(i: nat, kind: BlockType)
      requires CoreHolds() && IsBlock(owner, i) && !headers[i].inList
      modifies headers
      ensures CoreHolds() && headers[..] == old(headers[..])[i := old(headers[i]).(kind := kind)]
      ensures Allocations() == old(Allocations())[i := Block(headers[i].order, kind)]
    {
      hide Core, Live;
      ghost var h := headers[..];
      headers[i] := headers[i].(kind := kind);
      assert headers[..] == h[i := h[i].(kind := kind)];
      KindStep(h, owner, top, freeLists, wasteList, i, kind, headers[..]);
    }

    // Find a block, carve it and account for it.
    method Take(order: nat, n: nat, kind: BlockType) returns (r: Option<nat>)
      requires Valid() && 0 < n <= Pow2(order)
      modifies this, headers
      ensures Valid()
      ensures r.Some? <==> old(HasSuitable(order, n))
      ensures r.None? ==>
        && headers[..] == old(headers[..]) && owner == old(owner) && freeLists == old(freeLists)
        && wasteList == old(wasteList) && freePages == old(freePages) && maxOrderFree == old(maxOrderFree)
      ensures r.Some? ==>
        && r.value !in old(Allocations())
        && Allocations() == old(Allocations())[r.value := Block(order, kind)]
        && r.value + n <= pages - waste
    {
      hide Core, Live, LivePages, Pow2, HasSuitable, Suits;
      r := FindBlock(order, n);
      if r.Some? {
        var i := r.value;
        SuitableRange(headers[..], owner, top, freeLists, wasteList, i, n, order, pages - waste);
        Carve(i, order);
        LowerMaxOrderFree();
        Account(i, order, kind, old(Allocations()));
      }
    }

    // Count the pages of a block taken out, and set its type.
    method Account(i: nat, order: nat, kind: BlockType, ghost live: map<nat, Block>)
      requires CoreHolds() && IsBlock(owner, i) && !headers[i].inList && i !in live
      requires Allocations() == live[i := Block(order, headers[i].kind)] && headers[i].order == order
      requires freePages == (pages - LivePages(live, Pow2(top))) % SIZE_MOD
      modifies this`freePages, headers
      ensures CoreHolds() && headers[..] == old(headers[..])[i := old(headers[i]).(kind := kind)]
      ensures Allocations() == live[i := Block(order, kind)]
      ensures freePages == (pages - LivePages(Allocations(), Pow2(top))) % SIZE_MOD
    {
      hide Core, Live, LivePages, Pow2;
      freePages := (freePages - Pow2(order)) % SIZE_MOD;
      SetKind(i, kind);
      assert Allocations() == live[i := Block(order, kind)];
      LivePagesAdd(live, Pow2(top), i, Block(order, kind));
      WrapAdd(pages - LivePages(live, Pow2(top)), -(Pow2(order) as int));
    }

    // The guards of find_pool and of the largest order, and a suitable free block.
    ghost predicate CanAllocate(size: nat)
      requires Shape()
      reads this, headers
    {
      && 0 < size
      && maxOrderFree >= GetOrder(PagesFor(size)) && freePages >= PagesFor(size)
      && (GetOrder(PagesFor(size)) == top ==> size <= pages)
      && HasSuitable(GetOrder(PagesFor(size)), PagesFor(size))
    }

    method Allocate(size: nat, kind: BlockType) returns (r: Option<nat>)
      requires Valid() && size <= SIZE_MOD - PAGE_SIZE
      modifies this, headers
      ensures Valid()
      ensures r.Some? <==> old(CanAllocate(size))
      ensures r.None? ==>
        && headers[..] == old(headers[..]) && owner == old(owner) && freeLists == old(freeLists)
        && wasteList == old(wasteList) && freePages == old(freePages) && maxOrderFree == old(maxOrderFree)
      ensures r.Some? ==>
        && r.value !in old(Allocations())
        && Allocations() == old(Allocations())[r.value := Block(GetOrder(PagesFor(size)), kind)]
        && size <= PagesFor(size) * PAGE_SIZE && PagesFor(size) <= Pow2(GetOrder(PagesFor(size)))
        && r.value + PagesFor(size) <= pages - waste
    {
      hide Valid, HasSuitable, Pow2, GetOrder;
      r := None;
      if size != 0 {
        var n := PagesFor(size);
        var order := GetOrder(n);
        OrderFits(n);
        if maxOrderFree >= order && freePages >= n && (order == top ==> size <= pages) {
          r := Take(order, n, kind);
        }
      }
    }

    // Release a live allocation.
    method Deallocate(i: nat)
      requires Valid() && i in Allocations()
      modifies this, headers
      ensures Valid()
      ensures Allocations() == old(Allocations()) - {i}
      ensures forall p :: 0 <= p < headers.Length ==> headers[p].kind == if p == i then TypeFree else old(headers[p]).kind
    {
      hide Core, Live, LivePages, Pow2;
      LiveEntry(headers[..], owner, i);
      freePages := (freePages + Pow2(headers[i].order)) % SIZE_MOD;
      SetKind(i, TypeFree);
      FreeBlock(i);
      LivePagesRemove(old(Allocations()), Pow2(top), i);
      WrapAdd(pages - LivePages(old(Allocations()), Pow2(top)), Pow2(old(Allocations())[i].order));
      assert Allocations() == old(Allocations()) - {i};
    }
  }

  // In every valid pool the free, waste and allocated blocks partition the pages.
  lemma ValidCovers(p: Pool)
    requires p.Valid()
    ensures p.headers.Length == Pow2(p.top) + 1
    ensures ExactCover(p.headers[..], Starts(p.owner), p.top)
    ensures forall i: nat :: i < Pow2(p.top) ==>
      (p.headers[i].inList <==> i in p.wasteList || exists k :: 0 <= k <= p.top && i in p.freeLists[k])
  {
    PartitionCovers(p.headers[..], p.owner, p.top);
    forall i: nat | i < Pow2(p.top)
      ensures p.headers[i].inList <==> i in p.wasteList || exists k :: 0 <= k <= p.top && i in p.freeLists[k]
    {
      ListedExactly(p.headers[..], p.owner, p.top, p.freeLists, p.wasteList, i);
    }
  }

  lemma ListedExactly(h: seq<Header>, owner: seq<nat>, top: nat, free: seq<seq<nat>>, waste: seq<nat>, i: nat)
    requires Core(h, owner, top, free, waste) && i < |owner|
    ensures h[i].inList <==> i in waste || exists k :: 0 <= k <= top && i in free[k]
  {
    if k :| 0 <= k <= top && i in free[k] {
      assert ListMatch(h, owner, free[k], k);
    }
  }

  // Once nothing is allocated, the pool is one block of the largest order again.
  lemma AllReleased(p: Pool)
    requires p.Valid() && p.Allocations() == map[]
    ensures p.freeLists[p.top] == [0] && p.wasteList == []
    ensures forall k :: 0 <= k < p.top ==> p.freeLists[k] == []
    ensures p.maxOrderFree == p.top && p.freePages == p.pages % SIZE_MOD
  {
    NothingLive(p.headers[..], p.owner, p.top, p.freeLists, p.wasteList);
    NoLivePages(Pow2(p.top));
  }

  // Freeing every allocation, in whatever order, restores the single block.
  method ReleaseAll(p: Pool, order: seq<nat>)
    requires p.Valid() && NoDup(order)
    requires forall i :: i in order <==> i in p.Allocations()
    modifies p, p.headers
    ensures p.Valid() && p.freeLists[p.top] == [0] && p.freePages == p.pages % SIZE_MOD
    ensures forall k :: 0 <= k < p.top ==> p.freeLists[k] == []
  {
    hide Core, Live, LivePages;
    for x := 0 to |order|
      invariant p.Valid()
      invariant forall i :: i in p.Allocations() <==> i in order[x..]
    {
      assert order[x..] == [order[x]] + order[x + 1..];
      p.Deallocate(order[x]);
    }
    assert p.Allocations() == map[];
    AllReleased(p);
  }

  lemma WrapAdd(a: int, b: int)
    ensures (a % SIZE_MOD + b) % SIZE_MOD == (a + b) % SIZE_MOD
  {
  }

  lemma OrderFits(n: nat)
    requires n <= SIZE_MOD / PAGE_SIZE
    ensures n <= Pow2(GetOrder(n))
  {
    GetOrderLeast(n);
  }

  lemma SuitableRange(h: seq<Header>, owner: seq<nat>, top: nat, free: seq<seq<nat>>, waste: seq<nat>,
                      i: nat, n: nat, order: nat, firstWaste: nat)
    requires Core(h, owner, top, free, waste) && IsBlock(owner, i) && Suits(h, i, n) && n <= Pow2(order)
    requires order <= h[i].order
    requires forall p :: 0 <= p < Pow2(top) ==> h[p].isWaste == (p >= firstWaste)
    ensures i + n <= firstWaste
  {
    Pow2Mono(order, h[i].order);
  }

  lemma BlockOrder(h: seq<Header>, owner: seq<nat>, top: nat, free: seq<seq<nat>>, waste: seq<nat>, i: nat)
    requires Core(h, owner, top, free, waste) && IsBlock(owner, i)
    ensures h[i].order <= top
  {
  }

  lemma InitialCore(h: seq<Header>, owner: seq<nat>, top: nat, free: seq<seq<nat>>)
    requires |h| == Pow2(top) + 1 && |owner| == Pow2(top) && (forall p :: 0 <= p < |owner| ==> owner[p] == 0)
    requires h[0].order == top && h[0].inList && !h[0].isWaste
    requires forall p :: 0 < p < |h| ==> !h[p].inList
    requires |free| == top + 1 && free[top] == [0] && forall k :: 0 <= k < top ==> free[k] == []
    ensures Core(h, owner, top, free, [])
    ensures Live(h, owner) == map[]
  {
    hide Pow2, Aligned, Xor;
    AlignedIsMultiple(0, top);
    assert forall i: nat :: IsBlock(owner, i) ==> i == 0;
    assert Partition(h, owner, top);
    assert FreeMatch(h, owner, free);
  }

  lemma {:induction false} NoLivePages(n: nat)
    ensures LivePages(map[], n) == 0
  {
    if n != 0 {
      NoLivePages(n - 1);
    }
  }
}
