// malloc and free over slab pages and buddy blocks (slab-alloc.c, malloc.c).
module Heap {
  import opened Bits
  import opened Options
  import opened Orders
  import opened Words
  import opened BuddyBlocks
  import opened BuddyLists
  import opened Lists
  import opened BuddyPool
  import opened SlabPages

  // get_slab's count and list for one more slot, and slab_deallocate's for one less.
  function Raised(s: Slab): Slab
    requires s.use < 4
  {
    var n := s.useCount + 1;
    if n >= Thresholds(s.size)[s.use] then s.(useCount := n, use := s.use + 1) else s.(useCount := n)
  }

  function Lowered(s: Slab, k: nat): Slab
    requires 1 <= s.use < 5 && s.useCount > 0 && k < |s.bitmap|
  {
    var n := s.useCount - 1;
    var t := s.(useCount := n, bitmap := s.bitmap[k := true]);
    if n <= Thresholds(s.size)[s.use - 1] then t.(use := s.use - 1) else t
  }

  lemma RaisedOk(s: Slab)
    requires PageOk(s, 0) && s.use < 4
    ensures PageOk(Raised(s), 1) && |FreeBits(s.bitmap)| > 0
  {
  }

  lemma ClearedOk(s: Slab, k: nat)
    requires PageOk(s, 1) && k < BITMAP_BITS && s.bitmap[k]
    ensures PageOk(s.(bitmap := s.bitmap[k := false]), 0) && k < Capacity(s.size)
  {
    hide Thresholds, InBucket;
    ClearBit(s.bitmap, k);
  }

  lemma LoweredOk(s: Slab, k: nat)
    requires PageOk(s, 0) && k < Capacity(s.size) && !s.bitmap[k]
    ensures 1 <= s.use && s.useCount > 0 && PageOk(Lowered(s, k), 0)
    ensures Lowered(s, k).use == s.use || Lowered(s, k).use == s.use - 1
  {
    SetBit(s.bitmap, k);
    FreeBelow(s, k);
  }

  // A slot in use leaves less than a page of free ones.
  lemma FreeBelow(s: Slab, k: nat)
    requires PageOk(s, 0) && k < Capacity(s.size) && !s.bitmap[k]
    ensures s.useCount > 0
  {
    hide InBucket;
    var all := EmptyBitmap(s.size);
    EmptyBitmapIs(s.size);
    assert k in FreeBits(all);
    assert FreeBits(s.bitmap) <= FreeBits(all) - {k};
    SmallerSet(FreeBits(s.bitmap), FreeBits(all) - {k});
  }

  lemma SmallerSet(a: set<nat>, b: set<nat>)
    requires a <= b
    ensures |a| <= |b|
  {
    assert b == a + (b - a);
  }

  lemma FreshOk(z: nat)
    requires z < 4
    ensures PageOk(Slab(z, 1, 1, EmptyBitmap(z)), 1)
  {
    hide EmptyBitmap;
    EmptyBitmapIs(z);
  }

  // What malloc hands out: a slot of a slab page, or the pages of a buddy block.
  datatype Ptr = Slot(page: nat, slot: nat) | Pages(page: nat)

  predicate LiveIn(slabs: map<nat, Slab>, blocks: map<nat, Block>, q: Ptr) {
    match q
    case Slot(p, k) => p in slabs && k < Capacity(slabs[p].size) && k < |slabs[p].bitmap| && !slabs[p].bitmap[k]
    case Pages(p) => p in blocks && blocks[p].kind == TypePage
  }

  // Blocks that others take from the same pool, such as user pages.
  predicate Foreign(blocks: map<nat, Block>, p: nat) {
    p in blocks && blocks[p].kind != TypeSlab && blocks[p].kind != TypePage
  }

  ghost predicate SameForeign(was: map<nat, Block>, now: map<nat, Block>) {
    forall p :: Foreign(was, p) || Foreign(now, p) ==> p in was && p in now && now[p] == was[p]
  }

  // q is live, or the pages of a foreign block.
  predicate Occupies(slabs: map<nat, Slab>, blocks: map<nat, Block>, q: Ptr) {
    LiveIn(slabs, blocks, q) || (q.Pages? && Foreign(blocks, q.page))
  }

  function Address(slabs: map<nat, Slab>, q: Ptr): nat {
    match q
    case Slot(p, k) => p * PAGE_SIZE + DATA_OFFSET + k * (if p in slabs then SlabBytes(slabs[p].size) else 0)
    case Pages(p) => p * PAGE_SIZE
  }

  function Extent(slabs: map<nat, Slab>, blocks: map<nat, Block>, q: Ptr): nat {
    match q
    case Slot(p, _) => if p in slabs then SlabBytes(slabs[p].size) else 0
    case Pages(p) => if p in blocks then Pow2(blocks[p].order) * PAGE_SIZE else 0
  }

  // The pages of type SLAB are exactly the pages with a slab header, one page each.
  ghost predicate Routed(slabs: map<nat, Slab>, blocks: map<nat, Block>) {
    && (forall p :: p in slabs <==> p in blocks && blocks[p].kind == TypeSlab)
    && (forall p :: p in slabs && p in blocks ==> blocks[p].order == 0)
  }

  ghost predicate PagesOk(slabs: map<nat, Slab>) { forall p :: p in slabs ==> PageOk(slabs[p], 0) }

  class Heap {
    const pool: Pool
    var slabs: map<nat, Slab>
    var bins: map<Bin, seq<nat>>

    ghost predicate Valid()
      reads this, pool, pool.headers
    {
      && pool.Valid()
      && BinsMatch(slabs, bins) && OneEmpty(bins) && PagesOk(slabs)
      && Routed(slabs, pool.Allocations())
    }

    ghost predicate IsLive(q: Ptr)
      requires pool.Shape()
      reads this, pool, pool.headers
    {
      LiveIn(slabs, pool.Allocations(), q)
    }

    constructor (order: nat, usable: nat)
      requires usable <= Pow2(order) < 2 * usable && Pow2(order) < SIZE_MOD
      ensures Valid() && fresh(pool) && fresh(pool.headers)
      ensures forall q :: !IsLive(q)
    {
      pool := new Pool(order, usable);
      slabs := map[];
      bins := map[];
    }

    // Everything but the page just granted, whose bit is still to be cleared.
    ghost predicate ValidBut(p: nat)
      reads this, pool, pool.headers
    {
      && pool.Valid()
      && BinsMatch(slabs, bins) && OneEmpty(bins) && PagesOk(slabs - {p})
      && Routed(slabs, pool.Allocations())
      && p in slabs && PageOk(slabs[p], 1)
    }

    // The most recent page of list use gets one more slot, and moves up when it passes the threshold.
    method TakeListed(z: nat, use: nat) returns (p: nat)
      requires Valid() && z < 4 && use < 4 && In(bins, Bin(z, use)) != []
      modifies this
      ensures p == old(In(bins, Bin(z, use))[|In(bins, Bin(z, use))| - 1])
      ensures p in old(slabs) && old(slabs[p].use) == use && old(slabs[p].size) == z
      ensures slabs == old(slabs)[p := Raised(old(slabs[p]))]
      ensures ValidBut(p)
    {
      hide PageOk, Raised, pool.Valid, BinsMatch, InBucket;
      var l := In(bins, Bin(z, use));
      p := l[|l| - 1];
      ListedSits(slabs, bins, Bin(z, use), |l| - 1);
      var s := slabs[p];
      RaisedOk(s);
      RaisedBins(slabs, bins, p);
      if Raised(s).use != use {
        bins := PushBin(DropBin(bins, p, Bin(z, use)), p, Bin(z, Raised(s).use));
      }
      slabs := slabs[p := Raised(s)];
    }

    method NewPage(z: nat) returns (r: Option<nat>)
      requires Valid() && z < 4
      modifies this, pool, pool.headers
      ensures r.Some? <==> old(pool.CanAllocate(PAGE_SIZE))
      ensures r.None? ==> Valid() && slabs == old(slabs) && bins == old(bins) && pool.Allocations() == old(pool.Allocations())
      ensures r.Some? ==> ValidBut(r.value) && r.value !in old(slabs) && r.value !in old(pool.Allocations())
                          && slabs == old(slabs)[r.value := Slab(z, 1, 1, EmptyBitmap(z))]
                          && pool.Allocations() == old(pool.Allocations())[r.value := Block(0, TypeSlab)]
    {
      hide PageOk, BinsMatch, InBucket, EmptyBitmap, Core, Live, LivePages, GetOrder, Pow2, pool.HasSuitable;
      r := pool.Allocate(PAGE_SIZE, TypeSlab);
      if r.Some? {
        OnePage();
        FreshOk(z);
        var s := Slab(z, 1, 1, EmptyBitmap(z));
        PushMatch(slabs, bins, r.value, s);
        bins := PushBin(bins, r.value, Bin(z, 1));
        slabs := slabs[r.value := s];
      }
    }

    // get_slab: the fullest page of the size that still has room, else a new page.
    method GetSlab(z: nat) returns (r: Option<nat>)
      requires Valid() && z < 4
      modifies this, pool, pool.headers
      ensures r.None? ==> Valid() && slabs == old(slabs) && pool.Allocations() == old(pool.Allocations())
      ensures r.None? <==> old(NoRoom(slabs, z) && !pool.CanAllocate(PAGE_SIZE))
      ensures r.Some? ==> ValidBut(r.value) && slabs[r.value].size == z
      ensures r.Some? ==> Granted(old(slabs), slabs, old(pool.Allocations()), pool.Allocations(), r.value)
    {
      hide PageOk, BinsMatch, InBucket, EmptyBitmap, Core, Live, LivePages, Raised, pool.Valid, pool.CanAllocate;
      var i: int := 3;
      while i >= 0
        invariant -1 <= i < 4
        invariant forall u :: i < u < 4 ==> In(bins, Bin(z, u)) == []
        decreases i
      {
        if In(bins, Bin(z, i)) != [] {
          AboveEmpty(slabs, bins, z, i);
          var p := TakeListed(z, i);
          RaisedKeeps(old(slabs[p]));
          return Some(p);
        }
        i := i - 1;
      }
      AboveEmpty(slabs, bins, z, -1);
      r := NewPage(z);
    }

    // The lowest free slot of a granted page is taken.  There always is one.
    method TakeSlot(p: nat) returns (index: nat)
      requires ValidBut(p)
      modifies this`slabs
      ensures Valid() && index < Capacity(old(slabs[p].size)) && old(slabs[p].bitmap[index])
      ensures forall j :: 0 <= j < index ==> !old(slabs[p].bitmap[j])
      ensures slabs == old(slabs)[p := old(slabs[p]).(bitmap := old(slabs[p]).bitmap[index := false])]
    {
      hide PageOk, BinsMatch, InBucket, Thresholds, Core, Live, LivePages, Routed, PagesOk, pool.WasteSuffix,
           pool.UsableStarts;
      var s := slabs[p];
      HasFreeBit(s);
      var i := 0;
      while i < 4 && LowestSet(s.bitmap, 32 * i, 32 * i + 32) == 32 * i + 32
        invariant i <= 4 && forall j :: 0 <= j < 32 * i ==> !s.bitmap[j]
      {
        i := i + 1;
      }
      if i == 4 {
        assert false;
      }
      index := LowestSet(s.bitmap, 32 * i, 32 * i + 32);
      ClearedOk(s, index);
      StayMatch(slabs, bins, p, s.(bitmap := s.bitmap[index := false]));
      JoinPages(slabs, p, s.(bitmap := s.bitmap[index := false]));
      RoutedSame(slabs, pool.Allocations(), p, s.(bitmap := s.bitmap[index := false]));
      slabs := slabs[p := s.(bitmap := s.bitmap[index := false])];
    }

    // slab_allocate.
    method SlabAllocate(size: nat) returns (r: Option<nat>, ghost q: Ptr)
      requires Valid()
      modifies this, pool, pool.headers
      ensures Valid()
      ensures r.None? <==> size > 256 || old(NoSlot(slabs, size) && !pool.CanAllocate(PAGE_SIZE))
      ensures r.None? ==> slabs == old(slabs) && pool.Allocations() == old(pool.Allocations())
      ensures r.Some? ==> q.Slot? && Allocated(old(slabs), old(pool.Allocations()), slabs, pool.Allocations(), q, r.value, size)
      ensures r.Some? ==> LeastSlot(size, Extent(slabs, pool.Allocations(), q))
    {
      hide PageOk, BinsMatch, InBucket, Core, Live, LivePages, pool.WasteSuffix, pool.UsableStarts, pool.CanAllocate,
           Granted, Allocated;
      q := Pages(0);
      if size > 256 {
        return None, q;
      }
      var z := SizeClass(size);
      NoSlotIs(slabs, size);
      ClassIsLeast(size, z);
      ghost var was, wasBlocks := slabs, pool.Allocations();
      var g := GetSlab(z);
      if g.None? {
        return None, q;
      }
      var p := g.value;
      ghost var now := slabs;
      var index := TakeSlot(p);
      GrantAllocates(was, now, wasBlocks, pool.Allocations(), p, index, size);
      q := Slot(p, index);
      r := Some(p * PAGE_SIZE + DATA_OFFSET + index * SlabBytes(z));
    }

    // slab_deallocate: the slot of the address becomes free, unless it already was.  A page left empty
    // goes back to the pool when another empty page of its size is kept.
    method SlabDeallocate(addr: nat, ghost q: Ptr)
      requires Valid() && q.Slot? && q.page in slabs && q.slot < Capacity(slabs[q.page].size) && addr == Address(slabs, q)
      modifies this, pool, pool.headers
      ensures Valid()
      ensures Released(old(slabs), old(pool.Allocations()), slabs, pool.Allocations(), q)
    {
      hide PageOk, BinsMatch, InBucket, Core, Live, LivePages, Thresholds, Lowered, Pow2, Released, Routed,
           pool.WasteSuffix, pool.UsableStarts;
      BitmapLength(slabs[q.page]);
      SlotOfAddress(slabs, q);
      var p := addr / PAGE_SIZE;
      var s := slabs[p];
      var k := (addr % PAGE_SIZE - DATA_OFFSET) / SlabBytes(s.size);
      if s.bitmap[k] {
        NothingReleased(slabs, pool.Allocations(), q);
        return;
      }
      LoweredOk(s, k);
      var t := Lowered(s, k);
      if t.use == s.use || t.use > 0 || In(bins, Bin(s.size, 0)) == [] {
        LoweredBins(slabs, bins, p, k);
        RoutedSame(slabs, pool.Allocations(), p, t);
        SlotReleased(slabs, pool.Allocations(), p, k);
        bins := MovedBins(slabs, bins, p, t);
        slabs := slabs[p := t];
      } else {
        PageReleased(slabs, pool.Allocations(), p, k);
        DropMatch(slabs, bins, p, Bin(s.size, s.use));
        bins := DropBin(bins, p, Bin(s.size, s.use));
        slabs := slabs - {p};
        pool.Deallocate(p);
      }
    }

    // malloc: up to 256 bytes come from the slabs, more from the pool.
    method Malloc(size0: nat) returns (r: Option<nat>, ghost q: Ptr)
      requires Valid() && size0 <= SIZE_MOD - PAGE_SIZE
      modifies this, pool, pool.headers
      ensures Valid()
      ensures r.None? ==> slabs == old(slabs) && pool.Allocations() == old(pool.Allocations())
      ensures r.Some? ==> Allocated(old(slabs), old(pool.Allocations()), slabs, pool.Allocations(), q, r.value, if size0 == 0 then 1 else size0)
      ensures r.Some? ==> (q.Slot? <==> size0 <= 256)
      ensures r.Some? && q.Slot? ==> LeastSlot(size0, Extent(slabs, pool.Allocations(), q))
      ensures r.Some? && q.Pages? ==> LeastBlock(size0, Extent(slabs, pool.Allocations(), q))
      ensures r.None? <==> if size0 <= 256 then old(NoSlot(slabs, size0) && !pool.CanAllocate(PAGE_SIZE))
                           else !old(pool.CanAllocate(size0))
    {
      hide PageOk, BinsMatch, InBucket, Core, Live, LivePages, pool.WasteSuffix, pool.UsableStarts, pool.CanAllocate,
           Allocated, GetOrder, Pow2, NoRoom;
      var size := if size0 == 0 then 1 else size0;
      if size <= 256 {
        r, q := SlabAllocate(size);
        return;
      }
      ghost var was, wasBlocks := slabs, pool.Allocations();
      var p := pool.Allocate(size, TypePage);
      q := Pages(0);
      if p.None? {
        return None, q;
      }
      BlockAllocated(slabs, wasBlocks, p.value, GetOrder(PagesFor(size)), size);
      BlockIsLeast(size);
      q := Pages(p.value);
      r := Some(p.value * PAGE_SIZE);
    }

    // free: the type of the page's block tells which allocator issued the pointer.  Null is ignored,
    // and so is a foreign block.
    method Free(ptr: Option<nat>, ghost q: Ptr)
      requires Valid()
      requires ptr.Some? ==>
        && ptr.value == Address(slabs, q)
        && (Occupies(slabs, pool.Allocations(), q) || (q.Slot? && q.page in slabs && q.slot < Capacity(slabs[q.page].size)))
      modifies this, pool, pool.headers
      ensures Valid()
      ensures ptr.None? ==> slabs == old(slabs) && pool.Allocations() == old(pool.Allocations())
      ensures ptr.Some? ==> Released(old(slabs), old(pool.Allocations()), slabs, pool.Allocations(), q)
    {
      hide PageOk, BinsMatch, InBucket, Core, Live, LivePages, pool.WasteSuffix, pool.UsableStarts, Released, Pow2;
      if ptr.None? {
        return;
      }
      if q.Slot? {
        BitmapLength(slabs[q.page]);
        SlotOfAddress(slabs, q);
      }
      var page := ptr.value / PAGE_SIZE;
      assert page == q.page;
      LiveEntry(pool.headers[..], pool.owner, page);
      var kind := pool.headers[page].kind;
      match kind {
        case TypePage =>
          BlockReleased(slabs, pool.Allocations(), page);
          pool.Deallocate(page);
        case TypeSlab => SlabDeallocate(ptr.value, q);
        case _ => NothingReleased(slabs, pool.Allocations(), q);
      }
    }
  }

  // The least power of two of pages that holds size bytes has n bytes.
  ghost predicate LeastBlock(size: nat, n: nat) {
    exists k: nat :: n == Pow2(k) * PAGE_SIZE && size <= n && (k == 0 || n < 2 * size)
  }

  lemma BlockIsLeast(size: nat)
    requires size <= SIZE_MOD - PAGE_SIZE
    ensures LeastBlock(size, Pow2(GetOrder(PagesFor(size))) * PAGE_SIZE)
  {
    hide Pow2, GetOrder;
    var n := PagesFor(size);
    var k := GetOrder(n);
    PagesForExact(size);
    GetOrderLeast(n);
    MulLe(PAGE_SIZE, n, Pow2(k));
    if k > 0 {
      Pow2Step(k);
      assert Pow2(k - 1) < n;
    }
    assert Pow2(k) * PAGE_SIZE == Pow2(k) * PAGE_SIZE && size <= Pow2(k) * PAGE_SIZE && (k == 0 || Pow2(k) * PAGE_SIZE < 2 * size);
  }

  lemma BlockAllocated(slabs: map<nat, Slab>, blocks: map<nat, Block>, p: nat, order: nat, size: nat)
    requires p !in blocks && Routed(slabs, blocks) && size <= PagesFor(size) * PAGE_SIZE && PagesFor(size) <= Pow2(order)
    ensures Routed(slabs, blocks[p := Block(order, TypePage)])
    ensures Allocated(slabs, blocks, slabs, blocks[p := Block(order, TypePage)], Pages(p), p * PAGE_SIZE, size)
  {
    hide Pow2, PagesFor, LiveIn, Extent, SameSpot, SameForeign;
    MulLe(PAGE_SIZE, PagesFor(size), Pow2(order));
    BlockLives(slabs, blocks, p, Block(order, TypePage));
  }

  lemma BlockLives(slabs: map<nat, Slab>, blocks: map<nat, Block>, p: nat, b: Block)
    requires p !in blocks && b.kind == TypePage
    ensures var n := blocks[p := b];
      && LiveIn(slabs, n, Pages(p)) && !LiveIn(slabs, blocks, Pages(p)) && SameForeign(blocks, n)
      && Extent(slabs, n, Pages(p)) == Pow2(b.order) * PAGE_SIZE
      && (forall x :: x != Pages(p) ==> (LiveIn(slabs, n, x) <==> LiveIn(slabs, blocks, x)))
      && (forall x :: LiveIn(slabs, blocks, x) ==> SameSpot(slabs, blocks, slabs, n, x))
  {
    hide Pow2, Capacity, SlabBytes;
  }

  lemma BlockReleased(slabs: map<nat, Slab>, blocks: map<nat, Block>, p: nat)
    requires p in blocks && blocks[p].kind == TypePage && Routed(slabs, blocks)
    ensures Routed(slabs, blocks - {p})
    ensures Released(slabs, blocks, slabs, blocks - {p}, Pages(p))
  {
    hide Pow2;
  }

  // The memory of two live pointers is disjoint, and from foreign blocks.
  lemma LiveDisjoint(h: Heap, x: Ptr, y: Ptr)
    requires h.Valid() && x != y
    requires Occupies(h.slabs, h.pool.Allocations(), x) && Occupies(h.slabs, h.pool.Allocations(), y)
    ensures var s, b := h.slabs, h.pool.Allocations();
      || Address(s, x) + Extent(s, b, x) <= Address(s, y)
      || Address(s, y) + Extent(s, b, y) <= Address(s, x)
  {
    hide Core, Live, LivePages, Pow2, BinsMatch, PageOk;
    var s, b := h.slabs, h.pool.Allocations();
    InsideBlock(h, x);
    InsideBlock(h, y);
    if x.page < y.page {
      Apart(h.pool, x.page, y.page);
    } else if y.page < x.page {
      Apart(h.pool, y.page, x.page);
    } else {
      assert x.Slot? && y.Slot?;
      SlotsApart(x.slot, y.slot, SlabBytes(s[x.page].size));
    }
  }

  lemma Apart(p: Pool, i: nat, j: nat)
    requires p.Valid() && i in p.Allocations() && j in p.Allocations() && i < j
    ensures (i + Pow2(p.Allocations()[i].order)) * PAGE_SIZE <= j * PAGE_SIZE
  {
    hide Live, LivePages, Pow2;
    LiveApart(p.headers[..], p.owner, p.top, i, j);
  }

  lemma SlotsApart(j: nat, k: nat, n: nat)
    requires j != k
    ensures j * n + n <= k * n || k * n + n <= j * n
  {
    if j < k {
      MulLe(n, j + 1, k);
    } else {
      MulLe(n, k + 1, j);
    }
  }

  // A live pointer's memory lies inside its block.
  lemma InsideBlock(h: Heap, x: Ptr)
    requires h.Valid() && Occupies(h.slabs, h.pool.Allocations(), x)
    ensures x.page in h.pool.Allocations() && (x.Slot? <==> h.pool.Allocations()[x.page].kind == TypeSlab)
    ensures x.page * PAGE_SIZE <= Address(h.slabs, x)
    ensures Address(h.slabs, x) + Extent(h.slabs, h.pool.Allocations(), x) <= (x.page + Pow2(h.pool.Allocations()[x.page].order)) * PAGE_SIZE
  {
    hide Core, Live, LivePages, Pow2, BinsMatch, PageOk;
    if x.Slot? {
      Pow2Zero();
      BitmapLength(h.slabs[x.page]);
      SlotOfAddress(h.slabs, x);
    }
  }

  // q is no longer live; every other pointer is as live, and where, it was.
  ghost predicate Released(was: map<nat, Slab>, wasBlocks: map<nat, Block>, now: map<nat, Slab>, nowBlocks: map<nat, Block>, q: Ptr) {
    && (forall x :: LiveIn(now, nowBlocks, x) <==> LiveIn(was, wasBlocks, x) && x != q)
    && (forall x :: LiveIn(now, nowBlocks, x) ==> SameSpot(was, wasBlocks, now, nowBlocks, x))
    && SameForeign(wasBlocks, nowBlocks)
  }

  // The page and the slot can be read off the address.
  lemma SlotOfAddress(slabs: map<nat, Slab>, q: Ptr)
    requires q.Slot? && q.page in slabs && slabs[q.page].size < 4 && q.slot < Capacity(slabs[q.page].size)
    ensures var a, n := Address(slabs, q), SlabBytes(slabs[q.page].size);
      && a / PAGE_SIZE == q.page && a % PAGE_SIZE == DATA_OFFSET + q.slot * n
      && (a % PAGE_SIZE - DATA_OFFSET) / n == q.slot
      && DATA_OFFSET + q.slot * n + n <= PAGE_SIZE
  {
    var z := slabs[q.page].size;
    if z == 0 {
      SlotArithmetic(q.page, q.slot, 32);
    } else if z == 1 {
      SlotArithmetic(q.page, q.slot, 64);
    } else if z == 2 {
      SlotArithmetic(q.page, q.slot, 128);
    } else {
      SlotArithmetic(q.page, q.slot, 256);
    }
  }

  lemma SlotArithmetic(p: nat, k: nat, n: nat)
    requires n > 0 && DATA_OFFSET + k * n + n <= PAGE_SIZE
    ensures var a := p * PAGE_SIZE + DATA_OFFSET + k * n;
      && a / PAGE_SIZE == p && a % PAGE_SIZE == DATA_OFFSET + k * n && (a % PAGE_SIZE - DATA_OFFSET) / n == k
  {
    DivModUnique(k * n, n, k, 0);
    DivModUnique(p * PAGE_SIZE + DATA_OFFSET + k * n, PAGE_SIZE, p, DATA_OFFSET + k * n);
  }

  lemma BitmapLength(s: Slab)
    requires PageOk(s, 0)
    ensures |s.bitmap| == BITMAP_BITS && Capacity(s.size) <= BITMAP_BITS && s.size < 4 && s.use < 5
  {
  }

  lemma NothingReleased(slabs: map<nat, Slab>, blocks: map<nat, Block>, q: Ptr)
    requires !LiveIn(slabs, blocks, q)
    ensures Released(slabs, blocks, slabs, blocks, q)
  {
  }

  lemma LoweredBins(slabs: map<nat, Slab>, bins: map<Bin, seq<nat>>, p: nat, k: nat)
    requires BinsMatch(slabs, bins) && OneEmpty(bins) && PagesOk(slabs) && p in slabs
    requires k < Capacity(slabs[p].size) && k < |slabs[p].bitmap| && !slabs[p].bitmap[k] && 1 <= slabs[p].use < 5 && slabs[p].useCount > 0
    requires var s := Lowered(slabs[p], k); PageOk(s, 0) && (s.use == slabs[p].use || s.use > 0 || In(bins, Bin(slabs[p].size, 0)) == [])
    ensures var s := Lowered(slabs[p], k);
      && BinsMatch(slabs[p := s], MovedBins(slabs, bins, p, s)) && OneEmpty(MovedBins(slabs, bins, p, s)) && PagesOk(slabs[p := s])
  {
    hide BinsMatch, Thresholds, Without, PageOk;
    var s := Lowered(slabs[p], k);
    if s.use == slabs[p].use {
      StayMatch(slabs, bins, p, s);
    } else {
      MoveMatch(slabs, bins, p, s);
      WithoutShorter(In(bins, Bin(slabs[p].size, slabs[p].use)), p);
    }
  }

  lemma SlotReleased(slabs: map<nat, Slab>, blocks: map<nat, Block>, p: nat, k: nat)
    requires p in slabs && PageOk(slabs[p], 0) && k < Capacity(slabs[p].size) && !slabs[p].bitmap[k]
    requires 1 <= slabs[p].use && slabs[p].useCount > 0
    ensures Released(slabs, blocks, slabs[p := Lowered(slabs[p], k)], blocks, Slot(p, k))
  {
    hide FreeBits, InBucket, Pow2;
  }

  // The last slot of a page is released with the page.
  lemma PageReleased(slabs: map<nat, Slab>, blocks: map<nat, Block>, p: nat, k: nat)
    requires p in slabs && PagesOk(slabs) && Routed(slabs, blocks) && k < Capacity(slabs[p].size) && !slabs[p].bitmap[k]
    requires 1 <= slabs[p].use && slabs[p].useCount > 0 && PageOk(Lowered(slabs[p], k), 0) && Lowered(slabs[p], k).use == 0
    ensures p in blocks && Routed(slabs - {p}, blocks - {p}) && PagesOk(slabs - {p})
    ensures Released(slabs, blocks, slabs - {p}, blocks - {p}, Slot(p, k))
  {
    hide Pow2, FreeBits, Thresholds;
    BitmapLength(slabs[p]);
    var s := Lowered(slabs[p], k);
    AllFree(s);
    assert s.bitmap == slabs[p].bitmap[k := true] && s.size == slabs[p].size;
    var n, b := slabs - {p}, blocks - {p};
    forall x ensures LiveIn(n, b, x) <==> LiveIn(slabs, blocks, x) && x != Slot(p, k) {
      if x.Slot? && x.page == p && x.slot < Capacity(s.size) {
        assert s.bitmap[x.slot];
      }
    }
    forall x | LiveIn(n, b, x) ensures SameSpot(slabs, blocks, n, b, x) {
    }
  }

  lemma AllFree(s: Slab)
    requires PageOk(s, 0) && s.use == 0
    ensures forall k :: 0 <= k < Capacity(s.size) ==> s.bitmap[k]
  {
    forall k | 0 <= k < Capacity(s.size) ensures s.bitmap[k] {
      if !s.bitmap[k] {
        FreeBelow(s, k);
        assert false;
      }
    }
  }

  lemma JoinPages(slabs: map<nat, Slab>, p: nat, s: Slab)
    requires PagesOk(slabs - {p}) && PageOk(s, 0)
    ensures PagesOk(slabs[p := s])
  {
    hide PageOk;
    forall q | q in slabs && q != p ensures PageOk(slabs[q], 0) {
      assert q in slabs - {p};
    }
  }

  lemma RoutedSame(slabs: map<nat, Slab>, blocks: map<nat, Block>, p: nat, s: Slab)
    requires Routed(slabs, blocks) && p in slabs
    ensures Routed(slabs[p := s], blocks)
  {
  }

  // The least slot that holds size bytes has n bytes.
  predicate LeastSlot(size: nat, n: nat) {
    (n == 32 || n == 64 || n == 128 || n == 256) && size <= n && (n == 32 || n / 2 < size)
  }

  lemma ClassIsLeast(size: nat, z: nat)
    requires size <= 256 && z < 4
    ensures LeastSlot(size, SlabBytes(z)) <==> z == SizeClass(size)
  {
  }

  function SizeClass(size: nat): nat {
    if size > 128 then 3 else if size > 64 then 2 else if size > 32 then 1 else 0
  }

  // q became live at addr, big enough for size; every other pointer is as live, and where, it was.
  ghost predicate Allocated(was: map<nat, Slab>, wasBlocks: map<nat, Block>, now: map<nat, Slab>, nowBlocks: map<nat, Block>,
                            q: Ptr, addr: nat, size: nat)
  {
    && !LiveIn(was, wasBlocks, q) && LiveIn(now, nowBlocks, q)
    && Address(now, q) == addr && Extent(now, nowBlocks, q) >= size
    && (forall x :: x != q ==> (LiveIn(now, nowBlocks, x) <==> LiveIn(was, wasBlocks, x)))
    && (forall x :: LiveIn(was, wasBlocks, x) ==> SameSpot(was, wasBlocks, now, nowBlocks, x))
    && SameForeign(wasBlocks, nowBlocks)
  }

  predicate SameSpot(was: map<nat, Slab>, wasBlocks: map<nat, Block>, now: map<nat, Slab>, nowBlocks: map<nat, Block>, x: Ptr) {
    Address(now, x) == Address(was, x) && Extent(now, nowBlocks, x) == Extent(was, wasBlocks, x)
  }

  lemma GrantAllocates(was: map<nat, Slab>, now: map<nat, Slab>, wasBlocks: map<nat, Block>, nowBlocks: map<nat, Block>,
                       p: nat, k: nat, size: nat)
    requires Granted(was, now, wasBlocks, nowBlocks, p) && PageOk(now[p], 1) && k < Capacity(now[p].size) && now[p].bitmap[k]
    requires size <= 256 && now[p].size == SizeClass(size)
    ensures var s := now[p].(bitmap := now[p].bitmap[k := false]);
      Allocated(was, wasBlocks, now[p := s], nowBlocks, Slot(p, k), p * PAGE_SIZE + DATA_OFFSET + k * SlabBytes(now[p].size), size)
  {
    hide FreeBits, InBucket, Pow2, EmptyBitmap;
    var s := now[p].(bitmap := now[p].bitmap[k := false]);
    var n := now[p := s];
    EmptyBitmapIs(s.size);
    forall x | x != Slot(p, k) ensures LiveIn(n, nowBlocks, x) <==> LiveIn(was, wasBlocks, x) {
    }
    forall x | LiveIn(was, wasBlocks, x) ensures SameSpot(was, wasBlocks, n, nowBlocks, x) {
    }
  }

  lemma HasFreeBit(s: Slab)
    requires PageOk(s, 1)
    ensures |s.bitmap| == BITMAP_BITS && exists k: nat :: k < BITMAP_BITS && s.bitmap[k]
  {
    SomeBit(s.bitmap);
  }

  // No page whose slots are the least ones for size has a free slot.
  ghost predicate NoSlot(slabs: map<nat, Slab>, size: nat) {
    forall p, k: nat :: p in slabs && LeastSlot(size, SlabBytes(slabs[p].size)) && k < |slabs[p].bitmap| ==> !slabs[p].bitmap[k]
  }

  lemma NoSlotIs(slabs: map<nat, Slab>, size: nat)
    requires PagesOk(slabs) && size <= 256
    ensures NoSlot(slabs, size) <==> NoRoom(slabs, SizeClass(size))
  {
    hide PageOk, LeastSlot, SizeClass;
    forall p | p in slabs
      ensures LeastSlot(size, SlabBytes(slabs[p].size)) <==> slabs[p].size == SizeClass(size)
      ensures slabs[p].use == 4 <==> forall k: nat :: k < |slabs[p].bitmap| ==> !slabs[p].bitmap[k]
    {
      BitmapLength(slabs[p]);
      ClassIsLeast(size, slabs[p].size);
      FullHasNone(slabs[p]);
    }
  }

  lemma FullHasNone(s: Slab)
    requires PageOk(s, 0)
    ensures s.use == 4 <==> forall k: nat :: k < |s.bitmap| ==> !s.bitmap[k]
  {
    if s.use == 4 {
      assert FreeBits(s.bitmap) == {};
      forall k: nat | k < |s.bitmap| ensures !s.bitmap[k] {
        assert k !in FreeBits(s.bitmap);
      }
    } else {
      SomeBit(s.bitmap);
    }
  }

  // No page of this size has a free slot.
  ghost predicate NoRoom(slabs: map<nat, Slab>, z: nat) {
    forall p :: p in slabs && slabs[p].size == z ==> slabs[p].use == 4
  }

  // A page was granted: the fullest one with room, its bitmap untouched, or a new one if there was none.
  ghost predicate Granted(was: map<nat, Slab>, now: map<nat, Slab>, wasBlocks: map<nat, Block>, nowBlocks: map<nat, Block>, p: nat) {
    && p in now && now == was[p := now[p]]
    && (if p in was then
          && nowBlocks == wasBlocks && now[p].bitmap == was[p].bitmap && now[p].size == was[p].size && was[p].use < 4
          && forall q :: q in was && was[q].size == was[p].size && was[q].use < 4 ==> was[q].use <= was[p].use
        else
          && p !in wasBlocks && nowBlocks == wasBlocks[p := Block(0, TypeSlab)] && now[p].bitmap == EmptyBitmap(now[p].size)
          && NoRoom(was, now[p].size))
  }

  // Pages of the size with room are on the lists up to i.
  lemma AboveEmpty(slabs: map<nat, Slab>, bins: map<Bin, seq<nat>>, z: nat, i: int)
    requires BinsMatch(slabs, bins) && PagesOk(slabs) && forall u :: i < u < 4 ==> In(bins, Bin(z, u)) == []
    ensures forall q :: q in slabs && slabs[q].size == z ==> slabs[q].use == 4 || slabs[q].use <= i
  {
    hide NoDup, In, InBucket, FreeBits;
    forall q | q in slabs && slabs[q].size == z ensures slabs[q].use == 4 || slabs[q].use <= i {
      assert PageOk(slabs[q], 0);
      assert Sits(slabs, q, Bin(z, slabs[q].use));
      assert q in In(bins, Bin(z, slabs[q].use));
    }
  }

  lemma RaisedKeeps(s: Slab)
    requires s.use < 4
    ensures Raised(s).bitmap == s.bitmap && Raised(s).size == s.size
  {
  }

  lemma OnePage()
    ensures PagesFor(PAGE_SIZE) == 1 && GetOrder(1) == 0 && PAGE_SIZE <= SIZE_MOD - PAGE_SIZE
  {
    GetOrderOfOne(1);
  }

  function MovedBins(slabs: map<nat, Slab>, bins: map<Bin, seq<nat>>, p: nat, s: Slab): map<Bin, seq<nat>>
    requires p in slabs
  {
    if s.use == slabs[p].use then bins
    else PushBin(DropBin(bins, p, Bin(slabs[p].size, slabs[p].use)), p, Bin(s.size, s.use))
  }

  lemma RaisedBins(slabs: map<nat, Slab>, bins: map<Bin, seq<nat>>, p: nat)
    requires BinsMatch(slabs, bins) && OneEmpty(bins) && p in slabs && slabs[p].use < 4
    ensures var s := Raised(slabs[p]);
      && BinsMatch(slabs[p := s], MovedBins(slabs, bins, p, s)) && OneEmpty(MovedBins(slabs, bins, p, s))
      && s.size == slabs[p].size
  {
    hide BinsMatch, Thresholds, Without;
    var s := Raised(slabs[p]);
    if s.use == slabs[p].use {
      StayMatch(slabs, bins, p, s);
    } else {
      MoveMatch(slabs, bins, p, s);
      WithoutShorter(In(bins, Bin(slabs[p].size, slabs[p].use)), p);
    }
  }

  lemma ListedSits(slabs: map<nat, Slab>, bins: map<Bin, seq<nat>>, b: Bin, i: nat)
    requires BinsMatch(slabs, bins) && i < |In(bins, b)|
    ensures Sits(slabs, In(bins, b)[i], b)
  {
    hide Sits;
    assert In(bins, b)[i] in In(bins, b);
  }

  // ---------------------------------------------------------------- whole runs

  // Freeing every live pointer, in any order, by the address it was issued at, leaves none live.  All
  // that stays in the pool are empty slab pages, one of each size at most, and the foreign blocks.
  method FreeAll(h: Heap, ptrs: seq<nat>, ghost order: seq<Ptr>)
    requires h.Valid() && |ptrs| == |order| && Distinct(order)
    requires forall q :: q in order <==> h.IsLive(q)
    requires forall i :: 0 <= i < |ptrs| ==> ptrs[i] == Address(h.slabs, order[i])
    modifies h, h.pool, h.pool.headers
    ensures h.Valid() && forall q :: !h.IsLive(q)
    ensures SameForeign(old(h.pool.Allocations()), h.pool.Allocations())
    ensures forall p :: p in h.pool.Allocations() && !Foreign(h.pool.Allocations(), p) ==> p in h.slabs && h.slabs[p].use == 0
    ensures forall p, q :: p in h.slabs && q in h.slabs && h.slabs[p].size == h.slabs[q].size ==> p == q
  {
    hide BinsMatch, OneEmpty, PagesOk, Routed, Core, Live, LivePages, Pow2, h.pool.WasteSuffix, h.pool.UsableStarts,
         Released, LiveIn, Address, Distinct;
    for x := 0 to |ptrs|
      invariant h.Valid() && SameForeign(old(h.pool.Allocations()), h.pool.Allocations())
      invariant forall q :: q in order[x..] <==> h.IsLive(q)
      invariant forall i :: x <= i < |ptrs| ==> ptrs[i] == Address(h.slabs, order[i])
    {
      ghost var was, wasBlocks := h.slabs, h.pool.Allocations();
      assert order[x..][0] == order[x] && order[x] in order[x..];
      assert h.IsLive(order[x]);
      h.Free(Some(ptrs[x]), order[x]);
      FirstReleased(order, x, was, wasBlocks, h.slabs, h.pool.Allocations());
    }
    NothingLeft(h);
  }

  predicate Distinct(order: seq<Ptr>) { forall i, j :: 0 <= i < j < |order| ==> order[i] != order[j] }

  lemma FirstReleased(order: seq<Ptr>, x: nat, was: map<nat, Slab>, wasBlocks: map<nat, Block>,
                      now: map<nat, Slab>, nowBlocks: map<nat, Block>)
    requires x < |order| && Distinct(order) && Released(was, wasBlocks, now, nowBlocks, order[x])
    requires forall q :: q in order[x..] <==> LiveIn(was, wasBlocks, q)
    ensures SameForeign(wasBlocks, nowBlocks)
    ensures forall q :: q in order[x + 1..] <==> LiveIn(now, nowBlocks, q)
    ensures forall i :: x < i < |order| ==> Address(now, order[i]) == Address(was, order[i])
  {
    hide LiveIn, Address, Foreign;
    assert order[x..] == [order[x]] + order[x + 1..];
    forall i | x < i < |order| ensures Address(now, order[i]) == Address(was, order[i]) {
      assert order[x + 1..][i - x - 1] == order[i];
      assert SameSpot(was, wasBlocks, now, nowBlocks, order[i]);
    }
  }

  lemma NothingLeft(h: Heap)
    requires h.Valid() && forall q :: !h.IsLive(q)
    ensures forall p :: p in h.pool.Allocations() && !Foreign(h.pool.Allocations(), p) ==> p in h.slabs
    ensures forall p :: p in h.slabs ==> h.slabs[p].use == 0
    ensures forall p, q :: p in h.slabs && q in h.slabs && h.slabs[p].size == h.slabs[q].size ==> p == q
  {
    hide Core, Live, LivePages, Pow2, h.pool.WasteSuffix, h.pool.UsableStarts, PageOk, BinsMatch, OneEmpty;
    forall p | p in h.pool.Allocations() && !Foreign(h.pool.Allocations(), p) ensures p in h.slabs {
      assert !h.IsLive(Pages(p));
    }
    forall p | p in h.slabs ensures h.slabs[p].use == 0 {
      BitmapLength(h.slabs[p]);
      forall k: nat | k < Capacity(h.slabs[p].size) ensures h.slabs[p].bitmap[k] {
        assert !h.IsLive(Slot(p, k));
      }
      NoneInUse(h.slabs[p]);
    }
    forall p, q | p in h.slabs && q in h.slabs && h.slabs[p].size == h.slabs[q].size ensures p == q {
      OnlyOne(h.slabs, h.bins, p, q);
    }
  }

  lemma NoneInUse(s: Slab)
    requires PageOk(s, 0) && forall k: nat :: k < Capacity(s.size) ==> s.bitmap[k]
    ensures s.use == 0
  {
    EmptyBitmapIs(s.size);
    assert s.bitmap == EmptyBitmap(s.size);
  }

  lemma OnlyOne(slabs: map<nat, Slab>, bins: map<Bin, seq<nat>>, p: nat, q: nat)
    requires BinsMatch(slabs, bins) && OneEmpty(bins) && p in slabs && q in slabs
    requires slabs[p].size == slabs[q].size && slabs[p].use == 0 && slabs[q].use == 0
    ensures p == q
  {
    hide NoDup;
    var b := Bin(slabs[p].size, 0);
    assert p in In(bins, b) && q in In(bins, b) by {
      assert Sits(slabs, p, b) && Sits(slabs, q, b);
    }
    assert |In(bins, b)| <= 1;
  }
}
