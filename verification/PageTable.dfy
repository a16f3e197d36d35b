/** Page tables in physical memory, edited in place. */
module PageTable {
  import opened Bits
  import opened PageWalk
  import opened PageRange

  // The mask test (x & (512^l - 1)) == 0 of pt_calc_superpage.
  predicate MaskAligned(x: nat, l: nat) {
    And(x, Span(l) - 1) == 0
  }

  lemma {:induction false} SpanIsPow2(l: nat)
    ensures Span(l) == Pow2(9 * l)
  {
    if l > 0 {
      SpanIsPow2(l - 1);
      Pow2Add(9 * (l - 1), 9);
      assert Pow2(9) == 512;
    }
  }

  lemma MaskAlignedMeans(x: nat, l: nat)
    ensures MaskAligned(x, l) <==> x % Span(l) == 0
  {
    SpanIsPow2(l);
    AndLowMask(x, 9 * l);
  }

  // The biggest superpage level that fits a range.
  method CalcSuperpage(maxLevel: nat, vpn: nat, ppn: nat, maxLen: nat) returns (level: nat)
    requires maxLen > 0
    ensures level <= maxLevel && vpn % Span(level) == 0 && ppn % Span(level) == 0 && Span(level) <= maxLen
    ensures forall l :: level < l <= maxLevel ==> !(vpn % Span(l) == 0 && ppn % Span(l) == 0 && Span(l) <= maxLen)
  {
    hide Span, MaskAligned;
    level := maxLevel;
    while level > 0
      invariant level <= maxLevel
      invariant forall l :: level < l <= maxLevel ==> !(vpn % Span(l) == 0 && ppn % Span(l) == 0 && Span(l) <= maxLen)
    {
      MaskAlignedMeans(vpn, level);
      MaskAlignedMeans(ppn, level);
      if MaskAligned(vpn, level) && MaskAligned(ppn, level) && maxLen >= Span(level) {
        return;
      }
      level := level - 1;
    }
    SpanZero();
  }

  // An entry of the root was no table and is one now; no table of the root was replaced.
  ghost predicate RootGrew(m0: seq<Pte>, m: seq<Pte>, root: nat) {
    exists j: nat :: j < 512 && !IsTable(At(m0, root, j)) && IsTable(At(m, root, j))
  }

  ghost predicate RootKept(m0: seq<Pte>, m: seq<Pte>, root: nat) {
    forall j: nat :: j < 512 && IsTable(At(m0, root, j)) ==> At(m, root, j) == At(m0, root, j)
  }

  lemma RootLater(m0: seq<Pte>, m1: seq<Pte>, m2: seq<Pte>, root: nat)
    requires RootKept(m0, m1, root) && RootKept(m1, m2, root)
    ensures RootKept(m0, m2, root)
    ensures RootGrew(m0, m1, root) || RootGrew(m1, m2, root) ==> RootGrew(m0, m2, root)
  {
    hide At;
    if RootGrew(m0, m1, root) {
      var j: nat :| j < 512 && !IsTable(At(m0, root, j)) && IsTable(At(m1, root, j));
      assert IsTable(At(m2, root, j));
    }
    if RootGrew(m1, m2, root) {
      var j: nat :| j < 512 && !IsTable(At(m1, root, j)) && IsTable(At(m2, root, j));
      assert !IsTable(At(m0, root, j));
    }
  }

  lemma RootSame(m0: seq<Pte>, m: seq<Pte>, root: nat)
    requires forall j: nat :: j < 512 ==> At(m, root, j) == At(m0, root, j)
    ensures RootKept(m0, m, root)
  {
    hide At;
  }

  // Linking a table into an entry that held none.
  lemma LinkRoot(m: seq<Pte>, m': seq<Pte>, tables: map<nat, Info>, root: nat, t: nat, l: nat, v: nat, nt: nat)
    requires root in tables && t in tables && nt !in tables && |m'| == |m| && 512 * t + 512 <= |m| && Part(v, l) < 512
    requires !IsTable(m[512 * t + Part(v, l)]) && m'[512 * t + Part(v, l)] == NewTable(nt)
    requires forall x :: 0 <= x < |m| && x != 512 * t + Part(v, l) && !(512 * nt <= x < 512 * nt + 512) ==> m'[x] == m[x]
    ensures RootKept(m, m', root) && (t == root ==> RootGrew(m, m', root))
  {
    hide Part;
    if t == root {
      assert !IsTable(At(m, root, Part(v, l))) && IsTable(At(m', root, Part(v, l)));
    }
  }

  // A reported edit of the root is one, unless the range is as large as a superpage of the top level.
  ghost predicate TopReported(m0: seq<Pte>, m: seq<Pte>, root: nat, top: bool, large: bool) {
    large || (RootKept(m0, m, root) && (top ==> RootGrew(m0, m, root)))
  }

  lemma TopStart(m: seq<Pte>, root: nat, large: bool)
    ensures TopReported(m, m, root, false, large)
  {
  }

  lemma TopStep(m0: seq<Pte>, m: seq<Pte>, m': seq<Pte>, root: nat, top: bool, now: bool, large: bool, low: bool)
    requires TopReported(m0, m, root, top, large) && (!large ==> low)
    requires low ==> RootKept(m, m', root) && (now ==> RootGrew(m, m', root))
    ensures TopReported(m0, m', root, top || now, large)
  {
    hide RootKept, RootGrew;
    if !large {
      RootLater(m0, m, m', root);
    }
  }

  lemma TopEnd(m0: seq<Pte>, m: seq<Pte>, root: nat, top: bool, large: bool)
    requires TopReported(m0, m, root, top, large)
    ensures top ==> RootGrew(m0, m, root) || large
  {
    hide RootKept, RootGrew;
  }

  class AddressSpace {
    const levels: nat
    const svpbmt: bool
    // Physical memory as 8-byte words.
    const mem: array<Pte>
    const root: nat
    // Physical pages phys_page_alloc can still hand out.
    var pool: seq<nat>
    ghost var tables: map<nat, Info>

    ghost predicate PoolOk()
      reads this
    {
      && (forall i :: 0 <= i < |pool| ==> pool[i] > 0 && pool[i] !in tables && 512 * pool[i] + 512 <= mem.Length)
      && (forall i, j :: 0 <= i < j < |pool| ==> pool[i] != pool[j])
    }

    ghost predicate Valid()
      reads this, mem
    {
      && levels > 0
      && Typed(mem[..], tables) && 0 !in tables
      && root in tables && tables[root] == Info(levels - 1, 0)
      && PoolOk()
    }

    // A first, zeroed root table; the other pages but page 0 are free.
    constructor (l: nat, memoryTypes: bool, physPages: nat)
      requires l > 0 && physPages >= 2
      ensures Valid() && fresh(mem) && mem.Length == 512 * physPages && levels == l && svpbmt == memoryTypes && pool == seq(physPages - 2, i => i + 2)
      ensures (forall x :: 0 <= x < mem.Length ==> mem[x] == PTE_NULL) && Sound(mem[..], root, levels - 1)
    {
      levels, svpbmt, root := l, memoryTypes, 1;
      mem := new Pte[512 * physPages](_ => PTE_NULL);
      pool := seq(physPages - 2, i => i + 2);
      tables := map[1 := Info(l - 1, 0)];
    }

    // A page of zeroes, or 0 when there is none.
    method PhysPageAlloc() returns (page: nat)
      requires PoolOk()
      modifies this`pool, mem
      ensures PoolOk()
      ensures page == 0 <==> old(pool) == []
      ensures page == 0 ==> mem[..] == old(mem[..]) && pool == old(pool)
      ensures page != 0 ==>
        && page in old(pool) && page !in tables && 512 * page + 512 <= mem.Length
        && pool == old(pool)[..|old(pool)| - 1] && page !in pool
        && (forall x :: 512 * page <= x < 512 * page + 512 ==> mem[x] == PTE_NULL)
        && (forall x :: 0 <= x < mem.Length && !(512 * page <= x < 512 * page + 512) ==> mem[x] == old(mem[x]))
    {
      if |pool| == 0 {
        return 0;
      }
      page := pool[|pool| - 1];
      pool := pool[..|pool| - 1];
      for j := 0 to 512
        modifies mem
        invariant forall x :: 512 * page <= x < 512 * page + j ==> mem[x] == PTE_NULL
        invariant forall x :: 0 <= x < mem.Length && !(512 * page <= x < 512 * page + 512) ==> mem[x] == old(mem[x])
      {
        mem[512 * page + j] := PTE_NULL;
      }
    }

    // Replace a leaf entry by a pointer to a new table of 512 smaller leaves.
    method PtSplit(word: nat) returns (next: nat)
      requires PoolOk() && word < mem.Length
      requires forall i :: 0 <= i < |pool| ==> !(512 * pool[i] <= word < 512 * pool[i] + 512)
      modifies this`pool, mem
      ensures PoolOk()
      ensures next == 0 <==> old(pool) == []
      ensures next == 0 ==> mem[..] == old(mem[..]) && pool == old(pool)
      ensures next != 0 ==>
        && next !in tables && next !in pool && 512 * next + 512 <= mem.Length
        && pool == old(pool)[..|old(pool)| - 1]
        && mem[word] == NewTable(next)
        && (forall x :: 512 * next <= x < 512 * next + 512 ==> mem[x] == SplitPte(old(mem[word]), x - 512 * next, svpbmt))
        && (forall x :: 0 <= x < mem.Length && x != word && !(512 * next <= x < 512 * next + 512) ==> mem[x] == old(mem[x]))
    {
      var pte := mem[word];
      next := PhysPageAlloc();
      if next != 0 {
        for j := 0 to 512
          modifies mem
          invariant forall x :: 512 * next <= x < 512 * next + j ==> mem[x] == SplitPte(pte, x - 512 * next, svpbmt)
          invariant forall x :: 0 <= x < mem.Length && !(512 * next <= x < 512 * next + 512) ==> mem[x] == old(mem[x])
        {
          mem[512 * next + j] := NewLeaf(pte.ppn + j, GetFlags(pte), svpbmt);
        }
        mem[word] := NewTable(next);
      }
    }

    // What holds on the way down to page vpn, at table pt of level ptLevel.
    ghost predicate Descending(m0: seq<Pte>, vpn: nat, pt: nat, ptLevel: nat)
      reads this, mem
    {
      && Valid()
      && Serves(tables, root, levels - 1, vpn) && Serves(tables, pt, ptLevel, vpn)
      && OnPath(mem[..], root, levels - 1, vpn, pt, ptLevel)
      && AlongAll(m0, mem[..], root, levels - 1, vpn, ptLevel, svpbmt)
    }

    ghost predicate RootIs(m0: seq<Pte>)
      reads this, mem
    {
      forall j: nat :: j < 512 ==> At(mem[..], root, j) == At(m0, root, j)
    }

    // One level of the descent: follow the entry, or make or split a table for it.
    method PtDescend(vpn: nat, pt: nat, ptLevel: nat, ghost m0: seq<Pte>) returns (next: nat, edited: bool)
      requires 0 < ptLevel < levels && Descending(m0, Offset(vpn, levels), pt, ptLevel)
      modifies this, mem
      ensures Valid()
      ensures next == 0 ==> pool == [] && old(pool) == []
      ensures |old(pool)| <= |pool| + 1
      ensures RootKept(old(mem[..]), mem[..], root) && (edited && pt == root ==> RootGrew(old(mem[..]), mem[..], root))
      ensures next != 0 ==> Descending(m0, Offset(vpn, levels), next, ptLevel - 1)
      ensures !edited || pt != root ==> RootIs(old(mem[..]))
    {
      hide Typed, Blk, Walk, OnPath, AlongAll, NewLeaf, SplitPte, Part, Offset, RootKept, RootGrew;
      ghost var m, k, q := mem[..], levels - 1, Offset(vpn, levels);
      InTable(m, tables, pt);
      PartBound(vpn, ptLevel);
      SameIndex(vpn, k, ptLevel);
      var word := 512 * pt + Part(vpn, ptLevel);
      var pte := mem[word];
      edited := false;
      RootSame(m, m, root);
      if pte.v && !IsLeaf(pte) {
        FollowAlong(m0, m, tables, root, k, pt, ptLevel, q, svpbmt);
        return pte.ppn, false;
      }
      PoolApart(pt, word);
      if !pte.v {
        next := PhysPageAlloc();
        if next != 0 {
          mem[word] := NewTable(next);
        }
      } else {
        next := PtSplit(word);
      }
      assert next == 0 ==> mem[..] == m;
      if next != 0 {
        edited := true;
        LinkRoot(m, mem[..], tables, root, pt, ptLevel, vpn, next);
        LinkStep(m0, m, mem[..], tables, root, k, pt, ptLevel, q, next, svpbmt);
        tables := tables[next := Info(ptLevel - 1, Blk(q, ptLevel))];
      }
    }

    lemma PoolApart(t: nat, word: nat)
      requires PoolOk() && t in tables && 512 * t <= word < 512 * t + 512
      ensures forall i :: 0 <= i < |pool| ==> !(512 * pool[i] <= word < 512 * pool[i] + 512)
    {
      forall i | 0 <= i < |pool| ensures !(512 * pool[i] <= word < 512 * pool[i] + 512) {
        assert pool[i] != t;
      }
    }

    // Write the leaf at the end of the descent.
    method PtWriteLeaf(vpn: nat, pt: nat, level: nat, pte: Pte, ghost m0: seq<Pte>)
      requires level < levels && Descending(m0, Offset(vpn, levels), pt, level) && pte.v && IsLeaf(pte)
      modifies mem
      ensures Valid()
      ensures MapsAll(m0, mem[..], root, levels - 1, Offset(vpn, levels), level, pte, svpbmt)
      ensures pt != root ==> RootIs(old(mem[..]))
    {
      hide Typed, Blk, Walk, OnPath, AlongAll, MapsAll, Part, Offset;
      ghost var m, q := mem[..], Offset(vpn, levels);
      InTable(m, tables, pt);
      PartBound(vpn, level);
      SameIndex(vpn, levels - 1, level);
      mem[512 * pt + Part(vpn, level)] := pte;
      LeafStep(m0, m, mem[..], tables, root, levels - 1, pt, level, q, pte, svpbmt);
    }

    // Walk down to level `level`, adding and splitting tables as needed.
    method PtReach(vpn: nat, level: nat) returns (pt: nat, topEdit: bool)
      requires Valid() && level < levels
      modifies this, mem
      ensures Valid() && (pt == 0 ==> pool == [] && |old(pool)| < levels - 1 - level) && |old(pool)| <= |pool| + (levels - 1 - level)
      ensures pt != 0 ==> Descending(old(mem[..]), Offset(vpn, levels), pt, level)
      ensures pt != 0 && !topEdit ==> level < levels - 1 && RootIs(old(mem[..]))
      ensures RootKept(old(mem[..]), mem[..], root) && (topEdit ==> level == levels - 1 || RootGrew(old(mem[..]), mem[..], root))
    {
      hide Typed, Blk, Walk, OnPath, AlongAll, Part, PoolOk, At, Offset, RootKept, RootGrew;
      RootSame(mem[..], mem[..], root);
      ghost var m0, q := mem[..], Offset(vpn, levels);
      SameIndex(vpn, levels - 1, 0);
      var ptLevel: nat := levels - 1;
      pt := root;
      topEdit := ptLevel == level;
      AlongStart(m0, tables, root, levels - 1, q, svpbmt);
      PathHere(m0, root, levels - 1, q);
      while level < ptLevel
        invariant level <= ptLevel < levels && Descending(m0, q, pt, ptLevel) && (ptLevel == levels - 1 ==> pt == root)
        invariant |old(pool)| <= |pool| + (levels - 1 - ptLevel)
        invariant !topEdit ==> level < levels - 1 && RootIs(m0)
        invariant RootKept(m0, mem[..], root) && (topEdit ==> level == levels - 1 || RootGrew(m0, mem[..], root))
      {
        ghost var m := mem[..];
        var next, edited := PtDescend(vpn, pt, ptLevel, m0);
        RootLater(m0, m, mem[..], root);
        if next == 0 {
          return 0, topEdit;
        }
        topEdit := topEdit || (edited && ptLevel == levels - 1);
        pt := next;
        ptLevel := ptLevel - 1;
      }
    }

    // Write a leaf at level `level`.  ok is false where the source panics because no page is left for
    // a table.
    method PtMap1(vpn: nat, ppn: nat, level: nat, flags: Flags) returns (ok: bool, topEdit: bool)
      requires Valid() && level < levels
      requires flags.r || flags.w || flags.x
      modifies this, mem
      ensures Valid() && (!ok ==> pool == []) && |old(pool)| <= |pool| + (levels - 1 - level)
      ensures |old(pool)| >= levels - 1 - level ==> ok
      ensures level < levels - 1 ==> RootKept(old(mem[..]), mem[..], root) && (topEdit ==> RootGrew(old(mem[..]), mem[..], root))
      ensures ok && level == levels - 1 ==> topEdit
      ensures ok ==> MapsAll(old(mem[..]), mem[..], root, levels - 1, Offset(vpn, levels), level, NewLeaf(ppn, flags, svpbmt), svpbmt)
      ensures ok && !topEdit ==> RootIs(old(mem[..]))
    {
      hide Typed, Blk, Walk, OnPath, AlongAll, MapsAll, Part, PoolOk, At, Offset, RootKept, RootGrew;
      ghost var m0 := mem[..];
      var pt;
      pt, topEdit := PtReach(vpn, level);
      if pt == 0 {
        return false, topEdit;
      }
      assert pt != root || level == levels - 1;
      ghost var m := mem[..];
      PtWriteLeaf(vpn, pt, level, NewLeaf(ppn, flags, svpbmt), m0);
      if level < levels - 1 {
        RootSame(m, mem[..], root);
        RootLater(m0, m, mem[..], root);
      }
      ok := true;
    }

    // Map a range of pages, chunk by chunk, each chunk as large a superpage as fits.  The walk indexes by
    // the low bits of the page numbers, in which the range must not wrap around.
    method PtMap(vpn0: nat, ppn0: nat, pages0: nat, flags: Flags) returns (ok: bool, topEdit: bool)
      requires Valid() && Offset(vpn0, levels) + pages0 <= Span(levels)
      requires flags.r || flags.w || flags.x
      modifies this, mem
      ensures Valid() && (!ok ==> pool == [])
      ensures |old(pool)| >= TablesFor(levels - 1, vpn0, ppn0, pages0) ==> ok
      ensures |old(pool)| <= |pool| + TablesFor(levels - 1, vpn0, ppn0, pages0)
      ensures ok ==> var q := Offset(vpn0, levels);
        && RangeMapped(old(mem[..]), mem[..], root, levels - 1, q, q + pages0, ppn0, flags, svpbmt)
        && Coarse(mem[..], root, levels - 1, q, q + pages0, q + pages0, ppn0)
      ensures ok && topEdit ==> RootGrew(old(mem[..]), mem[..], root) || Span(levels - 1) <= pages0
      ensures ok && !topEdit ==> RootIs(old(mem[..]))
    {
      hide Typed, Walk, MapsAll, MappedTo, Span, NewLeaf, Blk, Offset, BestLevel, Largest, PoolOk, TablesFor, RangeMapped,
           Coarse, RootKept, RootGrew, TopReported;
      ghost var m0, q0, k := mem[..], Offset(vpn0, levels), levels - 1;
      ghost var b := q0 + pages0;
      var vpn, ppn, pages := vpn0, ppn0, pages0;
      topEdit := false;
      MappedStart(m0, root, k, q0, b, ppn0, flags, svpbmt);
      TopStart(m0, root, Span(k) <= pages0);
      while pages > 0
        invariant Valid() && vpn0 <= vpn && 0 <= pages && vpn + pages == vpn0 + pages0 && ppn == ppn0 + (vpn - vpn0)
        invariant MappedTo(m0, mem[..], root, k, q0, q0 + (vpn - vpn0), b, ppn0, flags, svpbmt)
        invariant !topEdit ==> RootIs(m0)
        invariant TopReported(m0, mem[..], root, topEdit, Span(k) <= pages0)
        invariant |old(pool)| + TablesFor(k, vpn, ppn, pages) <= |pool| + TablesFor(k, vpn0, ppn0, pages0)
      {
        ghost var m, q := mem[..], q0 + (vpn - vpn0);
        OffsetAdd(vpn0, vpn - vpn0, levels);
        var level := CalcSuperpage(levels - 1, vpn, ppn, pages);
        InSpace(q, levels);
        LargestHere(vpn, q, level, levels, ppn, pages, q0, b, ppn0);
        TablesForStep(k, vpn, ppn, pages);
        var done, top := PtMap1(vpn, ppn, level, flags);
        if !done {
          return false, topEdit;
        }
        TopStep(m0, m, mem[..], root, topEdit, top, Span(k) <= pages0, level < k);
        topEdit := topEdit || top;
        MappedStep(m0, m, mem[..], root, k, q0, q, level, b, ppn0, flags, svpbmt);
        vpn := vpn + Span(level);
        ppn := ppn + Span(level);
        pages := pages - Span(level);
      }
      MappedEnd(m0, mem[..], root, k, q0, b, ppn0, flags, svpbmt);
      NoTables(k, vpn, ppn);
      TopEnd(m0, mem[..], root, topEdit, Span(k) <= pages0);
      ok := true;
    }
  }

  lemma MappedEnd(m0: seq<Pte>, m: seq<Pte>, root: nat, k: nat, a: nat, b: nat, ppn: nat, flags: Flags, svpbmt: bool)
    requires MappedTo(m0, m, root, k, a, b, b, ppn, flags, svpbmt)
    ensures RangeMapped(m0, m, root, k, a, b, ppn, flags, svpbmt) && Coarse(m, root, k, a, b, b, ppn)
  {
    hide RangeMapped, Coarse, Uncut;
  }

  // The level of the raw page number is that of its index.
  lemma LargestHere(vpn: nat, q: nat, c: nat, levels: nat, ppn: nat, pages: nat, a: nat, b: nat, ppn0: nat)
    requires levels > 0 && c < levels && q == Offset(vpn, levels) && a <= q && q + pages == b && ppn == ppn0 + (q - a)
    requires vpn % Span(c) == 0 && ppn % Span(c) == 0 && Span(c) <= pages
    requires forall l :: c < l <= levels - 1 ==> !(vpn % Span(l) == 0 && ppn % Span(l) == 0 && Span(l) <= pages)
    ensures Largest(q, c, levels - 1, a, b, ppn0) && c == BestLevel(levels - 1, vpn, ppn, pages)
  {
    hide Span, Offset, Blk, BestLevel;
    forall l: nat | l < levels ensures vpn % Span(l) == q % Span(l) {
      SameIndex(vpn, levels - 1, l);
      OffsetIsMod(vpn, l);
      OffsetIsMod(q, l);
    }
  }

  // With one page left for tables, an aligned megapage of a three-level space is mapped by one leaf.
  method MapMegapage(memoryTypes: bool, v: nat, ppn: nat, flags: Flags) returns (a: AddressSpace, ok: bool)
    requires v % Span(1) == 0 && ppn % Span(1) == 0 && Offset(v, 3) + Span(1) <= Span(3) && (flags.r || flags.w || flags.x)
    ensures fresh(a) && a.levels == 3 && a.Valid() && ok
    ensures var q := Offset(v, 3); forall x: nat :: q <= x < q + Span(1) ==>
      Walk(a.mem[..], a.root, 2, x) == Leaf(1, NewLeaf(ppn, flags, memoryTypes))
  {
    hide Typed, Walk, RangeMapped, Coarse, Span, NewLeaf, Offset, TablesFor, a.PoolOk, a.RootIs;
    a := new AddressSpace(3, memoryTypes, 3);
    ghost var m0 := a.mem[..];
    TablesForOne(2, v, ppn, 1);
    assert |a.pool| == 1;
    MegapageSpan();
    var top;
    ok, top := a.PtMap(v, ppn, 512, flags);
    OneLeaf(m0, a.mem[..], a.root, v, ppn, flags, memoryTypes);
  }

  lemma MegapageSpan()
    ensures Span(1) == 512
  {
  }

  lemma OneLeaf(m0: seq<Pte>, m: seq<Pte>, root: nat, v: nat, ppn: nat, flags: Flags, svpbmt: bool)
    requires v % Span(1) == 0 && ppn % Span(1) == 0 && Offset(v, 3) + Span(1) <= Span(3)
    requires var q := Offset(v, 3); RangeMapped(m0, m, root, 2, q, q + Span(1), ppn, flags, svpbmt)
    requires var q := Offset(v, 3); Coarse(m, root, 2, q, q + Span(1), q + Span(1), ppn)
    ensures var q := Offset(v, 3); forall x: nat :: q <= x < q + Span(1) ==> Walk(m, root, 2, x) == Leaf(1, NewLeaf(ppn, flags, svpbmt))
  {
    hide Walk, Span, NewLeaf, Offset, Blk;
    var q := Offset(v, 3);
    SameIndex(v, 2, 1);
    OffsetIsMod(v, 1);
    OffsetIsMod(q, 1);
    assert Eligible(q, 1, q, q + Span(1), ppn);
    forall x: nat | q <= x < q + Span(1) ensures Walk(m, root, 2, x) == Leaf(1, NewLeaf(ppn, flags, svpbmt)) {
      InSpace(x, 3);
      assert RangeAt(m0, m, root, 2, q, q + Span(1), ppn, flags, svpbmt, x);
      assert AtLevel(m, root, 2, x, 1);
      LeafInside(Walk(m, root, 2, x), x, q, ppn, flags, svpbmt);
    }
  }

  lemma LeafInside(w: Walked, x: nat, q: nat, ppn: nat, flags: Flags, svpbmt: bool)
    requires MappedBy(w, x, q, q + Span(1), ppn, flags, svpbmt) && w.level >= 1
    ensures w == Leaf(1, NewLeaf(ppn, flags, svpbmt))
  {
    hide Span, Blk, NewLeaf;
    if w.level > 1 {
      SpanMono(1, w.level);
      assert false;
    }
  }

  // A run that splits a 1 GiB superpage: it is mapped at page 0 of an empty space, then page 0 is mapped
  // alone.  Before, no walk panics; after, the walk of page 512 does.
  method SplitGigapage(l: nat, memoryTypes: bool, frame: nat, page: nat, flags: Flags)
    returns (a: AddressSpace, ghost was: seq<Pte>)
    requires l >= 3 && frame % Span(2) == 0 && (flags.r || flags.w || flags.x)
    ensures fresh(a) && a.levels == l && a.Valid() && Sound(was, a.root, l - 1)
    ensures Translate(Walk(was, a.root, l - 1, 512), 512) ==
      Frame(frame + 512, flags.r, flags.w, flags.x, !flags.kernel, flags.global, MemoryType(flags, memoryTypes))
    ensures Translate(Walk(a.mem[..], a.root, l - 1, 512), 512) == Panic && !Sound(a.mem[..], a.root, l - 1)
  {
    hide Typed, Walk, MapsAll, RangeMapped, Span, NewLeaf, Blk, Offset, Sound, Translate, a.PoolOk;
    a := new AddressSpace(l, memoryTypes, 3 * l + 2);
    ghost var m0, tables0 := a.mem[..], a.tables;
    FirstPages(l);
    EmptyWalks(m0, tables0, a.root, l - 1);
    var ok, top := a.PtMap1(0, frame, 2, flags);
    was := a.mem[..];
    GigapageMapped(m0, was, tables0, a.root, l - 1, frame, flags, memoryTypes);
    ok, top := a.PtMap(0, page, 1, flags);
    PageSplits(was, a.mem[..], a.root, l - 1, frame, page, flags, memoryTypes);
  }

  lemma FirstPages(l: nat)
    requires l >= 3
    ensures Offset(0, l) == 0 && Blk(0, l) == 0 && Blk(512, l) == 0 && Span(l) >= 1 && 0 % Span(2) == 0
    ensures Blk(0, 2) == Blk(512, 2) == 0 && Blk(0, 1) == 0 && Blk(512, 1) == 1 && Part(512, 1) == 1
  {
    assert Span(1) == 512 && Span(2) == 0x4_0000;
    BlkUnique(0, 1, 0);
    BlkUnique(512, 1, 1);
    BlkUnique(0, 2, 0);
    BlkUnique(512, 2, 0);
    SpanMono(2, l);
    BlkUnique(0, l, 0);
    BlkUnique(512, l, 0);
    OffsetIsMod(0, l);
  }

  lemma EmptyWalks(m: seq<Pte>, tables: map<nat, Info>, root: nat, k: nat)
    requires Typed(m, tables) && root in tables && forall x :: 0 <= x < |m| ==> m[x] == PTE_NULL
    ensures forall q: nat :: Walk(m, root, k, q) == Unmapped
  {
    hide Typed, Part;
    InTable(m, tables, root);
    forall q: nat ensures Walk(m, root, k, q) == Unmapped {
      PartBound(q, k);
    }
  }

  lemma GigapageMapped(m0: seq<Pte>, m: seq<Pte>, tables: map<nat, Info>, root: nat, k: nat, frame: nat, flags: Flags, svpbmt: bool)
    requires k >= 2 && Typed(m0, tables) && root in tables && tables[root] == Info(k, 0) && Sound(m0, root, k)
    requires frame % Span(2) == 0 && forall q: nat :: Walk(m0, root, k, q) == Unmapped
    requires MapsAll(m0, m, root, k, 0, 2, NewLeaf(frame, flags, svpbmt), svpbmt)
    ensures Walk(m, root, k, 512) == Leaf(2, NewLeaf(frame, flags, svpbmt)) && Sound(m, root, k)
    ensures Translate(Walk(m, root, k, 512), 512) == Frame(frame + 512, flags.r, flags.w, flags.x, !flags.kernel, flags.global, MemoryType(flags, svpbmt))
  {
    hide Walk, Sound, Typed, Translate, NewLeaf, Span, Blk;
    FirstPages(k + 1);
    assert MapsAt(m0, m, root, k, 0, 2, NewLeaf(frame, flags, svpbmt), svpbmt, 512);
    RangeStart(m0, root, k, 0, frame, flags, svpbmt);
    RangeStep(m0, m0, m, root, k, 0, 0, 2, frame, flags, svpbmt);
    MapRefinesUpdate(m0, m, tables, root, k, 0, Span(2), frame, flags, svpbmt);
    assert Span(2) > 512 by { GigapageSpan(); }
  }

  lemma GigapageSpan()
    ensures Span(2) == 0x4_0000
  {
  }

  lemma PageSplits(m0: seq<Pte>, m: seq<Pte>, root: nat, k: nat, frame: nat, page: nat, flags: Flags, svpbmt: bool)
    requires k >= 2 && frame % Span(2) == 0 && (flags.r || flags.w || flags.x)
    requires Walk(m0, root, k, 512) == Leaf(2, NewLeaf(frame, flags, svpbmt))
    requires RangeMapped(m0, m, root, k, 0, 1, page, flags, svpbmt)
    ensures Translate(Walk(m, root, k, 512), 512) == Panic && !Sound(m, root, k)
  {
    hide Walk, Translate, Span, Blk;
    FirstPages(k + 1);
    assert RangeAt(m0, m, root, k, 0, 1, page, flags, svpbmt, 512);
    GigapageSplitPanics(NewLeaf(frame, flags, svpbmt), 512, 0, svpbmt);
  }

  lemma InSpace(v: nat, l: nat)
    requires v < Span(l)
    ensures Blk(v, l) == 0
  {
    BlkUnique(v, l, 0);
  }

  lemma PartBound(v: nat, l: nat)
    ensures Part(v, l) < 512
  {
  }

  lemma PathHere(m: seq<Pte>, s: nat, k: nat, v: nat)
    ensures OnPath(m, s, k, v, s, k)
  {
  }

  lemma InTable(m: seq<Pte>, tables: map<nat, Info>, t: nat)
    requires Typed(m, tables) && t in tables
    ensures 512 * t + 512 <= |m|
  {
    assert TableOk(m, tables, t);
  }

  // One level of pt_map_1: memory changed in one entry and in the fresh page it now points to.
  lemma LinkStep(m0: seq<Pte>, m: seq<Pte>, m': seq<Pte>, tables: map<nat, Info>, root: nat, k: nat,
                 t: nat, l: nat, v: nat, nt: nat, svpbmt: bool)
    requires Typed(m, tables) && Serves(tables, root, k, v) && Serves(tables, t, l, v) && l > 0
    requires OnPath(m, root, k, v, t, l) && AlongAll(m0, m, root, k, v, l, svpbmt)
    requires nt !in tables && 512 * nt + 512 <= |m| == |m'| && 512 * t + 512 <= |m|
    requires m'[512 * t + Part(v, l)] == NewTable(nt)
    requires forall x :: 512 * nt <= x < 512 * nt + 512 ==>
      m'[x] == if m[512 * t + Part(v, l)].v then SplitPte(m[512 * t + Part(v, l)], x - 512 * nt, svpbmt) else PTE_NULL
    requires forall x :: 0 <= x < |m| && x != 512 * t + Part(v, l) && !(512 * nt <= x < 512 * nt + 512) ==> m'[x] == m[x]
    requires m[512 * t + Part(v, l)].v ==> IsLeaf(m[512 * t + Part(v, l)])
    ensures var tables' := tables[nt := Info(l - 1, Blk(v, l))];
            && Typed(m', tables') && Serves(tables', root, k, v) && Serves(tables', nt, l - 1, v)
            && OnPath(m', root, k, v, nt, l - 1) && AlongAll(m0, m', root, k, v, l - 1, svpbmt)
    ensures t != root ==> forall j: nat :: j < 512 ==> At(m', root, j) == At(m, root, j)
  {
    hide Typed, Blk, Walk, OnPath, AlongAll;
    forall s: nat, j: nat | s in tables && j < 512 && !(s == t && j == Part(v, l)) ensures At(m', s, j) == At(m, s, j) {
      assert s != nt;
    }
    forall j: nat | j < 512 ensures FillsIn(At(m, t, Part(v, l)), At(m', nt, j), j, svpbmt) {
    }
    assert LinkOf(m, m', tables, t, l, v, nt);
    LinkTyped(m, m', tables, t, l, v, nt);
    LinkPath(m, m', tables, root, k, t, l, v, nt);
    LinkAlong(m0, m, m', tables, root, k, t, l, v, nt, svpbmt);
  }

  // The final write of pt_map_1.
  lemma LeafStep(m0: seq<Pte>, m: seq<Pte>, m': seq<Pte>, tables: map<nat, Info>, root: nat, k: nat,
                 t: nat, l: nat, v: nat, e: Pte, svpbmt: bool)
    requires Typed(m, tables) && Serves(tables, root, k, v) && Serves(tables, t, l, v)
    requires OnPath(m, root, k, v, t, l) && AlongAll(m0, m, root, k, v, l, svpbmt)
    requires 512 * t + 512 <= |m| && e.v && IsLeaf(e) && m' == m[512 * t + Part(v, l) := e]
    ensures Typed(m', tables) && MapsAll(m0, m', root, k, v, l, e, svpbmt)
    ensures t != root ==> forall j: nat :: j < 512 ==> At(m', root, j) == At(m, root, j)
  {
    hide Typed, Blk, Walk, OnPath, AlongAll;
    assert LeafOf(m, m', tables, t, l, v, e);
    LeafTyped(m, m', tables, t, l, v, e);
    LeafMaps(m0, m, m', tables, root, k, t, l, v, e, svpbmt);
  }
}
