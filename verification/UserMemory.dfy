/** Looking up and copying to user memory: page by page code against byte by byte meaning. */
module UserMemory {
  import opened Bits
  import opened PageWalk
  import opened PageRange
  import opened PageTable
  import opened Words

  datatype Rwx = Rwx(r: bool, w: bool, x: bool) {
    function And(o: Rwx): Rwx { Rwx(r && o.r, w && o.w, x && o.x) }
  }

  const ALL := Rwx(true, true, true)
  const NOTHING := Rwx(false, false, false)

  // What pt_walk reports; Panicked stands for its "PT corrupt" panics.
  datatype WalkResult = NonCanonical | NotFound | Found(level: nat, pte: Pte) | Panicked

  // The page numbers of a 64-bit address.
  const VPN_LIMIT := 0x10_0000_0000_0000

  // Pages from `half` up to `high` are not canonical addresses.
  function HalfPages(levels: nat): nat { Span(levels) / 2 }
  function HighVpn(levels: nat): int { VPN_LIMIT - HalfPages(levels) }

  // pt_walk, read off the recursive walk.
  ghost function WalkMeaning(w: Walked): WalkResult {
    match w
    case Unmapped => NotFound
    case Corrupt => Panicked
    case Leaf(l, e) => if l > 0 && e.ppn % Span(l) != 0 then Panicked else Found(l, e)
  }

  method PtWalk(a: AddressSpace, vpn: nat) returns (w: WalkResult)
    requires a.Valid()
    ensures w == if HalfPages(a.levels) <= vpn < HighVpn(a.levels) then NonCanonical
                 else WalkMeaning(Walk(a.mem[..], a.root, a.levels - 1, vpn))
  {
    hide Blk, Span, MaskAligned, HalfPages, HighVpn, Part;
    if HalfPages(a.levels) <= vpn < HighVpn(a.levels) {
      return NonCanonical;
    }
    ghost var m := a.mem[..];
    var pt, i := a.root, 0;
    while i < a.levels
      invariant 0 <= i <= a.levels
      invariant i < a.levels ==> pt in a.tables && a.tables[pt].level == a.levels - 1 - i
      invariant i < a.levels ==> Walk(m, a.root, a.levels - 1, vpn) == Walk(m, pt, a.levels - 1 - i, vpn)
      invariant i == a.levels ==> Walk(m, a.root, a.levels - 1, vpn) == Corrupt
    {
      var level := a.levels - 1 - i;
      WalkStep(m, a.tables, pt, level, vpn);
      var pte := a.mem[512 * pt + Part(vpn, level)];
      if !pte.v {
        return NotFound;
      } else if IsLeaf(pte) {
        MaskAlignedMeans(pte.ppn, level);
        if level > 0 && !MaskAligned(pte.ppn, level) {
          return Panicked;
        }
        return Found(level, pte);
      } else if level > 0 {
        pt := pte.ppn;
      }
      i := i + 1;
    }
    return Panicked;
  }

  // One iteration of the walk.
  lemma WalkStep(m: seq<Pte>, tables: map<nat, Info>, t: nat, l: nat, q: nat)
    requires Typed(m, tables) && t in tables && tables[t].level == l
    ensures 512 * t + 512 <= |m| && Part(q, l) < 512
    ensures var e := m[512 * t + Part(q, l)];
            && (!e.v ==> Walk(m, t, l, q) == Unmapped)
            && (e.v && IsLeaf(e) ==> Walk(m, t, l, q) == Leaf(l, e))
            && (e.v && !IsLeaf(e) ==>
                  && l > 0 && e.ppn in tables && tables[e.ppn].level == l - 1
                  && Walk(m, t, l, q) == Walk(m, e.ppn, l - 1, q))
  {
    assert TableOk(m, tables, t);
    assert EntryOk(At(m, t, Part(q, l)), tables, tables[t], Part(q, l));
  }

  // ---------------------------------------------------------------- canonical addresses

  predicate Canonical(levels: nat, vpn: nat) {
    !(HalfPages(levels) <= vpn < HighVpn(levels))
  }

  lemma SpanOfFive()
    ensures Span(5) == 0x2000_0000_0000
  {
    assert Span(2) == 512 * 512;
    hide Span;
    SpanStep(3); SpanStep(4); SpanStep(5);
  }

  lemma BelowByBlock(v: nat, l: nat, c: nat)
    ensures v < c * Span(l) <==> Blk(v, l) < c
  {
    hide Span, Blk;
    BlkBounds(v, l);
    if Blk(v, l) < c {
      Scale(Blk(v, l) + 1, c, Span(l));
      assert (Blk(v, l) + 1) * Span(l) == Blk(v, l) * Span(l) + Span(l);
    } else {
      Scale(c, Blk(v, l), Span(l));
    }
  }

  lemma HalfIs(levels: nat)
    requires levels > 0
    ensures HalfPages(levels) == 256 * Span(levels - 1)
  {
    SpanStep(levels);
  }

  lemma HalfBound(levels: nat, l: nat)
    requires l < levels
    ensures HalfPages(levels) == (256 * Span(levels - 1 - l)) * Span(l)
  {
    hide Span, HalfPages;
    HalfIs(levels);
    SpanProduct(levels - 1 - l, l);
    Regroup(256, Span(levels - 1 - l), Span(l));
  }

  lemma TopBound(l: nat)
    requires l <= 5
    ensures VPN_LIMIT == (128 * Span(5 - l)) * Span(l)
  {
    hide Span;
    SpanProduct(5 - l, l);
    SpanOfFive();
    Regroup(128, Span(5 - l), Span(l));
  }

  // The bounds of the non-canonical hole are superpage boundaries at every level.
  lemma HoleBounds(levels: nat, l: nat) returns (c: nat, d: nat)
    requires 0 < levels <= 5 && l < levels
    ensures HalfPages(levels) == c * Span(l) && HighVpn(levels) == d * Span(l)
  {
    hide Span, HalfPages;
    HalfBound(levels, l);
    TopBound(l);
    SpanStep(levels - l);
    SpanMono(levels - l, 5 - l);
    c := 256 * Span(levels - 1 - l);
    var e := 128 * Span(5 - l);
    Difference(e, c, Span(l));
    d := e - c;
  }

  lemma Difference(e: nat, c: nat, s: nat)
    requires c <= e
    ensures (e - c) * s == e * s - c * s
  {
  }

  lemma CanonicalByBlock(levels: nat, l: nat, v: nat, q: nat)
    requires 0 < levels <= 5 && l < levels && Blk(v, l) == Blk(q, l)
    ensures Canonical(levels, v) == Canonical(levels, q)
  {
    hide Span, Blk;
    var c, d := HoleBounds(levels, l);
    BelowByBlock(v, l, c);
    BelowByBlock(q, l, c);
    BelowByBlock(v, l, d);
    BelowByBlock(q, l, d);
  }

  // Pages of the same leaf have the same walk.
  lemma {:induction false} SameLeaf(m: seq<Pte>, t: nat, l: nat, v: nat, q: nat)
    requires Walk(m, t, l, v).Leaf? && Blk(v, Walk(m, t, l, v).level) == Blk(q, Walk(m, t, l, v).level)
    ensures Walk(m, t, l, q) == Walk(m, t, l, v) && Walk(m, t, l, v).level <= l
    decreases l
  {
    hide Blk;
    var k := Walk(m, t, l, v).level;
    var e := At(m, t, Part(v, l));
    if !(e.v && IsLeaf(e)) {
      SameLeaf(m, e.ppn, l - 1, v, q);
    }
    SameBlkAbove(v, q, k, l);
  }

  // ---------------------------------------------------------------- bytes

  // What a page translates to, with non-canonical addresses unmapped.
  ghost function PageLookup(m: seq<Pte>, root: nat, levels: nat, vpn: nat): Translation
    requires levels > 0
  {
    if !Canonical(levels, vpn) then Fault else Translate(Walk(m, root, levels - 1, vpn), vpn)
  }

  ghost function Lookup(a: AddressSpace, vpn: nat): Translation
    requires a.levels > 0
    reads a, a.mem
  {
    PageLookup(a.mem[..], a.root, a.levels, vpn)
  }

  // The access bits of the byte at virtual address y.
  ghost function RwxAt(a: AddressSpace, y: nat): Rwx
    requires a.levels > 0
    reads a, a.mem
  {
    match Lookup(a, y / PAGE_SIZE)
    case Frame(_, r, w, x, _, _, _) => Rwx(r, w, x)
    case _ => NOTHING
  }

  // Its physical address, if mapped.
  ghost function PhysAt(a: AddressSpace, y: nat): nat
    requires a.levels > 0
    reads a, a.mem
  {
    match Lookup(a, y / PAGE_SIZE)
    case Frame(ppn, _, _, _, _, _, _) => ppn * PAGE_SIZE + y % PAGE_SIZE
    case _ => 0
  }

  datatype Virt2Phys = Virt2Phys(flags: Rwx, paddr: nat, pageSize: nat)

  const NO_PAGE := Virt2Phys(NOTHING, 0, 0)

  // memprotect_virt2phys: one lookup tells about every byte up to the end of the page.
  method LookupVaddr(a: AddressSpace, vaddr: nat) returns (info: Virt2Phys)
    requires a.Valid() && a.levels <= 5 && Lookup(a, vaddr / PAGE_SIZE) != Panic
    ensures info.flags == RwxAt(a, vaddr)
    ensures Lookup(a, vaddr / PAGE_SIZE) == Fault ==> info == NO_PAGE
    ensures Lookup(a, vaddr / PAGE_SIZE) != Fault ==>
      && info.pageSize > 0 && info.paddr == PhysAt(a, vaddr)
      && forall y :: vaddr <= y < vaddr + (info.pageSize - vaddr % info.pageSize) ==>
           RwxAt(a, y) == info.flags && PhysAt(a, y) == info.paddr + (y - vaddr)
  {
    hide Typed, Blk, Span, Walk, Offset, HalfPages, HighVpn;
    var vpn := vaddr / PAGE_SIZE;
    var w := PtWalk(a, vpn);
    if w.Found? {
      var size := PAGE_SIZE * Span(w.level);
      info := Virt2Phys(Rwx(w.pte.r, w.pte.w, w.pte.x), w.pte.ppn * PAGE_SIZE + vaddr % size, size);
      PageBytes(a, vaddr, vaddr, w.level, w.pte);
      forall y | vaddr <= y < vaddr + (size - vaddr % size)
        ensures RwxAt(a, y) == info.flags && PhysAt(a, y) == info.paddr + (y - vaddr)
      {
        SamePage(vaddr, y, size);
        PageBytes(a, vaddr, y, w.level, w.pte);
      }
    } else {
      info := NO_PAGE;
    }
  }

  // Addresses up to the end of a page share its page base.
  lemma SamePage(v: nat, y: nat, size: nat)
    requires size > 0 && v <= y < v + (size - v % size)
    ensures y / size == v / size && y % size == v % size + (y - v)
  {
    assert y == size * (v / size) + (v % size + (y - v));
    DivModUnique(y, size, v / size, v % size + (y - v));
  }

  // Every byte of the leaf page of vaddr has the leaf's bits and lies at the same place in the frame.
  lemma PageBytes(a: AddressSpace, vaddr: nat, y: nat, level: nat, pte: Pte)
    requires a.Valid() && a.levels <= 5 && Canonical(a.levels, vaddr / PAGE_SIZE)
    requires Walk(a.mem[..], a.root, a.levels - 1, vaddr / PAGE_SIZE) == Leaf(level, pte)
    requires level == 0 || pte.ppn % Span(level) == 0
    requires y / (PAGE_SIZE * Span(level)) == vaddr / (PAGE_SIZE * Span(level))
    ensures RwxAt(a, y) == Rwx(pte.r, pte.w, pte.x)
    ensures PhysAt(a, y) == pte.ppn * PAGE_SIZE + y % (PAGE_SIZE * Span(level))
    ensures Lookup(a, y / PAGE_SIZE).Frame?
  {
    hide Typed, Blk, Span, Walk, Offset, Canonical;
    var v, q := vaddr / PAGE_SIZE, y / PAGE_SIZE;
    PageOfByte(vaddr, level);
    PageOfByte(y, level);
    SameLeaf(a.mem[..], a.root, a.levels - 1, v, q);
    CanonicalByBlock(a.levels, level, v, q);
  }

  // A byte address, its page, its superpage and its offset in that superpage.
  lemma PageOfByte(y: nat, l: nat)
    ensures y / (PAGE_SIZE * Span(l)) == Blk(y / PAGE_SIZE, l)
    ensures y % (PAGE_SIZE * Span(l)) == Offset(y / PAGE_SIZE, l) * PAGE_SIZE + y % PAGE_SIZE
  {
    hide Span, Blk;
    var q, s := y / PAGE_SIZE, Span(l);
    BlkBounds(q, l);
    var b, o := Blk(q, l), Offset(q, l);
    assert y == PAGE_SIZE * (b * s + o) + y % PAGE_SIZE;
    assert PAGE_SIZE * (b * s) == (PAGE_SIZE * s) * b;
    assert PAGE_SIZE * o + y % PAGE_SIZE < PAGE_SIZE * s;
    DivModUnique(y, PAGE_SIZE * s, b, o * PAGE_SIZE + y % PAGE_SIZE);
  }

  // ---------------------------------------------------------------- ranges

  // f holds the bits common to all bytes of [lo, hi).
  ghost predicate CommonBits(a: AddressSpace, lo: nat, hi: nat, f: Rwx)
    requires a.levels > 0
    reads a, a.mem
  {
    && (f.r <==> forall y :: lo <= y < hi ==> RwxAt(a, y).r)
    && (f.w <==> forall y :: lo <= y < hi ==> RwxAt(a, y).w)
    && (f.x <==> forall y :: lo <= y < hi ==> RwxAt(a, y).x)
  }

  ghost predicate NoPanics(a: AddressSpace, lo: nat, hi: nat)
    requires a.levels > 0
    reads a, a.mem
  {
    forall y :: lo <= y < hi ==> Lookup(a, y / PAGE_SIZE) != Panic
  }

  // Joining the bits of a processed prefix with those of one page.
  lemma CommonStep(a: AddressSpace, lo: nat, mid: nat, hi: nat, f: Rwx, g: Rwx)
    requires a.levels > 0 && lo <= mid < hi && CommonBits(a, lo, mid, f)
    requires forall y :: mid <= y < hi ==> RwxAt(a, y) == g
    ensures CommonBits(a, lo, hi, f.And(g))
  {
    hide RwxAt;
    assert RwxAt(a, mid) == g;
    assert forall y :: lo <= y < hi ==> y < mid || RwxAt(a, y) == g;
  }

  // A byte without any access bit decides the whole range.
  lemma CommonNothing(a: AddressSpace, lo: nat, mid: nat, hi: nat, f: Rwx)
    requires a.levels > 0 && lo <= mid < hi && CommonBits(a, lo, mid, f)
    requires f.And(RwxAt(a, mid)) == NOTHING
    ensures CommonBits(a, lo, hi, NOTHING)
  {
    hide RwxAt;
    assert !f.r ==> exists y :: lo <= y < hi && !RwxAt(a, y).r;
    assert !f.w ==> exists y :: lo <= y < hi && !RwxAt(a, y).w;
    assert !f.x ==> exists y :: lo <= y < hi && !RwxAt(a, y).x;
  }

  // proc_map_contains_raw: nothing for ranges that reach the kernel half, else the bits every byte
  // has.  An empty range is treated like its first byte.
  method MapContains(a: AddressSpace, vaddr0: nat, size0: nat) returns (flags: Rwx)
    requires a.Valid() && a.levels <= 5
    requires NoPanics(a, vaddr0, vaddr0 + AtLeastOne(size0))
    ensures if vaddr0 + AtLeastOne(size0) > HighVpn(a.levels) * PAGE_SIZE then flags == NOTHING
            else CommonBits(a, vaddr0, vaddr0 + AtLeastOne(size0), flags)
  {
    hide Lookup, RwxAt, PhysAt, Span, HighVpn, HalfPages, CommonBits, NoPanics, Typed;
    if vaddr0 >= HighVpn(a.levels) * PAGE_SIZE || vaddr0 + size0 > HighVpn(a.levels) * PAGE_SIZE {
      return NOTHING;
    }
    flags := ALL;
    var vaddr, size := vaddr0, size0;
    ghost var end := vaddr0 + AtLeastOne(size0);
    NothingCommon(a, vaddr0);
    while true
      invariant vaddr0 <= vaddr < end && size >= 0 && AtLeastOne(size) == end - vaddr
      invariant CommonBits(a, vaddr0, vaddr, flags)
      decreases end - vaddr
    {
      AnyByte(a, vaddr0, end, vaddr);
      var info := LookupVaddr(a, vaddr);
      ghost var before := flags;
      flags := flags.And(info.flags);
      if flags == NOTHING {
        CommonNothing(a, vaddr0, vaddr, end, before);
        return;
      }
      MappedBits(a, vaddr);
      var inc := info.pageSize - vaddr % info.pageSize;
      if inc >= size {
        CommonStep(a, vaddr0, vaddr, end, before, info.flags);
        return;
      }
      CommonStep(a, vaddr0, vaddr, vaddr + inc, before, info.flags);
      size := size - inc;
      vaddr := vaddr + inc;
    }
  }

  lemma NothingCommon(a: AddressSpace, lo: nat)
    requires a.levels > 0
    ensures CommonBits(a, lo, lo, ALL)
  {
  }

  lemma AnyByte(a: AddressSpace, lo: nat, hi: nat, y: nat)
    requires a.levels > 0 && NoPanics(a, lo, hi) && lo <= y < hi
    ensures Lookup(a, y / PAGE_SIZE) != Panic
  {
  }

  lemma MappedBits(a: AddressSpace, y: nat)
    requires a.levels > 0
    ensures Lookup(a, y / PAGE_SIZE) == Fault ==> RwxAt(a, y) == NOTHING
  {
  }

  // The bytes of [lo, hi) lie at different physical addresses inside RAM.
  ghost predicate PlacedApart(a: AddressSpace, lo: nat, hi: nat, ramSize: nat)
    requires a.levels > 0
    reads a, a.mem
  {
    && (forall y :: lo <= y < hi ==> PhysAt(a, y) < ramSize)
    && (forall y, z :: lo <= y < z < hi ==> PhysAt(a, y) != PhysAt(a, z))
  }

  ghost predicate Mapped(a: AddressSpace, y: nat)
    requires a.levels > 0
    reads a, a.mem
  {
    Lookup(a, y / PAGE_SIZE).Frame?
  }

  // The mapped bytes among [lo, hi) lie at different physical addresses inside RAM.
  ghost predicate FramesApart(a: AddressSpace, lo: nat, hi: nat, ramSize: nat)
    requires a.levels > 0
    reads a, a.mem
  {
    && (forall y :: lo <= y < hi && Mapped(a, y) ==> PhysAt(a, y) < ramSize)
    && (forall y, z :: lo <= y < z < hi && Mapped(a, y) && Mapped(a, z) ==> PhysAt(a, y) != PhysAt(a, z))
  }

  // p is the physical address of some byte of [lo, hi).
  ghost predicate Holds(a: AddressSpace, lo: nat, hi: nat, p: nat)
    requires a.levels > 0
    reads a, a.mem
  {
    exists y :: lo <= y < hi && PhysAt(a, y) == p
  }

  // src has reached the translations of [lo, hi), byte by byte, and nothing else changed.
  ghost predicate Copied(a: AddressSpace, lo: nat, hi: nat, src: seq<int>, ram: seq<int>, was: seq<int>)
    requires a.levels > 0
    reads a, a.mem
  {
    && |ram| == |was| && hi <= lo + |src|
    && (forall y :: lo <= y < hi ==> PhysAt(a, y) < |ram| && ram[PhysAt(a, y)] == src[y - lo])
    && (forall p :: 0 <= p < |ram| && !Holds(a, lo, hi, p) ==> ram[p] == was[p])
  }

  // All bytes of [lo, hi) share some access bit.
  ghost predicate Shares(a: AddressSpace, lo: nat, hi: nat)
    requires a.levels > 0
    reads a, a.mem
  {
    || (forall y :: lo <= y < hi ==> RwxAt(a, y).r)
    || (forall y :: lo <= y < hi ==> RwxAt(a, y).w)
    || (forall y :: lo <= y < hi ==> RwxAt(a, y).x)
  }

  // mem_copy of n bytes.
  method CopyBytes(ram: array<int>, paddr: nat, src: seq<int>, from: nat, n: nat)
    requires paddr + n <= ram.Length && from + n <= |src|
    modifies ram
    ensures Stored(ram[..], old(ram[..]), paddr, src, from, n)
  {
    forall p | paddr <= p < paddr + n {
      ram[p] := src[from + (p - paddr)];
    }
  }

  ghost predicate Stored(ram: seq<int>, was: seq<int>, paddr: nat, src: seq<int>, from: nat, n: nat)
    requires from + n <= |src|
  {
    && |ram| == |was|
    && forall p :: 0 <= p < |ram| ==> ram[p] == if paddr <= p < paddr + n then src[from + (p - paddr)] else was[p]
  }

  // copy_to_user_raw, into frames that hold no page tables.  The whole range is checked first.
  method CopyToUser(a: AddressSpace, ram: array<int>, vaddr0: nat, src: seq<int>) returns (ok: bool)
    requires a.Valid() && a.levels <= 5 && NoPanics(a, vaddr0, vaddr0 + AtLeastOne(|src|))
    requires FramesApart(a, vaddr0, vaddr0 + |src|, ram.Length)
    modifies ram
    ensures ok <==> vaddr0 + AtLeastOne(|src|) <= HighVpn(a.levels) * PAGE_SIZE
                    && Shares(a, vaddr0, vaddr0 + AtLeastOne(|src|))
    ensures !ok ==> ram[..] == old(ram[..])
    ensures ok ==> Copied(a, vaddr0, vaddr0 + |src|, src, ram[..], old(ram[..]))
  {
    hide Lookup, RwxAt, PhysAt, Span, HighVpn, HalfPages, Typed, Walk, CommonBits, NoPanics, Shares, PlacedApart, FramesApart,
         Copied, Stored;
    var flags := MapContains(a, vaddr0, |src|);
    ghost var end := vaddr0 + AtLeastOne(|src|);
    if vaddr0 + AtLeastOne(|src|) <= HighVpn(a.levels) * PAGE_SIZE {
      SharesMeans(a, vaddr0, end, flags);
    }
    if flags == NOTHING {
      return false;
    }
    AllPlaced(a, vaddr0, vaddr0 + |src|, end, flags, ram.Length);
    var vaddr, len := vaddr0, |src|;
    CopyStart(a, vaddr0, src, ram[..]);
    while len > 0
      invariant vaddr0 <= vaddr && 0 <= len && vaddr + len == vaddr0 + |src|
      invariant Copied(a, vaddr0, vaddr, src, ram[..], old(ram[..]))
      invariant a.Valid()
      modifies ram
    {
      AnyByte(a, vaddr0, end, vaddr);
      MappedByte(a, vaddr0, end, vaddr, flags);
      var info := LookupVaddr(a, vaddr);
      var maxLen := info.pageSize - vaddr % info.pageSize;
      var n := if len < maxLen then len else maxLen;
      LastByte(a, vaddr0, vaddr0 + |src|, vaddr, n, info.paddr, ram.Length);
      ghost var was := ram[..];
      CopyBytes(ram, info.paddr, src, vaddr - vaddr0, n);
      CopyStep(a, vaddr0, vaddr, n, src, was, ram[..], old(ram[..]), info.paddr);
      len := len - n;
      vaddr := vaddr + n;
    }
    return true;
  }

  lemma SharesMeans(a: AddressSpace, lo: nat, hi: nat, f: Rwx)
    requires a.levels > 0 && CommonBits(a, lo, hi, f)
    ensures Shares(a, lo, hi) <==> f != NOTHING
  {
    hide RwxAt;
  }

  lemma MappedByte(a: AddressSpace, lo: nat, hi: nat, y: nat, f: Rwx)
    requires a.levels > 0 && CommonBits(a, lo, hi, f) && f != NOTHING && lo <= y < hi
    ensures Lookup(a, y / PAGE_SIZE) != Fault
  {
    hide Lookup;
    assert RwxAt(a, y) != NOTHING;
  }

  // Once every byte is known to be mapped, all of them lie apart.
  lemma AllPlaced(a: AddressSpace, lo: nat, hi: nat, end: nat, f: Rwx, ramSize: nat)
    requires a.levels > 0 && CommonBits(a, lo, end, f) && f != NOTHING && NoPanics(a, lo, end) && hi <= end
    requires FramesApart(a, lo, hi, ramSize)
    ensures PlacedApart(a, lo, hi, ramSize)
  {
    hide Lookup, PhysAt, CommonBits, RwxAt;
    forall y | lo <= y < hi ensures Mapped(a, y) {
      MappedByte(a, lo, end, y, f);
      AnyByte(a, lo, end, y);
    }
  }

  lemma CopyStart(a: AddressSpace, lo: nat, src: seq<int>, ram: seq<int>)
    requires a.levels > 0
    ensures Copied(a, lo, lo, src, ram, ram)
  {
    hide PhysAt;
  }

  // A chunk lies inside RAM.
  lemma LastByte(a: AddressSpace, lo: nat, hi: nat, v: nat, n: nat, paddr: nat, ramSize: nat)
    requires a.levels > 0 && PlacedApart(a, lo, hi, ramSize) && 0 < n && lo <= v && v + n <= hi
    requires forall y :: v <= y < v + n ==> PhysAt(a, y) == paddr + (y - v)
    ensures paddr + n <= ramSize
  {
    hide PhysAt;
    var last := v + n - 1;
    assert PhysAt(a, last) == paddr + (last - v);
  }

  // One chunk of the copy.
  lemma CopyStep(a: AddressSpace, lo: nat, v: nat, n: nat, src: seq<int>, was: seq<int>, ram: seq<int>, start: seq<int>, paddr: nat)
    requires a.levels > 0 && lo <= v && v + n <= lo + |src| && Copied(a, lo, v, src, was, start)
    requires PlacedApart(a, lo, lo + |src|, |start|) && paddr + n <= |was|
    requires forall y :: v <= y < v + n ==> PhysAt(a, y) == paddr + (y - v)
    requires Stored(ram, was, paddr, src, v - lo, n)
    ensures Copied(a, lo, v + n, src, ram, start)
  {
    hide PhysAt;
    forall y | lo <= y < v + n ensures PhysAt(a, y) < |ram| && ram[PhysAt(a, y)] == src[y - lo] {
      if y < v {
        ChunkHolds(a, v, n, PhysAt(a, y), paddr);
      }
    }
    forall p: nat | p < |ram| && !Holds(a, lo, v + n, p) ensures ram[p] == start[p] {
      ChunkHolds(a, v, n, p, paddr);
    }
  }

  // The bytes of a chunk occupy exactly the addresses from paddr on.
  lemma ChunkHolds(a: AddressSpace, v: nat, n: nat, p: nat, paddr: nat)
    requires a.levels > 0
    requires forall y :: v <= y < v + n ==> PhysAt(a, y) == paddr + (y - v)
    ensures Holds(a, v, v + n, p) <==> paddr <= p < paddr + n
  {
    hide PhysAt;
    if paddr <= p < paddr + n {
      var z := v + (p - paddr);
      assert PhysAt(a, z) == p;
    }
  }

  // ---------------------------------------------------------------- the kernel half

  // A page table whose walks over the indexed space never panic never panics on any address.
  lemma SoundNoPanics(a: AddressSpace, lo: nat, hi: nat)
    requires a.Valid() && Sound(a.mem[..], a.root, a.levels - 1)
    ensures NoPanics(a, lo, hi)
  {
    hide Walk, Offset, Part, Typed, Blk, Canonical;
    var m, k := a.mem[..], a.levels - 1;
    forall y | lo <= y < hi ensures Lookup(a, y / PAGE_SIZE) != Panic {
      var q := y / PAGE_SIZE;
      var i := Offset(q, k + 1);
      SameWalk(m, a.root, k, q, k);
      SameIndex(q, k, 0);
      var w := Walk(m, a.root, k, q);
      if w.Leaf? {
        SameIndex(q, k, w.level);
      }
      assert Translate(Walk(m, a.root, k, i), i) != Panic;
    }
  }

  // ---------------------------------------------------------------- mapping, over page numbers

  lemma SpaceBounds(levels: nat)
    requires 0 < levels <= 5
    ensures Span(levels) == 2 * HalfPages(levels) && 0 < HalfPages(levels) && Span(levels) <= 0x2000_0000_0000
  {
    hide Span, HalfPages;
    HalfIs(levels);
    SpanStep(levels);
    SpanMono(levels, 5);
    SpanOfFive();
  }

  // The index of a canonical page: the low half comes first, the high half after it.
  lemma CanonicalIndex(levels: nat, v: nat)
    requires 0 < levels <= 5 && Canonical(levels, v) && v < VPN_LIMIT
    ensures Span(levels) <= VPN_LIMIT && HalfPages(levels) < Span(levels)
    ensures Offset(v, levels) == if v < HalfPages(levels) then v else v - (VPN_LIMIT - Span(levels))
  {
    hide Span, Blk, HalfPages;
    SpaceBounds(levels);
    TopBound(levels);
    var n := 128 * Span(5 - levels);
    if v < HalfPages(levels) {
      BlkUnique(v, levels, 0);
    } else {
      Difference(n, 1, Span(levels));
      BlkUnique(v, levels, n - 1);
    }
  }

  // Every index is that of a canonical page.
  lemma CanonicalPage(levels: nat, q: nat) returns (v: nat)
    requires 0 < levels <= 5 && q < Span(levels)
    ensures Canonical(levels, v) && v < VPN_LIMIT && Offset(v, levels) == q
  {
    hide Span, Offset, HalfPages;
    SpaceBounds(levels);
    v := if q < HalfPages(levels) then q else q + (VPN_LIMIT - Span(levels));
    CanonicalIndex(levels, v);
  }

  // A canonical page translates as its index does.
  lemma LookupIndexed(m: seq<Pte>, root: nat, levels: nat, v: nat)
    requires 0 < levels && Canonical(levels, v)
    ensures PageLookup(m, root, levels, v) == Translate(Walk(m, root, levels - 1, Offset(v, levels)), Offset(v, levels))
    ensures Blk(Offset(v, levels), levels) == 0
  {
    hide Walk, Offset, Part, Blk, Canonical;
    SameWalk(m, root, levels - 1, v, levels - 1);
    SameIndex(v, levels - 1, 0);
    var w := Walk(m, root, levels - 1, v);
    if w.Leaf? {
      SameIndex(v, levels - 1, w.level);
    }
  }

  // A range of pages in one canonical half.
  predicate CanonicalRange(levels: nat, v: nat, n: nat)
    requires levels > 0
  {
    v + n <= HalfPages(levels) || (HighVpn(levels) <= v && v + n <= VPN_LIMIT)
  }

  ghost predicate PagesKept(m0: seq<Pte>, m: seq<Pte>, root: nat, levels: nat, v: nat, n: nat)
    requires levels > 0
  {
    forall x: nat :: x < VPN_LIMIT && Canonical(levels, x) && !(v <= x < v + n) ==>
      PageLookup(m, root, levels, x) == PageLookup(m0, root, levels, x)
  }

  // The index range of a canonical range holds exactly its pages.
  lemma RangeIndex(levels: nat, v: nat, n: nat, x: nat)
    requires 0 < levels <= 5 && 0 < n && CanonicalRange(levels, v, n) && Canonical(levels, x) && x < VPN_LIMIT
    ensures v <= x < v + n <==> Offset(v, levels) <= Offset(x, levels) < Offset(v, levels) + n
    ensures v <= x < v + n ==> Offset(x, levels) - Offset(v, levels) == x - v
    ensures Offset(v, levels) + n <= Span(levels)
  {
    hide Span, Offset, HalfPages;
    SpaceBounds(levels);
    CanonicalIndex(levels, v);
    CanonicalIndex(levels, x);
  }

  // pt_map over page numbers: the range as asked, every other canonical page as before if and only if
  // no superpage split moves one.
  lemma MapRefinesPages(m0: seq<Pte>, m: seq<Pte>, tables: map<nat, Info>, root: nat, levels: nat, v: nat, n: nat,
                        ppn: nat, flags: Flags, svpbmt: bool)
    requires 0 < levels <= 5 && 0 < n && CanonicalRange(levels, v, n)
    requires Typed(m0, tables) && root in tables && tables[root] == Info(levels - 1, 0) && Sound(m0, root, levels - 1)
    requires var q := Offset(v, levels); RangeMapped(m0, m, root, levels - 1, q, q + n, ppn, flags, svpbmt)
    ensures forall x: nat :: v <= x < v + n ==>
      PageLookup(m, root, levels, x) == Frame(ppn + (x - v), flags.r, flags.w, flags.x, !flags.kernel, flags.global, MemoryType(flags, svpbmt))
    ensures var q := Offset(v, levels); PagesKept(m0, m, root, levels, v, n) <==> FaithfulOutside(m0, root, levels - 1, q, q + n)
  {
    hide Typed, Walk, Blk, Translate, FaithfulOutside, RangeMapped, Offset, Span, PageLookup, Sound, HalfPages;
    SpaceBounds(levels);
    var q, k := Offset(v, levels), levels - 1;
    MapRefinesUpdate(m0, m, tables, root, k, q, q + n, ppn, flags, svpbmt);
    forall x: nat | v <= x < v + n
      ensures PageLookup(m, root, levels, x) == Frame(ppn + (x - v), flags.r, flags.w, flags.x, !flags.kernel, flags.global, MemoryType(flags, svpbmt))
    {
      RangeIndex(levels, v, n, x);
      LookupIndexed(m, root, levels, x);
    }
    KeptBoth(m0, m, root, levels, v, n);
  }

  lemma KeptBoth(m0: seq<Pte>, m: seq<Pte>, root: nat, levels: nat, v: nat, n: nat)
    requires 0 < levels <= 5 && 0 < n && CanonicalRange(levels, v, n)
    ensures var q := Offset(v, levels); PagesKept(m0, m, root, levels, v, n) <==> KeepsOutside(m0, m, root, levels - 1, q, q + n)
  {
    hide Walk, Blk, Translate, Offset, Span, PageLookup;
    var q0 := Offset(v, levels);
    if PagesKept(m0, m, root, levels, v, n) {
      forall q: nat | Blk(q, levels) == 0 && !(q0 <= q < q0 + n)
        ensures Translate(Walk(m, root, levels - 1, q), q) == Translate(Walk(m0, root, levels - 1, q), q)
      {
        FirstBlock(q, levels);
        var x := CanonicalPage(levels, q);
        RangeIndex(levels, v, n, x);
        LookupIndexed(m, root, levels, x);
        LookupIndexed(m0, root, levels, x);
      }
    }
    if KeepsOutside(m0, m, root, levels - 1, q0, q0 + n) {
      forall x: nat | x < VPN_LIMIT && Canonical(levels, x) && !(v <= x < v + n)
        ensures PageLookup(m, root, levels, x) == PageLookup(m0, root, levels, x)
      {
        RangeIndex(levels, v, n, x);
        LookupIndexed(m, root, levels, x);
        LookupIndexed(m0, root, levels, x);
      }
    }
  }

  lemma FirstBlock(q: nat, l: nat)
    requires Blk(q, l) == 0
    ensures q < Span(l)
  {
    hide Span, Blk;
    BlkBounds(q, l);
  }
}
