/** Radix page tables (Sv39, Sv48, Sv57) as values: walking, and what editing them does to walks.

    Virtual page numbers are canonical indices: the page number modulo 512^levels, which is what
    the walk looks at.  Physical memory is a sequence of 8-byte words; table page t occupies words
    512 * t to 512 * t + 511. */
module PageWalk {

  datatype Flags = Flags(r: bool, w: bool, x: bool, global: bool, kernel: bool, io: bool, nc: bool)

  datatype Pbmt = Pma | NonCacheable | Io

  datatype Pte = Pte(v: bool, r: bool, w: bool, x: bool, u: bool, g: bool, pbmt: Pbmt, ppn: nat)

  const PTE_NULL: Pte := Pte(false, false, false, false, false, false, Pma, 0)

  function NewLeaf(ppn: nat, flags: Flags, svpbmt: bool): Pte {
    Pte(flags.r || flags.w || flags.x, flags.r, flags.w, flags.x, !flags.kernel, flags.global,
        if svpbmt && flags.io then Io else if svpbmt && flags.nc then NonCacheable else Pma, ppn)
  }

  function NewTable(ppn: nat): (e: Pte)
    ensures IsTable(e) && !e.u && !e.g && e.pbmt == Pma && e.ppn == ppn
  {
    Pte(true, false, false, false, false, false, Pma, ppn)
  }

  predicate IsLeaf(e: Pte) {
    e.r || e.w || e.x
  }

  predicate IsTable(e: Pte) { e.v && !IsLeaf(e) }

  function GetFlags(e: Pte): Flags {
    Flags(e.r, e.w, e.x, e.g, !e.u, false, false)
  }

  // The entry that replaces sub-page i of a split superpage.
  function SplitPte(e: Pte, i: nat, svpbmt: bool): Pte {
    NewLeaf(e.ppn + i, GetFlags(e), svpbmt)
  }

  // The level-l block a page lies in; its last digit is the table index at level l.
  function Blk(q: nat, l: nat): nat {
    if l == 0 then q else Blk(q, l - 1) / 512
  }

  function Part(q: nat, l: nat): nat {
    Blk(q, l) % 512
  }

  // Entry i of the table at physical page t: mmu_read_pte(t * 4096 + i * 8).
  function At(mem: seq<Pte>, t: nat, i: nat): Pte {
    if 512 * t + i < |mem| then mem[512 * t + i] else PTE_NULL
  }

  datatype Walked = Unmapped | Leaf(level: nat, pte: Pte) | Corrupt

  // pt_walk below table t at level l, without the alignment test on superpages.
  function Walk(mem: seq<Pte>, t: nat, l: nat, q: nat): Walked
    decreases l
  {
    if 512 * t + 512 > |mem| then Corrupt
    else
      var e := At(mem, t, Part(q, l));
      if !e.v then Unmapped
      else if IsLeaf(e) then Leaf(l, e)
      else if l == 0 then Corrupt
      else Walk(mem, e.ppn, l - 1, q)
  }

  datatype Info = Info(level: nat, block: nat)

  // What one entry of a table may hold.
  ghost predicate EntryOk(e: Pte, tables: map<nat, Info>, info: Info, i: nat) {
    e.v && !IsLeaf(e) ==>
      info.level > 0 && e.ppn in tables && tables[e.ppn] == Info(info.level - 1, 512 * info.block + i)
  }

  ghost predicate TableOk(mem: seq<Pte>, tables: map<nat, Info>, t: nat)
    requires t in tables
  {
    && 512 * t + 512 <= |mem|
    && forall i: nat :: i < 512 ==> EntryOk(At(mem, t, i), tables, tables[t], i)
  }

  // Every table has a level and a block of pages it serves, and its pointers agree with that.
  ghost predicate Typed(mem: seq<Pte>, tables: map<nat, Info>) {
    forall t :: t in tables ==> TableOk(mem, tables, t)
  }

  // Table t serves page q at level l.
  ghost predicate Serves(tables: map<nat, Info>, t: nat, l: nat, q: nat) {
    t in tables && tables[t] == Info(l, Blk(q, l + 1))
  }

  lemma BlkStep(q: nat, l: nat)
    ensures Blk(q, l) == 512 * Blk(q, l + 1) + Part(q, l)
  {
  }

  // Following a pointer leads to a table that serves the same page one level down.
  lemma ServesNext(mem: seq<Pte>, tables: map<nat, Info>, t: nat, l: nat, q: nat)
    requires Typed(mem, tables) && Serves(tables, t, l, q)
    ensures 512 * t + 512 <= |mem|
    ensures var e := At(mem, t, Part(q, l));
            e.v && !IsLeaf(e) ==> l > 0 && Serves(tables, e.ppn, l - 1, q)
  {
    hide Blk;
    assert TableOk(mem, tables, t);
    BlkStep(q, l);
    assert EntryOk(At(mem, t, Part(q, l)), tables, tables[t], Part(q, l));
  }

  // No walk from a well-typed table runs into a missing table or a pointer at the last level.
  lemma {:induction false} NeverCorrupt(mem: seq<Pte>, tables: map<nat, Info>, t: nat, l: nat, q: nat)
    requires Typed(mem, tables) && Serves(tables, t, l, q)
    ensures !Walk(mem, t, l, q).Corrupt?
    ensures Walk(mem, t, l, q).Leaf? ==> Walk(mem, t, l, q).level <= l && Walk(mem, t, l, q).pte.v && IsLeaf(Walk(mem, t, l, q).pte)
    decreases l
  {
    hide Typed, Serves, Blk;
    ServesNext(mem, tables, t, l, q);
    var e := At(mem, t, Part(q, l));
    if e.v && !IsLeaf(e) {
      NeverCorrupt(mem, tables, e.ppn, l - 1, q);
    }
  }

  // mem' differs from mem at most in entry i of table t and outside the tables.
  ghost predicate ChangedAt(mem: seq<Pte>, mem': seq<Pte>, tables: map<nat, Info>, t: nat, i: nat) {
    && |mem'| == |mem|
    && forall s: nat, j: nat :: s in tables && j < 512 && !(s == t && j == i) ==>
         At(mem', s, j) == At(mem, s, j)
  }

  // A walk that does not use the changed entry is not affected.
  lemma {:induction false} Unaffected(mem: seq<Pte>, mem': seq<Pte>, tables: map<nat, Info>, t: nat, i: nat, s: nat, k: nat, q: nat)
    requires Typed(mem, tables) && Serves(tables, s, k, q) && t in tables
    requires ChangedAt(mem, mem', tables, t, i)
    requires Blk(q, tables[t].level) != 512 * tables[t].block + i
    ensures Walk(mem', s, k, q) == Walk(mem, s, k, q)
    decreases k
  {
    hide Typed, Blk;
    ServesNext(mem, tables, s, k, q);
    BlkStep(q, k);
    var e := At(mem, s, Part(q, k));
    assert At(mem', s, Part(q, k)) == e;
    if e.v && !IsLeaf(e) {
      Unaffected(mem, mem', tables, t, i, e.ppn, k - 1, q);
    }
  }

  // The walk of page v from table s at level k passes through table t at level l.
  ghost predicate OnPath(mem: seq<Pte>, s: nat, k: nat, v: nat, t: nat, l: nat)
    decreases k
  {
    if k <= l then k == l && s == t
    else
      && 512 * s + 512 <= |mem|
      && var e := At(mem, s, Part(v, k)); e.v && !IsLeaf(e) && OnPath(mem, e.ppn, k - 1, v, t, l)
  }

  lemma {:induction false} SameBlkAbove(q: nat, v: nat, l: nat, k: nat)
    requires Blk(q, l) == Blk(v, l) && l <= k
    ensures Blk(q, k) == Blk(v, k)
    decreases k
  {
    if l < k {
      SameBlkAbove(q, v, l, k - 1);
    }
  }

  // Pages in the block served by t are walked through t.
  lemma {:induction false} PathWalk(mem: seq<Pte>, s: nat, k: nat, v: nat, t: nat, l: nat, q: nat)
    requires OnPath(mem, s, k, v, t, l) && Blk(q, l + 1) == Blk(v, l + 1)
    ensures Walk(mem, s, k, q) == Walk(mem, t, l, q)
    decreases k
  {
    hide Blk;
    if k > l {
      SameBlkAbove(q, v, l + 1, k);
      PathWalk(mem, At(mem, s, Part(v, k)).ppn, k - 1, v, t, l, q);
    }
  }

  // The path above a changed entry stays.
  lemma {:induction false} PathStays(mem: seq<Pte>, mem': seq<Pte>, tables: map<nat, Info>, t: nat, i: nat, s: nat, k: nat, v: nat, l: nat)
    requires Typed(mem, tables) && Serves(tables, s, k, v) && t in tables && tables[t].level == l
    requires ChangedAt(mem, mem', tables, t, i) && OnPath(mem, s, k, v, t, l)
    ensures OnPath(mem', s, k, v, t, l)
    decreases k
  {
    hide Typed, Blk;
    if k > l {
      ServesNext(mem, tables, s, k, v);
      var e := At(mem, s, Part(v, k));
      assert At(mem', s, Part(v, k)) == e;
      PathStays(mem, mem', tables, t, i, e.ppn, k - 1, v, l);
    }
  }

  lemma {:induction false} PathExtend(mem: seq<Pte>, s: nat, k: nat, v: nat, t: nat, l: nat)
    requires OnPath(mem, s, k, v, t, l) && l > 0 && 512 * t + 512 <= |mem|
    requires var e := At(mem, t, Part(v, l)); e.v && !IsLeaf(e)
    ensures OnPath(mem, s, k, v, At(mem, t, Part(v, l)).ppn, l - 1)
    decreases k
  {
    if k > l {
      PathExtend(mem, At(mem, s, Part(v, k)).ppn, k - 1, v, t, l);
    }
  }

  // ---------------------------------------------------------------- editing steps

  // Replacing entry (t, Part(v, l)) by a pointer to a fresh page nt without pointers in it.
  ghost predicate LinkOf(mem: seq<Pte>, mem': seq<Pte>, tables: map<nat, Info>, t: nat, l: nat, v: nat, nt: nat) {
    && Typed(mem, tables) && Serves(tables, t, l, v) && l > 0
    && nt !in tables && 512 * nt + 512 <= |mem|
    && ChangedAt(mem, mem', tables, t, Part(v, l))
    && At(mem', t, Part(v, l)) == NewTable(nt)
    && forall j: nat :: j < 512 ==> !At(mem', nt, j).v || IsLeaf(At(mem', nt, j))
  }

  lemma LinkTyped(mem: seq<Pte>, mem': seq<Pte>, tables: map<nat, Info>, t: nat, l: nat, v: nat, nt: nat)
    requires LinkOf(mem, mem', tables, t, l, v, nt)
    ensures Typed(mem', tables[nt := Info(l - 1, Blk(v, l))])
  {
    hide Blk;
    var tables' := tables[nt := Info(l - 1, Blk(v, l))];
    BlkStep(v, l);
    forall s | s in tables' ensures TableOk(mem', tables', s) {
      if s != nt {
        assert TableOk(mem, tables, s);
        forall i: nat | i < 512 ensures EntryOk(At(mem', s, i), tables', tables'[s], i) {
          assert EntryOk(At(mem, s, i), tables, tables[s], i);
        }
      }
    }
  }

  lemma LinkPath(mem: seq<Pte>, mem': seq<Pte>, tables: map<nat, Info>, root: nat, k: nat, t: nat, l: nat, v: nat, nt: nat)
    requires LinkOf(mem, mem', tables, t, l, v, nt)
    requires Serves(tables, root, k, v) && OnPath(mem, root, k, v, t, l)
    ensures OnPath(mem', root, k, v, nt, l - 1)
  {
    hide Blk, OnPath;
    PathStays(mem, mem', tables, t, Part(v, l), root, k, v, l);
    assert TableOk(mem, tables, t);
    PathExtend(mem', root, k, v, t, l);
  }

  lemma LinkWalk(mem: seq<Pte>, mem': seq<Pte>, tables: map<nat, Info>, root: nat, k: nat, t: nat, l: nat, v: nat, nt: nat, q: nat)
    requires LinkOf(mem, mem', tables, t, l, v, nt)
    requires Serves(tables, root, k, v) && OnPath(mem, root, k, v, t, l) && Serves(tables, root, k, q)
    ensures Blk(q, l) != Blk(v, l) ==> Walk(mem', root, k, q) == Walk(mem, root, k, q)
    ensures Blk(q, l) == Blk(v, l) ==>
      Walk(mem, root, k, q) == Walk(mem, t, l, q) && Walk(mem', root, k, q) == Walk(mem', nt, l - 1, q)
  {
    hide Blk, OnPath, Walk;
    BlkStep(v, l);
    if Blk(q, l) != Blk(v, l) {
      Unaffected(mem, mem', tables, t, Part(v, l), root, k, q);
    } else {
      SameBlkAbove(q, v, l, l + 1);
      PathWalk(mem, root, k, v, t, l, q);
      LinkPath(mem, mem', tables, root, k, t, l, v, nt);
      PathWalk(mem', root, k, v, nt, l - 1, q);
    }
  }

  // Writing a leaf into entry (t, Part(v, l)).
  ghost predicate LeafOf(mem: seq<Pte>, mem': seq<Pte>, tables: map<nat, Info>, t: nat, l: nat, v: nat, e: Pte) {
    && Typed(mem, tables) && Serves(tables, t, l, v)
    && ChangedAt(mem, mem', tables, t, Part(v, l))
    && At(mem', t, Part(v, l)) == e && e.v && IsLeaf(e)
  }

  lemma LeafTyped(mem: seq<Pte>, mem': seq<Pte>, tables: map<nat, Info>, t: nat, l: nat, v: nat, e: Pte)
    requires LeafOf(mem, mem', tables, t, l, v, e)
    ensures Typed(mem', tables)
  {
    hide Blk;
    forall s | s in tables ensures TableOk(mem', tables, s) {
      assert TableOk(mem, tables, s);
      forall i: nat | i < 512 ensures EntryOk(At(mem', s, i), tables, tables[s], i) {
        assert EntryOk(At(mem, s, i), tables, tables[s], i);
      }
    }
  }

  lemma LeafWalk(mem: seq<Pte>, mem': seq<Pte>, tables: map<nat, Info>, root: nat, k: nat, t: nat, l: nat, v: nat, e: Pte, q: nat)
    requires LeafOf(mem, mem', tables, t, l, v, e)
    requires Serves(tables, root, k, v) && OnPath(mem, root, k, v, t, l) && Serves(tables, root, k, q)
    ensures Walk(mem', root, k, q) == if Blk(q, l) == Blk(v, l) then Leaf(l, e) else Walk(mem, root, k, q)
  {
    hide Blk, OnPath;
    BlkStep(v, l);
    assert TableOk(mem, tables, t);
    if Blk(q, l) != Blk(v, l) {
      Unaffected(mem, mem', tables, t, Part(v, l), root, k, q);
    } else {
      SameBlkAbove(q, v, l, l + 1);
      PathStays(mem, mem', tables, t, Part(v, l), root, k, v, l);
      PathWalk(mem', root, k, v, t, l, q);
    }
  }

  // ---------------------------------------------------------------- effect on other pages

  // What becomes of page q's walk when the superpages on the way to page v are split down to level l.
  function Along(w: Walked, q: nat, v: nat, l: nat, svpbmt: bool): Walked
    decreases if w.Leaf? then w.level else 0
  {
    if w.Leaf? && w.level > l && Blk(q, w.level) == Blk(v, w.level) then
      Along(Leaf(w.level - 1, SplitPte(w.pte, Part(q, w.level - 1), svpbmt)), q, v, l, svpbmt)
    else w
  }

  // Splitting one level further.
  lemma {:induction false} AlongStep(w: Walked, q: nat, v: nat, l: nat, svpbmt: bool)
    requires l > 0
    ensures Along(w, q, v, l - 1, svpbmt) ==
            var d := Along(w, q, v, l, svpbmt);
            if d.Leaf? && d.level == l && Blk(q, l) == Blk(v, l)
            then Leaf(l - 1, SplitPte(d.pte, Part(q, l - 1), svpbmt)) else d
    decreases if w.Leaf? then w.level else 0
  {
    hide Blk, SplitPte;
    if w.Leaf? && w.level > l && Blk(q, w.level) == Blk(v, w.level) {
      AlongStep(Leaf(w.level - 1, SplitPte(w.pte, Part(q, w.level - 1), svpbmt)), q, v, l, svpbmt);
    }
  }

  // Page q's walk in m is its walk in m0 with the superpages towards v split down to level l.
  ghost predicate AlongAt(m0: seq<Pte>, m: seq<Pte>, root: nat, k: nat, v: nat, l: nat, svpbmt: bool, q: nat) {
    Walk(m, root, k, q) == Along(Walk(m0, root, k, q), q, v, l, svpbmt)
  }

  ghost predicate AlongAll(m0: seq<Pte>, m: seq<Pte>, root: nat, k: nat, v: nat, l: nat, svpbmt: bool) {
    forall q: nat :: Blk(q, k + 1) == Blk(v, k + 1) ==> AlongAt(m0, m, root, k, v, l, svpbmt, q)
  }

  lemma AlongStart(m: seq<Pte>, tables: map<nat, Info>, root: nat, k: nat, v: nat, svpbmt: bool)
    requires Typed(m, tables) && Serves(tables, root, k, v)
    ensures AlongAll(m, m, root, k, v, k, svpbmt)
  {
    hide Typed, Blk, Walk;
    forall q: nat | Blk(q, k + 1) == Blk(v, k + 1) ensures AlongAt(m, m, root, k, v, k, svpbmt, q) {
      NeverCorrupt(m, tables, root, k, q);
    }
  }

  // How the entry of the new table for page q comes about.
  ghost predicate FillsIn(e: Pte, n: Pte, j: nat, svpbmt: bool) {
    if e.v then IsLeaf(e) && n == SplitPte(e, j, svpbmt) else n == PTE_NULL
  }

  // Adding a table, empty or from a split superpage, extends the effect by one level.
  lemma LinkAlong(m0: seq<Pte>, m: seq<Pte>, m': seq<Pte>, tables: map<nat, Info>, root: nat, k: nat,
                  t: nat, l: nat, v: nat, nt: nat, svpbmt: bool)
    requires LinkOf(m, m', tables, t, l, v, nt)
    requires Serves(tables, root, k, v) && OnPath(m, root, k, v, t, l)
    requires AlongAll(m0, m, root, k, v, l, svpbmt)
    requires forall j: nat :: j < 512 ==> FillsIn(At(m, t, Part(v, l)), At(m', nt, j), j, svpbmt)
    ensures AlongAll(m0, m', root, k, v, l - 1, svpbmt)
  {
    hide Blk, Along, OnPath, SplitPte;
    var d := l - 1;
    forall q: nat | Blk(q, k + 1) == Blk(v, k + 1) ensures AlongAt(m0, m', root, k, v, d, svpbmt, q) {
      assert AlongAt(m0, m, root, k, v, l, svpbmt, q);
      AlongStep(Walk(m0, root, k, q), q, v, l, svpbmt);
      LinkWalk(m, m', tables, root, k, t, l, v, nt, q);
      if Blk(q, l) == Blk(v, l) {
        LinkBlock(m, m', tables, t, l, v, nt, svpbmt, q);
      }
    }
  }

  lemma LinkBlock(m: seq<Pte>, m': seq<Pte>, tables: map<nat, Info>, t: nat, l: nat, v: nat, nt: nat, svpbmt: bool, q: nat)
    requires LinkOf(m, m', tables, t, l, v, nt) && Blk(q, l) == Blk(v, l)
    requires forall j: nat :: j < 512 ==> FillsIn(At(m, t, Part(v, l)), At(m', nt, j), j, svpbmt)
    ensures var e := At(m, t, Part(v, l));
            && Walk(m, t, l, q) == (if e.v then Leaf(l, e) else Unmapped)
            && Walk(m', nt, l - 1, q) == (if e.v then Leaf(l - 1, SplitPte(e, Part(q, l - 1), svpbmt)) else Unmapped)
  {
    hide Blk;
    assert TableOk(m, tables, t);
    assert FillsIn(At(m, t, Part(v, l)), At(m', nt, Part(q, l - 1)), Part(q, l - 1), svpbmt);
  }

  // Following an existing pointer leaves nothing to split at that level.
  lemma FollowAlong(m0: seq<Pte>, m: seq<Pte>, tables: map<nat, Info>, root: nat, k: nat, t: nat, l: nat, v: nat, svpbmt: bool)
    requires Typed(m, tables) && Serves(tables, t, l, v) && l > 0
    requires Serves(tables, root, k, v) && OnPath(m, root, k, v, t, l)
    requires AlongAll(m0, m, root, k, v, l, svpbmt)
    requires At(m, t, Part(v, l)).v && !IsLeaf(At(m, t, Part(v, l)))
    ensures AlongAll(m0, m, root, k, v, l - 1, svpbmt)
    ensures Serves(tables, At(m, t, Part(v, l)).ppn, l - 1, v)
    ensures OnPath(m, root, k, v, At(m, t, Part(v, l)).ppn, l - 1)
  {
    hide Blk, Along, OnPath, SplitPte;
    ServesNext(m, tables, t, l, v);
    PathExtend(m, root, k, v, t, l);
    var n, d := At(m, t, Part(v, l)).ppn, l - 1;
    forall q: nat | Blk(q, k + 1) == Blk(v, k + 1) ensures AlongAt(m0, m, root, k, v, d, svpbmt, q) {
      assert AlongAt(m0, m, root, k, v, l, svpbmt, q);
      AlongStep(Walk(m0, root, k, q), q, v, l, svpbmt);
      if Blk(q, l) == Blk(v, l) {
        PathWalk(m, root, k, v, n, l - 1, q);
        NeverCorrupt(m, tables, n, l - 1, q);
      }
    }
  }

  // Mapping one (super)page: its block gets the new leaf, the rest is split along the way.
  ghost predicate MapsAt(m0: seq<Pte>, m: seq<Pte>, root: nat, k: nat, v: nat, c: nat, e: Pte, svpbmt: bool, q: nat) {
    Walk(m, root, k, q) ==
      if Blk(q, c) == Blk(v, c) then Leaf(c, e) else Along(Walk(m0, root, k, q), q, v, c, svpbmt)
  }

  ghost predicate MapsAll(m0: seq<Pte>, m: seq<Pte>, root: nat, k: nat, v: nat, c: nat, e: Pte, svpbmt: bool) {
    forall q: nat :: Blk(q, k + 1) == Blk(v, k + 1) ==> MapsAt(m0, m, root, k, v, c, e, svpbmt, q)
  }

  lemma LeafMaps(m0: seq<Pte>, m: seq<Pte>, m': seq<Pte>, tables: map<nat, Info>, root: nat, k: nat,
                 t: nat, c: nat, v: nat, e: Pte, svpbmt: bool)
    requires LeafOf(m, m', tables, t, c, v, e)
    requires Serves(tables, root, k, v) && OnPath(m, root, k, v, t, c)
    requires AlongAll(m0, m, root, k, v, c, svpbmt)
    ensures MapsAll(m0, m', root, k, v, c, e, svpbmt)
  {
    hide Blk, Along, OnPath, Walk;
    forall q: nat | Blk(q, k + 1) == Blk(v, k + 1) ensures MapsAt(m0, m', root, k, v, c, e, svpbmt, q) {
      assert AlongAt(m0, m, root, k, v, c, svpbmt, q);
      LeafWalk(m, m', tables, root, k, t, c, v, e, q);
    }
  }
}
