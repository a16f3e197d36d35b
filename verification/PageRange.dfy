/** Mapping a range of pages: the exact effect of pt_map on every page, and when that is a plain
    update of the map from page numbers to frames. */
module PageRange {
  import opened Bits
  import opened PageWalk

  // Pages in a level-l (super)page.
  function Span(l: nat): (r: nat)
    ensures r >= 1
  {
    if l == 0 then 1 else 512 * Span(l - 1)
  }

  lemma SpanStep(l: nat)
    requires l > 0
    ensures Span(l) == 512 * Span(l - 1)
  {
  }

  lemma Scale(a: nat, b: nat, s: nat)
    requires a <= b
    ensures a * s <= b * s
  {
  }

  lemma BlockUp(q: nat, b: nat, c: nat, s: nat)
    requires b * s <= q < b * s + s && c == b / 512
    ensures c * (512 * s) <= q < c * (512 * s) + 512 * s
  {
    var r := b % 512;
    assert b == 512 * c + r;
    assert b * s == 512 * (c * s) + r * s;
    assert c * (512 * s) == 512 * (c * s);
    Scale(r, 511, s);
  }

  // A level-l block is the interval of Span(l) pages that its number says.
  lemma {:induction false} BlkBounds(q: nat, l: nat)
    ensures Blk(q, l) * Span(l) <= q < Blk(q, l) * Span(l) + Span(l)
  {
    hide Span, Blk;
    if l == 0 {
      SpanZero();
      BlkZero(q);
    } else {
      BlkBounds(q, l - 1);
      SpanStep(l);
      BlkUp(q, l);
      BlockUp(q, Blk(q, l - 1), Blk(q, l), Span(l - 1));
    }
  }

  lemma SpanZero()
    ensures Span(0) == 1
  {
  }

  lemma BlkZero(q: nat)
    ensures Blk(q, 0) == q
  {
  }

  lemma BlkUp(q: nat, l: nat)
    requires l > 0
    ensures Blk(q, l) == Blk(q, l - 1) / 512
  {
  }

  lemma BlkUnique(q: nat, l: nat, b: nat)
    requires b * Span(l) <= q < b * Span(l) + Span(l)
    ensures Blk(q, l) == b
  {
    hide Span, Blk;
    BlkBounds(q, l);
    QuotientUnique(Span(l), b, q - b * Span(l), Blk(q, l), q - Blk(q, l) * Span(l));
  }

  // An aligned page starts the block of Span(l) pages from there.
  lemma AlignedBlock(v: nat, l: nat, q: nat)
    requires v % Span(l) == 0
    ensures v == Blk(v, l) * Span(l)
    ensures Blk(q, l) == Blk(v, l) <==> v <= q < v + Span(l)
  {
    hide Span, Blk;
    var b, s := v / Span(l), Span(l);
    assert v == s * b && s * b == b * s;
    BlkUnique(v, l, b);
    BlkBounds(q, l);
    if v <= q < v + s {
      BlkUnique(q, l, b);
    }
  }

  // ---------------------------------------------------------------- effect of a whole range

  // The level-l block of page q has a page of [a, b) in it.
  ghost predicate Meets(q: nat, l: nat, a: nat, b: nat) {
    exists p: nat :: a <= p < b && Blk(p, l) == Blk(q, l)
  }

  // What becomes of page q's walk when [a, b) is mapped and q lies outside it.
  ghost function Degrade(w: Walked, q: nat, a: nat, b: nat, svpbmt: bool): Walked
    decreases if w.Leaf? then w.level else 0
  {
    if w.Leaf? && w.level > 0 && Meets(q, w.level, a, b) then
      Degrade(Leaf(w.level - 1, SplitPte(w.pte, Part(q, w.level - 1), svpbmt)), q, a, b, svpbmt)
    else w
  }

  lemma NothingMapped(w: Walked, q: nat, a: nat, svpbmt: bool)
    ensures Degrade(w, q, a, a, svpbmt) == w
  {
  }

  // Extending the range by an aligned chunk that q is not in.
  lemma MeetsMore(q: nat, l: nat, a: nat, v: nat, c: nat)
    requires a <= v && v % Span(c) == 0 && Blk(q, c) != Blk(v, c)
    ensures Meets(q, l, a, v + Span(c)) <==> Meets(q, l, a, v) || (l > c && Blk(q, l) == Blk(v, l))
  {
    hide Span, Blk;
    AlignedBlock(v, c, v);
    if p: nat :| a <= p < v + Span(c) && Blk(p, l) == Blk(q, l) {
      if p >= v {
        AlignedBlock(v, c, p);
        if l <= c {
          SameBlkAbove(p, q, l, c);
          assert false;
        }
        SameBlkAbove(p, v, c, l);
      }
    }
    if l > c && Blk(q, l) == Blk(v, l) {
      assert a <= v < v + Span(c) && Blk(v, l) == Blk(q, l);
    }
  }

  lemma MeetsBelow(q: nat, l: nat, a: nat, b: nat)
    requires l > 0 && Meets(q, l - 1, a, b)
    ensures Meets(q, l, a, b)
  {
    hide Blk;
    var p: nat :| a <= p < b && Blk(p, l - 1) == Blk(q, l - 1);
    SameBlkAbove(p, q, l - 1, l);
  }

  lemma NotMetStays(w: Walked, q: nat, a: nat, b: nat, svpbmt: bool)
    requires w.Leaf? ==> !Meets(q, w.level, a, b)
    ensures Degrade(w, q, a, b, svpbmt) == w
  {
  }

  lemma {:induction false} DegradeMore(w: Walked, q: nat, a: nat, v: nat, c: nat, svpbmt: bool)
    requires a <= v && v % Span(c) == 0 && Blk(q, c) != Blk(v, c)
    ensures Along(Degrade(w, q, a, v, svpbmt), q, v, c, svpbmt) == Degrade(w, q, a, v + Span(c), svpbmt)
    decreases if w.Leaf? then w.level else 0
  {
    hide Span, Blk, SplitPte, Meets;
    if w.Leaf? {
      MeetsMore(q, w.level, a, v, c);
      if w.level > 0 {
        var w' := Leaf(w.level - 1, SplitPte(w.pte, Part(q, w.level - 1), svpbmt));
        DegradeMore(w', q, a, v, c, svpbmt);
        if !Meets(q, w.level, a, v) {
          if Meets(q, w.level - 1, a, v) {
            MeetsBelow(q, w.level, a, v);
          }
          NotMetStays(w', q, a, v, svpbmt);
        }
      }
    }
  }

  // Page q of the range is mapped by a leaf whose whole block lies in the part mapped so far.
  ghost predicate MappedBy(w: Walked, q: nat, a: nat, v: nat, ppn: nat, flags: Flags, svpbmt: bool) {
    && w.Leaf?
    && var s := Blk(q, w.level) * Span(w.level);
       && a <= s && s + Span(w.level) <= v
       && (ppn + (s - a)) % Span(w.level) == 0
       && w.pte == NewLeaf(ppn + (s - a), flags, svpbmt)
  }

  ghost predicate RangeAt(m0: seq<Pte>, m: seq<Pte>, root: nat, k: nat, a: nat, v: nat, ppn: nat, flags: Flags, svpbmt: bool, q: nat) {
    if a <= q < v then MappedBy(Walk(m, root, k, q), q, a, v, ppn, flags, svpbmt)
    else Walk(m, root, k, q) == Degrade(Walk(m0, root, k, q), q, a, v, svpbmt)
  }

  // Pages [a, v) are mapped to frames from ppn on; every other page is degraded.
  ghost predicate RangeMapped(m0: seq<Pte>, m: seq<Pte>, root: nat, k: nat, a: nat, v: nat, ppn: nat, flags: Flags, svpbmt: bool) {
    forall q: nat :: Blk(q, k + 1) == 0 ==> RangeAt(m0, m, root, k, a, v, ppn, flags, svpbmt, q)
  }

  lemma RangeStart(m: seq<Pte>, root: nat, k: nat, a: nat, ppn: nat, flags: Flags, svpbmt: bool)
    ensures RangeMapped(m, m, root, k, a, a, ppn, flags, svpbmt)
  {
    hide Walk, Blk;
    forall q: nat | Blk(q, k + 1) == 0 ensures RangeAt(m, m, root, k, a, a, ppn, flags, svpbmt, q) {
      NothingMapped(Walk(m, root, k, q), q, a, svpbmt);
    }
  }

  // One more aligned chunk.
  lemma RangeStep(m0: seq<Pte>, m: seq<Pte>, m': seq<Pte>, root: nat, k: nat, a: nat, v: nat, c: nat, ppn: nat, flags: Flags, svpbmt: bool)
    requires RangeMapped(m0, m, root, k, a, v, ppn, flags, svpbmt)
    requires a <= v && v % Span(c) == 0 && (ppn + (v - a)) % Span(c) == 0 && Blk(v, k + 1) == 0
    requires MapsAll(m, m', root, k, v, c, NewLeaf(ppn + (v - a), flags, svpbmt), svpbmt)
    ensures RangeMapped(m0, m', root, k, a, v + Span(c), ppn, flags, svpbmt)
  {
    hide Walk, Blk, Span, NewLeaf, Along, Degrade;
    var next := v + Span(c);
    forall q: nat | Blk(q, k + 1) == 0 ensures RangeAt(m0, m', root, k, a, next, ppn, flags, svpbmt, q) {
      assert RangeAt(m0, m, root, k, a, v, ppn, flags, svpbmt, q);
      assert MapsAt(m, m', root, k, v, c, NewLeaf(ppn + (v - a), flags, svpbmt), svpbmt, q);
      AlignedBlock(v, c, q);
      if a <= q < v {
        MappedStays(Walk(m, root, k, q), q, a, v, c, ppn, flags, svpbmt);
      } else if q < a || next <= q {
        DegradeMore(Walk(m0, root, k, q), q, a, v, c, svpbmt);
      }
    }
  }

  // What is already mapped is not split by later chunks.
  lemma MappedStays(w: Walked, q: nat, a: nat, v: nat, c: nat, ppn: nat, flags: Flags, svpbmt: bool)
    requires MappedBy(w, q, a, v, ppn, flags, svpbmt)
    ensures Along(w, q, v, c, svpbmt) == w
  {
    hide Blk, Span, NewLeaf, SplitPte;
    BlkBounds(v, w.level);
    assert Blk(q, w.level) != Blk(v, w.level);
  }

  // ---------------------------------------------------------------- superpages

  // The level-l block from page s on lies in [a, b) and its frames are aligned to it.
  ghost predicate Eligible(s: nat, l: nat, a: nat, b: nat, ppn: nat) {
    s % Span(l) == 0 && a <= s && s + Span(l) <= b && (ppn + (s - a)) % Span(l) == 0
  }

  // Level c is the largest one up to k at which the block from page v on is eligible.
  ghost predicate Largest(v: nat, c: nat, k: nat, a: nat, b: nat, ppn: nat) {
    c <= k && Eligible(v, c, a, b, ppn) && forall l: nat :: c < l <= k ==> !Eligible(v, l, a, b, ppn)
  }

  // No eligible block has page v in its inside.
  ghost predicate Uncut(v: nat, k: nat, a: nat, b: nat, ppn: nat) {
    forall s: nat, l: nat :: l <= k && Eligible(s, l, a, b, ppn) ==> v <= s || s + Span(l) <= v
  }

  // Every page up to v is mapped by a leaf at least as large as each eligible block it is in.
  ghost predicate Coarse(m: seq<Pte>, root: nat, k: nat, a: nat, v: nat, b: nat, ppn: nat) {
    forall q: nat, s: nat, l: nat ::
      Blk(q, k + 1) == 0 && a <= q < v && l <= k && Eligible(s, l, a, b, ppn) && s <= q < s + Span(l) ==> AtLevel(m, root, k, q, l)
  }

  ghost predicate AtLevel(m: seq<Pte>, root: nat, k: nat, q: nat, l: nat) {
    Walk(m, root, k, q).Leaf? && Walk(m, root, k, q).level >= l
  }

  lemma CoarseStart(m: seq<Pte>, root: nat, k: nat, a: nat, b: nat, ppn: nat)
    ensures Uncut(a, k, a, b, ppn) && Coarse(m, root, k, a, a, b, ppn)
  {
    hide Span, Blk, Walk;
  }

  lemma {:induction false} SpanMono(a: nat, b: nat)
    requires a <= b
    ensures Span(a) <= Span(b) && (a < b ==> Span(a) < Span(b))
  {
    if a < b {
      SpanMono(a, b - 1);
    }
  }

  // Two multiples less than one step apart are equal.
  lemma CloseMultiples(x: nat, y: nat, m: nat)
    requires m > 0 && x % m == 0 && y % m == 0 && x <= y < x + m
    ensures x == y
  {
    var c, d := x / m, y / m;
    assert x == m * c && y == m * d;
    assert m * (c + 1) == m * c + m;
    if c < d {
      MulLe(m, c + 1, d);
    } else {
      MulLe(m, d, c);
    }
  }

  // The next chunk, of the largest level, cuts no eligible block either.
  lemma UncutStep(v: nat, c: nat, k: nat, a: nat, b: nat, ppn: nat)
    requires Uncut(v, k, a, b, ppn) && Largest(v, c, k, a, b, ppn)
    ensures Uncut(v + Span(c), k, a, b, ppn)
  {
    hide Span;
    var next := v + Span(c);
    forall s: nat, l: nat | l <= k && Eligible(s, l, a, b, ppn) ensures next <= s || s + Span(l) <= next {
      if s < next < s + Span(l) {
        assert v <= s;
        CutImpossible(v, c, s, l, k, a, b, ppn);
        assert false;
      }
    }
  }

  lemma CutImpossible(v: nat, c: nat, s: nat, l: nat, k: nat, a: nat, b: nat, ppn: nat)
    requires Largest(v, c, k, a, b, ppn) && l <= k && Eligible(s, l, a, b, ppn) && v <= s
    ensures !(s < v + Span(c) < s + Span(l))
  {
    hide Span;
    var next := v + Span(c);
    if s < next < s + Span(l) {
      if l <= c {
        AlignedBelow(v, l, c);
        SpanAligned(l, c);
        AddAligned(v, Span(c), Span(l));
        CloseMultiples(s, next, Span(l));
      } else {
        AlignedBelow(s, c, l);
        CloseMultiples(v, s, Span(c));
      }
      assert false;
    }
  }

  lemma {:induction false} SpanAligned(l: nat, c: nat)
    requires l <= c
    ensures Span(c) % Span(l) == 0
    decreases c
  {
    hide Span;
    if l == c {
      DivModUnique(Span(l), Span(l), 1, 0);
    } else {
      SpanAligned(l, c - 1);
      SpanStep(c);
      var d := Span(c - 1) / Span(l);
      assert Span(c - 1) == Span(l) * d;
      assert 512 * (Span(l) * d) == Span(l) * (512 * d);
      DivModUnique(Span(c), Span(l), 512 * d, 0);
    }
  }

  lemma CoarseStep(m: seq<Pte>, m': seq<Pte>, root: nat, k: nat, a: nat, v: nat, c: nat, b: nat, ppn: nat, flags: Flags,
                   m0: seq<Pte>, svpbmt: bool)
    requires Coarse(m, root, k, a, v, b, ppn) && Uncut(v, k, a, b, ppn) && Largest(v, c, k, a, b, ppn)
    requires RangeMapped(m0, m, root, k, a, v, ppn, flags, svpbmt) && Blk(v, k + 1) == 0
    requires MapsAll(m, m', root, k, v, c, NewLeaf(ppn + (v - a), flags, svpbmt), svpbmt)
    ensures Uncut(v + Span(c), k, a, b, ppn) && Coarse(m', root, k, a, v + Span(c), b, ppn)
  {
    hide Walk, Blk, Span, NewLeaf, Along;
    UncutStep(v, c, k, a, b, ppn);
    var next := v + Span(c);
    forall q: nat, s: nat, l: nat |
      Blk(q, k + 1) == 0 && a <= q < next && l <= k && Eligible(s, l, a, b, ppn) && s <= q < s + Span(l)
      ensures AtLevel(m', root, k, q, l)
    {
      assert MapsAt(m, m', root, k, v, c, NewLeaf(ppn + (v - a), flags, svpbmt), svpbmt, q);
      AlignedBlock(v, c, q);
      if q < v {
        assert RangeAt(m0, m, root, k, a, v, ppn, flags, svpbmt, q);
        MappedStays(Walk(m, root, k, q), q, a, v, c, ppn, flags, svpbmt);
        assert AtLevel(m, root, k, q, l);
      } else if l > c {
        assert v <= s && s + Span(l) <= next;
        SpanMono(c, l);
        assert false;
      }
    }
  }

  // The state of mapping [a, b) when it has come to page v.
  ghost predicate MappedTo(m0: seq<Pte>, m: seq<Pte>, root: nat, k: nat, a: nat, v: nat, b: nat, ppn: nat, flags: Flags, svpbmt: bool) {
    && RangeMapped(m0, m, root, k, a, v, ppn, flags, svpbmt)
    && Uncut(v, k, a, b, ppn) && Coarse(m, root, k, a, v, b, ppn)
  }

  lemma MappedStart(m: seq<Pte>, root: nat, k: nat, a: nat, b: nat, ppn: nat, flags: Flags, svpbmt: bool)
    ensures MappedTo(m, m, root, k, a, a, b, ppn, flags, svpbmt)
  {
    hide RangeMapped, Uncut, Coarse;
    RangeStart(m, root, k, a, ppn, flags, svpbmt);
    CoarseStart(m, root, k, a, b, ppn);
  }

  lemma MappedStep(m0: seq<Pte>, m: seq<Pte>, m': seq<Pte>, root: nat, k: nat, a: nat, v: nat, c: nat, b: nat, ppn: nat,
                   flags: Flags, svpbmt: bool)
    requires MappedTo(m0, m, root, k, a, v, b, ppn, flags, svpbmt) && Largest(v, c, k, a, b, ppn) && Blk(v, k + 1) == 0
    requires a <= v && MapsAll(m, m', root, k, v, c, NewLeaf(ppn + (v - a), flags, svpbmt), svpbmt)
    ensures MappedTo(m0, m', root, k, a, v + Span(c), b, ppn, flags, svpbmt)
  {
    hide RangeMapped, Uncut, Coarse, MapsAll, Span, NewLeaf, Blk;
    CoarseStep(m, m', root, k, a, v, c, b, ppn, flags, m0, svpbmt);
    RangeStep(m0, m, m', root, k, a, v, c, ppn, flags, svpbmt);
  }

  // The tables that mapping n pages can take at most: for every chunk those on the way to its level.
  ghost function TablesFor(k: nat, v: nat, ppn: nat, n: nat): nat
    decreases n
  {
    if n == 0 then 0
    else
      var c := BestLevel(k, v, ppn, n);
      (k - c) + TablesFor(k, v + Span(c), ppn + Span(c), n - Span(c))
  }

  ghost function BestLevel(k: nat, v: nat, ppn: nat, n: nat): (c: nat)
    requires n > 0
    ensures c <= k && v % Span(c) == 0 && ppn % Span(c) == 0 && Span(c) <= n
    ensures forall l: nat :: c < l <= k ==> !(v % Span(l) == 0 && ppn % Span(l) == 0 && Span(l) <= n)
  {
    if k == 0 then 0
    else if v % Span(k) == 0 && ppn % Span(k) == 0 && Span(k) <= n then k
    else BestLevel(k - 1, v, ppn, n)
  }

  lemma TablesForStep(k: nat, v: nat, ppn: nat, n: nat)
    requires n > 0
    ensures var c := BestLevel(k, v, ppn, n);
      TablesFor(k, v, ppn, n) == (k - c) + TablesFor(k, v + Span(c), ppn + Span(c), n - Span(c))
  {
    hide Span, BestLevel;
  }

  lemma NoTables(k: nat, v: nat, ppn: nat)
    ensures TablesFor(k, v, ppn, 0) == 0
  {
  }

  // An aligned superpage takes only the tables above it.
  lemma TablesForOne(k: nat, v: nat, ppn: nat, l: nat)
    requires l <= k && v % Span(l) == 0 && ppn % Span(l) == 0
    ensures TablesFor(k, v, ppn, Span(l)) == k - l
  {
    hide Span, BestLevel;
    var c := BestLevel(k, v, ppn, Span(l));
    if l < c {
      SpanMono(l, c);
      assert false;
    }
  }

  // ---------------------------------------------------------------- translation

  // What a page translates to: nothing, a frame with permissions and memory type, or the "PT corrupt" panic.
  datatype Translation = Fault | Frame(ppn: nat, r: bool, w: bool, x: bool, user: bool, global: bool, memory: Pbmt) | Panic

  // The memory type that flags ask for.
  ghost function MemoryType(flags: Flags, svpbmt: bool): Pbmt {
    if !svpbmt then Pma else if flags.io then Io else if flags.nc then NonCacheable else Pma
  }

  // Position of a page inside its level-l superpage.
  ghost function Offset(q: nat, l: nat): nat {
    BlkBounds(q, l);
    q - Blk(q, l) * Span(l)
  }

  // pt_walk's panics are a misaligned superpage and a pointer at the last level.
  ghost function Translate(w: Walked, q: nat): Translation {
    match w
    case Unmapped => Fault
    case Corrupt => Panic
    case Leaf(l, e) =>
      if l > 0 && e.ppn % Span(l) != 0 then Panic
      else Frame(e.ppn + Offset(q, l), e.r, e.w, e.x, e.u, e.g, e.pbmt)
  }

  lemma OffsetStep(q: nat, l: nat)
    requires l > 0
    ensures Offset(q, l) == Part(q, l - 1) * Span(l - 1) + Offset(q, l - 1)
  {
    hide Span, Blk;
    SpanStep(l);
    BlkStep(q, l - 1);
    var b, p, s := Blk(q, l), Part(q, l - 1), Span(l - 1);
    assert (512 * b + p) * s == b * (512 * s) + p * s;
  }

  lemma OffsetBounds(q: nat, l: nat)
    ensures Offset(q, l) < Span(l)
  {
    BlkBounds(q, l);
  }

  // The pages of the range translate to consecutive frames with the requested permissions.
  lemma RangeTranslates(w: Walked, q: nat, a: nat, v: nat, ppn: nat, flags: Flags, svpbmt: bool)
    requires MappedBy(w, q, a, v, ppn, flags, svpbmt) && a <= q
    ensures Translate(w, q) == Frame(ppn + (q - a), flags.r, flags.w, flags.x, !flags.kernel, flags.global, MemoryType(flags, svpbmt))
  {
    hide Span, Blk;
    OffsetBounds(q, w.level);
  }

  // At every level from 2 up at which q's superpage gets split, q lies in its first part.
  ghost predicate Faithful(k: nat, q: nat, a: nat, b: nat) {
    k == 0 || !Meets(q, k, a, b) || ((k == 1 || Part(q, k - 1) == 0) && Faithful(k - 1, q, a, b))
  }

  // A split loses the memory type.
  ghost predicate TypeKept(k: nat, e: Pte, q: nat, a: nat, b: nat) { k == 0 || !Meets(q, k, a, b) || e.pbmt == Pma }

  // Splitting never moves a page's frame up, and leaves it in place exactly if q is faithful.
  lemma {:induction false} DegradeShift(w: Walked, q: nat, a: nat, b: nat, svpbmt: bool)
    requires w.Leaf? && IsLeaf(w.pte)
    ensures var d := Degrade(w, q, a, b, svpbmt);
            && d.Leaf?
            && d.pte.ppn + Offset(q, d.level) <= w.pte.ppn + Offset(q, w.level)
            && (d.pte.ppn + Offset(q, d.level) == w.pte.ppn + Offset(q, w.level) <==> Faithful(w.level, q, a, b))
            && d.pte.r == w.pte.r && d.pte.w == w.pte.w && d.pte.x == w.pte.x && d.pte.u == w.pte.u && d.pte.g == w.pte.g
            && (d.pte.pbmt == w.pte.pbmt <==> TypeKept(w.level, w.pte, q, a, b))
    decreases w.level
  {
    hide Span, Blk, Meets, Offset, Part;
    var k := w.level;
    if k > 0 && Meets(q, k, a, b) {
      var p := Part(q, k - 1);
      DegradeShift(Leaf(k - 1, SplitPte(w.pte, p, svpbmt)), q, a, b, svpbmt);
      OffsetStep(q, k);
      SpanAtLeast(k - 1);
      Product(p, Span(k - 1));
    }
  }

  lemma SpanAtLeast(l: nat)
    ensures Span(l) == 1 <==> l == 0
  {
  }

  lemma Product(p: nat, s: nat)
    requires s >= 1
    ensures p <= p * s && (p == p * s <==> p == 0 || s == 1)
  {
  }

  lemma {:induction false} DegradeAligned(w: Walked, q: nat, a: nat, b: nat, svpbmt: bool)
    requires w.Leaf? && Faithful(w.level, q, a, b) && w.pte.ppn % Span(w.level) == 0
    ensures var d := Degrade(w, q, a, b, svpbmt); d.Leaf? && d.pte.ppn % Span(d.level) == 0
    decreases w.level
  {
    hide Span, Blk, Meets;
    var k := w.level;
    if k > 0 && Meets(q, k, a, b) {
      if k == 1 {
        SpanZero();
      } else {
        SpanStep(k);
        Divides(w.pte.ppn, Span(k - 1));
      }
      DegradeAligned(Leaf(k - 1, SplitPte(w.pte, Part(q, k - 1), svpbmt)), q, a, b, svpbmt);
    }
  }

  lemma Divides(a: nat, m: nat)
    requires m > 0 && a % (512 * m) == 0
    ensures a % m == 0
  {
    var c := a / (512 * m);
    assert a == m * (512 * c);
    DivModUnique(a, m, 512 * c, 0);
  }

  // A page outside the range keeps its translation if and only if it is faithful.
  lemma OutsideKeeps(w: Walked, q: nat, a: nat, b: nat, svpbmt: bool)
    requires w.Leaf? ==> IsLeaf(w.pte)
    requires Translate(w, q) != Panic
    ensures Translate(Degrade(w, q, a, b, svpbmt), q) == Translate(w, q) <==>
            !w.Leaf? || (Faithful(w.level, q, a, b) && TypeKept(w.level, w.pte, q, a, b))
  {
    hide Span, Blk, Meets, Offset, Faithful, SplitPte, TypeKept;
    if w.Leaf? {
      DegradeShift(w, q, a, b, svpbmt);
      OffsetBounds(q, w.level);
      OffsetBounds(q, Degrade(w, q, a, b, svpbmt).level);
      if Faithful(w.level, q, a, b) {
        if w.level == 0 { SpanZero(); }
        DegradeAligned(w, q, a, b, svpbmt);
      }
    }
  }

  // The level at which page q's superpage of level k is no longer cut, and the sum of the parts of q
  // on the way there, which the splits add to the frame.
  ghost function Reached(k: nat, q: nat, a: nat, b: nat): nat {
    if k == 0 || !Meets(q, k, a, b) then k else Reached(k - 1, q, a, b)
  }

  ghost function PartsAdded(k: nat, q: nat, a: nat, b: nat): nat {
    if k == 0 || !Meets(q, k, a, b) then 0 else Part(q, k - 1) + PartsAdded(k - 1, q, a, b)
  }

  // That sum does not misalign the superpage reached.
  ghost predicate Calm(k: nat, q: nat, a: nat, b: nat) {
    Reached(k, q, a, b) == 0 || PartsAdded(k, q, a, b) % Span(Reached(k, q, a, b)) == 0
  }

  lemma {:induction false} DegradeReaches(w: Walked, q: nat, a: nat, b: nat, svpbmt: bool)
    requires w.Leaf?
    ensures Degrade(w, q, a, b, svpbmt).Leaf?
    ensures Degrade(w, q, a, b, svpbmt).level == Reached(w.level, q, a, b) <= w.level
    ensures Degrade(w, q, a, b, svpbmt).pte.ppn == w.pte.ppn + PartsAdded(w.level, q, a, b)
    decreases w.level
  {
    hide Meets, Part;
    if w.level > 0 && Meets(q, w.level, a, b) {
      DegradeReaches(Leaf(w.level - 1, SplitPte(w.pte, Part(q, w.level - 1), svpbmt)), q, a, b, svpbmt);
    }
  }

  lemma {:induction false} AlignedBelow(x: nat, l: nat, k: nat)
    requires l <= k && x % Span(k) == 0
    ensures x % Span(l) == 0
    decreases k
  {
    hide Span;
    if l < k {
      SpanStep(k);
      Divides(x, Span(k - 1));
      AlignedBelow(x, l, k - 1);
    }
  }

  lemma AddAligned(x: nat, y: nat, m: nat)
    requires m > 0 && x % m == 0
    ensures (x + y) % m == y % m
  {
    assert x == m * (x / m);
    DropMultiple(x / m, y, m);
  }

  // A page outside the range does not panic afterwards if and only if it is calm.
  lemma OutsideCalm(w: Walked, q: nat, a: nat, b: nat, svpbmt: bool)
    requires Translate(w, q) != Panic
    ensures Translate(Degrade(w, q, a, b, svpbmt), q) != Panic <==> !w.Leaf? || Calm(w.level, q, a, b)
  {
    hide Span, Blk, Meets, Offset, SplitPte, Reached, PartsAdded, Degrade;
    if w.Leaf? {
      DegradeReaches(w, q, a, b, svpbmt);
      if w.level == 0 { SpanZero(); }
      AlignedBelow(w.pte.ppn, Reached(w.level, q, a, b), w.level);
      AddAligned(w.pte.ppn, PartsAdded(w.level, q, a, b), Span(Reached(w.level, q, a, b)));
    } else {
      NotLeafStays(w, q, a, b, svpbmt);
    }
  }

  lemma NotLeafStays(w: Walked, q: nat, a: nat, b: nat, svpbmt: bool)
    requires !w.Leaf?
    ensures Degrade(w, q, a, b, svpbmt) == w
  {
  }

  // pt_map is an update of the page map: the range translates to the new frames, and everything
  // else keeps its translation if and only if every other page is faithful.
  ghost predicate KeepsOutside(m0: seq<Pte>, m: seq<Pte>, root: nat, k: nat, a: nat, b: nat) {
    forall q: nat :: Blk(q, k + 1) == 0 && !(a <= q < b) ==>
      Translate(Walk(m, root, k, q), q) == Translate(Walk(m0, root, k, q), q)
  }

  ghost predicate FaithfulOutside(m0: seq<Pte>, root: nat, k: nat, a: nat, b: nat) {
    forall q: nat :: Blk(q, k + 1) == 0 && !(a <= q < b) && Walk(m0, root, k, q).Leaf? ==>
      var w := Walk(m0, root, k, q); Faithful(w.level, q, a, b) && TypeKept(w.level, w.pte, q, a, b)
  }

  ghost predicate CalmOutside(m0: seq<Pte>, root: nat, k: nat, a: nat, b: nat) {
    forall q: nat :: Blk(q, k + 1) == 0 && !(a <= q < b) && Walk(m0, root, k, q).Leaf? ==>
      Calm(Walk(m0, root, k, q).level, q, a, b)
  }

  ghost predicate Sound(m: seq<Pte>, root: nat, k: nat) {
    forall q: nat :: Blk(q, k + 1) == 0 ==> Translate(Walk(m, root, k, q), q) != Panic
  }

  lemma MapRefinesUpdate(m0: seq<Pte>, m: seq<Pte>, tables: map<nat, Info>, root: nat, k: nat, a: nat, b: nat, ppn: nat, flags: Flags, svpbmt: bool)
    requires Typed(m0, tables) && root in tables && tables[root] == Info(k, 0)
    requires Sound(m0, root, k) && RangeMapped(m0, m, root, k, a, b, ppn, flags, svpbmt)
    ensures forall q: nat :: Blk(q, k + 1) == 0 && a <= q < b ==>
      Translate(Walk(m, root, k, q), q) == Frame(ppn + (q - a), flags.r, flags.w, flags.x, !flags.kernel, flags.global, MemoryType(flags, svpbmt))
    ensures KeepsOutside(m0, m, root, k, a, b) <==> FaithfulOutside(m0, root, k, a, b)
    ensures FaithfulOutside(m0, root, k, a, b) ==> Sound(m, root, k)
    ensures Sound(m, root, k) <==> CalmOutside(m0, root, k, a, b)
  {
    hide Typed, Walk, Blk, Translate, Faithful, Degrade, MappedBy, Calm, TypeKept;
    forall q: nat | Blk(q, k + 1) == 0
      ensures a <= q < b ==>
        Translate(Walk(m, root, k, q), q) == Frame(ppn + (q - a), flags.r, flags.w, flags.x, !flags.kernel, flags.global, MemoryType(flags, svpbmt))
      ensures !(a <= q < b) ==>
        (Translate(Walk(m, root, k, q), q) == Translate(Walk(m0, root, k, q), q) <==>
         var w := Walk(m0, root, k, q); (w.Leaf? ==> Faithful(w.level, q, a, b) && TypeKept(w.level, w.pte, q, a, b)))
      ensures !(a <= q < b) ==>
        (Translate(Walk(m, root, k, q), q) != Panic <==>
         (Walk(m0, root, k, q).Leaf? ==> Calm(Walk(m0, root, k, q).level, q, a, b)))
    {
      assert RangeAt(m0, m, root, k, a, b, ppn, flags, svpbmt, q);
      if a <= q < b {
        RangeTranslates(Walk(m, root, k, q), q, a, b, ppn, flags, svpbmt);
      } else {
        NeverCorrupt(m0, tables, root, k, q);
        OutsideKeeps(Walk(m0, root, k, q), q, a, b, svpbmt);
        OutsideCalm(Walk(m0, root, k, q), q, a, b, svpbmt);
      }
    }
  }

  // It suffices that no superpage above level 1 is cut by the range.
  lemma NoHighSplit(k: nat, q: nat, a: nat, b: nat)
    requires k <= 1 || !Meets(q, k, a, b)
    ensures Faithful(k, q, a, b)
  {
    hide Meets;
    assert Faithful(0, q, a, b);
  }

  // Mapping a page inside a 1 GiB superpage leaves every other 2 MiB part but the first corrupt.
  lemma GigapageSplitPanics(e: Pte, q: nat, a: nat, svpbmt: bool)
    requires IsLeaf(e) && e.ppn % Span(2) == 0
    requires Blk(q, 2) == Blk(a, 2) && Blk(q, 1) != Blk(a, 1) && Part(q, 1) != 0
    ensures Translate(Leaf(2, e), q) != Panic
    ensures Translate(Degrade(Leaf(2, e), q, a, a + 1, svpbmt), q) == Panic
  {
    assert Meets(q, 2, a, a + 1);
    assert !Meets(q, 1, a, a + 1);
    var e' := SplitPte(e, Part(q, 1), svpbmt);
    NotMetStays(Leaf(1, e'), q, a, a + 1, svpbmt);
    assert Span(1) == 512 && Span(2) == 512 * 512;
  }

  // Mapping a page inside a 2 MiB superpage of device memory leaves its other pages ordinary memory.
  lemma MegapageLosesType(e: Pte, q: nat, a: nat, svpbmt: bool)
    requires IsLeaf(e) && e.ppn % Span(1) == 0 && e.pbmt == Io && Blk(q, 1) == Blk(a, 1) && q != a
    ensures Translate(Leaf(1, e), q) == Frame(e.ppn + Offset(q, 1), e.r, e.w, e.x, e.u, e.g, Io)
    ensures Translate(Degrade(Leaf(1, e), q, a, a + 1, svpbmt), q) == Frame(e.ppn + Offset(q, 1), e.r, e.w, e.x, e.u, e.g, Pma)
  {
    hide Span, Blk, Offset;
    assert Meets(q, 1, a, a + 1);
    NoHighSplit(1, q, a, a + 1);
    DegradeShift(Leaf(1, e), q, a, a + 1, svpbmt);
    DegradeReaches(Leaf(1, e), q, a, a + 1, svpbmt);
    assert Reached(1, q, a, a + 1) == 0;
    SplitIsOrdinary(e, Part(q, 0), svpbmt);
  }

  lemma SplitIsOrdinary(e: Pte, i: nat, svpbmt: bool)
    ensures SplitPte(e, i, svpbmt).pbmt == Pma
  {
  }

  // ---------------------------------------------------------------- page numbers beyond the indexed space

  lemma Regroup(a: nat, b: nat, s: nat)
    ensures (a * b) * s == a * (b * s)
  {
  }

  lemma {:induction false} SpanProduct(a: nat, b: nat)
    ensures Span(a + b) == Span(a) * Span(b)
  {
    hide Span;
    if a == 0 {
      SpanZero();
    } else {
      SpanProduct(a - 1, b);
      SpanStep(a);
      SpanStep(a + b);
      assert (512 * Span(a - 1)) * Span(b) == 512 * (Span(a - 1) * Span(b));
    }
  }

  lemma IndexBlock(q: nat, k: nat, l: nat)
    requires l <= k
    ensures var i, z := Offset(q, k + 1), 512 * (Blk(q, k + 1) * Span(k - l));
      Blk(i, k + 1) == 0 && Blk(q, l) == z + Blk(i, l) && (z + Blk(i, l)) * Span(l) == Blk(i, l) * Span(l) + (q - i)
  {
    hide Span, Blk;
    var b, i, s, t := Blk(q, k + 1), Offset(q, k + 1), Span(l), Span(k - l);
    OffsetBounds(q, k + 1);
    BlkUnique(i, k + 1, 0);
    SpanProduct(k + 1 - l, l);
    SpanStep(k + 1 - l);
    BlkBounds(i, l);
    Combine(b, t, Blk(i, l), s);
    BlkUnique(q, l, 512 * (b * t) + Blk(i, l));
  }

  // The bits of a page number above the indexed ones do not reach the walk.
  lemma SameIndex(q: nat, k: nat, l: nat)
    requires l <= k
    ensures var i := Offset(q, k + 1); Part(i, l) == Part(q, l) && Offset(i, l) == Offset(q, l) && Blk(i, k + 1) == 0
  {
    hide Span, Blk;
    IndexBlock(q, k, l);
    DropMultiple(Blk(q, k + 1) * Span(k - l), Blk(Offset(q, k + 1), l), 512);
  }

  lemma Combine(b: nat, t: nat, x: nat, s: nat)
    ensures (512 * (b * t) + x) * s == b * ((512 * t) * s) + x * s
  {
    assert b * ((512 * t) * s) == (512 * (b * t)) * s;
  }

  lemma {:induction false} SameWalk(m: seq<Pte>, t: nat, l: nat, q: nat, k: nat)
    requires l <= k
    ensures Walk(m, t, l, Offset(q, k + 1)) == Walk(m, t, l, q)
    ensures Walk(m, t, l, q).Leaf? ==> Walk(m, t, l, q).level <= l
    decreases l
  {
    hide Offset, Part;
    SameIndex(q, k, l);
    if l > 0 {
      SameWalk(m, At(m, t, Part(q, l)).ppn, l - 1, q, k);
    }
  }

  lemma OffsetIsMod(x: nat, l: nat)
    ensures Offset(x, l) == x % Span(l)
  {
    hide Span, Blk;
    BlkBounds(x, l);
    DivModUnique(x, Span(l), Blk(x, l), Offset(x, l));
  }

  // Pages of one indexed space follow each other there as well.
  lemma OffsetAdd(v: nat, d: nat, l: nat)
    requires Offset(v, l) + d < Span(l)
    ensures Offset(v + d, l) == Offset(v, l) + d
  {
    hide Span, Blk;
    BlkBounds(v, l);
    BlkUnique(v + d, l, Blk(v, l));
  }
}
