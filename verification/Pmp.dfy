/** Physical memory protection: compiling a process's regions to PMP entries.

    The meaning of the entries follows section 3.7.1 of the RISC-V Privileged Architecture
    v20211203: the lowest-numbered entry that matches a byte decides. */
module Pmp {
  import opened Bits
  import opened Options
  import opened Words

  datatype Mode = Off | Tor | Na4 | Napot
  datatype Perm = Perm(read: bool, write: bool, exec: bool)
  datatype Entry = Entry(mode: Mode, perm: Perm, addr: nat)
  datatype Region = Region(paddr: nat, size: nat, write: bool, exec: bool)
  const PMP_COUNT: nat := 8
  const NO_PERM: Perm := Perm(false, false, false)

  // ---------------------------------------------------------------- hardware

  function TrailingOnes(a: nat): nat {
    if a % 2 == 0 then 0 else 1 + TrailingOnes(a / 2)
  }

  // The low bits below the granularity do not take part in TOR matching.
  function TorBound(a: nat, grain: nat): nat
    requires grain > 0
  {
    4 * a - (4 * a) % grain
  }

  // Whether entry i of the list matches byte y.
  predicate Matches(es: seq<Entry>, i: nat, grain: nat, y: nat)
    requires i < |es| && grain > 0
  {
    var e := es[i];
    match e.mode
    case Off => false
    case Tor => (if i == 0 then 0 else TorBound(es[i - 1].addr, grain)) <= y < TorBound(e.addr, grain)
    case Na4 => 4 * e.addr <= y < 4 * e.addr + 4
    case Napot =>
      var t := TrailingOnes(e.addr);
      4 * (e.addr + 1 - Pow2(t)) <= y < 4 * (e.addr + 1 - Pow2(t)) + Pow2(t + 3)
  }

  // The permissions of the lowest-numbered matching entry.
  function FirstMatch(es: seq<Entry>, grain: nat, y: nat): Option<Perm>
    requires grain > 0
  {
    if es == [] then None
    else
      var before := FirstMatch(es[..|es| - 1], grain, y);
      if before.Some? then before
      else if Matches(es, |es| - 1, grain, y) then Some(es[|es| - 1].perm)
      else None
  }

  lemma {:induction false} FirstMatchIsLowest(es: seq<Entry>, grain: nat, y: nat)
    requires grain > 0
    ensures FirstMatch(es, grain, y).None? <==> forall i :: 0 <= i < |es| ==> !Matches(es, i, grain, y)
    ensures FirstMatch(es, grain, y).Some? ==>
      exists i :: 0 <= i < |es| && Matches(es, i, grain, y) && FirstMatch(es, grain, y) == Some(es[i].perm)
                  && forall j :: 0 <= j < i ==> !Matches(es, j, grain, y)
  {
    if es != [] {
      var n := |es| - 1;
      FirstMatchIsLowest(es[..n], grain, y);
      assert forall i :: 0 <= i < n ==> Matches(es[..n], i, grain, y) == Matches(es, i, grain, y);
    }
  }

  // Entries that are off add nothing, whatever addresses they hold.
  lemma {:induction false} OffTail(es: seq<Entry>, tail: seq<Entry>, grain: nat, y: nat)
    requires grain > 0 && forall i :: 0 <= i < |tail| ==> tail[i].mode == Off
    ensures FirstMatch(es + tail, grain, y) == FirstMatch(es, grain, y)
  {
    if tail == [] {
      assert es + tail == es;
    } else {
      var n := |tail| - 1;
      OffTail(es, tail[..n], grain, y);
      assert (es + tail)[..|es + tail| - 1] == es + tail[..n];
    }
  }

  // ---------------------------------------------------------------- generator

  predicate IsNapot(base: nat, size: nat) {
    8 <= size && And(size, size - 1) == 0 && And(base, size - 1) == 0
  }

  function CalcNapot(base: nat, size: nat): nat
    requires 8 <= size
  {
    Or(base / 4, size / 8 - 1)
  }

  // The ports that use the PMP have 32-bit addresses.
  function End(r: Region): nat {
    (r.paddr + r.size) % WORD
  }

  // The end of the last region handled, from which a TOR entry can start without a base entry.
  function PrevAddr(rs: seq<Region>): nat {
    if rs == [] then 0 else End(rs[|rs| - 1])
  }

  function PermOf(r: Region): Perm {
    Perm(true, r.write, r.exec)
  }

  // The region gets a NA4 or NAPOT entry of its own.
  predicate SelfContained(r: Region, prev: nat) {
    r.paddr != prev && (r.size == 4 || IsNapot(r.paddr, r.size))
  }

  function Emit(r: Region, prev: nat): seq<Entry> {
    if r.paddr != prev && r.size == 4 then
      [Entry(Na4, PermOf(r), r.paddr / 4)]
    else if r.paddr != prev && IsNapot(r.paddr, r.size) then
      [Entry(Napot, PermOf(r), CalcNapot(r.paddr, r.size))]
    else if r.paddr != prev then
      [Entry(Off, NO_PERM, r.paddr / 4), Entry(Tor, PermOf(r), End(r) / 4)]
    else
      [Entry(Tor, PermOf(r), End(r) / 4)]
  }

  function Entries(rs: seq<Region>): seq<Entry> {
    if rs == [] then []
    else Entries(rs[..|rs| - 1]) + Emit(rs[|rs| - 1], PrevAddr(rs[..|rs| - 1]))
  }

  // ---------------------------------------------------------------- intent

  predicate Inside(r: Region, y: nat) {
    r.paddr <= y < r.paddr + r.size
  }

  predicate GrainAligned(r: Region, grain: nat)
    requires grain > 0
  {
    r.paddr % grain == 0 && r.size % grain == 0
  }

  ghost predicate WellFormed(rs: seq<Region>, grain: nat)
    requires grain > 0
  {
    && (forall i :: 0 <= i < |rs| ==>
          rs[i].paddr < WORD && rs[i].paddr + rs[i].size <= WORD && GrainAligned(rs[i], grain))
    && (forall i, j, y :: 0 <= i < j < |rs| && Inside(rs[i], y) ==> !Inside(rs[j], y))
  }

  // The permissions a region asks for: always to read, and to write and execute as its fields say.
  predicate Asks(r: Region, p: Perm) { p.read && p.write == r.write && p.exec == r.exec }

  // The permissions a byte should have: those of the region it lies in.
  ghost predicate IntendedAt(rs: seq<Region>, y: nat, o: Option<Perm>) {
    && (o.None? <==> forall i :: 0 <= i < |rs| ==> !Inside(rs[i], y))
    && (o.Some? ==> exists i :: 0 <= i < |rs| && Inside(rs[i], y) && Asks(rs[i], o.value))
  }

  // Region i is encoded soundly: its end does not wrap to zero in a TOR entry, and it does not
  // take the wrapped end of a self-contained region at the top of memory for its own base.
  predicate EncodesWell(rs: seq<Region>, i: nat)
    requires i < |rs|
  {
    && (rs[i].paddr + rs[i].size < WORD || SelfContained(rs[i], PrevAddr(rs[..i])))
    && !(i > 0 && rs[i].paddr == 0 && rs[i - 1].paddr + rs[i - 1].size == WORD
         && SelfContained(rs[i - 1], PrevAddr(rs[..i - 1])))
  }

  // What the generated entries grant, exactly.
  ghost predicate GrantedAt(rs: seq<Region>, y: nat, o: Option<Perm>) {
    && (o.None? <==> forall i :: 0 <= i < |rs| && Inside(rs[i], y) ==> !EncodesWell(rs, i))
    && (o.Some? ==> exists i :: 0 <= i < |rs| && Inside(rs[i], y) && EncodesWell(rs, i) && Asks(rs[i], o.value))
  }

  // ---------------------------------------------------------------- arithmetic

  lemma HalfAligned(b: nat, k: nat)
    requires b % Pow2(k + 1) == 0
    ensures b % 2 == 0 && (b / 2) % Pow2(k) == 0
  {
    DivModHalf(b, Pow2(k));
  }

  lemma {:induction false} LessAligned(b: nat, k: nat)
    requires b % Pow2(k + 1) == 0
    ensures b % Pow2(k) == 0
  {
    hide Pow2;
    if k == 0 {
      Pow2Zero();
    } else {
      HalfAligned(b, k);
      LessAligned(b / 2, k - 1);
      Pow2Step(k);
      DivModHalf(b, Pow2(k - 1));
    }
  }

  lemma {:induction false} TrailingOnesOfMask(b: nat, m: nat)
    requires b % Pow2(m + 1) == 0
    ensures TrailingOnes(b + Pow2(m) - 1) == m
  {
    hide Pow2;
    HalfAligned(b, m);
    if m == 0 {
      Pow2Zero();
    } else {
      Pow2Step(m);
      TrailingOnesOfMask(b / 2, m - 1);
      assert (b + Pow2(m) - 1) / 2 == b / 2 + Pow2(m - 1) - 1;
    }
  }

  lemma SumAligned(a: nat, b: nat, grain: nat)
    requires grain > 0 && a % grain == 0 && b % grain == 0
    ensures (a + b) % grain == 0
  {
    assert a + b == grain * (a / grain + b / grain);
    DivModUnique(a + b, grain, a / grain + b / grain, 0);
  }

  lemma MultipleOfFour(a: nat, g: nat)
    requires g >= 2 && a % Pow2(g) == 0
    ensures a % 4 == 0
  {
    hide Pow2;
    Pow2Step(g);
    Pow2Step(g - 1);
    FourTimes(a, Pow2(g - 2));
  }

  lemma FourTimes(a: nat, m: nat)
    requires m > 0 && a % (4 * m) == 0
    ensures a % 4 == 0
  {
    var c := a / (4 * m);
    assert a == (4 * m) * c;
    assert (4 * m) * c == 4 * (m * c);
  }

  // Rounding down to the granularity stays at or above any aligned lower bound.
  lemma RoundDownAbove(x: nat, base: nat, grain: nat)
    requires grain > 0 && base % grain == 0 && base <= x
    ensures base <= x - x % grain <= x
  {
    var q, b := x / grain, base / grain;
    assert x == grain * q + x % grain && base == grain * b;
    if q < b {
      MulLe(grain, q + 1, b);
      assert false;
    }
    MulLe(grain, b, q);
  }

  // The test accepts exactly the power-of-two sizes from eight bytes on, at a multiple of the size.
  lemma NapotExact(base: nat, size: nat)
    ensures IsNapot(base, size) <==> exists k: nat :: k >= 3 && size == Pow2(k) && base % size == 0
  {
    hide Pow2, And;
    if size >= 8 {
      PowerOfTwoTest(size);
      if IsPow2(size) {
        var k: nat :| size == Pow2(k);
        AndLowMask(base, k);
        if k < 3 {
          Pow2Mono(k, 2);
          SmallPowers();
          assert false;
        }
      }
    } else if k: nat :| k >= 3 && size == Pow2(k) {
      Pow2Mono(3, k);
      SmallPowers();
    }
  }

  lemma SmallPowers()
    ensures Pow2(2) == 4 && Pow2(3) == 8
  {
  }

  // A region takes one entry if it continues the one before, or is four bytes or naturally aligned; else two.
  lemma EntriesUsed(r: Region, prev: nat)
    ensures |Emit(r, prev)| == if r.paddr == prev || r.size == 4 || (exists k: nat :: k >= 3 && r.size == Pow2(k) && r.paddr % r.size == 0) then 1 else 2
  {
    hide Pow2, IsNapot;
    NapotExact(r.paddr, r.size);
  }

  // The NAPOT encoding decodes to the region it was computed from.
  lemma NapotDecodes(base: nat, size: nat)
    requires IsNapot(base, size)
    ensures var a := CalcNapot(base, size);
            var t := TrailingOnes(a);
            && Pow2(t + 3) == size && 4 * (a + 1 - Pow2(t)) == base
            && a == base / 4 + size / 8 - 1 && base % 4 == 0 && base % size == 0 && size % 8 == 0
  {
    hide Pow2, And, Or, TrailingOnes;
    var k := NapotOrder(base, size);
    var m := k - 3;
    Pow2Step(m + 1); Pow2Step(m + 2); Pow2Step(m + 3);
    HalfAligned(base, m + 2);
    HalfAligned(base / 2, m + 1);
    assert base / 4 == base / 2 / 2;
    LessAligned(base / 4, m);
    OrDisjoint(base / 4, Pow2(m) - 1, m);
    TrailingOnesOfMask(base / 4, m);
  }

  lemma NapotOrder(base: nat, size: nat) returns (k: nat)
    requires IsNapot(base, size)
    ensures k >= 3 && size == Pow2(k) && base % size == 0
  {
    PowerOfTwoTest(size);
    k :| size == Pow2(k);
    if k < 3 {
      Pow2Mono(k, 2);
      assert false;
    }
    AndLowMask(base, k);
  }

  // ---------------------------------------------------------------- meaning of one region's entries

  // The bound the next TOR entry starts from: the region's end, or a point inside the region.
  lemma LastBound(rs: seq<Region>, g: nat)
    requires rs != [] && g >= 2 && WellFormed(rs, Pow2(g))
    ensures Entries(rs) != []
    ensures var r, es := rs[|rs| - 1], Entries(rs);
            var bound := TorBound(es[|es| - 1].addr, Pow2(g));
            if SelfContained(r, PrevAddr(rs[..|rs| - 1])) then r.paddr <= bound < r.paddr + r.size else bound == End(r)
  {
    hide Pow2, And, IsNapot;
    var r := rs[|rs| - 1];
    var prev := PrevAddr(rs[..|rs| - 1]);
    var es := Entries(rs);
    assert es[|es| - 1] == Emit(r, prev)[|Emit(r, prev)| - 1];
    MultipleOfFour(r.paddr, g);
    if SelfContained(r, prev) {
      if r.size != 4 {
        NapotDecodes(r.paddr, r.size);
        NapotAtLeastEight(r.paddr, r.size);
      }
      RoundDownAbove(4 * es[|es| - 1].addr, r.paddr, Pow2(g));
    } else {
      EndAligned(r, g);
    }
  }

  lemma NapotAtLeastEight(base: nat, size: nat)
    requires IsNapot(base, size)
    ensures 8 <= size
  {
  }

  lemma EndAligned(r: Region, g: nat)
    requires g >= 2 && GrainAligned(r, Pow2(g)) && r.paddr + r.size <= WORD
    ensures End(r) % Pow2(g) == 0 && TorBound(End(r) / 4, Pow2(g)) == End(r)
    ensures TorBound(r.paddr / 4, Pow2(g)) == r.paddr
  {
    hide Pow2;
    SumAligned(r.paddr, r.size, Pow2(g));
    if r.paddr + r.size == WORD {
      assert End(r) == 0;
      DivModUnique(0, Pow2(g), 0, 0);
    }
    MultipleOfFour(End(r), g);
    MultipleOfFour(r.paddr, g);
  }

  // A self-contained entry matches exactly its region.
  lemma SelfMatches(es: seq<Entry>, r: Region, prev: nat, grain: nat, y: nat)
    requires grain > 0 && SelfContained(r, prev) && r.paddr % 4 == 0
    ensures Matches(es + Emit(r, prev), |es|, grain, y) <==> Inside(r, y)
  {
    hide Pow2, And, TrailingOnes;
    if r.size != 4 {
      NapotDecodes(r.paddr, r.size);
    }
  }

  // A TOR entry with its own base entry matches its region, unless the region's end wraps.
  lemma BasedMatches(es: seq<Entry>, r: Region, prev: nat, g: nat, y: nat)
    requires g >= 2 && GrainAligned(r, Pow2(g)) && r.paddr + r.size <= WORD
    requires r.paddr != prev && !SelfContained(r, prev)
    ensures !Matches(es + Emit(r, prev), |es|, Pow2(g), y)
    ensures Matches(es + Emit(r, prev), |es| + 1, Pow2(g), y) <==> Inside(r, y) && r.paddr + r.size < WORD
  {
    hide Pow2, IsNapot, TorBound, TrailingOnes;
    EndAligned(r, g);
  }

  lemma TorMatches(es: seq<Entry>, r: Region, g: nat, y: nat)
    requires g >= 2 && GrainAligned(r, Pow2(g)) && r.paddr + r.size <= WORD
    ensures Matches(es + Emit(r, r.paddr), |es|, Pow2(g), y) <==>
            (if es == [] then 0 else TorBound(es[|es| - 1].addr, Pow2(g))) <= y < End(r)
  {
    hide Pow2, IsNapot, TorBound, TrailingOnes, CalcNapot;
    EndAligned(r, g);
  }

  // A TOR entry that continues from the previous region can only reach back into that region,
  // where an earlier entry already matches.
  lemma ContinuedMatches(rs: seq<Region>, g: nat, y: nat)
    requires g >= 2 && WellFormed(rs, Pow2(g)) && rs != []
    requires rs[|rs| - 1].paddr == PrevAddr(rs[..|rs| - 1])
    requires forall i :: 0 <= i < |rs| - 1 && Inside(rs[i], y) ==> !EncodesWell(rs, i)
    ensures var n := |rs| - 1;
            var es := Entries(rs[..n]);
            Matches(es + Emit(rs[n], PrevAddr(rs[..n])), |es|, Pow2(g), y) <==> Inside(rs[n], y) && EncodesWell(rs, n)
  {
    hide Pow2, IsNapot, TorBound, Entries, Matches, Emit, GrainAligned, SelfContained, End;
    var n := |rs| - 1;
    var p, r := rs[..n], rs[n];
    TorMatches(Entries(p), r, g, y);
    EndIs(r);
    EmptyEntries();
    ContinuedNotSelf(r, PrevAddr(p));
    if n > 0 {
      LastBound(p, g);
      var q := rs[n - 1];
      assert p[..n - 1] == rs[..n - 1] && p[n - 1] == q;
      if SelfContained(q, PrevAddr(rs[..n - 1])) {
        assert !(Inside(q, q.paddr) && Inside(r, q.paddr));
        var es := Entries(p);
        ContinuedFromSelf(q, r, TorBound(es[|es| - 1].addr, Pow2(g)), y);
        SelfEncodesWell(rs, n - 1);
      }
    }
  }

  lemma EndIs(r: Region)
    requires r.paddr + r.size <= WORD
    ensures End(r) == if r.paddr + r.size == WORD then 0 else r.paddr + r.size
  {
  }

  lemma ContinuedNotSelf(r: Region, prev: nat)
    requires r.paddr == prev
    ensures !SelfContained(r, prev)
  {
  }

  lemma ContinuedFromSelf(q: Region, r: Region, bound: nat, y: nat)
    requires q.paddr + q.size <= WORD && r.paddr + r.size <= WORD && r.paddr == End(q)
    requires q.paddr <= bound < q.paddr + q.size
    requires !(Inside(q, q.paddr) && Inside(r, q.paddr))
    ensures q.paddr + q.size == WORD ==> r.paddr == 0 && !(bound <= y < End(r))
    ensures q.paddr + q.size < WORD && !Inside(q, y) ==>
      (bound <= y < End(r) <==> Inside(r, y) && r.paddr + r.size < WORD)
  {
  }

  // What the last region adds, for a byte no earlier entry matches.
  lemma LastRegion(rs: seq<Region>, g: nat, y: nat)
    requires g >= 2 && WellFormed(rs, Pow2(g)) && rs != []
    requires forall i :: 0 <= i < |rs| - 1 && Inside(rs[i], y) ==> !EncodesWell(rs, i)
    requires FirstMatch(Entries(rs[..|rs| - 1]), Pow2(g), y).None?
    ensures FirstMatch(Entries(rs), Pow2(g), y) ==
            if Inside(rs[|rs| - 1], y) && EncodesWell(rs, |rs| - 1) then Some(PermOf(rs[|rs| - 1])) else None
  {
    hide Pow2, IsNapot, Matches, Entries, FirstMatch, EncodesWell;
    var n := |rs| - 1;
    var r, prev := rs[n], PrevAddr(rs[..n]);
    var es := Entries(rs[..n]);
    EntriesStep(rs);
    if SelfContained(r, prev) {
      MultipleOfFour(r.paddr, g);
      SelfMatches(es, r, prev, Pow2(g), y);
      SelfEncodesWell(rs, n);
      FirstMatchSnoc(es, Emit(r, prev)[0], Pow2(g), y);
    } else if r.paddr == prev {
      ContinuedMatches(rs, g, y);
      FirstMatchSnoc(es, Emit(r, prev)[0], Pow2(g), y);
    } else {
      BasedMatches(es, r, prev, g, y);
      var all := es + Emit(r, prev);
      var base := es + [Emit(r, prev)[0]];
      assert all == base + [Emit(r, prev)[1]] && all[..|es| + 1] == base;
      MatchesPrefix(all, |es| + 1, |es|, Pow2(g), y);
      FirstMatchSnoc(es, Emit(r, prev)[0], Pow2(g), y);
      FirstMatchSnoc(base, Emit(r, prev)[1], Pow2(g), y);
      BasedEncodesWell(rs, n);
    }
  }

  lemma EmptyEntries()
    ensures Entries([]) == []
  {
  }

  lemma EmptyMatch(grain: nat, y: nat)
    requires grain > 0
    ensures FirstMatch(Entries([]), grain, y) == None
  {
  }

  lemma EncodesWellPrefix(rs: seq<Region>, n: nat)
    requires n <= |rs|
    ensures forall i :: 0 <= i < n ==> EncodesWell(rs[..n], i) == EncodesWell(rs, i)
  {
    hide IsNapot;
    forall i | 0 <= i < n ensures EncodesWell(rs[..n], i) == EncodesWell(rs, i) {
      assert rs[..n][..i] == rs[..i];
      assert i > 0 ==> rs[..n][..i - 1] == rs[..i - 1];
    }
  }

  lemma EntriesStep(rs: seq<Region>)
    requires rs != []
    ensures Entries(rs) == Entries(rs[..|rs| - 1]) + Emit(rs[|rs| - 1], PrevAddr(rs[..|rs| - 1]))
  {
  }

  lemma FirstMatchSnoc(es: seq<Entry>, e: Entry, grain: nat, y: nat)
    requires grain > 0
    ensures FirstMatch(es + [e], grain, y) ==
            var before := FirstMatch(es, grain, y);
            if before.Some? then before
            else if Matches(es + [e], |es|, grain, y) then Some(e.perm)
            else None
  {
    assert (es + [e])[..|es|] == es;
  }

  lemma BasedEncodesWell(rs: seq<Region>, i: nat)
    requires i < |rs| && rs[i].paddr != PrevAddr(rs[..i]) && !SelfContained(rs[i], PrevAddr(rs[..i]))
    ensures EncodesWell(rs, i) <==> rs[i].paddr + rs[i].size < WORD
  {
    hide IsNapot;
    assert i > 0 ==> rs[..i][i - 1] == rs[i - 1];
  }

  lemma SelfEncodesWell(rs: seq<Region>, i: nat)
    requires i < |rs| && SelfContained(rs[i], PrevAddr(rs[..i]))
    ensures EncodesWell(rs, i)
  {
    hide IsNapot;
    assert i > 0 ==> rs[..i][i - 1] == rs[i - 1];
  }

  lemma MatchesPrefix(es: seq<Entry>, m: nat, i: nat, grain: nat, y: nat)
    requires i < m <= |es| && grain > 0
    ensures Matches(es[..m], i, grain, y) == Matches(es, i, grain, y)
  {
  }

  // The generated entries grant each byte of a soundly encoded region that region's permissions,
  // and match no other byte.
  lemma {:induction false} EntriesGrant(rs: seq<Region>, g: nat, y: nat)
    requires g >= 2 && WellFormed(rs, Pow2(g))
    ensures GrantedAt(rs, y, FirstMatch(Entries(rs), Pow2(g), y))
  {
    hide Pow2, IsNapot, FirstMatch, Entries, EncodesWell;
    if rs == [] {
      EmptyMatch(Pow2(g), y);
    } else {
      var n := |rs| - 1;
      var p, r := rs[..n], rs[n];
      EntriesGrant(p, g, y);
      EncodesWellPrefix(rs, n);
      EntriesStep(rs);
      var before := FirstMatch(Entries(p), Pow2(g), y);
      if before.None? {
        LastRegion(rs, g, y);
      } else {
        EarlierMatchStays(Entries(p), Emit(r, PrevAddr(p)), Pow2(g), y);
      }
    }
  }

  lemma {:induction false} EarlierMatchStays(es: seq<Entry>, more: seq<Entry>, grain: nat, y: nat)
    requires grain > 0 && FirstMatch(es, grain, y).Some?
    ensures FirstMatch(es + more, grain, y) == FirstMatch(es, grain, y)
  {
    if more == [] {
      assert es + more == es;
    } else {
      var n := |more| - 1;
      EarlierMatchStays(es, more[..n], grain, y);
      assert (es + more)[..|es + more| - 1] == es + more[..n];
    }
  }

  lemma GrantedVersusIntended(rs: seq<Region>, grain: nat, y: nat, o: Option<Perm>)
    requires grain > 0 && WellFormed(rs, grain) && GrantedAt(rs, y, o)
    ensures IntendedAt(rs, y, o) <==> forall i :: 0 <= i < |rs| && Inside(rs[i], y) ==> EncodesWell(rs, i)
  {
    hide EncodesWell, GrainAligned;
  }

  // First-match evaluation of the generated entries gives byte y what its region says.
  ghost predicate GrantsByte(rs: seq<Region>, g: nat, y: nat) {
    IntendedAt(rs, y, FirstMatch(Entries(rs), Pow2(g), y))
  }

  // Every byte gets exactly the permissions of its region, if and only if every non-empty region
  // is soundly encoded.
  lemma GrantsIntent(rs: seq<Region>, g: nat)
    requires g >= 2 && WellFormed(rs, Pow2(g))
    ensures (forall y: nat :: GrantsByte(rs, g, y))
            <==> forall i :: 0 <= i < |rs| && rs[i].size > 0 ==> EncodesWell(rs, i)
  {
    hide Pow2, FirstMatch, EncodesWell, Entries, GrantedAt, IntendedAt, WellFormed;
    forall y: nat
      ensures GrantsByte(rs, g, y) <==> forall i :: 0 <= i < |rs| && Inside(rs[i], y) ==> EncodesWell(rs, i)
    {
      EntriesGrant(rs, g, y);
      GrantedVersusIntended(rs, Pow2(g), y, FirstMatch(Entries(rs), Pow2(g), y));
    }
    if i :| 0 <= i < |rs| && rs[i].size > 0 && !EncodesWell(rs, i) {
      assert Inside(rs[i], rs[i].paddr);
      assert !GrantsByte(rs, g, rs[i].paddr);
    }
  }

  lemma TwelveIsNotNapot(base: nat)
    ensures !IsNapot(base, 12)
  {
    assert And(3, 2) == 2;
    assert And(6, 5) == 4;
    assert And(12, 11) == 8;
  }

  // Twelve bytes up to the end of memory: their upper bound wraps to zero and none of them is granted.
  lemma TopDenied(y: nat)
    requires 0xFFFF_FFF4 <= y < WORD
    ensures var rs := [Region(0xFFFF_FFF4, 12, true, false)];
      WellFormed(rs, Pow2(2)) && FirstMatch(Entries(rs), Pow2(2), y) == None && !GrantsByte(rs, 2, y)
  {
    hide FirstMatch, Entries, IsNapot;
    var rs := [Region(0xFFFF_FFF4, 12, true, false)];
    assert rs[..0] == [];
    assert Pow2(2) == 4;
    TwelveIsNotNapot(0xFFFF_FFF4);
    EntriesGrant(rs, 2, y);
    assert Inside(rs[0], y);
  }

  // ---------------------------------------------------------------- riscv_pmp_memprotect

  // Whether region r fails the granularity test of the generator.
  predicate Misaligned(r: Region, grain: nat)
    requires grain > 0
  {
    And(Or(r.paddr, r.size), grain - 1) != 0
  }

  lemma EvenHalf(a: nat, m: nat)
    requires m > 0
    ensures a % (2 * m) == 0 <==> a % 2 == 0 && (a / 2) % m == 0
  {
    DivModHalf(a, m);
  }

  lemma {:induction false} OrAligned(a: nat, b: nat, g: nat)
    ensures Or(a, b) % Pow2(g) == 0 <==> a % Pow2(g) == 0 && b % Pow2(g) == 0
  {
    hide Pow2, Or;
    if g == 0 {
      Pow2Zero();
    } else {
      Pow2Step(g);
      OrAligned(a / 2, b / 2, g - 1);
      OrHalf(a, b);
      EvenHalf(a, Pow2(g - 1));
      EvenHalf(b, Pow2(g - 1));
      EvenHalf(Or(a, b), Pow2(g - 1));
    }
  }

  lemma MisalignedMeans(r: Region, g: nat)
    ensures Misaligned(r, Pow2(g)) <==> !GrainAligned(r, Pow2(g))
  {
    AndLowMask(Or(r.paddr, r.size), g);
    OrAligned(r.paddr, r.size, g);
  }

  class PmpContext {
    var entries: seq<Entry>

    constructor ()
      ensures |entries| == PMP_COUNT
    {
      entries := seq(PMP_COUNT, i => Entry(Off, NO_PERM, 0));
    }

    // The committed entries are those of the regions, followed by switched-off ones.
    ghost predicate Holds(es: seq<Entry>)
      reads this
    {
      && |entries| == PMP_COUNT && |es| <= PMP_COUNT
      && entries[..|es|] == es
      && forall i :: |es| <= i < PMP_COUNT ==> entries[i].mode == Off
    }

    method Memprotect(regions: seq<Region>, g: nat) returns (ok: bool)
      modifies this
      ensures ok <==> (forall i :: 0 <= i < |regions| ==> GrainAligned(regions[i], Pow2(g)))
                      && |Entries(regions)| <= PMP_COUNT
      ensures ok ==> Holds(Entries(regions))
      ensures !ok ==> entries == old(entries)
    {
      hide IsNapot, Pow2, CalcNapot, Misaligned, GrainAligned, Entries, PermOf;
      var grain := Pow2(g);
      var prevAddr := 0;
      var pmp := 0;
      var tmp := new Entry[PMP_COUNT];
      EmptyEntries();
      for i := 0 to |regions|
        invariant fresh(tmp) && entries == old(entries)
        invariant prevAddr == PrevAddr(regions[..i])
        invariant pmp == |Entries(regions[..i])| <= PMP_COUNT
        invariant tmp[..pmp] == Entries(regions[..i])
        invariant forall j :: 0 <= j < i ==> GrainAligned(regions[j], grain)
      {
        var region := regions[i];
        assert regions[..i + 1][..i] == regions[..i];
        EntriesStep(regions[..i + 1]);
        EntriesGrow(regions, i + 1);
        MisalignedMeans(region, g);
        ghost var before, emitted := tmp[..pmp], Emit(region, prevAddr);
        if Misaligned(region, grain) {
          return false;
        }
        if pmp >= PMP_COUNT {
          return false;
        }
        if region.paddr != prevAddr && region.size == 4 {
          tmp[pmp] := Entry(Na4, PermOf(region), region.paddr / 4);
        } else if region.paddr != prevAddr && IsNapot(region.paddr, region.size) {
          NapotAtLeastEight(region.paddr, region.size);
          tmp[pmp] := Entry(Napot, PermOf(region), CalcNapot(region.paddr, region.size));
        } else {
          if region.paddr != prevAddr {
            if pmp > PMP_COUNT - 2 {
              return false;
            }
            tmp[pmp] := Entry(Off, NO_PERM, region.paddr / 4);
            pmp := pmp + 1;
          }
          tmp[pmp] := Entry(Tor, PermOf(region), End(region) / 4);
        }
        prevAddr := End(region);
        pmp := pmp + 1;
        assert tmp[..pmp] == before + emitted;
      }
      assert regions[..|regions|] == regions;
      ghost var n := pmp;
      while pmp < PMP_COUNT
        invariant n <= pmp <= PMP_COUNT && fresh(tmp) && entries == old(entries)
        invariant tmp[..n] == Entries(regions)
        invariant forall j :: n <= j < pmp ==> tmp[j].mode == Off
      {
        tmp[pmp] := Entry(Off, NO_PERM, tmp[pmp].addr);
        pmp := pmp + 1;
      }
      entries := tmp[..];
      return true;
    }
  }

  // The committed entries mean what the generated ones mean.
  lemma CommittedMeans(c: PmpContext, rs: seq<Region>, g: nat, y: nat)
    requires c.Holds(Entries(rs))
    ensures FirstMatch(c.entries, Pow2(g), y) == FirstMatch(Entries(rs), Pow2(g), y)
  {
    var es := Entries(rs);
    assert c.entries == es + c.entries[|es|..];
    OffTail(es, c.entries[|es|..], Pow2(g), y);
  }

  // A longer prefix of the regions never needs fewer entries.
  lemma {:induction false} EntriesGrow(rs: seq<Region>, n: nat)
    requires n <= |rs|
    ensures |Entries(rs[..n])| <= |Entries(rs)|
    decreases |rs| - n
  {
    if n < |rs| {
      EntriesGrow(rs, n + 1);
      assert rs[..n + 1][..n] == rs[..n];
    } else {
      assert rs[..n] == rs;
    }
  }
}
