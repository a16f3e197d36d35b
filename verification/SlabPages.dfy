// Slab pages and the lists that sort them by fill (slab-alloc.c), as values.
module SlabPages {
  import opened Bits
  import opened Lists

  const BITMAP_BITS := 128
  const DATA_OFFSET := 64

  // Four sizes of slot; a full page has its fourth threshold in use.
  function SlabBytes(z: nat): nat { if z == 0 then 32 else if z == 1 then 64 else if z == 2 then 128 else 256 }

  function Thresholds(z: nat): seq<nat> {
    if z == 0 then [0, 32, 64, 126] else if z == 1 then [0, 16, 32, 63]
    else if z == 2 then [0, 8, 16, 31] else [0, 4, 8, 15]
  }

  function Capacity(z: nat): nat { Thresholds(z)[3] }

  // A page holds as many slots as fit behind its header; the thresholds are the first counts above a quarter
  // and a half of them.
  lemma SlabLayout(z: nat)
    requires z < 4
    ensures Capacity(z) == (4096 - DATA_OFFSET) / SlabBytes(z)
    ensures Thresholds(z) == [0, Capacity(z) / 4 + 1, Capacity(z) / 2 + 1, Capacity(z)]
  {
  }

  function EmptyWords(z: nat): seq<nat> {
    if z == 0 then [0xFFFF_FFFF, 0xFFFF_FFFF, 0xFFFF_FFFF, 0x3FFF_FFFF]
    else if z == 1 then [0xFFFF_FFFF, 0x7FFF_FFFF, 0, 0]
    else if z == 2 then [0x7FFF_FFFF, 0, 0, 0]
    else [0x7FFF, 0, 0, 0]
  }

  // A page header.  Bit k of the bitmap, word after word, is set while slot k is free.
  datatype Slab = Slab(size: nat, useCount: nat, use: nat, bitmap: seq<bool>)

  ghost function FreeBits(b: seq<bool>): set<nat> { set k: nat | k < |b| && b[k] }

  // The fill a page may have in each list: empty, up to a quarter, up to a half, more, full.
  predicate InBucket(z: nat, use: nat, n: nat) {
    var t := Thresholds(z);
    if use == 0 then n == 0
    else if use == 1 then 1 <= n <= t[1]
    else if use == 2 then t[1] <= n <= t[2]
    else if use == 3 then t[2] <= n < t[3]
    else n == t[3]
  }

  // Every slot is either free or counted; lag is 1 between get_slab and the clearing of the bit.
  ghost predicate PageOk(s: Slab, lag: nat) {
    && s.size < 4 && s.use < 5 && |s.bitmap| == BITMAP_BITS
    && (forall k :: Capacity(s.size) <= k < BITMAP_BITS ==> !s.bitmap[k])
    && s.useCount + |FreeBits(s.bitmap)| == Capacity(s.size) + lag
    && InBucket(s.size, s.use, s.useCount)
  }

  // ---------------------------------------------------------------- bitmaps

  lemma SetBit(b: seq<bool>, k: nat)
    requires k < |b| && !b[k]
    ensures |FreeBits(b[k := true])| == |FreeBits(b)| + 1
  {
    assert FreeBits(b[k := true]) == FreeBits(b) + {k};
  }

  lemma ClearBit(b: seq<bool>, k: nat)
    requires k < |b| && b[k]
    ensures |FreeBits(b[k := false])| == |FreeBits(b)| - 1
  {
    assert FreeBits(b) == FreeBits(b[k := false]) + {k};
  }

  lemma SomeBit(b: seq<bool>)
    requires |FreeBits(b)| > 0
    ensures exists k: nat :: k < |b| && b[k]
  {
    var k :| k in FreeBits(b);
  }

  // The index of the lowest set bit from lo on, or hi.
  function LowestSet(b: seq<bool>, lo: nat, hi: nat): (r: nat)
    requires lo <= hi <= |b|
    ensures lo <= r <= hi && (r < hi ==> b[r]) && forall j :: lo <= j < r ==> !b[j]
    decreases hi - lo
  {
    if lo == hi || b[lo] then lo else LowestSet(b, lo + 1, hi)
  }

  function EmptyBitmap(z: nat): (b: seq<bool>)
    ensures |b| == BITMAP_BITS
  {
    seq(BITMAP_BITS, k requires 0 <= k < BITMAP_BITS => Bit(EmptyWords(z)[k / 32], k % 32))
  }

  // The number of ones in word i of a fresh bitmap.
  function WordOnes(z: nat, i: nat): nat {
    if z == 0 then (if i < 3 then 32 else 30)
    else if z == 1 then (if i == 0 then 32 else if i == 1 then 31 else 0)
    else if z == 2 then (if i == 0 then 31 else 0)
    else (if i == 0 then 15 else 0)
  }

  lemma EmptyWordIs(z: nat, i: nat)
    requires z < 4 && i < 4
    ensures EmptyWords(z)[i] == Pow2(WordOnes(z, i)) - 1
  {
    hide Pow2;
    Pow2Values();
    Pow2Zero();
  }

  // A fresh bitmap marks exactly the slots of the page as free.
  lemma EmptyBitmapIs(z: nat)
    requires z < 4
    ensures forall k :: 0 <= k < BITMAP_BITS ==> (EmptyBitmap(z)[k] <==> k < Capacity(z))
    ensures |FreeBits(EmptyBitmap(z))| == Capacity(z)
  {
    hide Pow2, Bit, EmptyWords;
    forall k | 0 <= k < BITMAP_BITS ensures EmptyBitmap(z)[k] <==> k < Capacity(z) {
      EmptyWordIs(z, k / 32);
      MaskBits(WordOnes(z, k / 32), k % 32);
      assert k == 32 * (k / 32) + k % 32;
    }
    PrefixCount(EmptyBitmap(z), Capacity(z));
  }

  lemma {:induction false} PrefixCount(b: seq<bool>, n: nat)
    requires n <= |b| && forall k :: 0 <= k < |b| ==> (b[k] <==> k < n)
    ensures |FreeBits(b)| == n
    decreases n
  {
    if n == 0 {
      assert FreeBits(b) == {};
    } else {
      ClearBit(b, n - 1);
      PrefixCount(b[n - 1 := false], n - 1);
    }
  }

  // ---------------------------------------------------------------- lists

  datatype Bin = Bin(size: nat, use: nat)

  function In(bins: map<Bin, seq<nat>>, b: Bin): seq<nat> { if b in bins then bins[b] else [] }

  predicate Sits(slabs: map<nat, Slab>, p: nat, b: Bin) {
    p in slabs && slabs[p].size == b.size && slabs[p].use == b.use
  }

  // Every page is on exactly the list of its size and fill; at most one empty page per size is kept.
  ghost predicate BinsMatch(slabs: map<nat, Slab>, bins: map<Bin, seq<nat>>) {
    && (forall b :: NoDup(In(bins, b)))
    && (forall b, p :: p in In(bins, b) <==> Sits(slabs, p, b))
  }

  ghost predicate OneEmpty(bins: map<Bin, seq<nat>>) { forall z :: |In(bins, Bin(z, 0))| <= 1 }

  function PushBin(bins: map<Bin, seq<nat>>, p: nat, b: Bin): map<Bin, seq<nat>> { bins[b := In(bins, b) + [p]] }

  function DropBin(bins: map<Bin, seq<nat>>, p: nat, b: Bin): map<Bin, seq<nat>> { bins[b := Without(In(bins, b), p)] }

  lemma PushMatch(slabs: map<nat, Slab>, bins: map<Bin, seq<nat>>, p: nat, s: Slab)
    requires BinsMatch(slabs, bins) && p !in slabs
    ensures BinsMatch(slabs[p := s], PushBin(bins, p, Bin(s.size, s.use)))
  {
    var b := Bin(s.size, s.use);
    var n := PushBin(bins, p, b);
    assert p in In(bins, b) <==> Sits(slabs, p, b);
    assert In(n, b) == In(bins, b) + [p];
    forall c, q ensures q in In(n, c) <==> Sits(slabs[p := s], q, c) {
      assert q in In(bins, c) <==> Sits(slabs, q, c);
    }
    forall c ensures NoDup(In(n, c)) {
      assert NoDup(In(bins, c));
    }
  }

  lemma DropMatch(slabs: map<nat, Slab>, bins: map<Bin, seq<nat>>, p: nat, b: Bin)
    requires BinsMatch(slabs, bins) && Sits(slabs, p, b)
    ensures BinsMatch(slabs - {p}, DropBin(bins, p, b))
    ensures |In(DropBin(bins, p, b), b)| <= |In(bins, b)|
  {
    var n := DropBin(bins, p, b);
    WithoutFacts(In(bins, b), p);
    WithoutShorter(In(bins, b), p);
    assert In(n, b) == Without(In(bins, b), p);
    forall c, q ensures q in In(n, c) <==> Sits(slabs - {p}, q, c) {
      assert q in In(bins, c) <==> Sits(slabs, q, c);
    }
    forall c ensures NoDup(In(n, c)) {
      assert NoDup(In(bins, c));
    }
  }

  lemma {:induction false} WithoutShorter(l: seq<nat>, i: nat)
    ensures |Without(l, i)| <= |l|
  {
    if l != [] && l[0] != i {
      WithoutShorter(l[1..], i);
    }
  }

  // A page changes while its size and fill list stay the same.
  lemma StayMatch(slabs: map<nat, Slab>, bins: map<Bin, seq<nat>>, p: nat, s: Slab)
    requires BinsMatch(slabs, bins) && p in slabs && s.size == slabs[p].size && s.use == slabs[p].use
    ensures BinsMatch(slabs[p := s], bins)
  {
    forall c, q ensures q in In(bins, c) <==> Sits(slabs[p := s], q, c) {
      assert q in In(bins, c) <==> Sits(slabs, q, c);
    }
  }

  // A page moves to the list of another fill.
  lemma MoveMatch(slabs: map<nat, Slab>, bins: map<Bin, seq<nat>>, p: nat, s: Slab)
    requires BinsMatch(slabs, bins) && p in slabs
    ensures BinsMatch(slabs[p := s], PushBin(DropBin(bins, p, Bin(slabs[p].size, slabs[p].use)), p, Bin(s.size, s.use)))
  {
    hide BinsMatch;
    var b := Bin(slabs[p].size, slabs[p].use);
    DropMatch(slabs, bins, p, b);
    PushMatch(slabs - {p}, DropBin(bins, p, b), p, s);
    assert (slabs - {p})[p := s] == slabs[p := s];
  }
}
