/** Block orders: rounding a page count up to a power of two by smearing bits. */
module Orders {
  import opened Bits
  import opened Words

  // Pages needed for a number of bytes, in 64-bit arithmetic.
  function PagesFor(size: nat): nat {
    ((size + (PAGE_SIZE - 1)) % SIZE_MOD) / PAGE_SIZE
  }

  // The page count suffices and wastes less than a page, unless the rounding wraps around.
  lemma PagesForExact(size: nat)
    requires size < SIZE_MOD
    ensures size <= PagesFor(size) * PAGE_SIZE < size + PAGE_SIZE <==> size <= SIZE_MOD - PAGE_SIZE
  {
  }

  // x |= x >> s
  function Smear(x: nat, s: nat): nat {
    Or(x, Shr(x, s))
  }

  function NextPowerOfTwo(n: nat): nat {
    if n <= 1 then 1
    else
      var x := n - 1;
      var x := Smear(x, 1);
      var x := Smear(x, 2);
      var x := Smear(x, 4);
      var x := Smear(x, 8);
      var x := Smear(x, 16);
      var x := Smear(x, 32);
      (x + 1) % SIZE_MOD
  }

  // Position of the highest set bit: 63 - count_leading_unset_bits64.
  function Log2(x: nat): nat
    requires x > 0
  {
    if x == 1 then 0 else 1 + Log2(x / 2)
  }

  function GetOrder(n: nat): nat {
    var size := NextPowerOfTwo(n);
    if size > 0 then Log2(size) else 0
  }

  lemma {:induction false} Log2Bounds(x: nat)
    requires x > 0
    ensures Pow2(Log2(x)) <= x < 2 * Pow2(Log2(x))
    ensures Bit(x, Log2(x))
    ensures forall i: nat :: i > Log2(x) ==> !Bit(x, i)
  {
    if x == 1 {
      forall i: nat | i > 0 ensures !Bit(x, i) { ZeroBit(i - 1); }
    } else {
      Log2Bounds(x / 2);
    }
  }

  lemma {:induction false} Log2OfPow2(k: nat)
    ensures Log2(Pow2(k)) == k
  {
    if k != 0 {
      Log2OfPow2(k - 1);
    }
  }

  // The w bits of x from position t downwards are set, and none above t.
  ghost predicate Smeared(x: nat, t: nat, w: nat) {
    && (forall i: nat :: i > t ==> !Bit(x, i))
    && (forall i: nat :: i <= t < i + w ==> Bit(x, i))
  }

  lemma SmearStep(x: nat, t: nat, w: nat)
    requires Smeared(x, t, w)
    ensures Smeared(Smear(x, w), t, 2 * w)
  {
    var y := Smear(x, w);
    forall i: nat | i > t ensures !Bit(y, i) {
      OrBit(x, Shr(x, w), i);
      ShrBit(x, w, i);
    }
    forall i: nat | i <= t < i + 2 * w ensures Bit(y, i) {
      OrBit(x, Shr(x, w), i);
      ShrBit(x, w, i);
      assert i + w <= t ==> Bit(x, i + w);
    }
  }

  lemma SmearedIsMask(x: nat, t: nat, w: nat)
    requires Smeared(x, t, w) && t < w
    ensures x == Pow2(t + 1) - 1
  {
    forall i: nat ensures Bit(x, i) == Bit(Pow2(t + 1) - 1, i) {
      MaskBits(t + 1, i);
    }
    SameBits(x, Pow2(t + 1) - 1);
  }

  lemma NextPowerOfTwoValue(n: nat)
    requires 1 < n < SIZE_MOD
    ensures NextPowerOfTwo(n) == Pow2(Log2(n - 1) + 1) % SIZE_MOD && Log2(n - 1) < 64
  {
    hide Or, Shr, Pow2, Log2, Bit;
    var x0 := n - 1;
    var t := Log2(x0);
    Log2Bounds(x0);
    Pow2Values();
    if t >= 64 {
      Pow2Mono(64, t);
      assert false;
    }
    var x1 := Smear(x0, 1);   SmearStep(x0, t, 1);
    var x2 := Smear(x1, 2);   SmearStep(x1, t, 2);
    var x4 := Smear(x2, 4);   SmearStep(x2, t, 4);
    var x8 := Smear(x4, 8);   SmearStep(x4, t, 8);
    var x16 := Smear(x8, 16); SmearStep(x8, t, 16);
    var x32 := Smear(x16, 32); SmearStep(x16, t, 32);
    SmearedIsMask(x32, t, 64);
  }

  // k is the least order whose block holds n pages.
  ghost predicate LeastOrder(n: nat, k: nat) {
    n <= Pow2(k) && forall j: nat :: j < k ==> Pow2(j) < n
  }

  lemma GetOrderOfOne(n: nat)
    requires n <= 1
    ensures GetOrder(n) == 0
  {
  }

  lemma GetOrderValue(n: nat)
    requires 1 < n < SIZE_MOD
    ensures var t := Log2(n - 1);
            && Pow2(t) < n <= 2 * Pow2(t)
            && (if n <= SIZE_MOD / 2 then t < 63 && GetOrder(n) == t + 1 else GetOrder(n) == 0)
  {
    hide NextPowerOfTwo, Log2, Pow2;
    var t := Log2(n - 1);
    NextPowerOfTwoValue(n);
    Log2Bounds(n - 1);
    Pow2Values();
    Pow2Step(t + 1);
    if t < 63 {
      Pow2Mono(t + 1, 63);
      Log2OfPow2(t + 1);
    }
  }

  // get_order finds the least order, exactly as long as the next power of two is representable.
  lemma GetOrderLeast(n: nat)
    requires n < SIZE_MOD
    ensures LeastOrder(n, GetOrder(n)) <==> n <= SIZE_MOD / 2
  {
    hide GetOrder, Log2, Pow2;
    Pow2Zero();
    if n <= 1 {
      GetOrderOfOne(n);
    } else {
      GetOrderValue(n);
      var t := Log2(n - 1);
      Pow2Step(t + 1);
      forall j: nat | j < t + 1 ensures Pow2(j) < n { Pow2Mono(j, t); }
    }
  }
}
