/** Powers of two and bitwise operators on natural numbers.

    The kernel's index, mask and encoding tricks (buddy by XOR, alignment by AND,
    NAPOT by OR) are bitwise operations on unsigned words.  Here the operators are
    defined digit by digit on `nat`, and the arithmetic meaning of each trick is proved. */
module Bits {

  function Pow2(k: nat): (r: nat)
    ensures r >= 1
  {
    if k == 0 then 1 else 2 * Pow2(k - 1)
  }

  lemma Pow2Zero()
    ensures Pow2(0) == 1
  {
  }

  lemma Pow2Step(k: nat)
    requires k > 0
    ensures Pow2(k) == 2 * Pow2(k - 1)
  {
  }

  lemma {:induction false} Pow2Add(a: nat, b: nat)
    ensures Pow2(a + b) == Pow2(a) * Pow2(b)
  {
    if b != 0 {
      Pow2Add(a, b - 1);
    }
  }

  lemma {:induction false} Pow2Less(a: nat, b: nat)
    requires a < b
    ensures 2 * Pow2(a) <= Pow2(b)
    decreases b - a
  {
    if a + 1 < b {
      Pow2Less(a + 1, b);
    }
  }

  lemma Pow2Mono(a: nat, b: nat)
    requires a <= b
    ensures Pow2(a) <= Pow2(b)
  {
    if a < b {
      Pow2Less(a, b);
    }
  }

  // Bit i of a.
  predicate Bit(a: nat, i: nat) {
    if i == 0 then a % 2 == 1 else Bit(a / 2, i - 1)
  }

  function Shr(a: nat, s: nat): nat {
    if s == 0 then a else Shr(a / 2, s - 1)
  }

  function And(a: nat, b: nat): nat {
    if a == 0 then 0
    else 2 * And(a / 2, b / 2) + (if a % 2 == 1 && b % 2 == 1 then 1 else 0)
  }

  function Or(a: nat, b: nat): nat
    decreases a + b
  {
    if a == 0 && b == 0 then 0
    else 2 * Or(a / 2, b / 2) + (if a % 2 == 1 || b % 2 == 1 then 1 else 0)
  }

  function Xor(a: nat, b: nat): nat
    decreases a + b
  {
    if a == 0 && b == 0 then 0
    else 2 * Xor(a / 2, b / 2) + (if a % 2 != b % 2 then 1 else 0)
  }

  lemma {:induction false} ShrIsDiv(a: nat, s: nat)
    ensures Shr(a, s) == a / Pow2(s)
  {
    if s != 0 {
      ShrIsDiv(a / 2, s - 1);
      DivModHalf(a, Pow2(s - 1));
    }
  }

  lemma MulLe(d: nat, a: nat, b: nat)
    requires a <= b
    ensures d * a <= d * b
  {
  }

  lemma QuotientUnique(d: nat, q: nat, r: nat, q': nat, r': nat)
    requires d * q + r == d * q' + r' && r < d && r' < d
    ensures q == q' && r == r'
  {
    if q < q' {
      MulLe(d, q + 1, q');
    } else if q' < q {
      MulLe(d, q' + 1, q);
    }
  }

  lemma DivModUnique(a: nat, d: nat, q: nat, r: nat)
    requires d > 0 && a == d * q + r && r < d
    ensures a / d == q && a % d == r
  {
    QuotientUnique(d, q, r, a / d, a % d);
  }

  // Dividing by 2 * m is halving and then dividing by m.
  lemma DropMultiple(q: nat, x: nat, m: nat)
    requires m > 0
    ensures (m * q + x) % m == x % m
  {
    var d := x / m;
    assert x == m * d + x % m;
    assert m * (q + d) == m * q + m * d;
    DivModUnique(m * q + x, m, q + d, x % m);
  }

  lemma DivModHalf(a: nat, m: nat)
    requires m > 0
    ensures a / (2 * m) == (a / 2) / m
    ensures a % (2 * m) == 2 * ((a / 2) % m) + a % 2
  {
    var q, r := (a / 2) / m, (a / 2) % m;
    assert a / 2 == m * q + r;
    assert (2 * m) * q == 2 * (m * q);
    DivModUnique(a, 2 * m, q, 2 * r + a % 2);
  }

  lemma {:induction false} ShrBit(a: nat, s: nat, i: nat)
    ensures Bit(Shr(a, s), i) == Bit(a, i + s)
  {
    if s != 0 {
      ShrBit(a / 2, s - 1, i);
    }
  }

  lemma {:induction false} OrBit(a: nat, b: nat, i: nat)
    ensures Bit(Or(a, b), i) == (Bit(a, i) || Bit(b, i))
  {
    if a == 0 && b == 0 {
      ZeroBit(i);
    } else if i != 0 {
      OrBit(a / 2, b / 2, i - 1);
    }
  }

  lemma {:induction false} ZeroBit(i: nat)
    ensures !Bit(0, i)
  {
    if i != 0 {
      ZeroBit(i - 1);
    }
  }

  // A number is determined by its bits.
  lemma {:induction false} SameBits(a: nat, b: nat)
    requires forall i: nat :: Bit(a, i) == Bit(b, i)
    ensures a == b
    decreases a + b
  {
    if a != 0 || b != 0 {
      assert Bit(a, 0) == Bit(b, 0);
      forall i: nat ensures Bit(a / 2, i) == Bit(b / 2, i) {
        assert Bit(a, i + 1) == Bit(b, i + 1);
      }
      SameBits(a / 2, b / 2);
    }
  }

  // Masking with 2^k - 1 is the remainder modulo 2^k.
  lemma {:induction false} AndLowMask(a: nat, k: nat)
    ensures And(a, Pow2(k) - 1) == a % Pow2(k)
  {
    hide And, Pow2;
    if k == 0 {
      Pow2Zero();
      AndZero(a);
    } else if a == 0 {
      AndZeroLeft(Pow2(k) - 1);
    } else {
      AndLowMask(a / 2, k - 1);
      var m := Pow2(k - 1);
      Pow2Step(k);
      AndStep(a, 2 * m - 1);
      assert (2 * m - 1) / 2 == m - 1 && (2 * m - 1) % 2 == 1;
      DivModHalf(a, m);
    }
  }

  lemma AndZeroLeft(b: nat)
    ensures And(0, b) == 0
  {
  }

  lemma AndStep(a: nat, b: nat)
    requires a != 0
    ensures And(a, b) == 2 * And(a / 2, b / 2) + (if a % 2 == 1 && b % 2 == 1 then 1 else 0)
  {
  }

  lemma {:induction false} AndZero(a: nat)
    ensures And(a, 0) == 0
  {
    if a != 0 {
      AndZero(a / 2);
    }
  }

  lemma XorDouble(a: nat, b: nat)
    ensures Xor(2 * a, 2 * b) == 2 * Xor(a, b)
  {
  }

  lemma XorOne(a: nat)
    ensures Xor(a, 1) == if a % 2 == 0 then a + 1 else a - 1
  {
    XorZero(a / 2);
  }

  lemma {:induction false} XorZero(a: nat)
    ensures Xor(a, 0) == a
  {
    if a != 0 {
      XorZero(a / 2);
    }
  }

  ghost predicate IsPow2(n: nat) {
    exists k: nat :: n == Pow2(k)
  }

  lemma IsPow2Double(n: nat)
    ensures IsPow2(2 * n) <==> IsPow2(n)
  {
    if k: nat :| n == Pow2(k) {
      assert 2 * n == Pow2(k + 1);
    }
    if k: nat :| 2 * n == Pow2(k) {
      assert k == 0 || n == Pow2(k - 1);
    }
  }

  lemma IsPow2Odd(n: nat)
    requires n % 2 == 1
    ensures IsPow2(n) <==> n == 1
  {
    if k: nat :| n == Pow2(k) {
      if k > 0 { Pow2Step(k); }
    }
    assert Pow2(0) == 1;
  }

  // n & (n - 1) vanishes exactly for the powers of two.
  lemma {:induction false} PowerOfTwoTest(n: nat)
    requires n > 0
    ensures And(n, n - 1) == 0 <==> IsPow2(n)
  {
    hide IsPow2;
    if n % 2 == 1 {
      AndStep(n, n - 1);
      AndSelf(n / 2);
      IsPow2Odd(n);
    } else {
      AndStep(n, n - 1);
      assert (n - 1) / 2 == n / 2 - 1;
      PowerOfTwoTest(n / 2);
      IsPow2Double(n / 2);
    }
  }

  lemma {:induction false} AndSelf(a: nat)
    ensures And(a, a) == a
  {
    if a != 0 {
      AndSelf(a / 2);
    }
  }

  // OR of numbers that share no bits below 2^k is addition.
  lemma {:induction false} OrDisjoint(a: nat, b: nat, k: nat)
    requires a % Pow2(k) == 0 && b < Pow2(k)
    ensures Or(a, b) == a + b
    decreases k
  {
    if k == 0 {
      OrZero(a);
    } else if a != 0 || b != 0 {
      DivModHalf(a, Pow2(k - 1));
      OrDisjoint(a / 2, b / 2, k - 1);
    }
  }

  lemma {:induction false} OrZero(a: nat)
    ensures Or(a, 0) == a
  {
    if a != 0 {
      OrZero(a / 2);
    }
  }

  lemma AndHalf(a: nat, b: nat)
    ensures And(a, b) / 2 == And(a / 2, b / 2)
    ensures And(a, b) % 2 == (if a % 2 == 1 && b % 2 == 1 then 1 else 0)
  {
    if a == 0 {
      AndZeroLeft(b / 2);
    } else {
      AndStep(a, b);
    }
  }

  lemma OrHalf(a: nat, b: nat)
    ensures Or(a, b) / 2 == Or(a / 2, b / 2)
    ensures Or(a, b) % 2 == (if a % 2 == 1 || b % 2 == 1 then 1 else 0)
  {
  }

  // Masking with a shifted pattern is masking the shifted number.
  lemma {:induction false} AndShifted(a: nat, b: nat, k: nat, m: nat)
    requires m == Pow2(k) * b
    ensures And(a, m) == Pow2(k) * And(Shr(a, k), b)
  {
    hide And, Pow2, Shr;
    ShrUnfold(a, k);
    if k == 0 {
      Pow2Zero();
    } else {
      Pow2Step(k);
      HalfProduct(Pow2(k - 1), b, m);
      AndHalf(a, m);
      AndShifted(a / 2, b, k - 1, m / 2);
      HalfProduct(Pow2(k - 1), And(Shr(a / 2, k - 1), b), Pow2(k) * And(Shr(a / 2, k - 1), b));
    }
  }

  lemma ShrUnfold(a: nat, k: nat)
    ensures Shr(a, k) == if k == 0 then a else Shr(a / 2, k - 1)
  {
  }

  lemma HalfProduct(p: nat, b: nat, m: nat)
    requires m == (2 * p) * b
    ensures m == 2 * (p * b) && m / 2 == p * b && m % 2 == 0
  {
  }

  // The bits of a mask of k ones.
  lemma {:induction false} MaskBits(k: nat, i: nat)
    ensures Bit(Pow2(k) - 1, i) == (i < k)
  {
    if k == 0 {
      ZeroBit(i);
    } else if i != 0 {
      assert (Pow2(k) - 1) / 2 == Pow2(k - 1) - 1;
      MaskBits(k - 1, i - 1);
    }
  }

  lemma Pow2Values()
    ensures Pow2(3) == 8 && Pow2(4) == 16 && Pow2(15) == 0x8000 && Pow2(16) == 0x1_0000
    ensures Pow2(30) == 0x4000_0000 && Pow2(31) == 0x8000_0000 && Pow2(32) == 0x1_0000_0000
    ensures Pow2(63) == 0x8000_0000_0000_0000 && Pow2(64) == 0x1_0000_0000_0000_0000
  {
    hide Pow2;
    Pow2Zero();
    Pow2Step(1);
    Pow2Step(2);
    Pow2Step(3);
    Pow2Step(4);
    Pow2Add(4, 4);
    Pow2Add(8, 8);
    Pow2Add(16, 16);
    Pow2Add(32, 32);
    Pow2Step(16);
    Pow2Step(31);
    Pow2Step(32);
    Pow2Step(64);
  }
}
