// Binary-coded decimal and the bit-parallel double dabble step (num_to_str.c).
module DoubleDabble {
  import opened Bits

  function Pow10(k: nat): (r: nat)
    ensures r >= 1
  {
    if k == 0 then 1 else 10 * Pow10(k - 1)
  }

  // The number written by the low k nibbles of b, read as decimal digits.
  function Value(b: nat, k: nat): nat {
    if k == 0 then 0 else b % 16 + 10 * Value(b / 16, k - 1)
  }

  // The low k nibbles are decimal digits.
  predicate Digits(b: nat, k: nat) {
    k == 0 || (b % 16 <= 9 && Digits(b / 16, k - 1))
  }

  // What remains above the low k nibbles.
  function Above(b: nat, k: nat): nat {
    if k == 0 then b else Above(b / 16, k - 1)
  }

  // Bit 0 of each nibble tells whether the nibble is at least 5.
  function Mask(b: nat): nat { Or(And(Or(b, Shr(b, 1)), Shr(b, 2)), Shr(b, 3)) }

  // 0x11...1, k ones.
  function Ones(k: nat): nat { if k == 0 then 0 else 16 * Ones(k - 1) + 1 }

  function Adjust(b: nat, k: nat): nat { b + And(Mask(b), Ones(k)) * 3 }

  // ---------------------------------------------------------------- one nibble at a time

  lemma MaskHalf(b: nat)
    ensures Mask(b) / 2 == Mask(b / 2)
    ensures Mask(b) % 2 == if ((b % 2 == 1 || b / 2 % 2 == 1) && b / 4 % 2 == 1) || b / 8 % 2 == 1 then 1 else 0
  {
    hide And, Or;
    ShrSmall(b);
    ShrSmall(b / 2);
    OrHalf(b, b / 2);
    AndHalf(Or(b, b / 2), b / 4);
    OrHalf(And(Or(b, b / 2), b / 4), b / 8);
  }

  lemma ShrSmall(b: nat)
    ensures Shr(b, 1) == b / 2 && Shr(b, 2) == b / 4 && Shr(b, 3) == b / 8
  {
    assert Shr(b, 2) == Shr(b / 2, 1) && Shr(b, 3) == Shr(b / 2, 2);
  }

  lemma MaskNibble(b: nat)
    ensures Mask(b) / 16 == Mask(b / 16)
    ensures b % 16 <= 9 ==> Mask(b) % 2 == if b % 16 >= 5 then 1 else 0
  {
    hide Mask;
    MaskHalf(b);
    MaskHalf(b / 2);
    MaskHalf(b / 4);
    MaskHalf(b / 8);
  }

  lemma AndOnes(m: nat, k: nat)
    requires k > 0
    ensures And(m, Ones(k)) == m % 2 + 16 * And(m / 16, Ones(k - 1))
  {
    hide And;
    var x := Ones(k - 1);
    AndHalf(m, 16 * x + 1);
    AndHalf(m / 2, 8 * x);
    AndHalf(m / 4, 4 * x);
    AndHalf(m / 8, 2 * x);
  }

  lemma AdjustNibble(b: nat, k: nat)
    requires k > 0 && b % 16 <= 9
    ensures Adjust(b, k) == b % 16 + (if b % 16 >= 5 then 3 else 0) + 16 * Adjust(b / 16, k - 1)
  {
    hide Mask, And, Ones;
    MaskNibble(b);
    AndOnes(Mask(b), k);
  }

  // Doubling after the adjustment doubles the decimal number: digits stay digits and the carries run.
  lemma {:induction false} Doubles(b: nat, k: nat, c: nat)
    requires Digits(b, k) && Above(b, k) == 0 && c <= 1
    ensures var n := 2 * Adjust(b, k) + c;
      && Digits(n, k) && Above(n, k) <= 1
      && Value(n, k) + Pow10(k) * Above(n, k) == 2 * Value(b, k) + c
    decreases k
  {
    hide Adjust, Value, Digits, Above, Pow10;
    if k == 0 {
      DoublesNothing(c);
    } else {
      var d := b % 16;
      var carry := if d >= 5 then 1 else 0;
      Unfold(b, k);
      AdjustNibble(b, k);
      Doubles(b / 16, k - 1, carry);
      var n := 2 * Adjust(b, k) + c;
      var up := 2 * Adjust(b / 16, k - 1) + carry;
      assert n == 16 * up + (2 * d + c - 10 * carry);
      assert n / 16 == up && n % 16 == 2 * d + c - 10 * carry;
      Unfold(n, k);
      assert Pow10(k) * Above(n, k) == 10 * (Pow10(k - 1) * Above(up, k - 1));
    }
  }

  lemma DoublesNothing(c: nat)
    requires c <= 1
    ensures var n := 2 * Adjust(0, 0) + c; Digits(n, 0) && Above(n, 0) <= 1 && Value(n, 0) + Pow10(0) * Above(n, 0) == c
    ensures Above(0, 0) == 0 && Value(0, 0) == 0
    ensures forall b: nat :: Above(b, 0) == 0 ==> b == 0
  {
    hide Adjust;
    AdjustZero();
  }

  lemma Unfold(b: nat, k: nat)
    requires k > 0
    ensures Value(b, k) == b % 16 + 10 * Value(b / 16, k - 1)
    ensures Digits(b, k) <==> b % 16 <= 9 && Digits(b / 16, k - 1)
    ensures Above(b, k) == Above(b / 16, k - 1)
    ensures Pow10(k) == 10 * Pow10(k - 1)
  {
  }

  lemma AdjustZero()
    ensures Adjust(0, 0) == 0
  {
    AndZero(Mask(0));
  }

  // The carry out of k digits is lost only if the number outgrows them.
  lemma Fits(b: nat, k: nat, c: nat)
    requires Digits(b, k) && Above(b, k) == 0 && c <= 1 && 2 * Value(b, k) + c < Pow10(k)
    ensures var n := 2 * Adjust(b, k) + c; Digits(n, k) && Above(n, k) == 0 && Value(n, k) == 2 * Value(b, k) + c
  {
    hide Adjust, Digits, Above, Value, Pow10;
    Doubles(b, k, c);
    var n := 2 * Adjust(b, k) + c;
    if Above(n, k) == 1 {
      assert Pow10(k) * Above(n, k) == Pow10(k);
    } else {
      assert Pow10(k) * Above(n, k) == 0;
    }
  }

  lemma {:induction false} AboveIsDiv(b: nat, k: nat)
    ensures Above(b, k) == b / Pow2(4 * k)
  {
    hide Pow2;
    if k == 0 {
      Pow2Zero();
    } else {
      AboveIsDiv(b / 16, k - 1);
      NibbleDiv(b, Pow2(4 * k - 4));
      SixteenTimes(k);
    }
  }

  lemma SixteenTimes(k: nat)
    requires k > 0
    ensures Pow2(4 * k) == 16 * Pow2(4 * k - 4)
  {
    hide Pow2;
    Pow2Step(4 * k);
    Pow2Step(4 * k - 1);
    Pow2Step(4 * k - 2);
    Pow2Step(4 * k - 3);
  }

  lemma NibbleDiv(b: nat, p: nat)
    requires p > 0
    ensures b / (16 * p) == (b / 16) / p
  {
    var q, r := (b / 16) / p, (b / 16) % p;
    assert b / 16 == p * q + r;
    assert (16 * p) * q == 16 * (p * q);
    DivModUnique(b, 16 * p, q, 16 * r + b % 16);
  }

  lemma AboveZero(b: nat, k: nat)
    ensures Above(b, k) == 0 <==> b < Pow2(4 * k)
  {
    hide Above, Pow2;
    AboveIsDiv(b, k);
    var p := Pow2(4 * k);
    if b < p {
      DivModUnique(b, p, 0, b);
    } else {
      assert b == p * (b / p) + b % p;
    }
  }

  lemma {:induction false} ValueBelow(b: nat, k: nat)
    requires Digits(b, k)
    ensures Value(b, k) < Pow10(k)
  {
    if k > 0 {
      ValueBelow(b / 16, k - 1);
    }
  }
}
