// Decimal conversion (num_to_str.c): the shift loops, and the string functions built on them.
module NumToStr {
  import opened Bits
  import opened DoubleDabble
  import opened Words

  // ---------------------------------------------------------------- shifting the input out

  // val holds the low m bits of the input at the top of an n-bit word: its top bit is the next one.
  lemma ShiftOut(rest: nat, m: nat, n: nat, val: nat)
    requires 0 < m <= n && rest < Pow2(m) && val == rest * Pow2(n - m)
    ensures Shr(val, n - 1) == rest / Pow2(m - 1) <= 1
    ensures (2 * val) % Pow2(n) == (rest % Pow2(m - 1)) * Pow2(n - m + 1)
  {
    hide Pow2, Shr;
    var p, q := Pow2(m - 1), Pow2(n - m);
    Pow2Step(m);
    Pow2Step(n);
    Pow2Step(n - m + 1);
    Pow2Add(m - 1, n - m);
    ShrIsDiv(val, n - 1);
    TopBit(rest, p, q);
  }

  lemma TopBit(rest: nat, p: nat, q: nat)
    requires 0 < p && 0 < q && rest < 2 * p
    ensures p * q > 0 && (rest * q) / (p * q) == rest / p <= 1
    ensures (2 * (rest * q)) % (2 * (p * q)) == (rest % p) * (2 * q)
  {
    if rest < p {
      DivModUnique(rest, p, 0, rest);
      Scaled(rest, p, q);
      LowPart(rest * q, p * q);
    } else {
      var r := rest - p;
      DivModUnique(rest, p, 1, r);
      Scaled(r, p, q);
      HighPart(r * q, p * q);
    }
  }

  lemma Scaled(r: nat, p: nat, q: nat)
    requires r < p && 0 < q
    ensures r * q < p * q && (p + r) * q == p * q + r * q && 2 * (r * q) == r * (2 * q)
  {
    MulLe(q, r + 1, p);
  }

  lemma LowPart(c: nat, a: nat)
    requires c < a
    ensures c / a == 0 && (2 * c) % (2 * a) == 2 * c
  {
    DivModUnique(c, a, 0, c);
    DivModUnique(2 * c, 2 * a, 0, 2 * c);
  }

  lemma HighPart(c: nat, a: nat)
    requires c < a
    ensures (a + c) / a == 1 && (2 * (a + c)) % (2 * a) == 2 * c
  {
    DivModUnique(a + c, a, 1, c);
    DivModUnique(2 * (a + c), 2 * a, 1, 2 * c);
  }

  // With m bits of the input still to come, v is what has been shifted in and rest what has not.
  ghost predicate Split(val0: nat, v: nat, rest: nat, m: nat) {
    rest < Pow2(m) && val0 == v * Pow2(m) + rest
  }

  lemma SplitStep(val0: nat, v: nat, rest: nat, m: nat)
    requires m > 0 && Split(val0, v, rest, m)
    ensures Split(val0, 2 * v + rest / Pow2(m - 1), rest % Pow2(m - 1), m - 1)
  {
    hide Pow2;
    Pow2Step(m);
    var p := Pow2(m - 1);
    var b, r := rest / p, rest % p;
    assert rest == b * p + r;
    assert v * (2 * p) == (2 * v) * p;
    assert (2 * v + b) * p == (2 * v) * p + b * p;
  }

  // What has been shifted in never exceeds the input.
  lemma SplitBelow(val0: nat, v: nat, rest: nat, m: nat)
    requires Split(val0, v, rest, m)
    ensures v <= val0
  {
    hide Pow2;
    MulLe(v, 1, Pow2(m));
  }

  // The first three bits, and the input without them.
  lemma SplitStart(val0: nat, n: nat)
    requires n > 3 && val0 < Pow2(n)
    ensures Shr(val0, n - 3) < 8 && Split(val0, Shr(val0, n - 3), val0 % Pow2(n - 3), n - 3)
    ensures (8 * val0) % Pow2(n) == (val0 % Pow2(n - 3)) * Pow2(3)
  {
    hide Pow2, Shr;
    ShrIsDiv(val0, n - 3);
    Pow2Step(n);
    Pow2Step(n - 1);
    Pow2Step(n - 2);
    Pow2Values();
    var p := Pow2(n - 3);
    var q, r := val0 / p, val0 % p;
    assert val0 == p * q + r;
    assert (8 * p) * 0 + val0 < 8 * p;
    QuotientBelow(val0, p, 8);
    assert 8 * val0 == (8 * p) * q + 8 * r;
    DivModUnique(8 * val0, 8 * p, q, 8 * r);
  }

  lemma QuotientBelow(a: nat, d: nat, n: nat)
    requires d > 0 && a < n * d
    ensures a / d < n
  {
    if a / d >= n {
      MulLe(d, n, a / d);
    }
  }

  // ---------------------------------------------------------------- up to 32 bits

  // The loop of num_uint16_to_str (16 bits, 5 digits, in a 32-bit word) and of num_uint32_to_str
  // (32 bits, 10 digits, in a 64-bit word).
  method Dabble(val0: nat, bits: nat, digits: nat, width: nat) returns (buf: nat)
    requires bits > 3 && digits > 0 && val0 < Pow2(bits) <= Pow10(digits) && 4 * digits < width
    ensures Digits(buf, digits) && Above(buf, digits) == 0 && Value(buf, digits) == val0
  {
    hide Pow2, Shr, Or, And, Adjust, Digits, Above, Value, Pow10, Split;
    SplitStart(val0, bits);
    buf := Shr(val0, bits - 3);
    OneDigit(buf, digits);
    var val := (8 * val0) % Pow2(bits);
    ghost var rest: nat := val0 % Pow2(bits - 3);
    for i := 0 to bits - 3
      invariant Digits(buf, digits) && Above(buf, digits) == 0
      invariant Split(val0, Value(buf, digits), rest, bits - 3 - i)
      invariant val == rest * Pow2(3 + i)
    {
      ghost var m := bits - 3 - i;
      SplitIn(val0, Value(buf, digits), rest, m);
      ShiftOut(rest, m, bits, val);
      SplitStep(val0, Value(buf, digits), rest, m);
      SplitBelow(val0, 2 * Value(buf, digits) + rest / Pow2(m - 1), rest % Pow2(m - 1), m - 1);
      var bit := Shr(val, bits - 1);
      NoOverflow(buf, digits, width, bit);
      Fits(buf, digits, bit);
      buf := Adjust(buf, digits) % Pow2(width);
      buf := Or((2 * buf) % Pow2(width), bit);
      val := (2 * val) % Pow2(bits);
      rest := rest % Pow2(m - 1);
    }
    SplitDone(val0, Value(buf, digits), rest);
  }

  lemma SplitIn(val0: nat, v: nat, rest: nat, m: nat)
    requires Split(val0, v, rest, m)
    ensures rest < Pow2(m)
  {
  }

  lemma SplitDone(val0: nat, v: nat, rest: nat)
    requires Split(val0, v, rest, 0)
    ensures v == val0
  {
  }

  // A number below 8 is one digit.
  lemma OneDigit(b: nat, k: nat)
    requires b < 8 && k > 0
    ensures Digits(b, k) && Above(b, k) == 0 && Value(b, k) == b
  {
    assert b / 16 == 0 && b % 16 == b;
    ZeroDigits(k - 1);
  }

  lemma {:induction false} ZeroDigits(k: nat)
    ensures Digits(0, k) && Above(0, k) == 0 && Value(0, k) == 0
  {
    if k > 0 {
      ZeroDigits(k - 1);
    }
  }

  // Neither the adjustment nor the shift leaves the word, and the new bit lands in a cleared place.
  lemma NoOverflow(b: nat, k: nat, width: nat, bit: nat)
    requires Digits(b, k) && Above(b, k) == 0 && bit <= 1 && 4 * k < width
    ensures Adjust(b, k) % Pow2(width) == Adjust(b, k)
    ensures Or((2 * Adjust(b, k)) % Pow2(width), bit) == 2 * Adjust(b, k) + bit
  {
    hide Pow2, Or, Adjust, Digits, Above, Value, Pow10;
    Doubles(b, k, 0);
    AboveIsDiv(2 * Adjust(b, k), k);
    var n, p := 2 * Adjust(b, k), Pow2(4 * k);
    assert n < 2 * p by {
      assert n == p * (n / p) + n % p;
      MulLe(p, n / p, 1);
    }
    Pow2Less(4 * k, width);
    DivModUnique(n, Pow2(width), 0, n);
    DivModUnique(Adjust(b, k), Pow2(width), 0, Adjust(b, k));
    OrLow(Adjust(b, k), bit);
  }

  lemma OrLow(a: nat, bit: nat)
    requires bit <= 1
    ensures Or(2 * a, bit) == 2 * a + bit
  {
    hide Or;
    OrHalf(2 * a, bit);
    OrZero(a);
  }

  // ---------------------------------------------------------------- 64 bits

  // The low k nibbles of a number do not change when the rest is cut off.
  lemma {:induction false} LowNibbles(n: nat, k: nat)
    ensures Digits(n % Pow2(4 * k), k) == Digits(n, k) && Value(n % Pow2(4 * k), k) == Value(n, k)
    ensures Above(n % Pow2(4 * k), k) == 0
    decreases k
  {
    hide Pow2, Digits, Value, Above;
    if k == 0 {
      Pow2Zero();
      ZeroDigits(0);
      NoDigits(n);
    } else {
      var p, l := Pow2(4 * k - 4), n % Pow2(4 * k);
      SixteenTimes(k);
      NibbleMod(n, p);
      LowNibbles(n / 16, k - 1);
      Unfold(n, k);
      Unfold(l, k);
    }
  }

  lemma NoDigits(n: nat)
    ensures Digits(n, 0) && Value(n, 0) == 0
  {
  }

  lemma NibbleMod(n: nat, p: nat)
    requires p > 0
    ensures (n % (16 * p)) / 16 == (n / 16) % p && (n % (16 * p)) % 16 == n % 16
  {
    var q, r := (n / 16) / p, (n / 16) % p;
    assert n / 16 == p * q + r;
    assert (16 * p) * q == 16 * (p * q);
    DivModUnique(n, 16 * p, q, 16 * r + n % 16);
  }

  lemma TopCarry(a: nat, bit: nat)
    requires bit <= 1 && (2 * a + bit) / SIZE_MOD <= 1
    ensures a < SIZE_MOD && a / 0x8000_0000_0000_0000 == (2 * a + bit) / SIZE_MOD
    ensures 2 * ((2 * a) % SIZE_MOD / 2) == (2 * a) % SIZE_MOD && (2 * a) % SIZE_MOD + bit == (2 * a + bit) % SIZE_MOD
  {
  }

  lemma {:induction false} Pow10Add(a: nat, b: nat)
    ensures Pow10(a + b) == Pow10(a) * Pow10(b)
  {
    if b != 0 {
      Pow10Add(a, b - 1);
    }
  }

  lemma Pow10Of20()
    ensures Pow10(4) == 1_0000 && Pow10(5) == 10_0000 && Pow10(10) == 100_0000_0000
    ensures Pow10(16) == 1_0000_0000_0000_0000 && Pow10(20) == 1_0000_0000_0000_0000_0000
  {
    assert Pow10(4) == 10 * Pow10(3) == 100 * Pow10(2) == 1000 * Pow10(1) == 1_0000;
    assert Pow10(5) == 10 * Pow10(4);
    Pow10Add(5, 5);
    Pow10Add(4, 4);
    Pow10Add(8, 8);
    Pow10Add(16, 4);
  }

  // The decimal number in the split accumulator.
  ghost function Joined(lo: nat, hi: nat): nat { Value(lo, 16) + Pow10(16) * Value(hi, 4) }

  ghost predicate Accumulator(lo: nat, hi: nat) {
    Digits(lo, 16) && Above(lo, 16) == 0 && Digits(hi, 4) && Above(hi, 4) == 0
  }

  // The low word: its carry is its top bit before the shift.
  lemma LowWord(lo: nat, bit: nat) returns (carry: nat)
    requires Digits(lo, 16) && Above(lo, 16) == 0 && bit <= 1
    ensures Adjust(lo, 16) % SIZE_MOD == Adjust(lo, 16) && Shr(Adjust(lo, 16), 63) == carry <= 1
    ensures var n := Or((2 * Adjust(lo, 16)) % SIZE_MOD, bit);
      && Digits(n, 16) && Above(n, 16) == 0 && Value(n, 16) + Pow10(16) * carry == 2 * Value(lo, 16) + bit
  {
    hide Pow2, Or, Shr, Adjust, Digits, Above, Value, Pow10;
    Pow2Values();
    Doubles(lo, 16, bit);
    var a, n := Adjust(lo, 16), 2 * Adjust(lo, 16) + bit;
    carry := Above(n, 16);
    AboveIsDiv(n, 16);
    Pow2Step(64);
    ShrIsDiv(a, 63);
    LowNibbles(n, 16);
    TopCarry(a, bit);
    OrLow((2 * a) % SIZE_MOD / 2, bit);
  }

  // The high word takes the carry and never overflows, while the whole number fits 20 digits.
  lemma HighWord(lo: nat, hi: nat, bit: nat, carry: nat, next: nat)
    requires Digits(hi, 4) && Above(hi, 4) == 0 && carry <= 1
    requires next + Pow10(16) * carry == 2 * Value(lo, 16) + bit
    requires 2 * Joined(lo, hi) + bit < SIZE_MOD
    ensures Adjust(hi, 4) % 0x1_0000 == Adjust(hi, 4)
    ensures var n := Or((2 * Adjust(hi, 4)) % 0x1_0000, carry);
      Digits(n, 4) && Above(n, 4) == 0 && next + Pow10(16) * Value(n, 4) == 2 * Joined(lo, hi) + bit
  {
    hide Pow2, Or, Adjust, Digits, Above, Value, Pow10;
    Pow2Values();
    Pow10Of20();
    assert 2 * Value(hi, 4) + carry < Pow10(4);
    Fits(hi, 4, carry);
    var n := 2 * Adjust(hi, 4) + carry;
    AboveZero(n, 4);
    OrLow(Adjust(hi, 4), carry);
  }

  // The loop of num_uint64_to_str.
  method Dabble64(val0: nat) returns (lo: nat, hi: nat)
    requires val0 < SIZE_MOD
    ensures Accumulator(lo, hi) && Joined(lo, hi) == val0
  {
    hide Pow2, Shr, Or, And, Adjust, Digits, Above, Value, Pow10, Split, Joined;
    Pow2Values();
    SplitStart(val0, 64);
    lo, hi := Shr(val0, 61), 0;
    OneDigit(lo, 16);
    OneDigit(0, 4);
    JoinedLow(lo);
    var val := (8 * val0) % SIZE_MOD;
    ghost var rest: nat := val0 % Pow2(61);
    for i := 0 to 61
      invariant Accumulator(lo, hi)
      invariant Split(val0, Joined(lo, hi), rest, 61 - i)
      invariant val == rest * Pow2(3 + i)
    {
      ghost var m := 61 - i;
      SplitIn(val0, Joined(lo, hi), rest, m);
      ShiftOut(rest, m, 64, val);
      SplitStep(val0, Joined(lo, hi), rest, m);
      SplitBelow(val0, 2 * Joined(lo, hi) + rest / Pow2(m - 1), rest % Pow2(m - 1), m - 1);
      var bit := Shr(val, 63);
      ghost var was := Joined(lo, hi);
      lo, hi := Step64(lo, hi, bit);
      val := (2 * val) % SIZE_MOD;
      rest := rest % Pow2(m - 1);
    }
    SplitDone(val0, Joined(lo, hi), rest);
  }

  lemma JoinedLow(lo: nat)
    requires Value(0, 4) == 0
    ensures Joined(lo, 0) == Value(lo, 16)
  {
    hide Value;
  }

  method Step64(lo0: nat, hi0: nat, bit: nat) returns (lo: nat, hi: nat)
    requires Accumulator(lo0, hi0) && bit <= 1 && 2 * Joined(lo0, hi0) + bit < SIZE_MOD
    ensures Accumulator(lo, hi) && Joined(lo, hi) == 2 * Joined(lo0, hi0) + bit
  {
    hide Pow2, Shr, Or, And, Mask, Ones, Digits, Above, Value, Pow10;
    ghost var carry := LowWord(lo0, bit);
    lo := (lo0 + And(Mask(lo0), Ones(16)) * 3) % SIZE_MOD;
    hi := (hi0 + And(Mask(hi0), Ones(4)) * 3) % 0x1_0000;
    assert lo == Adjust(lo0, 16) && hi == Adjust(hi0, 4) % 0x1_0000;
    HighWord(lo0, hi0, bit, carry, Value(Or((2 * lo) % SIZE_MOD, bit), 16));
    hi := Or((2 * hi) % 0x1_0000, Shr(lo, 63));
    lo := Or((2 * lo) % SIZE_MOD, bit);
  }
}
