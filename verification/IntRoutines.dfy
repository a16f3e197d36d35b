// Software division and multiplication (int_routines.c), for words of n bits.
module IntRoutines {
  import opened Bits
  import opened Words

  // The top bit decides whether the divisor has been shifted all the way up.
  lemma TopBitSet(x: nat, n: nat)
    requires n > 0 && x < Pow2(n)
    ensures And(x, Pow2(n - 1)) != 0 <==> x >= Pow2(n - 1)
  {
    hide And, Pow2, Shr;
    var p := Pow2(n - 1);
    Pow2Step(n);
    AndShifted(x, 1, n - 1, p);
    ShrIsDiv(x, n - 1);
    if x < p {
      DivModUnique(x, p, 0, x);
      AndZeroLeft(1);
    } else {
      DivModUnique(x, p, 1, x - p);
      AndSelf(1);
    }
  }

  // divmod: shift the divisor up, then subtract its multiples on the way down.
  method DivMod(a: nat, b: nat, n: nat) returns (remainder: nat, result: nat)
    requires n > 0 && a < Pow2(n) && 0 < b < Pow2(n)
    ensures a == result * b + remainder && remainder < b
  {
    hide And, Or, Pow2;
    var msb := Pow2(n - 1);
    var divisor, shift := b, 0;
    Pow2Zero();
    while And(divisor, msb) == 0
      invariant 0 < divisor < Pow2(n) && divisor == b * Pow2(shift)
      decreases Pow2(n) - divisor
    {
      TopBitSet(divisor, n);
      Pow2Step(n);
      Pow2Step(shift + 1);
      Double(b, Pow2(shift));
      divisor := 2 * divisor;
      shift := shift + 1;
    }
    TopBitSet(divisor, n);
    Pow2Step(n);
    remainder, result := a, 0;
    ghost var top := shift + 1;
    for i := 0 to shift + 1
      invariant a == result * b + remainder
      invariant i <= shift ==> divisor == b * Pow2(shift - i) && remainder < 2 * divisor
      invariant i <= shift ==> result % Pow2(shift - i + 1) == 0
      invariant i == shift + 1 ==> remainder < b
    {
      var k := shift - i;
      Pow2Step(k + 1);
      BitFree(result, Pow2(k));
      if remainder >= divisor {
        OrDisjoint(result, Pow2(k), k + 1);
        AddMultiple(result, Pow2(k), b);
        result := Or(result, Pow2(k));
        remainder := remainder - divisor;
      }
      if k == 0 {
        Pow2Zero();
      } else {
        Pow2Step(k);
        Double(b, Pow2(k - 1));
      }
      divisor := divisor / 2;
    }
  }

  lemma Double(b: nat, p: nat)
    ensures b * (2 * p) == 2 * (b * p)
  {
  }

  lemma AddMultiple(q: nat, p: nat, b: nat)
    ensures (q + p) * b == q * b + b * p
  {
  }

  // A multiple of 2p stays a multiple of p, with or without p added.
  lemma BitFree(q: nat, p: nat)
    requires p > 0 && q % (2 * p) == 0
    ensures q % p == 0 && (q + p) % p == 0
  {
    var h := q / (2 * p);
    assert q == (2 * p) * h;
    assert (2 * p) * h == p * (2 * h);
    DivModUnique(q, p, 2 * h, 0);
    assert p * (2 * h + 1) == p * (2 * h) + p;
    DivModUnique(q + p, p, 2 * h + 1, 0);
  }

  // ---------------------------------------------------------------- signed division

  // A signed word of n bits, and its unsigned reading.
  function Wrap(x: int, n: nat): int
    requires n > 0
  {
    var u := x % Pow2(n);
    if u >= Pow2(n - 1) then u - Pow2(n) else u
  }

  function Unsigned(x: int, n: nat): nat { x % Pow2(n) }

  function Abs(x: int): nat { if x < 0 then -x else x }

  // Division that rounds toward zero, and its remainder.
  function TruncDiv(a: int, b: int): int
    requires b != 0
  {
    if (a < 0) != (b < 0) then -(Abs(a) / Abs(b)) else Abs(a) / Abs(b)
  }

  function TruncMod(a: int, b: int): int
    requires b != 0
  {
    if a < 0 then -(Abs(a) % Abs(b)) else Abs(a) % Abs(b)
  }

  // They divide: the quotient rounds toward zero and the remainder has the sign of the dividend.
  lemma Truncates(a: int, b: int)
    requires b != 0
    ensures a == TruncDiv(a, b) * b + TruncMod(a, b) && Abs(TruncMod(a, b)) < Abs(b)
    ensures TruncMod(a, b) != 0 ==> (TruncMod(a, b) < 0 <==> a < 0)
  {
    var q, r := Abs(a) / Abs(b), Abs(a) % Abs(b);
    assert Abs(a) == Abs(b) * q + r;
    Signs(q, b);
  }

  lemma Signs(q: int, b: int)
    ensures q * -b == -(q * b) && (-q) * b == -(q * b) && b * q == q * b && (-b) * q == -(q * b)
  {
  }

  // Negating a negative word, also the smallest, gives its magnitude as an unsigned word.
  lemma Magnitude(x: int, n: nat)
    requires n > 0 && -(Pow2(n - 1) as int) <= x < Pow2(n - 1)
    ensures Unsigned(if x < 0 then Wrap(-x, n) else x, n) == Abs(x) && Abs(x) < Pow2(n)
  {
    hide Pow2;
    Pow2Step(n);
    var p, m := Pow2(n - 1), Pow2(n);
    DivModUnique(Abs(x), m, 0, Abs(x));
    if x < 0 && -x >= p {
      assert Wrap(-x, n) == -x - m;
      ModShift(-x, m);
    }
  }

  // One word below a number is that number again.
  lemma ModShift(y: nat, m: nat)
    requires y < m
    ensures (y - m) % m == y
  {
    var q, r := (y - m) / m, (y - m) % m;
    assert y - m == m * q + r;
    assert m * (q + 1) == m * q + m;
    WholeMultiple(m, q + 1);
  }

  lemma WholeMultiple(m: nat, k: int)
    ensures (k >= 1 ==> m * k >= m) && (k <= -1 ==> m * k <= -(m as int)) && (k == 0 ==> m * k == 0)
  {
    if k >= 1 {
      MulLe(m, 1, k);
    } else if k <= -1 {
      MulLe(m, 1, -k);
      assert m * -k == -(m * k);
    }
  }

  // __divsi3 and __divdi3.
  method Div(a: int, b: int, n: nat) returns (r: int)
    requires n > 0 && -(Pow2(n - 1) as int) <= a < Pow2(n - 1) && -(Pow2(n - 1) as int) <= b < Pow2(n - 1)
    ensures r == if b == 0 then -1 else Wrap(TruncDiv(a, b), n)
  {
    hide Pow2;
    if b == 0 {
      return -1;
    }
    var sign := (a < 0) != (b < 0);
    Magnitude(a, n);
    Magnitude(b, n);
    var ua := Unsigned(if a < 0 then Wrap(-a, n) else a, n);
    var ub := Unsigned(if b < 0 then Wrap(-b, n) else b, n);
    var rem: int, res: int := DivMod(ua, ub, n);
    Divides(ua, ub, res, rem);
    r := if sign then Wrap(-res, n) else Wrap(res, n);
  }

  // __modsi3 and __moddi3.
  method Mod(a: int, b: int, n: nat) returns (r: int)
    requires n > 0 && -(Pow2(n - 1) as int) <= a < Pow2(n - 1) && -(Pow2(n - 1) as int) <= b < Pow2(n - 1)
    ensures r == if b == 0 then a else Wrap(TruncMod(a, b), n)
  {
    hide Pow2;
    if b == 0 {
      return a;
    }
    Magnitude(a, n);
    Magnitude(b, n);
    var ua := Unsigned(if a < 0 then Wrap(-a, n) else a, n);
    var ub := Unsigned(if b < 0 then Wrap(-b, n) else b, n);
    var rem: int, res: int := DivMod(ua, ub, n);
    Divides(ua, ub, res, rem);
    r := if a < 0 then Wrap(-rem, n) else Wrap(rem, n);
  }

  lemma Divides(a: nat, b: nat, q: nat, r: nat)
    requires a == q * b + r && r < b
    ensures a / b == q && a % b == r
  {
    DivModUnique(a, b, q, r);
  }

  // __udivsi3, __umodsi3 and their 64-bit forms.
  method UDivMod(a: nat, b: nat, n: nat) returns (q: nat, r: nat)
    requires n > 0 && a < Pow2(n) && b < Pow2(n)
    ensures if b == 0 then q == Pow2(n) - 1 && r == a else q == a / b && r == a % b
  {
    hide Pow2;
    if b == 0 {
      return Pow2(n) - 1, a;
    }
    r, q := DivMod(a, b, n);
    Divides(a, b, q, r);
  }

  // ---------------------------------------------------------------- multiplication

  lemma WrapSum(x: int, y: int)
    ensures Wrap32(Wrap32(x) + Wrap32(y)) == Wrap32(x + y)
  {
  }

  // __mulsi3: the product modulo 2^32.
  method MulSi(a0: int, b0: int) returns (res: int)
    requires -WORD / 2 <= a0 < WORD / 2 && -WORD / 2 <= b0 < WORD / 2
    ensures res == Wrap32(a0 * b0)
  {
    hide Wrap32, Pow2;
    res := 0;
    var a, b := a0, b0;
    ghost var sum, scaled := 0, a0;
    Small(a0);
    Small(0);
    Pow2Zero();
    for i := 0 to 32
      invariant res == Wrap32(sum) && a == Wrap32(scaled)
      invariant scaled == a0 * Pow2(i)
      invariant sum + scaled * b == a0 * b0
    {
      HalfStep(scaled, b);
      if b % 2 == 1 {
        WrapSum(sum, scaled);
        res := Wrap32(res + a);
        sum := sum + scaled;
      }
      b := b / 2;
      WrapSum(scaled, scaled);
      a := Wrap32(2 * a);
      Pow2Step(i + 1);
      DoubleInt(a0, Pow2(i));
      scaled := 2 * scaled;
    }
    Pow2Values();
    Cancel(sum, a0 * b, a0 * b0);
    Regroup(a0, b);
  }

  lemma Small(x: int)
    requires -WORD / 2 <= x < WORD / 2
    ensures Wrap32(x) == x
  {
  }

  lemma HalfStep(s: int, b: int)
    ensures s * b == (2 * s) * (b / 2) + (if b % 2 == 1 then s else 0)
  {
    assert b == 2 * (b / 2) + b % 2;
    assert s * b == s * (2 * (b / 2)) + s * (b % 2);
    assert s * (2 * (b / 2)) == (2 * s) * (b / 2);
  }

  lemma DoubleInt(a: int, p: int)
    ensures 2 * (a * p) == a * (2 * p)
  {
  }

  lemma Regroup(a: int, b: int)
    ensures (a * WORD) * b == WORD * (a * b)
  {
  }

  // Whole multiples of the word do not show.
  lemma Cancel(s: int, k: int, p: int)
    requires s + WORD * k == p
    ensures Wrap32(s) == Wrap32(p)
  {
  }
}
