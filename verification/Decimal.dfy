// The decimal strings of num_to_str.c.
module Decimal {
  import opened Bits
  import opened DoubleDabble
  import opened NumToStr
  import opened Words

  function Ch(d: nat): char
    requires d < 10
  {
    ('0' as int + d) as char
  }

  function DigitAt(n: nat, i: nat): (d: nat)
    ensures d < 10
  {
    if i == 0 then n % 10 else DigitAt(n / 10, i - 1)
  }

  // The low k decimal digits of n.
  function Padded(n: nat, k: nat): (s: string)
    ensures |s| == k
  {
    if k == 0 then [] else Padded(n / 10, k - 1) + [Ch(n % 10)]
  }

  lemma {:induction false} PaddedAt(n: nat, k: nat, i: nat)
    requires i < k
    ensures Padded(n, k)[k - 1 - i] == Ch(DigitAt(n, i))
    decreases k
  {
    if i > 0 {
      PaddedAt(n / 10, k - 1, i - 1);
    }
  }

  lemma {:induction false} PaddedIs(s: string, n: nat, k: nat)
    requires |s| == k && forall i :: 0 <= i < k ==> s[k - 1 - i] == Ch(DigitAt(n, i))
    ensures s == Padded(n, k)
  {
    forall j | 0 <= j < k ensures s[j] == Padded(n, k)[j] {
      var i := k - 1 - j;
      assert s[k - 1 - i] == Ch(DigitAt(n, i));
      PaddedAt(n, k, i);
    }
  }

  // A nibble of the accumulator is a digit of its number.
  lemma {:induction false} NibbleDigit(b: nat, k: nat, i: nat)
    requires Digits(b, k) && i < k
    ensures And(Shr(b, 4 * i), 15) == DigitAt(Value(b, k), i)
    decreases k
  {
    hide And, Shr, Value, Digits, Above, Pow10;
    Unfold(b, k);
    if i == 0 {
      LowNibble(b);
    } else {
      NibbleDigit(b / 16, k - 1, i - 1);
      ShrNibble(b, i);
      assert Value(b, k) / 10 == Value(b / 16, k - 1);
    }
  }

  lemma LowNibble(b: nat)
    ensures And(Shr(b, 0), 15) == b % 16
  {
    hide And;
    Pow2Values();
    AndLowMask(b, 4);
  }

  lemma ShrNibble(b: nat, i: nat)
    requires i > 0
    ensures Shr(b, 4 * i) == Shr(b / 16, 4 * (i - 1))
  {
    hide Shr;
    ShrUnfold(b, 4 * i);
    ShrUnfold(b / 2, 4 * i - 1);
    ShrUnfold(b / 4, 4 * i - 2);
    ShrUnfold(b / 8, 4 * i - 3);
    Halvings(b);
  }

  lemma Halvings(b: nat)
    ensures b / 2 / 2 == b / 4 && b / 4 / 2 == b / 8 && b / 8 / 2 == b / 16
  {
  }

  // ---------------------------------------------------------------- filling the buffer

  // The output loop: k digits of buf, from outbuf[base] on.
  method Fill(outbuf: array<char>, base: nat, buf: nat, k: nat)
    requires Digits(buf, k) && base + k <= outbuf.Length
    modifies outbuf
    ensures outbuf[base..base + k] == Padded(Value(buf, k), k)
    ensures forall j :: 0 <= j < outbuf.Length && !(base <= j < base + k) ==> outbuf[j] == old(outbuf[j])
  {
    hide And, Shr, Value, Digits;
    for i := 0 to k
      invariant forall j :: 0 <= j < i ==> outbuf[base + k - 1 - j] == Ch(DigitAt(Value(buf, k), j))
      invariant forall j :: 0 <= j < outbuf.Length && !(base <= j < base + k) ==> outbuf[j] == old(outbuf[j])
    {
      NibbleDigit(buf, k, i);
      outbuf[base + k - 1 - i] := Ch(And(Shr(buf, 4 * i), 15));
    }
    PaddedIs(outbuf[base..base + k], Value(buf, k), k);
  }

  function Zeros(k: nat): string { seq(k, _ => '0') }

  // Padding with zeros writes the same number.
  lemma {:induction false} PaddedMore(n: nat, k: nat, j: nat)
    requires n < Pow10(k)
    ensures Padded(n, j + k) == Zeros(j) + Padded(n, k)
    decreases k
  {
    if k == 0 {
      PaddedZero(j);
      assert Zeros(j) + [] == Zeros(j);
    } else {
      PaddedMore(n / 10, k - 1, j);
      assert Padded(n, j + k) == (Zeros(j) + Padded(n / 10, k - 1)) + [Ch(n % 10)];
    }
  }

  lemma {:induction false} PaddedZero(j: nat)
    ensures Padded(0, j) == Zeros(j)
  {
    if j > 0 {
      PaddedZero(j - 1);
      assert Zeros(j) == Zeros(j - 1) + ['0'];
    }
  }

  // The number of significant digits, none for zero.
  function Significant(n: nat): nat { if n == 0 then 0 else 1 + Significant(n / 10) }

  lemma {:induction false} SignificantIs(n: nat, d: nat)
    requires n < Pow10(d) && (d == 0 || Pow10(d - 1) <= n)
    ensures Significant(n) == d
  {
    if d > 0 {
      if d == 1 {
        assert n / 10 == 0;
      }
      SignificantIs(n / 10, d - 1);
    }
  }

  lemma {:induction false} LeadingDigit(n: nat, d: nat)
    requires d > 0 && n < Pow10(d)
    ensures DigitAt(n, d - 1) == 0 <==> n < Pow10(d - 1)
    decreases d
  {
    if d > 1 {
      LeadingDigit(n / 10, d - 1);
    }
  }

  // ---------------------------------------------------------------- choosing the width

  // A mask of all but the low k of 64 bits tests whether the number fits k bits.
  lemma HighMask(val: nat, k: nat, mask: nat)
    requires val < SIZE_MOD && k <= 64
    requires mask == Pow2(k) * (Pow2(64 - k) - 1)
    ensures And(val, mask) == 0 <==> val < Pow2(k)
  {
    hide And, Pow2, Shr;
    var p, q := Pow2(k), Pow2(64 - k);
    Pow2Values();
    Pow2Add(k, 64 - k);
    AndShifted(val, q - 1, k, mask);
    ShrIsDiv(val, k);
    AndLowMask(val / p, 64 - k);
    QuotientBelow(val, p, q);
    DivModUnique(val / p, q, 0, val / p);
    if val < p {
      DivModUnique(val, p, 0, val);
      assert p * 0 == 0;
    } else {
      assert val == p * (val / p) + val % p;
      assert val / p > 0;
      MulLe(p, 1, val / p);
    }
  }

  lemma Masks()
    ensures Pow2(16) * (Pow2(48) - 1) == 0xFFFF_FFFF_FFFF_0000 && Pow2(32) * (Pow2(32) - 1) == 0xFFFF_FFFF_0000_0000
    ensures Pow2(16) == 0x1_0000 && Pow2(32) == 0x1_0000_0000
  {
    hide Pow2;
    Pow2Values();
    Pow2Add(16, 16);
    Pow2Add(32, 16);
  }

  // num_uint_to_str: twenty digits, and how many of them are significant.
  method NumUintToStr(val: nat, outbuf: array<char>) returns (digits: nat)
    requires val < SIZE_MOD && outbuf.Length == 20
    modifies outbuf
    ensures outbuf[..] == Padded(val, 20) && digits == Significant(val)
  {
    hide And, Pow2, Pow10, Padded, Value, Digits, Significant;
    Masks();
    Pow10Of20();
    HighMask(val, 16, 0xFFFF_FFFF_FFFF_0000);
    HighMask(val, 32, 0xFFFF_FFFF_0000_0000);
    if And(val, 0xFFFF_FFFF_FFFF_0000) == 0 {
      var buf := Dabble(val, 16, 5, 32);
      Fill(outbuf, 15, buf, 5);
      assert outbuf[15..] == outbuf[15..20];
      ZeroFill(outbuf, 15);
      PaddedMore(val, 5, 15);
      digits := 5;
    } else if And(val, 0xFFFF_FFFF_0000_0000) == 0 {
      var buf := Dabble(val, 32, 10, 64);
      Fill(outbuf, 10, buf, 10);
      assert outbuf[10..] == outbuf[10..20];
      ZeroFill(outbuf, 10);
      PaddedMore(val, 10, 10);
      digits := 10;
    } else {
      var lo, hi := Dabble64(val);
      Fill(outbuf, 4, lo, 16);
      Fill(outbuf, 0, hi, 4);
      PaddedJoin(lo, hi);
      assert outbuf[..] == outbuf[0..4] + outbuf[4..20];
      digits := 20;
    }
    assert outbuf[..] == Padded(val, 20);
    while digits > 0 && outbuf[20 - digits] == '0'
      invariant digits <= 20 && val < Pow10(digits) && outbuf[..] == Padded(val, 20)
    {
      LeadingZero(val, digits);
      assert outbuf[..][20 - digits] == '0';
      digits := digits - 1;
    }
    if digits > 0 {
      LeadingZero(val, digits);
      assert outbuf[..][20 - digits] != '0';
    }
    SignificantIs(val, digits);
  }

  lemma LeadingZero(n: nat, d: nat)
    requires 0 < d <= 20 && n < Pow10(d)
    ensures Padded(n, 20)[20 - d] == '0' <==> n < Pow10(d - 1)
  {
    hide Padded, Pow10, DigitAt;
    PaddedAt(n, 20, d - 1);
    LeadingDigit(n, d);
  }

  method ZeroFill(outbuf: array<char>, n: nat)
    requires n <= outbuf.Length
    modifies outbuf
    ensures outbuf[..] == Zeros(n) + old(outbuf[n..])
  {
    for i := 0 to n
      invariant forall j :: 0 <= j < i ==> outbuf[j] == '0'
      invariant forall j :: n <= j < outbuf.Length ==> outbuf[j] == old(outbuf[j])
    {
      outbuf[i] := '0';
    }
  }

  // The split accumulator's digits are the number's digits.
  lemma PaddedJoin(lo: nat, hi: nat)
    requires Accumulator(lo, hi)
    ensures Padded(Joined(lo, hi), 20) == Padded(Value(hi, 4), 4) + Padded(Value(lo, 16), 16)
  {
    hide Value, Digits, Pow10, Padded, Above;
    ValueBelow(lo, 16);
    assert Pow10(16) * Value(hi, 4) == Value(hi, 4) * Pow10(16);
    PaddedSplit(Value(hi, 4), Value(lo, 16), 4, 16, Joined(lo, hi));
  }

  lemma {:induction false} PaddedSplit(a: nat, b: nat, j: nat, k: nat, n: nat)
    requires b < Pow10(k) && n == a * Pow10(k) + b
    ensures Padded(n, j + k) == Padded(a, j) + Padded(b, k)
    decreases k
  {
    hide Pow10;
    Pow10Unfold(k);
    if k == 0 {
      assert Padded(a, j) + [] == Padded(a, j);
    } else {
      TenStep(a, b, Pow10(k - 1), n);
      PaddedSplit(a, b / 10, j, k - 1, n / 10);
      assert Padded(n, j + k) == (Padded(a, j) + Padded(b / 10, k - 1)) + [Ch(b % 10)];
    }
  }

  lemma TenStep(a: nat, b: nat, p: nat, n: nat)
    requires n == a * (10 * p) + b
    ensures n / 10 == a * p + b / 10 && n % 10 == b % 10
  {
    assert a * (10 * p) == 10 * (a * p);
  }

  lemma Pow10Unfold(k: nat)
    ensures Pow10(k) == if k == 0 then 1 else 10 * Pow10(k - 1)
  {
  }

  // ---------------------------------------------------------------- strings

  // Canonical decimal notation: no leading zeros, and a single zero for zero.
  function Dec(n: nat): string {
    if n < 10 then [Ch(n)] else Dec(n / 10) + [Ch(n % 10)]
  }

  function DecInt(v: int): string { if v < 0 then ['-'] + Dec(-v) else Dec(v) }

  function Parse(s: string): int {
    if s == [] then 0 else 10 * Parse(s[..|s| - 1]) + (s[|s| - 1] as int - '0' as int)
  }

  function ParseInt(s: string): int {
    if s != [] && s[0] == '-' then -Parse(s[1..]) else Parse(s)
  }

  lemma {:induction false} ParseDec(n: nat)
    ensures Parse(Dec(n)) == n && Dec(n)[0] != '-' && |Dec(n)| > 0
    ensures Dec(n)[0] == '0' ==> n == 0 && |Dec(n)| == 1
  {
    if n < 10 {
      assert Dec(n)[..0] == [];
    } else {
      ParseDec(n / 10);
      assert Dec(n)[..|Dec(n)| - 1] == Dec(n / 10);
    }
  }

  // Parsing the string gives the number back.
  lemma RoundTrip(v: int)
    ensures ParseInt(DecInt(v)) == v
  {
    hide Dec;
    ParseDec(if v < 0 then -v else v);
    if v < 0 {
      assert DecInt(v)[1..] == Dec(-v);
    }
  }

  lemma {:induction false} DecIsPadded(n: nat)
    ensures Dec(n) == Padded(n, AtLeastOne(Significant(n)))
  {
    if n >= 10 {
      DecIsPadded(n / 10);
    } else {
      assert Padded(n / 10, 0) == [];
      assert Significant(n / 10) == 0;
    }
  }

  // The last digits of the padded number.
  lemma {:induction false} PaddedTail(n: nat, k: nat, d: nat)
    requires d <= k
    ensures Padded(n, k)[k - d..] == Padded(n, d)
    decreases d
  {
    if d > 0 {
      PaddedTail(n / 10, k - 1, d - 1);
      assert Padded(n, k)[k - d..] == Padded(n / 10, k - 1)[k - d..] + [Ch(n % 10)];
    }
  }

  // Negation of a 64-bit number, and its conversion to unsigned.
  function Negate64(v: int): nat {
    var w := (-v + SIZE_MOD / 2) % SIZE_MOD - SIZE_MOD / 2;
    w % SIZE_MOD
  }

  lemma {:induction false} SignificantBound(n: nat, d: nat)
    requires n < Pow10(d)
    ensures Significant(n) <= d
    decreases d
  {
    if n > 0 {
      SignificantBound(n / 10, d - 1);
    }
  }

  // A buffer that holds the whole number and a terminator gets the canonical string; a shorter one
  // keeps the sign and the last digits.
  ghost predicate Written(out: string, size: nat, val: int, len: nat) {
    var sign := if val < 0 then 1 else 0;
    && len < size <= |out| && out[len] == 0 as char
    && (if |DecInt(val)| < size then out[..len] == DecInt(val)
        else
          && len == size - 1 && sign <= len <= |DecInt(val)|
          && out[..sign] == DecInt(val)[..sign] && out[sign..len] == DecInt(val)[|DecInt(val)| - (len - sign)..])
  }

  // s replaces the part of was from at on.
  ghost function Patched(was: string, at: nat, s: string): string
    requires at + |s| <= |was|
  {
    was[..at] + s + was[at + |s|..]
  }

  lemma PatchedParts(was: string, at: nat, s: string)
    requires at + |s| <= |was|
    ensures |Patched(was, at, s)| == |was| && Patched(was, at, s)[at..at + |s|] == s
    ensures at > 0 ==> Patched(was, at, s)[0] == was[0]
  {
  }

  method MemCopy(dst: array<char>, at: nat, src: array<char>, from: nat, n: nat)
    requires dst != src && at + n <= dst.Length && from + n <= src.Length
    modifies dst
    ensures dst[..] == Patched(old(dst[..]), at, src[from..from + n])
  {
    forall i | at <= i < at + n {
      dst[i] := src[from + (i - at)];
    }
  }

  // int_to_cstr.
  method IntToCstr(val: int, outbuf: array?<char>, size: nat) returns (len: nat)
    requires -(SIZE_MOD / 2) <= val < SIZE_MOD / 2 && (outbuf != null ==> size <= outbuf.Length)
    modifies if outbuf != null then {outbuf} else {}
    ensures outbuf == null || size <= 1 ==> len == 0
    ensures outbuf != null && size == 1 ==> outbuf[0] == 0 as char
    ensures outbuf != null && size > 1 ==> Written(outbuf[..], size, val, len)
    ensures outbuf != null && size == 0 ==> outbuf[..] == old(outbuf[..])
  {
    hide Written;
    if size == 0 || outbuf == null {
      return 0;
    }
    if size == 1 {
      outbuf[0] := 0 as char;
      return 0;
    }
    len := WriteInt(val, outbuf, size);
  }

  // Its sign, its digits and the terminator.
  method WriteInt(val: int, outbuf: array<char>, size: nat) returns (len: nat)
    requires -(SIZE_MOD / 2) <= val < SIZE_MOD / 2 && 1 < size <= outbuf.Length
    modifies outbuf
    ensures Written(outbuf[..], size, val, len)
  {
    hide Padded, Dec, DecInt, Significant, Pow10, Written, Patched;
    var sign := if val < 0 then 1 else 0;
    var u := if val < 0 then Negate64(val) else val;
    if val < 0 {
      outbuf[0] := '-';
    }
    var buf := new char[20];
    var digits := NumUintToStr(u, buf);
    DecText(u);
    if digits == 0 {
      digits := 1;
    }
    var copy := if digits + sign < size - 1 then digits else size - 1 - sign;
    assert buf[20 - copy..20 - copy + copy] == buf[..][20 - copy..];
    PatchedParts(outbuf[..], sign, buf[20 - copy..20 - copy + copy]);
    MemCopy(outbuf, sign, buf, 20 - copy, copy);
    len := copy + sign;
    ghost var out := outbuf[..];
    outbuf[len] := 0 as char;
    WrittenOk(out, outbuf[..], size, val, u, digits, copy);
  }

  lemma WrittenOk(was: string, out: string, size: nat, val: int, u: nat, digits: nat, copy: nat)
    requires u == (if val < 0 then -val else val) && Dec(u) == Padded(u, digits) && 0 < digits <= 20 && 1 < size <= |was|
    requires var sign := if val < 0 then 1 else 0;
      && copy == (if digits + sign < size - 1 then digits else size - 1 - sign)
      && (val < 0 ==> was[0] == '-')
      && was[sign..sign + copy] == Padded(u, 20)[20 - copy..]
      && out == was[sign + copy := 0 as char]
    ensures Written(out, size, val, copy + if val < 0 then 1 else 0)
  {
    hide Padded, Dec, DecInt;
    var sign := if val < 0 then 1 else 0;
    PaddedTail(u, 20, copy);
    PaddedTail(u, digits, copy);
    DecTail(val, copy);
    assert out[sign..sign + copy] == was[sign..sign + copy];
    assert out[..sign] == (if val < 0 then ['-'] else []);
    if copy == digits {
      Whole(out, sign, copy, DecInt(val));
    }
  }

  lemma Whole(out: string, sign: nat, copy: nat, s: string)
    requires sign + copy == |s| <= |out| && out[..sign] == s[..sign] && out[sign..sign + copy] == s[|s| - copy..]
    ensures out[..|s|] == s
  {
    assert out[..|s|] == out[..sign] + out[sign..sign + copy];
    assert s == s[..sign] + s[sign..];
  }

  // The digits of a signed number's string are those of its magnitude.
  lemma DecTail(v: int, c: nat)
    requires c <= |Dec(if v < 0 then -v else v)|
    ensures var s := if v < 0 then 1 else 0; var d := Dec(if v < 0 then -v else v);
      && |DecInt(v)| == s + |d| && DecInt(v)[..s] == (if v < 0 then ['-'] else [])
      && DecInt(v)[|DecInt(v)| - c..] == d[|d| - c..]
  {
    hide Dec;
  }

  lemma DecText(n: nat)
    ensures |Dec(n)| == AtLeastOne(Significant(n)) && Dec(n) == Padded(n, AtLeastOne(Significant(n)))
    ensures n < SIZE_MOD ==> Significant(n) <= 20
  {
    hide Dec, Padded, Pow10;
    DecIsPadded(n);
    Pow10Of20();
    if n < SIZE_MOD {
      SignificantBound(n, 20);
    }
  }
}
