/** The decimal conversions of showedid.c: integers with an in-place reversal, floats by
    their mantissa and exponent. */
module Decimal {
  import opened Powers

  // ----- decimal numbers ----------------------------------------------------------------

  function Digit(d: nat): char
    requires d < 10
  {
    (d + '0' as int) as char
  }

  predicate IsDigit(c: char) {
    '0' <= c <= '9'
  }

  function Digits(n: nat): (s: string)
    ensures |s| >= 1
  {
    if n < 10 then [Digit(n)] else Digits(n / 10) + [Digit(n % 10)]
  }

  predicate AllDigits(s: string) {
    forall i :: 0 <= i < |s| ==> IsDigit(s[i])
  }

  /** The number a string of digits stands for. */
  function ValueOf(s: string): nat
    requires AllDigits(s)
  {
    if s == [] then 0 else ValueOf(s[..|s| - 1]) * 10 + (s[|s| - 1] as int - '0' as int)
  }

  /** No leading zero, unless the number is zero. */
  predicate Canonical(s: string) {
    |s| >= 1 && AllDigits(s) && (|s| > 1 ==> s[0] != '0')
  }

  lemma {:induction false} ValueSnoc(s: string, d: nat)
    requires AllDigits(s) && d < 10
    ensures AllDigits(s + [Digit(d)]) && ValueOf(s + [Digit(d)]) == ValueOf(s) * 10 + d
  {
    assert (s + [Digit(d)])[..|s|] == s;
  }

  lemma {:induction false} DigitsMean(n: nat)
    ensures Canonical(Digits(n)) && ValueOf(Digits(n)) == n
    ensures n > 0 ==> Digits(n)[0] != '0'
  {
    if n < 10 {
      assert ValueOf([]) == 0;
      ValueSnoc([], n);
      assert [] + [Digit(n)] == [Digit(n)];
    } else {
      DigitsMean(n / 10);
      DigitsStep(n);
      hide Digits, ValueOf;
      ValueSnoc(Digits(n / 10), n % 10);
    }
  }

  lemma {:induction false} DigitsStep(n: nat)
    requires n >= 10
    ensures Digits(n) == Digits(n / 10) + [Digit(n % 10)] && n / 10 * 10 + n % 10 == n && n / 10 > 0
  {
  }

  lemma {:induction false} DigitOf(c: char)
    requires IsDigit(c)
    ensures c as int - '0' as int < 10 && Digit(c as int - '0' as int) == c
  {
  }

  /** Canonical decimal is unique. */
  lemma {:induction false} DigitsAreUnique(s: string)
    requires Canonical(s)
    ensures Digits(ValueOf(s)) == s && (s[0] != '0' ==> ValueOf(s) > 0)
  {
    var t, c := s[..|s| - 1], s[|s| - 1];
    DigitOf(c);
    assert s == t + [c];
    if t == [] {
      assert ValueOf(t) == 0;
    } else {
      DigitsAreUnique(t);
      var n, d := ValueOf(t), c as int - '0' as int;
      assert ValueOf(s) == n * 10 + d && (n * 10 + d) / 10 == n && (n * 10 + d) % 10 == d;
    }
  }

  function Text(val: int): string {
    if val < 0 then ['-'] + Digits(-val) else Digits(val)
  }

  /** The number a decimal with an optional sign stands for. */
  function Parsed(s: string): int
    requires s != [] && AllDigits(if s[0] == '-' then s[1..] else s)
  {
    if s[0] == '-' then 0 - ValueOf(s[1..]) as int else ValueOf(s)
  }

  lemma {:induction false} TextParses(val: int)
    ensures var s := Text(val);
            && s != [] && Canonical(if s[0] == '-' then s[1..] else s) && Parsed(s) == val
            && (s[0] == '-' <==> val < 0)
  {
    if val < 0 {
      DigitsMean(-val);
      assert Text(val)[1..] == Digits(-val);
    } else {
      DigitsMean(val);
      assert IsDigit(Digits(val)[0]);
    }
    hide Digits, ValueOf;
  }

  // ----- integers -----------------------------------------------------------------------

  function Reversed(s: string): (r: string)
    ensures |r| == |s| && forall i :: 0 <= i < |s| ==> r[i] == s[|s| - 1 - i]
  {
    if s == [] then [] else [s[|s| - 1]] + Reversed(s[..|s| - 1])
  }

  /** The digits of `u`, last one first, go into the buffer from `at` on. */
  method PutDigits(buf: array<char>, at: nat, u: nat) returns (p: nat)
    requires at + |Digits(u)| <= buf.Length
    modifies buf
    ensures p == at + |Digits(u)| && buf[at..p] == Reversed(Digits(u))
    ensures forall i :: 0 <= i < buf.Length && !(at <= i < p) ==> buf[i] == old(buf[i])
  {
    p := at;
    var rest, more := u, true;
    assert Reversed([]) == [];
    while more
      invariant at <= p <= buf.Length
      invariant more ==> p + |Digits(rest)| == at + |Digits(u)|
      invariant more ==> Reversed(Digits(u)) == buf[at..p] + Reversed(Digits(rest))
      invariant !more ==> p == at + |Digits(u)| && Reversed(Digits(u)) == buf[at..p]
      invariant forall i :: 0 <= i < buf.Length && !(at <= i < p) ==> buf[i] == old(buf[i])
      decreases more, rest
    {
      ghost var was, done := rest, buf[at..p];
      LastDigit(was);
      var a := rest % 10;
      rest := rest / 10;
      buf[p] := Digit(a);
      p := p + 1;
      more := rest > 0;
      assert buf[at..p] == done + [Digit(a)];
      if more {
        assert done + ([Digit(a)] + Reversed(Digits(rest))) == done + [Digit(a)] + Reversed(Digits(rest));
      }
    }
  }

  lemma {:induction false} LastDigit(n: nat)
    ensures n < 10 ==> n / 10 == 0 && Digits(n) == [Digit(n % 10)] && Reversed(Digits(n)) == [Digit(n % 10)]
    ensures n >= 10 ==> n / 10 > 0 && |Digits(n)| == |Digits(n / 10)| + 1
                        && Reversed(Digits(n)) == [Digit(n % 10)] + Reversed(Digits(n / 10))
  {
    if n >= 10 {
      assert Digits(n)[..|Digits(n)| - 1] == Digits(n / 10);
    }
  }

  /** The outer `k` places on both sides of `s` have been exchanged. */
  predicate Partly(s: string, t: string, k: nat) {
    && |t| == |s|
    && (forall j :: 0 <= j < k && j < |s| ==> t[j] == s[|s| - 1 - j] && t[|s| - 1 - j] == s[j])
    && (forall j :: k <= j < |s| - k ==> t[j] == s[j])
  }

  lemma {:induction false} OneMoreSwap(s: string, t: string, k: nat)
    requires Partly(s, t, k) && 2 * k < |s|
    ensures Partly(s, t[|s| - 1 - k := t[k]][k := t[|s| - 1 - k]], k + 1)
  {
  }

  lemma {:induction false} AllSwapped(s: string, t: string, k: nat)
    requires Partly(s, t, k) && 2 * k + 1 >= |s| && 2 * k <= |s| + 1
    ensures t == Reversed(s)
  {
    forall i | 0 <= i < |s|
      ensures t[i] == s[|s| - 1 - i]
    {
      if i >= k {
        if i < |s| - k {
          assert i == |s| - 1 - i;
        } else {
          var j := |s| - 1 - i;
          assert t[|s| - 1 - j] == s[j];
        }
      }
    }
  }

  /** Swaps from both ends of the part from `lo` to `hi`. */
  method ReverseInPlace(buf: array<char>, lo: nat, hi: nat)
    requires lo <= hi < buf.Length
    modifies buf
    ensures buf[lo..hi + 1] == Reversed(old(buf[lo..hi + 1]))
    ensures forall i :: 0 <= i < buf.Length && !(lo <= i <= hi) ==> buf[i] == old(buf[i])
  {
    hide Partly;
    var b, p, more := lo, hi as int, true;
    ghost var was := buf[lo..hi + 1];
    assert Partly(was, was, 0) by { NothingSwapped(was); }
    while more
      invariant lo <= b && p == lo + hi - b && (more ==> b <= p) && b <= p + 2
      invariant !more ==> b >= p
      invariant Partly(was, buf[lo..hi + 1], b - lo)
      invariant forall i :: 0 <= i < buf.Length && !(lo <= i <= hi) ==> buf[i] == old(buf[i])
      decreases more, hi + 1 - b
    {
      ghost var t, k := buf[lo..hi + 1], b - lo;
      OneMoreSwap(was, t, k);
      var temp := buf[p];
      buf[p] := buf[b];
      buf[b] := temp;
      assert buf[lo..hi + 1] == t[|t| - 1 - k := t[k]][k := t[|t| - 1 - k]];
      p := p - 1;
      b := b + 1;
      more := b < p;
    }
    AllSwapped(was, buf[lo..hi + 1], b - lo);
  }

  lemma {:induction false} NothingSwapped(s: string)
    ensures Partly(s, s, 0)
  {
  }

  lemma {:induction false} ReversedTwice(s: string)
    ensures Reversed(Reversed(s)) == s
  {
  }

  /** The digits of `u` in order, and the terminator. */
  method PutUnsigned(buf: array<char>, b: nat, u: nat) returns (p: nat)
    requires b + |Digits(u)| < buf.Length
    modifies buf
    ensures p == b + |Digits(u)| && buf[b..p] == Digits(u) && buf[p] == 0 as char
    ensures forall i :: 0 <= i < buf.Length && !(b <= i <= p) ==> buf[i] == old(buf[i])
  {
    hide Digits, Reversed;
    p := PutDigits(buf, b, u);
    buf[p] := 0 as char;
    assert buf[b..p] == Reversed(Digits(u));
    ReverseInPlace(buf, b, p - 1);
    ReversedTwice(Digits(u));
    assert p - 1 + 1 == p;
  }

  const INT_MIN := -0x8000_0000

  /** `Integer2AsciiString`, writing from `at` on: the canonical decimal and a terminator. */
  method IntegerToAscii(val: int, buf: array<char>, at: nat) returns (len: nat)
    requires INT_MIN < val <= 0x7fff_ffff && at + |Text(val)| < buf.Length
    modifies buf
    ensures len == |Text(val)| && buf[at..at + len] == Text(val) && buf[at + len] == 0 as char
    ensures forall i :: 0 <= i < buf.Length && !(at <= i <= at + len) ==> buf[i] == old(buf[i])
  {
    hide Digits;
    var p, u := at, val;
    if val < 0 {
      buf[p] := '-';
      p := p + 1;
      u := 0 - val;
    }
    ghost var b := p;
    p := PutUnsigned(buf, p, u);
    len := p - at;
    if val < 0 {
      assert buf[at..p] == ['-'] + buf[b..p];
    }
  }

  // ----- floats -------------------------------------------------------------------------

  /** Weight of the binary point in the 24-bit fraction. */
  const ONE := 0x100_0000

  /** The unbiased exponent of a single-precision number. */
  function Exponent(bits: nat): int {
    bits / 0x80_0000 % 256 - 127
  }

  /** The fraction bits with the hidden bit; the number is this times 2^(Exponent - 23). */
  function Mantissa(bits: nat): nat {
    0x80_0000 + bits % 0x80_0000
  }

  function IntPart(bits: nat): nat
    requires Exponent(bits) <= 23
  {
    if Exponent(bits) >= 0 then Shifted(Mantissa(bits), 23 - Exponent(bits)) else 0
  }

  function FracPart(bits: nat): nat
    requires Exponent(bits) <= 23
  {
    if Exponent(bits) >= 0 then Mantissa(bits) * Pow(2, Exponent(bits) + 1) % ONE
    else Shifted(Mantissa(bits), -(Exponent(bits) + 1))
  }

  /** `x >> n`. */
  function Shifted(x: nat, n: nat): nat {
    if n == 0 then x else Shifted(x, n - 1) / 2
  }

  lemma {:induction false} ShiftedMeans(x: nat, n: nat)
    ensures Shifted(x, n) * Pow(2, n) <= x < (Shifted(x, n) + 1) * Pow(2, n)
  {
    if n > 0 {
      ShiftedMeans(x, n - 1);
      Halved(x, Shifted(x, n - 1), Pow(2, n - 1));
    }
  }

  lemma {:induction false} Halved(x: nat, y: nat, p: nat)
    requires y * p <= x < (y + 1) * p
    ensures y / 2 * (2 * p) <= x < (y / 2 + 1) * (2 * p)
  {
    var h, r := y / 2, y % 2;
    assert y == 2 * h + r;
    assert h * (2 * p) == (2 * h) * p;
    assert (h + 1) * (2 * p) == (2 * h + 2) * p;
    if r == 0 {
      assert (2 * h + 2) * p == (y + 1) * p + p;
    } else {
      assert y * p == (2 * h) * p + p;
    }
  }

  // ----- the decimals of a fraction -----------------------------------------------------

  /** What is left of the fraction after `k` decimals. */
  function Left(frac: nat, k: nat): nat {
    if k == 0 then frac else Left(frac, k - 1) * 10 % ONE
  }

  lemma {:induction false} LeftFits(frac: nat, k: nat)
    requires frac < ONE
    ensures Left(frac, k) < ONE && Left(frac, k) * 10 / ONE < 10
  {
  }

  function Decimals(frac: nat, k: nat): (s: string)
    requires frac < ONE
    ensures |s| == k
  {
    if k == 0 then []
    else
      LeftFits(frac, k - 1);
      Decimals(frac, k - 1) + [Digit(Left(frac, k - 1) * 10 / ONE)]
  }

  /** The decimals and the rest account for the whole fraction. */
  lemma {:induction false} DecimalsMean(frac: nat, k: nat)
    requires frac < ONE
    ensures AllDigits(Decimals(frac, k)) && Left(frac, k) < ONE
    ensures ValueOf(Decimals(frac, k)) * ONE + Left(frac, k) == frac * Pow(10, k)
  {
    LeftFits(frac, k);
    if k > 0 {
      DecimalsMean(frac, k - 1);
      LeftFits(frac, k - 1);
      var v, l := ValueOf(Decimals(frac, k - 1)), Left(frac, k - 1);
      ValueSnoc(Decimals(frac, k - 1), l * 10 / ONE);
      TenTimes(v, l, frac, Pow(10, k - 1));
    }
  }

  lemma {:induction false} TenTimes(v: nat, l: nat, frac: nat, t: nat)
    requires v * ONE + l == frac * t
    ensures (v * 10 + l * 10 / ONE) * ONE + l * 10 % ONE == frac * (10 * t)
  {
    assert frac * (10 * t) == 10 * (frac * t);
    assert l * 10 == l * 10 / ONE * ONE + l * 10 % ONE;
  }

  /** The decimals behind the point: a single zero if there is no fraction. */
  function Behind(bits: nat, numdecimals: int): string
    requires Exponent(bits) <= 23
  {
    FracFits(bits);
    if FracPart(bits) == 0 then "0" else Decimals(FracPart(bits), if numdecimals < 0 then 0 else numdecimals)
  }

  function FloatText(bits: nat, numdecimals: int): string
    requires Exponent(bits) <= 23
  {
    Digits(IntPart(bits)) + "." + Behind(bits, numdecimals)
  }

  /** The number has no fraction: the bits of the mantissa below the point are zero. */
  predicate IsWhole(bits: nat)
    requires Exponent(bits) <= 23
  {
    Exponent(bits) >= 0 &&
    (PowPositive(2, 23 - Exponent(bits));
     Mantissa(bits) % Pow(2, 23 - Exponent(bits)) == 0)
  }

  lemma {:induction false} RemainderOf(n: nat, p: nat, i: nat)
    requires p > 0 && i * p <= n < (i + 1) * p
    ensures n % p == n - i * p
  {
    var q, r := n / p, n % p;
    assert n == p * q + r;
    if q < i {
      TimesMono(q + 1, i, p);
    } else if q > i {
      TimesMono(i + 1, q, p);
    }
  }

  lemma {:induction false} PowGrows(m: nat, n: nat)
    requires m <= n
    ensures Pow(2, m) <= Pow(2, n)
    decreases n
  {
    if m < n {
      PowGrows(m, n - 1);
    }
  }

  lemma {:induction false} FracAbove(bits: nat)
    requires 0 <= Exponent(bits) <= 23
    ensures FracPart(bits) == Mantissa(bits) * Pow(2, Exponent(bits) + 1) % ONE
  {
    hide Mantissa, Pow, Exponent;
  }

  lemma {:induction false} TwoTo22()
    ensures Pow(2, 22) == 0x40_0000
  {
    OneIsPow();
    assert Pow(2, 24) == 2 * Pow(2, 23);
    assert Pow(2, 23) == 2 * Pow(2, 22);
  }

  /** The bits shifted out of `m` are all zero exactly if those shifted up into the fraction are. */
  lemma {:induction false} NothingBelow(m: nat, p: nat, q: nat, i: nat)
    requires p > 0 && q > 0 && p * q == ONE && i * p <= m < (i + 1) * p
    ensures m * q % ONE == 0 <==> m % p == 0
    ensures m % p == 0 ==> i * p == m
  {
    RemainderOf(m, p, i);
    FractionOf(m, p, q, i, m - i * p);
    if m - i * p > 0 {
      TimesMono(1, m - i * p, q);
    }
  }

  /** No fraction bit is lost above 2^-24: exactly the whole numbers have none. */
  lemma {:induction false} WholeHasNoFraction(bits: nat)
    requires -23 <= Exponent(bits) <= 23
    ensures FracPart(bits) == 0 <==> IsWhole(bits)
    ensures IsWhole(bits) ==> IntPart(bits) * Pow(2, 23 - Exponent(bits)) == Mantissa(bits)
  {
    var e, m := Exponent(bits), Mantissa(bits);
    if e >= 0 {
      PowPositive(2, 23 - e);
      PowPositive(2, e + 1);
      PowSum(2, 23 - e, e + 1);
      OneIsPow();
      ShiftedMeans(m, 23 - e);
      FracAbove(bits);
      hide Pow, Shifted, Mantissa, Exponent, FracPart;
      NothingBelow(m, Pow(2, 23 - e), Pow(2, e + 1), IntPart(bits));
    } else {
      ShiftedMeans(m, -1 - e);
      hide Pow, Shifted;
      PowGrows(-1 - e, 22);
      TwoTo22();
    }
  }

  /** The text of a number: digits, the point, and behind it as many digits as were asked for, or a
      single zero if the number is whole. */
  lemma {:induction false} FloatTextShape(bits: nat, numdecimals: int)
    requires -23 <= Exponent(bits) <= 23
    ensures var s, dot := FloatText(bits, numdecimals), |Digits(IntPart(bits))|;
            var places: nat := if IsWhole(bits) then 1 else if numdecimals < 0 then 0 else numdecimals;
            && dot >= 1 && |s| == dot + 1 + places && s[dot] == '.'
            && (forall i :: 0 <= i < |s| && i != dot ==> IsDigit(s[i]))
            && (IsWhole(bits) ==> s[dot + 1] == '0')
  {
    var left := BehindMeans(bits, numdecimals);
    FracFits(bits);
    WholeHasNoFraction(bits);
    DigitsMean(IntPart(bits));
    hide Digits, Decimals, FracPart, IntPart, IsWhole, Exponent, ValueOf, Pow;
    assert forall i :: 0 <= i < |Digits(IntPart(bits))| ==> IsDigit(Digits(IntPart(bits))[i]);
    assert forall i :: 0 <= i < |Behind(bits, numdecimals)| ==> IsDigit(Behind(bits, numdecimals)[i]);
  }

  lemma {:induction false} FracFits(bits: nat)
    requires Exponent(bits) <= 23
    ensures FracPart(bits) < ONE
  {
    if Exponent(bits) < 0 {
      ShiftedShrinks(Mantissa(bits), -(Exponent(bits) + 1));
    }
    hide Pow;
  }

  lemma {:induction false} ShiftedShrinks(x: nat, n: nat)
    ensures Shifted(x, n) <= x
  {
    if n > 0 {
      ShiftedShrinks(x, n - 1);
    }
  }

  lemma {:induction false} OneIsPow()
    ensures Pow(2, 24) == ONE
  {
    PowSum(2, 12, 12);
    PowSum(2, 6, 6);
    PowSum(2, 3, 3);
    assert Pow(2, 3) == 8;
  }

  /** The fraction and the decimals, in the scale of the decimals. */
  lemma {:induction false} BehindMeans(bits: nat, numdecimals: int) returns (left: nat)
    requires Exponent(bits) <= 23
    ensures var s := Behind(bits, numdecimals);
            && AllDigits(s) && left < ONE
            && ValueOf(s) * ONE + left == FracPart(bits) * Pow(10, |s|)
  {
    FracFits(bits);
    if FracPart(bits) == 0 {
      left := 0;
      ValueSnoc([], 0);
      assert [] + [Digit(0)] == "0";
    } else {
      var k: nat := if numdecimals < 0 then 0 else numdecimals;
      DecimalsMean(FracPart(bits), k);
      left := Left(FracPart(bits), k);
    }
  }

  /** Exponents from 0 up: the integer part and the fraction are exact. */
  lemma {:induction false} BoundAbove(m: nat, p: nat, q: nat, t: nat, i: nat, d: nat, left: nat)
    requires p > 0 && q > 0 && p * q == ONE && i * p <= m < (i + 1) * p
    requires left < ONE && d * ONE + left == (m * q % ONE) * t
    ensures (i * t + d) * p <= m * t < (i * t + d + 1) * p
  {
    var r := m - i * p;
    FractionOf(m, p, q, i, r);
    assert (r * q) * t == (r * t) * q;
    assert (d * p) * q == d * ONE by {
      Associates(d, p, q);
    }
    Cancel(d * p, r * t, q, left);
    LessThanNext(d, p, q, r * t, left);
    WithInteger(m, p, t, i, r, d);
  }

  lemma {:induction false} FractionOf(m: nat, p: nat, q: nat, i: nat, r: nat)
    requires q > 0 && p * q == ONE && m == i * p + r && r < p
    ensures m * q % ONE == r * q
  {
    TimesMono(r + 1, p, q);
    assert r * q + q == (r + 1) * q;
    Associates(i, p, q);
    assert m * q == i * ONE + r * q by {
      assert m * q == (i * p) * q + r * q;
    }
    Remainder(m * q, i, r * q);
  }

  lemma {:induction false} Remainder(n: nat, i: nat, x: nat)
    requires n == i * ONE + x && x < ONE
    ensures n % ONE == x
  {
  }

  lemma {:induction false} TimesMono(x: nat, y: nat, q: nat)
    requires x <= y
    ensures x * q <= y * q
  {
  }

  lemma {:induction false} WithInteger(m: nat, p: nat, t: nat, i: nat, r: nat, d: nat)
    requires m == i * p + r && d * p <= r * t < (d + 1) * p
    ensures (i * t + d) * p <= m * t < (i * t + d + 1) * p
  {
    assert m * t == (i * p) * t + r * t;
    assert (i * t) * p == (i * p) * t;
    assert (i * t + d) * p == (i * t) * p + d * p;
    assert (i * t + d + 1) * p == (i * t) * p + (d + 1) * p;
  }

  lemma {:induction false} Bigger(a: nat, b: nat, q: nat)
    requires a > b
    ensures a * q >= b * q + q
  {
    TimesMono(b + 1, a, q);
  }

  lemma {:induction false} Cancel(a: nat, b: nat, q: nat, left: nat)
    requires q > 0 && a * q + left == b * q
    ensures a <= b
  {
    if a > b {
      Bigger(a, b, q);
    }
  }

  lemma {:induction false} LessThanNext(d: nat, p: nat, q: nat, b: nat, left: nat)
    requires q > 0 && p * q == ONE && left < ONE && (d * p) * q + left == b * q
    ensures b < (d + 1) * p
  {
    var next: nat := (d + 1) * p;
    assert next * q == (d * p) * q + p * q;
    if b >= next {
      TimesMono(next, b, q);
    }
  }

  /** Negative exponents: shifting the mantissa out loses less than one unit of 2^-24. */
  lemma {:induction false} BoundBelow(m: nat, w: nat, t: nat, f: nat, d: nat, left: nat)
    requires w > 0 && f * w <= m < (f + 1) * w
    requires left < ONE && d * ONE + left == f * t
    ensures d * (ONE * w) <= m * t <= (d + 1) * (ONE * w) + t * w
    ensures t > 0 ==> m * t < (d + 1) * (ONE * w) + t * w
  {
    var r := m - f * w;
    assert m * t == (f * t) * w + r * t by {
      assert (f * w) * t == (f * t) * w;
      assert m * t == (f * w) * t + r * t;
    }
    assert (f * t) * w == d * (ONE * w) + left * w by {
      assert (d * ONE + left) * w == (d * ONE) * w + left * w;
      assert (d * ONE) * w == d * (ONE * w);
    }
    assert left * w <= ONE * w;
    assert r * t <= w * t;
    assert (d + 1) * (ONE * w) == d * (ONE * w) + ONE * w;
    if t > 0 {
      assert left * w < ONE * w;
    }
  }

  /** The printed decimal P and the number f printed, with k decimals asked for: P <= |f| < P + 10^-k,
      plus 2^-24 if the exponent is negative; a whole number is P exactly. Here f is m 2^(e - 23), by
      the single-precision format of IEEE 754, and everything is stated in multiples of
      10^-k 2^(e - 23). */
  lemma {:induction false} FloatBound(bits: nat, numdecimals: int)
    requires -23 <= bits / 0x80_0000 % 256 - 127 <= 23
    ensures -23 <= Exponent(bits) <= 23 && AllDigits(Behind(bits, numdecimals))
    ensures var e, m, s := bits / 0x80_0000 % 256 - 127, 0x80_0000 + bits % 0x80_0000, Behind(bits, numdecimals);
            var t := Pow(10, if IsWhole(bits) then 1 else if numdecimals < 0 then 0 else numdecimals);
            var printed := IntPart(bits) * t + ValueOf(s);
            && printed * Pow(2, 23 - e) <= m * t
            && m * t < (printed + 1) * Pow(2, 23 - e) + (if e < 0 then t * Pow(2, -1 - e) else 0)
            && (IsWhole(bits) ==> printed * Pow(2, 23 - e) == m * t)
  {
    assert Exponent(bits) == bits / 0x80_0000 % 256 - 127 && Mantissa(bits) == 0x80_0000 + bits % 0x80_0000;
    BoundBehind(bits, numdecimals);
    FloatTextShape(bits, numdecimals);
    hide Exponent, Mantissa, IntPart, FracPart, Digits, Behind;
    assert |FloatText(bits, numdecimals)| == |Digits(IntPart(bits))| + 1 + |Behind(bits, numdecimals)|;
    hide FloatText, Pow, ValueOf;
    if IsWhole(bits) {
      WholeIsExact(bits, numdecimals);
    }
  }

  lemma {:induction false} WholeIsExact(bits: nat, numdecimals: int)
    requires -23 <= Exponent(bits) <= 23 && IsWhole(bits)
    ensures Behind(bits, numdecimals) == "0" && ValueOf("0") == 0 && Pow(10, 1) == 10
    ensures (IntPart(bits) * 10 + 0) * Pow(2, 23 - Exponent(bits)) == Mantissa(bits) * 10
  {
    WholeHasNoFraction(bits);
    ValueSnoc([], 0);
    assert [] + [Digit(0)] == "0";
    hide Exponent, Mantissa, IntPart, IsWhole, FracPart;
    Associates(10, IntPart(bits), Pow(2, 23 - Exponent(bits)));
  }

  lemma {:induction false} BoundBehind(bits: nat, numdecimals: int)
    requires -23 <= Exponent(bits) <= 23
    ensures AllDigits(Behind(bits, numdecimals))
    ensures var e, m, s := Exponent(bits), Mantissa(bits), Behind(bits, numdecimals);
            var t := Pow(10, |s|);
            var printed := IntPart(bits) * t + ValueOf(s);
            && printed * Pow(2, 23 - e) <= m * t
            && m * t < (printed + 1) * Pow(2, 23 - e) + (if e < 0 then t * Pow(2, -1 - e) else 0)
  {
    var e, m, s := Exponent(bits), Mantissa(bits), Behind(bits, numdecimals);
    var left := BehindMeans(bits, numdecimals);
    var t := Pow(10, |s|);
    PowPositive(10, |s|);
    OneIsPow();
    if e >= 0 {
      PowPositive(2, 23 - e);
      PowPositive(2, e + 1);
      PowSum(2, 23 - e, e + 1);
      ShiftedMeans(m, 23 - e);
      BoundAbove(m, Pow(2, 23 - e), Pow(2, e + 1), t, IntPart(bits), ValueOf(s), left);
    } else {
      PowPositive(2, -1 - e);
      PowSum(2, 24, -1 - e);
      ShiftedMeans(m, -(e + 1));
      BoundBelow(m, Pow(2, -1 - e), t, FracPart(bits), ValueOf(s), left);
    }
    hide Pow, Shifted, ValueOf, Behind;
  }

  /** Neither zero nor refused. */
  predicate IsPrinted(bits: nat) {
    bits % 0x8000_0000 != 0 && -23 <= Exponent(bits) <= 23
  }

  /** `Float2AsciiString` for the bits of a float, writing to the start of the buffer. Zero
      prints as 0.00; numbers from 2^31 on and below 2^-23 are refused; the sign is not
      printed. The buffer has to hold the text, and a loop over decimals has to end. */
  method FloatToAscii(bits: nat, buf: array<char>, numdecimals: int) returns (status: int)
    requires bits < 0x1_0000_0000 && !(24 <= Exponent(bits) <= 30)
    requires buf.Length >= if bits % 0x8000_0000 == 0 then 5 else 1
    requires IsPrinted(bits) ==> |FloatText(bits, numdecimals)| < buf.Length
    requires IsPrinted(bits) && FracPart(bits) != 0 ==> numdecimals <= 127
    modifies buf
    ensures bits % 0x8000_0000 == 0 ==> status == 0 && buf[..5] == "0.00" + [0 as char]
    ensures bits % 0x8000_0000 != 0 && !IsPrinted(bits) ==> status == 1 && buf[0] == 0 as char
    ensures IsPrinted(bits) ==>
              && status == 0
              && var s := FloatText(bits, numdecimals);
              buf[..|s|] == s && buf[|s|] == 0 as char
    ensures IsPrinted(bits) ==>
              var dot := |Digits(IntPart(bits))|;
              var places: nat := if IsWhole(bits) then 1 else if numdecimals < 0 then 0 else numdecimals;
              && dot >= 1 && dot + 1 + places < buf.Length && buf[dot] == '.' && buf[dot + 1 + places] == 0 as char
              && (forall i :: 0 <= i < dot + 1 + places && i != dot ==> IsDigit(buf[i]))
              && (IsWhole(bits) ==> buf[dot + 1] == '0')
  {
    if bits % 0x8000_0000 == 0 {
      buf[0], buf[1], buf[2], buf[3], buf[4] := '0', '.', '0', '0', 0 as char;
      return 0;
    }
    if Exponent(bits) >= 31 || Exponent(bits) < -23 {
      buf[0] := 0 as char;
      return 1;
    }
    FracFits(bits);
    IntFits(bits);
    var places := if numdecimals < 0 then 0 else numdecimals;
    hide Exponent, FracPart, IntPart, Mantissa, Digits, Decimals;
    var intPart, fracPart := IntPart(bits), FracPart(bits);
    var s := PutIntPart(buf, intPart);
    buf[s] := '.';
    s := s + 1;
    assert buf[..s] == Digits(intPart) + ".";
    if fracPart == 0 {
      buf[s] := '0';
      s := s + 1;
      assert buf[..s] == Digits(intPart) + "." + "0";
    } else {
      s := PutDecimals(buf, s, fracPart, places);
    }
    buf[s] := 0 as char;
    FloatTextShape(bits, numdecimals);
    assert forall i :: 0 <= i < s ==> buf[i] == buf[..s][i];
    return 0;
  }

  lemma {:induction false} IntFits(bits: nat)
    requires Exponent(bits) <= 23
    ensures IntPart(bits) < 0x100_0000 && |Digits(IntPart(bits))| <= 8
  {
    if Exponent(bits) >= 0 {
      ShiftedShrinks(Mantissa(bits), 23 - Exponent(bits));
    }
    DigitsSize(IntPart(bits), 8);
  }

  lemma {:induction false} DigitsSize(n: nat, k: nat)
    requires n < Pow(10, k) && k > 0
    ensures |Digits(n)| <= k
  {
    assert Pow(10, k) == 10 * Pow(10, k - 1);
    if n >= 10 {
      assert k > 1 && n / 10 < Pow(10, k - 1);
      DigitsSize(n / 10, k - 1);
    }
  }

  /** The integer part; the cursor is found again at the terminator. */
  method PutIntPart(buf: array<char>, intPart: nat) returns (s: nat)
    requires intPart < 0x100_0000 && |Digits(intPart)| < buf.Length
    modifies buf
    ensures s == |Digits(intPart)| && buf[..s] == Digits(intPart)
  {
    DigitsMean(intPart);
    hide Digits;
    s := 0;
    if intPart == 0 {
      buf[0] := '0';
      s := 1;
      ZeroDigits();
    } else {
      var len := IntegerToAscii(intPart, buf, 0);
      assert forall i :: 0 <= i < len ==> IsDigit(buf[..len][i]) && buf[i] == buf[..len][i];
      while buf[s] != 0 as char
        invariant 0 <= s <= len
        decreases len - s
      {
        s := s + 1;
      }
    }
  }

  lemma {:induction false} ZeroDigits()
    ensures Digits(0) == "0"
  {
  }

  /** The loop over the decimals: ten times the fraction, its octet above the point. */
  method PutDecimals(buf: array<char>, at: nat, fracPart: nat, numdecimals: nat) returns (s: nat)
    requires fracPart < ONE && at + numdecimals < buf.Length
    modifies buf
    ensures s == at + numdecimals && buf[..s] == old(buf[..at]) + Decimals(fracPart, numdecimals)
  {
    s := at;
    var frac := fracPart;
    for m := 0 to numdecimals
      invariant s == at + m && frac == Left(fracPart, m) && frac < ONE
      invariant buf[..s] == old(buf[..at]) + Decimals(fracPart, m)
    {
      LeftFits(fracPart, m);
      ghost var done := buf[..s];
      frac := 8 * frac + 2 * frac;
      buf[s] := Digit(frac / ONE);
      assert buf[..s + 1] == done + [Digit(frac / ONE)];
      s := s + 1;
      frac := frac % ONE;
    }
  }
}
