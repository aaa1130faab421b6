/**
 * Rendering of unsigned integers as text, in the three forms the
 * disassembler asks of Go's fmt package:
 *   - `%d`   decimal, no padding                       (Decimal)
 *   - `%x`   lowercase hexadecimal, no padding         (Hex)
 *   - `%0Nx` lowercase hexadecimal, zero-padded to at
 *            least N digits                            (HexPad)
 * Every rendering comes with its inverse, the number a digit string
 * denotes (ValueOf), and a round-trip lemma between the two.
 */
module Format {

  /** The number a digit character stands for: '0'..'9' are 0..9, 'a'..'f' are 10..15. */
  function DigitValue(c: char): nat
    requires '0' <= c <= '9' || 'a' <= c <= 'f'
  {
    if c <= '9' then c as int - '0' as int else c as int - 'a' as int + 10
  }

  /** `c` is a digit of `base` (lowercase letters only, as `%x` prints them). */
  predicate IsDigit(c: char, base: nat)
  {
    ('0' <= c <= '9' || 'a' <= c <= 'f') && DigitValue(c) < base
  }

  predicate AllDigits(s: string, base: nat)
  {
    forall i :: 0 <= i < |s| ==> IsDigit(s[i], base)
  }

  /** The character for digit `d`; DigitValue is its inverse. */
  function DigitChar(d: nat): (c: char)
    requires d < 16
    ensures IsDigit(c, d + 1) && DigitValue(c) == d
  {
    if d < 10 then ('0' as int + d) as char else ('a' as int + d - 10) as char
  }

  /** The number a string of digits of `base` denotes, most significant digit first. */
  function ValueOf(s: string, base: nat): nat
    requires AllDigits(s, base)
  {
    if s == [] then 0 else ValueOf(s[..|s| - 1], base) * base + DigitValue(s[|s| - 1])
  }

  function Pow(base: nat, k: nat): nat
  {
    if k == 0 then 1 else base * Pow(base, k - 1)
  }

  /**
   * The shortest digit string of `n` in `base`: "0" for zero, and never a
   * leading zero otherwise.
   */
  function Digits(n: nat, base: nat): string
    requires 2 <= base <= 16
    decreases n
  {
    if n < base then [DigitChar(n)]
    else
      DivisionStep(n, base);
      Digits(n / base, base) + [DigitChar(n % base)]
  }

  /** Dividing by the base leaves a smaller positive quotient and a digit. */
  lemma DivisionStep(n: nat, base: nat)
    requires 2 <= base <= n
    ensures 1 <= n / base < n && n % base < base
    ensures n == (n / base) * base + n % base
  {
  }

  /** Go's `%d` for an unsigned value. */
  function Decimal(n: nat): string
  {
    Digits(n, 10)
  }

  /** Go's `%x` for an unsigned value. */
  function Hex(n: nat): string
  {
    Digits(n, 16)
  }

  /** `s` preceded by as many '0' as it takes to reach `width` characters. */
  function ZeroPad(s: string, width: nat): string
  {
    if width <= |s| then s else seq(width - |s|, _ => '0') + s
  }

  /** Go's `%0<width>x` for an unsigned value. */
  function HexPad(n: nat, width: nat): string
  {
    ZeroPad(Hex(n), width)
  }

  // ---------------------------------------------------------------------------
  // Shapes, round trips and widths

  /**
   * The digits of `n` are a non-empty string of digits of `base` with no
   * leading zero unless `n` is zero.
   */
  lemma {:induction false} DigitsShape(n: nat, base: nat)
    requires 2 <= base <= 16
    ensures var s := Digits(n, base); 0 < |s| && AllDigits(s, base) && (s[0] == '0' ==> n == 0)
    decreases n
  {
    if n >= base {
      DivisionStep(n, base);
      DigitsShape(n / base, base);
    }
  }

  /** Padding keeps `s` as the tail and fills the front, if at all, with '0'. */
  lemma ZeroPadShape(s: string, width: nat)
    ensures var r := ZeroPad(s, width);
      |r| == (if |s| < width then width else |s|) && r[|r| - |s|..] == s &&
      forall i :: 0 <= i < |r| - |s| ==> r[i] == '0'
  {
  }

  /** Reading back the digits of `n` gives `n`. */
  lemma {:induction false} DigitsRoundTrip(n: nat, base: nat)
    requires 2 <= base <= 16
    ensures AllDigits(Digits(n, base), base) && ValueOf(Digits(n, base), base) == n
    decreases n
  {
    DigitsShape(n, base);
    if n >= base {
      var s := Digits(n, base);
      DivisionStep(n, base);
      assert s[..|s| - 1] == Digits(n / base, base);
      DigitsRoundTrip(n / base, base);
    }
  }

  lemma {:induction false} PowAtLeastBase(base: nat, k: nat)
    requires 2 <= base && 1 <= k
    ensures base <= Pow(base, k)
  {
    if k > 1 {
      PowAtLeastBase(base, k - 1);
    }
  }

  lemma QuotientBound(n: nat, base: nat, p: nat)
    requires 2 <= base
    ensures n / base < p <==> n < base * p
  {
    var q, r := n / base, n % base;
    assert n == base * q + r;
    if q < p {
      assert base * q <= base * (p - 1);
    } else {
      assert base * p <= base * q;
    }
  }

  /** `n` has at most `k` digits exactly when it is below base^k. */
  lemma {:induction false} DigitsWidth(n: nat, base: nat, k: nat)
    requires 2 <= base <= 16 && 1 <= k
    ensures |Digits(n, base)| <= k <==> n < Pow(base, k)
    decreases n
  {
    if n < base {
      PowAtLeastBase(base, k);
    } else {
      DivisionStep(n, base);
      assert |Digits(n, base)| == |Digits(n / base, base)| + 1;
      if k == 1 {
        assert Pow(base, 1) == base;
      } else {
        DigitsWidth(n / base, base, k - 1);
        QuotientBound(n, base, Pow(base, k - 1));
        assert Pow(base, k) == base * Pow(base, k - 1);
      }
    }
  }

  /** Leading zeros do not change the value of a digit string. */
  lemma {:induction false} LeadingZeros(z: string, s: string, base: nat)
    requires 2 <= base <= 16
    requires forall i :: 0 <= i < |z| ==> z[i] == '0'
    requires AllDigits(s, base)
    ensures AllDigits(z + s, base) && ValueOf(z + s, base) == ValueOf(s, base)
    decreases |z| + |s|
  {
    assert forall i :: 0 <= i < |z| ==> IsDigit(z[i], base);
    if s == [] {
      assert z + s == z;
      if z != [] {
        LeadingZeros(z[..|z| - 1], [], base);
        assert z[..|z| - 1] + [] == z[..|z| - 1];
      }
    } else {
      LeadingZeros(z, s[..|s| - 1], base);
      assert (z + s)[..|z + s| - 1] == z + s[..|s| - 1];
    }
  }

  /**
   * When `n` fits in `width` hex digits, `%0<width>x` prints exactly `width`
   * lowercase hex digits, and they read back as `n`.
   */
  lemma HexPadRoundTrip(n: nat, width: nat)
    requires 1 <= width && n < Pow(16, width)
    ensures |HexPad(n, width)| == width
    ensures AllDigits(HexPad(n, width), 16)
    ensures ValueOf(HexPad(n, width), 16) == n
  {
    var h := Hex(n);
    DigitsWidth(n, 16, width);
    DigitsRoundTrip(n, 16);
    var r := HexPad(n, width);
    var z := r[..width - |h|];
    assert r == z + h;
    LeadingZeros(z, h, 16);
  }

  /** Reading back `%d` gives the number. */
  lemma DecimalRoundTrip(n: nat)
    ensures AllDigits(Decimal(n), 10) && ValueOf(Decimal(n), 10) == n
  {
    DigitsRoundTrip(n, 10);
  }

  /** Reading back `%x` gives the number; below 16 it is a single digit. */
  lemma HexRoundTrip(n: nat)
    ensures AllDigits(Hex(n), 16) && ValueOf(Hex(n), 16) == n
    ensures n < 16 <==> |Hex(n)| == 1
  {
    DigitsRoundTrip(n, 16);
    DigitsWidth(n, 16, 1);
  }
}
