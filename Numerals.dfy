/**
 * Positional numerals in bases 2 to 16 with upper-case digits, as produced by
 * Integer.toString and Integer.toHexString(..).toUpperCase(Locale.ROOT), and
 * read back by Integer.parseInt.
 */
module Numerals {

  function Pow(base: nat, k: nat): (p: nat)
    requires base >= 2
    ensures p >= 1
  {
    if k == 0 then 1 else base * Pow(base, k - 1)
  }

  /** The value of an upper-case digit character, or -1 for any other character. */
  function DigitValue(c: char): int
  {
    if '0' <= c <= '9' then c as int - '0' as int
    else if 'A' <= c <= 'F' then c as int - 'A' as int + 10
    else -1
  }

  predicate IsDigitOf(c: char, base: nat)
  {
    0 <= DigitValue(c) < base
  }

  predicate AllDigitsOf(s: string, base: nat)
  {
    forall i :: 0 <= i < |s| ==> IsDigitOf(s[i], base)
  }

  function DigitChar(d: nat): (c: char)
    requires d < 16
    ensures DigitValue(c) == d
  {
    if d < 10 then ('0' as int + d) as char else ('A' as int + d - 10) as char
  }

  /** The numeral of `n` without leading zeros ("0" for zero). */
  function ToDigits(n: nat, base: nat): (s: string)
    requires 2 <= base <= 16
    ensures |s| >= 1 && AllDigitsOf(s, base)
    ensures s[0] == '0' <==> n == 0
    decreases n
  {
    if n < base then [DigitChar(n)]
    else
      DivBelow(n, base);
      ToDigits(n / base, base) + [DigitChar(n % base)]
  }

  /** The numeral of `n` left-padded with zeros to exactly `width` digits. */
  function Pad(n: nat, base: nat, width: nat): (s: string)
    requires 2 <= base <= 16
    ensures |s| == width && AllDigitsOf(s, base)
    decreases width
  {
    if width == 0 then [] else Pad(n / base, base, width - 1) + [DigitChar(n % base)]
  }

  lemma DivBelow(n: nat, base: nat)
    requires 2 <= base <= n
    ensures n / base < n && n % base < base
  {
  }

  /** The number a string of digits denotes. */
  function Value(s: string, base: nat): nat
    requires 2 <= base <= 16 && AllDigitsOf(s, base)
    decreases |s|
  {
    if s == [] then 0 else Value(s[..|s| - 1], base) * base + DigitValue(s[|s| - 1])
  }

  // The lemmas below fix the base to the two the callers use, decimal and
  // hexadecimal, which keeps their arithmetic linear.

  /** Reading back a decimal numeral gives the number. */
  lemma {:induction false} DecimalValueOfToDigits(n: nat)
    ensures Value(ToDigits(n, 10), 10) == n
    decreases n
  {
    if n >= 10 {
      var s := ToDigits(n, 10);
      DecimalValueOfToDigits(n / 10);
      assert s[..|s| - 1] == ToDigits(n / 10, 10);
    }
  }

  lemma HexPowStep(k: nat)
    requires k >= 1
    ensures Pow(16, k) == 16 * Pow(16, k - 1)
  {
  }

  /** Reading back a padded hex numeral gives the number, when it fits the width. */
  lemma {:induction false} HexValueOfPad(n: nat, width: nat)
    requires n < Pow(16, width)
    ensures Value(Pad(n, 16, width), 16) == n
    decreases width
  {
    if width > 0 {
      var s := Pad(n, 16, width);
      HexPowStep(width);
      assert s[..|s| - 1] == Pad(n / 16, 16, width - 1);
      HexValueOfPad(n / 16, width - 1);
    }
  }

  /** Without leading zeros a hex numeral of exactly `width` digits is its padded form. */
  lemma {:induction false} HexToDigitsIsPad(n: nat, width: nat)
    requires width >= 1 && Pow(16, width - 1) <= n < Pow(16, width)
    ensures ToDigits(n, 16) == Pad(n, 16, width)
    decreases width
  {
    if width == 1 {
      assert n < 16 by {
        HexPowStep(1);
      }
      assert Pad(n, 16, 1) == Pad(n / 16, 16, 0) + [DigitChar(n % 16)];
    } else {
      assert 16 <= n && Pow(16, width - 2) <= n / 16 < Pow(16, width - 1) by {
        HexPowStep(width);
        HexPowStep(width - 1);
      }
      HexToDigitsIsPad(n / 16, width - 1);
      assert ToDigits(n, 16) == ToDigits(n / 16, 16) + [DigitChar(n % 16)];
    }
  }

  /** `top` is a multiple of 16^width: its last `width` hex digits are zeros. */
  predicate HexZeros(top: nat, width: nat)
    decreases width
  {
    width == 0 || (top % 16 == 0 && HexZeros(top / 16, width - 1))
  }

  /** Padding to `width` digits keeps only the last `width` digits: adding a multiple
      of 16^width changes nothing. */
  lemma {:induction false} HexPadIgnoresHigh(top: nat, lo: nat, width: nat)
    requires HexZeros(top, width)
    ensures Pad(top + lo, 16, width) == Pad(lo, 16, width)
    decreases width
  {
    if width > 0 {
      var n := top + lo;
      assert n / 16 == top / 16 + lo / 16 && n % 16 == lo % 16;
      HexPadIgnoresHigh(top / 16, lo / 16, width - 1);
    }
  }

  /** Dropping the first digit of a padded hex numeral leaves it padded to one digit less. */
  lemma {:induction false} HexPadDropFirst(n: nat, width: nat)
    ensures Pad(n, 16, width + 1)[1..] == Pad(n, 16, width)
    decreases width
  {
    if width > 0 {
      HexPadDropFirst(n / 16, width - 1);
      var init, d := Pad(n / 16, 16, width), [DigitChar(n % 16)];
      assert Pad(n, 16, width + 1) == init + d;
      assert (init + d)[1..] == init[1..] + d;
    }
  }
}
