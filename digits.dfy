/** Fixed-width decimal text, as Go's time package writes and reads numeric layout fields. */
module Digits {

  predicate IsDigit(c: char) {
    '0' <= c <= '9'
  }

  predicate AllDigits(s: string) {
    forall i :: 0 <= i < |s| ==> IsDigit(s[i])
  }

  function DigitChar(n: nat): (c: char)
    requires n < 10
    ensures IsDigit(c)
  {
    ('0' as int + n) as char
  }

  function DigitValue(c: char): (n: nat)
    requires IsDigit(c)
    ensures n < 10 && DigitChar(n) == c
  {
    c as int - '0' as int
  }

  function Pow10(w: nat): (p: nat)
    ensures p >= 1
  {
    if w == 0 then 1 else 10 * Pow10(w - 1)
  }

  /** The last `width` decimal digits of `n`, most significant first, zero-padded. */
  function Decimal(n: nat, width: nat): (s: string)
    ensures |s| == width && AllDigits(s)
  {
    if width == 0 then [] else Decimal(n / 10, width - 1) + [DigitChar(n % 10)]
  }

  /** The number a string of decimal digits denotes. */
  function DigitsValue(s: string): (n: nat)
    requires AllDigits(s)
    ensures n < Pow10(|s|)
  {
    if s == [] then 0 else 10 * DigitsValue(s[..|s| - 1]) + DigitValue(s[|s| - 1])
  }

  /** Number of decimal digits of `n` (at least one). */
  function NumDigits(n: nat): (k: nat)
    ensures 1 <= k && n < Pow10(k)
    ensures n >= 10 ==> n >= Pow10(k - 1)
  {
    if n < 10 then 1 else 1 + NumDigits(n / 10)
  }

  /** Reading back a zero-padded number that fits its width gives the number. */
  lemma {:induction false} DecimalRoundTrip(n: nat, width: nat)
    requires n < Pow10(width)
    ensures DigitsValue(Decimal(n, width)) == n
  {
    if width > 0 {
      var s := Decimal(n, width);
      DecimalRoundTrip(n / 10, width - 1);
      assert s[..|s| - 1] == Decimal(n / 10, width - 1);
      assert DigitValue(s[|s| - 1]) == n % 10;
    }
  }

  /** A digit string is the zero-padded text of its own value: digit text is canonical. */
  lemma {:induction false} DecimalCanonical(s: string)
    requires AllDigits(s)
    ensures Decimal(DigitsValue(s), |s|) == s
  {
    if s != [] {
      var init, last := s[..|s| - 1], s[|s| - 1];
      var v, c := DigitsValue(init), DigitValue(last);
      DecimalCanonical(init);
      assert DigitsValue(s) == 10 * v + c;
      assert (10 * v + c) / 10 == v && (10 * v + c) % 10 == c;
      assert Decimal(10 * v + c, |s|) == Decimal(v, |init|) + [DigitChar(c)];
      assert s == init + [last];
    }
  }
}
