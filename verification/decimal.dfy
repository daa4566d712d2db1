/** Zero-padded decimal rendering of non-negative integers, as used by the
    `%d`, `%m`, `%Y` directives of `strftime` and the `HH`, `mm` tokens of
    Arrow's `format`, together with the reading that undoes it. */
module Decimal {

  predicate IsDigit(c: char) {
    '0' <= c <= '9'
  }

  function DigitChar(d: nat): (c: char)
    requires d < 10
    ensures IsDigit(c)
    ensures DigitValue(c) == d
  {
    ['0', '1', '2', '3', '4', '5', '6', '7', '8', '9'][d]
  }

  function DigitValue(c: char): nat
    requires IsDigit(c)
  {
    c as int - '0' as int
  }

  predicate AllDigits(s: string) {
    forall i :: 0 <= i < |s| ==> IsDigit(s[i])
  }

  function Pow10(n: nat): (p: nat)
    ensures p >= 1
  {
    if n == 0 then 1 else 10 * Pow10(n - 1)
  }

  /** The shortest decimal spelling of `n`: no leading zeros, "0" for zero. */
  function Digits(n: nat): (s: string)
    ensures 1 <= |s|
    ensures AllDigits(s)
  {
    if n < 10 then [DigitChar(n)] else Digits(n / 10) + [DigitChar(n % 10)]
  }

  function Zeros(k: nat): (s: string)
    ensures |s| == k
    ensures forall i :: 0 <= i < k ==> s[i] == '0'
  {
    if k == 0 then [] else Zeros(k - 1) + ['0']
  }

  /** `n` in decimal, left-filled with '0' up to `width` characters. */
  function Padded(n: nat, width: nat): (s: string)
    ensures AllDigits(s)
    ensures |s| >= width
  {
    var d := Digits(n);
    if |d| >= width then d else Zeros(width - |d|) + d
  }

  /** Reads a string of digits as a non-negative integer (most significant first). */
  function Value(s: string): nat
    requires AllDigits(s)
  {
    if |s| == 0 then 0 else 10 * Value(s[..|s| - 1]) + DigitValue(s[|s| - 1])
  }

  lemma {:induction false} DigitsRoundTrip(n: nat)
    ensures Value(Digits(n)) == n
    decreases n
  {
    if n >= 10 {
      DigitsRoundTrip(n / 10);
      var s := Digits(n);
      assert s[..|s| - 1] == Digits(n / 10);
    }
  }

  lemma {:induction false} DigitsShort(n: nat, width: nat)
    requires 1 <= width
    requires n < Pow10(width)
    ensures |Digits(n)| <= width
    decreases width
  {
    if n >= 10 {
      DigitsShort(n / 10, width - 1);
    }
  }

  lemma {:induction false} LeadingZerosValue(k: nat, s: string)
    requires AllDigits(s)
    ensures AllDigits(Zeros(k) + s)
    ensures Value(Zeros(k) + s) == Value(s)
    decreases |s|
  {
    var z := Zeros(k) + s;
    if |s| == 0 {
      assert z == Zeros(k);
      ZerosValue(k);
    } else {
      LeadingZerosValue(k, s[..|s| - 1]);
      assert z[..|z| - 1] == Zeros(k) + s[..|s| - 1];
    }
  }

  lemma {:induction false} ZerosValue(k: nat)
    ensures Value(Zeros(k)) == 0
  {
    if k > 0 {
      ZerosValue(k - 1);
      assert Zeros(k)[..k - 1] == Zeros(k - 1);
    }
  }

  /** Padding never changes the value read back, and a number below
      10^width fills exactly `width` characters. */
  lemma PaddedRoundTrip(n: nat, width: nat)
    ensures Value(Padded(n, width)) == n
    ensures 1 <= width && n < Pow10(width) ==> |Padded(n, width)| == width
  {
    DigitsRoundTrip(n);
    var d := Digits(n);
    if |d| < width {
      LeadingZerosValue(width - |d|, d);
    }
    if 1 <= width && n < Pow10(width) {
      DigitsShort(n, width);
    }
  }

  /** The two-character form used for days, months, hours and minutes. */
  function TwoDigits(n: nat): (s: string)
    requires n < 100
    ensures |s| == 2
  {
    [DigitChar(n / 10), DigitChar(n % 10)]
  }

  /** Two digits are the width-2 padding, and read back as the number. */
  lemma TwoDigitsRoundTrip(n: nat)
    requires n < 100
    ensures TwoDigits(n) == Padded(n, 2)
    ensures AllDigits(TwoDigits(n)) && Value(TwoDigits(n)) == n
  {
    var hi, lo := DigitChar(n / 10), DigitChar(n % 10);
    assert TwoDigits(n)[..1] == [hi];
    assert [hi][..0] == [];
    assert Value([hi]) == n / 10;
    if n < 10 {
      assert Digits(n) == [lo];
      assert Zeros(1) == ['0'];
    } else {
      assert Digits(n / 10) == [hi];
      assert Digits(n) == [hi] + [lo];
    }
  }
}
