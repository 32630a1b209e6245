/** Printing and parsing of natural numbers, and the text form of row identifiers. */
module Numerals {

  const DIGITS: string := "0123456789abcdef"

  function DigitChar(d: nat): char
    requires d < 16
  {
    DIGITS[d]
  }

  /** The value of a decimal or hexadecimal digit. */
  function DigitValue(c: char): nat {
    if '0' <= c <= '9' then (c - '0') as nat
    else if 'a' <= c <= 'f' then (c - 'a') as nat + 10
    else 0
  }

  predicate IsDecimalDigit(c: char) {
    '0' <= c <= '9'
  }

  /** The decimal digits of `n`, without leading zeros. */
  function Decimal(n: nat): string {
    if n < 10 then [DigitChar(n)] else Decimal(n / 10) + [DigitChar(n % 10)]
  }

  /** Zeros on the left up to `width`; a longer text is left alone. */
  function ZeroPad(s: string, width: nat): string
    decreases width - |s|
  {
    if |s| >= width then s else ZeroPad("0" + s, width)
  }

  /** The number that a text of decimal digits denotes. */
  function ParseDecimal(s: string): nat {
    if s == "" then 0 else ParseDecimal(s[..|s| - 1]) * 10 + DigitValue(s[|s| - 1])
  }

  predicate AllDigits(s: string) {
    forall i :: 0 <= i < |s| ==> IsDecimalDigit(s[i])
  }

  lemma DigitRoundTrip(d: nat)
    requires d < 16
    ensures DigitValue(DigitChar(d)) == d
    ensures d < 10 ==> IsDecimalDigit(DigitChar(d))
  {
  }

  lemma {:induction false} ParseOfDecimal(n: nat)
    ensures ParseDecimal(Decimal(n)) == n && AllDigits(Decimal(n)) && Decimal(n) != ""
  {
    DigitRoundTrip(n % 10);
    if n < 10 {
      assert Decimal(n)[..0] == "";
    } else {
      ParseOfDecimal(n / 10);
      assert Decimal(n)[..|Decimal(n)| - 1] == Decimal(n / 10);
    }
  }

  lemma {:induction false} ParseLeadingZero(s: string)
    ensures ParseDecimal("0" + s) == ParseDecimal(s)
  {
    if s == "" {
      assert ("0" + s)[..0] == "";
    } else {
      ParseLeadingZero(s[..|s| - 1]);
      assert ("0" + s)[..|s|] == "0" + s[..|s| - 1];
    }
  }

  lemma {:induction false} ParseOfPadded(s: string, width: nat)
    requires AllDigits(s)
    ensures ParseDecimal(ZeroPad(s, width)) == ParseDecimal(s) && AllDigits(ZeroPad(s, width))
    ensures |ZeroPad(s, width)| >= |s|
    decreases width - |s|
  {
    if |s| < width {
      ParseLeadingZero(s);
      ParseOfPadded("0" + s, width);
    }
  }

  // ----- identifiers -----

  function Pow16(k: nat): (r: nat)
    ensures r > 0
  {
    if k == 0 then 1 else 16 * Pow16(k - 1)
  }

  /** A 128-bit identifier; its text is fixed-width, so text order and number order agree. */
  type Uuid = n: nat | n < Pow16(32)

  /** The lowest `width` hexadecimal digits of `n`. */
  function Hex(n: nat, width: nat): (s: string)
    ensures |s| == width
  {
    if width == 0 then "" else Hex(n / 16, width - 1) + [DigitChar(n % 16)]
  }

  function Hyphenated(h: string): (s: string)
    requires |h| == 32
    ensures |s| == 36
  {
    h[..8] + "-" + h[8..12] + "-" + h[12..16] + "-" + h[16..20] + "-" + h[20..]
  }

  function UuidText(u: Uuid): (s: string)
    ensures |s| == 36
  {
    Hyphenated(Hex(u, 32))
  }

  lemma {:induction false} HexInjective(a: nat, b: nat, width: nat)
    requires a < Pow16(width) && b < Pow16(width)
    requires Hex(a, width) == Hex(b, width)
    ensures a == b
  {
    if width > 0 {
      var ha, hb := Hex(a, width), Hex(b, width);
      assert ha[..width - 1] == Hex(a / 16, width - 1) && hb[..width - 1] == Hex(b / 16, width - 1);
      assert ha[width - 1] == hb[width - 1];
      DigitRoundTrip(a % 16);
      DigitRoundTrip(b % 16);
      HexInjective(a / 16, b / 16, width - 1);
    }
  }

  lemma HyphenatedInverse(h: string)
    requires |h| == 32
    ensures var s := Hyphenated(h); h == s[..8] + s[9..13] + s[14..18] + s[19..23] + s[24..]
  {
    var s := Hyphenated(h);
    assert s[..8] == h[..8];
    assert s[9..13] == h[8..12];
    assert s[14..18] == h[12..16];
    assert s[19..23] == h[16..20];
    assert s[24..] == h[20..];
  }

  lemma UuidTextInjective(a: Uuid, b: Uuid)
    requires UuidText(a) == UuidText(b)
    ensures a == b
  {
    HyphenatedInverse(Hex(a, 32));
    HyphenatedInverse(Hex(b, 32));
    HexInjective(a, b, 32);
  }
}
