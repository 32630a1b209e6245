/** The laws of text operations: letter case, trimming, squeezing, and the shape of printed identifiers. */
module TextLaws {
  import opened Numerals
  import opened Texts

  // ----- letter case -----

  /** The letters come in 26 pairs, and no other character has a case. */
  lemma LettersPair(i: nat, c: char)
    requires i < 26
    ensures LowerChar((65 + i) as char) == (97 + i) as char && UpperChar((97 + i) as char) == (65 + i) as char
    ensures !('A' <= c <= 'Z') ==> LowerChar(c) == c
    ensures !('a' <= c <= 'z') ==> UpperChar(c) == c
  {
  }

  /** What one case forgets the other forgets too. */
  lemma CasesAgree(s: string)
    ensures Lower(Upper(s)) == Lower(s) && Upper(Lower(s)) == Upper(s) && Lower(Lower(s)) == Lower(s) && Upper(Upper(s)) == Upper(s)
  {
    forall i | 0 <= i < |s|
      ensures Lower(Upper(s))[i] == Lower(s)[i] && Upper(Lower(s))[i] == Upper(s)[i]
      ensures Lower(Lower(s))[i] == Lower(s)[i] && Upper(Upper(s))[i] == Upper(s)[i]
    {
      assert Upper(s)[i] == UpperChar(s[i]) && Lower(s)[i] == LowerChar(s[i]);
      assert Upper(Lower(s))[i] == UpperChar(Lower(s)[i]) && Upper(Upper(s))[i] == UpperChar(Upper(s)[i]);
    }
  }

  // ----- white space -----

  /** The white space among the ASCII characters: the blank, the five line and tab characters and the four
      separators. */
  lemma WhiteSpaceIs(c: char)
    ensures IsSpace(c) <==> c as int in {9, 10, 11, 12, 13, 28, 29, 30, 31, 32}
  {
  }

  predicate AllSpace(s: string) {
    forall i :: 0 <= i < |s| ==> IsSpace(s[i])
  }

  lemma {:induction false} StripLeftSkips(a: string, s: string)
    requires AllSpace(a) && (s != "" ==> !IsSpace(s[0]))
    ensures StripLeft(a + s) == s
  {
    if a == "" {
      assert a + s == s;
    } else {
      assert (a + s)[1..] == a[1..] + s;
      StripLeftSkips(a[1..], s);
    }
  }

  lemma {:induction false} StripRightSkips(s: string, b: string)
    requires AllSpace(b) && (s != "" ==> !IsSpace(s[|s| - 1]))
    ensures StripRight(s + b) == s
  {
    if b == "" {
      assert s + b == s;
    } else {
      assert (s + b)[..|s + b| - 1] == s + b[..|b| - 1];
      StripRightSkips(s, b[..|b| - 1]);
    }
  }

  /** Stripping takes away exactly the white space around a text. */
  lemma {:induction false} StripTakesPadding(a: string, s: string, b: string)
    requires AllSpace(a) && AllSpace(b) && s != "" && !IsSpace(s[0]) && !IsSpace(s[|s| - 1])
    ensures Strip(a + s + b) == s && Strip(a) == ""
  {
    assert a + s + b == a + (s + b) && (s + b)[0] == s[0];
    StripLeftSkips(a, s + b);
    StripRightSkips(s, b);
    assert a + "" == a;
    StripLeftSkips(a, "");
  }

  // ----- squeezing -----

  lemma {:induction false} SqueezeSkips(a: string, s: string)
    requires AllSpace(a)
    ensures Squeeze(a + s) == Squeeze(s)
  {
    if a == "" {
      assert a + s == s;
    } else {
      assert (a + s)[1..] == a[1..] + s;
      SqueezeSkips(a[1..], s);
    }
  }

  lemma {:induction false} SqueezedAwayIff(s: string)
    ensures Squeeze(s) == "" <==> AllSpace(s)
  {
    if s != "" {
      SqueezedAwayIff(s[1..]);
      assert AllSpace(s) <==> IsSpace(s[0]) && AllSpace(s[1..]);
    }
  }

  /** A text without white space is squeezed to itself. */
  lemma {:induction false} SqueezeKeepsWord(s: string)
    requires forall i :: 0 <= i < |s| ==> !IsSpace(s[i])
    ensures Squeeze(s) == s
  {
    if s != "" {
      SqueezeKeepsWord(s[1..]);
    }
  }

  /** Any white space between two texts becomes one blank. */
  lemma {:induction false} SqueezeJoins(a: string, gap: string, b: string)
    requires gap != "" && AllSpace(gap) && Squeeze(a) != "" && Squeeze(b) != ""
    ensures Squeeze(a + gap + b) == Squeeze(a) + " " + Squeeze(b)
  {
    var all := a + gap + b;
    assert a != "" && all[0] == a[0] && all[1..] == a[1..] + gap + b;
    if Squeeze(a[1..]) == "" {
      SqueezedAwayIff(a[1..]);
      SqueezeSkips(a[1..] + gap, b);
      SqueezedAwayIff(a);
      assert IsSpace(all[1]);
    } else {
      SqueezeJoins(a[1..], gap, b);
      assert a[1..] != "" && all[1] == a[1];
    }
  }

  // ----- identifiers -----

  function HexValue(s: string): nat {
    if s == "" then 0 else HexValue(s[..|s| - 1]) * 16 + DigitValue(s[|s| - 1])
  }

  predicate IsHexDigit(c: char) {
    '0' <= c <= '9' || 'a' <= c <= 'f'
  }

  lemma HyphensOut(h: string)
    requires |h| == 32
    ensures var t := Hyphenated(h); t[..8] + t[9..13] + t[14..18] + t[19..23] + t[24..] == h
  {
    var t := Hyphenated(h);
    assert t[..8] == h[..8] && t[9..13] == h[8..12] && t[14..18] == h[12..16];
    assert t[19..23] == h[16..20] && t[24..] == h[20..];
    assert h[..8] + h[8..12] == h[..12] && h[..12] + h[12..16] == h[..16] && h[..16] + h[16..20] == h[..20] && h[..20] + h[20..] == h;
  }

  lemma DigitsBetweenHyphens(h: string, i: nat)
    requires |h| == 32 && (forall k :: 0 <= k < 32 ==> IsHexDigit(h[k])) && i < 36 && i != 8 && i != 13 && i != 18 && i != 23
    ensures IsHexDigit(Hyphenated(h)[i])
  {
    var k := if i < 8 then i else if i < 13 then i - 1 else if i < 18 then i - 2 else if i < 23 then i - 3 else i - 4;
    assert Hyphenated(h)[i] == h[k];
  }

  /** The text of an identifier: 8, 4, 4, 4 and 12 hexadecimal digits in lower case between hyphens, which
      together print it. */
  lemma {:induction false} UuidTextShape(u: Uuid)
    ensures var t := UuidText(u);
            && |t| == 36 && t[8] == t[13] == t[18] == t[23] == '-'
            && (forall i :: 0 <= i < 36 && i != 8 && i != 13 && i != 18 && i != 23 ==> IsHexDigit(t[i]))
            && HexValue(t[..8] + t[9..13] + t[14..18] + t[19..23] + t[24..]) == u
  {
    var h, t := Hex(u, 32), UuidText(u);
    HexIs(u, 32);
    HyphensOut(h);
    forall i | 0 <= i < 36 && i != 8 && i != 13 && i != 18 && i != 23
      ensures IsHexDigit(t[i])
    {
      DigitsBetweenHyphens(h, i);
    }
  }

  lemma {:induction false} HexIs(n: nat, width: nat)
    requires n < Pow16(width)
    ensures HexValue(Hex(n, width)) == n && forall i :: 0 <= i < width ==> IsHexDigit(Hex(n, width)[i])
  {
    if width > 0 {
      HexIs(n / 16, width - 1);
      DigitRoundTrip(n % 16);
      assert Hex(n, width)[..width - 1] == Hex(n / 16, width - 1);
    }
  }
}
