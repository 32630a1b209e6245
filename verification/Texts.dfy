/** Plain text operations on ASCII: letter case, white space and trimming. */
module Texts {

  function LowerChar(c: char): char {
    if 'A' <= c <= 'Z' then (c - 'A') + 'a' else c
  }

  function Lower(s: string): (r: string)
    ensures |r| == |s|
    ensures forall i :: 0 <= i < |s| ==> r[i] == LowerChar(s[i])
  {
    seq(|s|, i requires 0 <= i < |s| => LowerChar(s[i]))
  }

  function UpperChar(c: char): char {
    if 'a' <= c <= 'z' then (c - 'a') + 'A' else c
  }

  function Upper(s: string): (r: string)
    ensures |r| == |s|
  {
    seq(|s|, i requires 0 <= i < |s| => UpperChar(s[i]))
  }

  predicate IsSpace(c: char) {
    c == ' ' || 9 as char <= c <= 13 as char || 28 as char <= c <= 31 as char
  }

  function StripLeft(s: string): string {
    if s != "" && IsSpace(s[0]) then StripLeft(s[1..]) else s
  }

  function StripRight(s: string): string {
    if s != "" && IsSpace(s[|s| - 1]) then StripRight(s[..|s| - 1]) else s
  }

  function Strip(s: string): string {
    StripRight(StripLeft(s))
  }

  /** Words joined by single spaces: every run of white space becomes one space, none at the ends. */
  function Squeeze(s: string): string {
    if s == "" then ""
    else
      var rest := Squeeze(s[1..]);
      if IsSpace(s[0]) then rest
      else if rest != "" && IsSpace(s[1]) then [s[0], ' '] + rest
      else [s[0]] + rest
  }

  /** Squeezing does not care about letter case. */
  lemma {:induction false} SqueezeLower(s: string)
    ensures Squeeze(Lower(s)) == Lower(Squeeze(s))
  {
    if s != "" {
      SqueezeLower(s[1..]);
      assert Lower(s)[1..] == Lower(s[1..]);
    }
  }

  lemma {:induction false} StripLeftStops(s: string)
    ensures StripLeft(s) == "" || !IsSpace(StripLeft(s)[0])
  {
    if s != "" && IsSpace(s[0]) {
      StripLeftStops(s[1..]);
    }
  }

  lemma {:induction false} StripRightStops(s: string)
    ensures StripRight(s) == "" || !IsSpace(StripRight(s)[|StripRight(s)| - 1])
    ensures StripRight(s) <= s
  {
    if s != "" && IsSpace(s[|s| - 1]) {
      StripRightStops(s[..|s| - 1]);
    }
  }

  /** A stripped text has nothing left to strip. */
  lemma {:induction false} StripTwice(s: string)
    ensures Strip(Strip(s)) == Strip(s)
  {
    StripLeftStops(s);
    StripRightStops(StripLeft(s));
    var t := Strip(s);
    if t != "" {
      assert t[0] == StripLeft(s)[0];
    }
  }

  /** Squeezing shortens a text, or only turns white space into spaces one for one. */
  lemma {:induction false} SqueezeKeeps(s: string)
    ensures |Squeeze(s)| <= |s|
    ensures |Squeeze(s)| == |s| ==> forall i :: 0 <= i < |s| ==> Squeeze(s)[i] == s[i] || (Squeeze(s)[i] == ' ' && IsSpace(s[i]))
    decreases |s|
  {
    if s != "" {
      SqueezeKeeps(s[1..]);
      if |s| > 1 && IsSpace(s[1]) && !IsSpace(s[0]) && Squeeze(s[1..]) != "" {
        var rest := s[1..][1..];
        SqueezeKeeps(rest);
        assert Squeeze(s) == [s[0], ' '] + Squeeze(rest);
        forall i | |Squeeze(s)| == |s| && 0 <= i < |s|
          ensures Squeeze(s)[i] == s[i] || (Squeeze(s)[i] == ' ' && IsSpace(s[i]))
        {
          if i >= 2 {
            assert s[i] == rest[i - 2] && Squeeze(s)[i] == Squeeze(rest)[i - 2];
          }
        }
      }
    }
  }

  /** Up to letter case a text equals its squeezed form only if it is its squeezed form. */
  lemma {:induction false} SqueezedUpToCase(s: string)
    requires Lower(Squeeze(s)) == Lower(s)
    ensures Squeeze(s) == s
  {
    SqueezeKeeps(s);
    assert |Squeeze(s)| == |s| by {
      assert |Lower(Squeeze(s))| == |Lower(s)|;
    }
    forall i | 0 <= i < |s|
      ensures Squeeze(s)[i] == s[i]
    {
      assert Lower(Squeeze(s))[i] == Lower(s)[i];
    }
  }
}
