/** SQL pattern matching, as far as the migrations use it. */
module Patterns {
  import opened Texts

  /** `s LIKE pattern`: `%` stands for any text, `_` for any character, a backslash quotes. */
  predicate Like(s: string, pattern: string)
    decreases |s| + |pattern|
  {
    if pattern == "" then s == ""
    else if pattern[0] == '%' then Like(s, pattern[1..]) || (s != "" && Like(s[1..], pattern))
    else if s == "" then false
    else if pattern[0] == '_' then Like(s[1..], pattern[1..])
    else if pattern[0] == '\\' && |pattern| > 1 then s[0] == pattern[1] && Like(s[1..], pattern[2..])
    else s[0] == pattern[0] && Like(s[1..], pattern[1..])
  }

  predicate ILike(s: string, pattern: string) {
    Like(Lower(s), Lower(pattern))
  }

  lemma {:induction false} LikeAnything(s: string)
    ensures Like(s, "%")
  {
    if s == "" {
      assert Like(s, "%"[1..]);
    } else {
      LikeAnything(s[1..]);
    }
  }

  /** The text starts with the literal part of a pattern, an underscore of which stands for any character. */
  predicate StartsLike(s: string, literal: string) {
    |literal| <= |s| && forall i :: 0 <= i < |literal| ==> literal[i] == '_' || literal[i] == s[i]
  }

  /** Exactly such texts match `literal%`. */
  lemma {:induction false} LikePrefixIff(s: string, literal: string)
    requires forall i :: 0 <= i < |literal| ==> literal[i] != '%' && literal[i] != '\\'
    ensures Like(s, literal + "%") <==> StartsLike(s, literal)
  {
    if literal == "" {
      assert literal + "%" == "%";
      LikeAnything(s);
    } else {
      assert (literal + "%")[1..] == literal[1..] + "%";
      if s != "" {
        LikePrefixIff(s[1..], literal[1..]);
        StartsLikeStep(s, literal);
      }
    }
  }

  lemma StartsLikeStep(s: string, literal: string)
    requires s != "" && literal != ""
    ensures StartsLike(s, literal) <==> (literal[0] == '_' || literal[0] == s[0]) && StartsLike(s[1..], literal[1..])
  {
    if (literal[0] == '_' || literal[0] == s[0]) && StartsLike(s[1..], literal[1..]) {
      forall i | 0 <= i < |literal|
        ensures literal[i] == '_' || literal[i] == s[i]
      {
        assert i > 0 ==> literal[i] == literal[1..][i - 1] && s[i] == s[1..][i - 1];
      }
    }
    if StartsLike(s, literal) {
      forall i | 0 <= i < |literal[1..]|
        ensures literal[1..][i] == '_' || literal[1..][i] == s[1..][i]
      {
        assert literal[1..][i] == literal[i + 1] && s[1..][i] == s[i + 1];
      }
    }
  }

  // ----- containment -----

  /** A leading `%` stands for any beginning of the text. */
  lemma {:induction false} LikeAnyStart(s: string, rest: string)
    ensures Like(s, "%" + rest) <==> exists k :: 0 <= k <= |s| && Like(s[k..], rest)
  {
    assert ("%" + rest)[1..] == rest && s[0..] == s;
    if s != "" {
      LikeAnyStart(s[1..], rest);
      if exists k :: 0 <= k <= |s[1..]| && Like(s[1..][k..], rest) {
        var k :| 0 <= k <= |s[1..]| && Like(s[1..][k..], rest);
        assert s[k + 1..] == s[1..][k..];
      }
      if exists k :: 0 <= k <= |s| && Like(s[k..], rest) {
        var k :| 0 <= k <= |s| && Like(s[k..], rest);
        assert k > 0 ==> s[k..] == s[1..][k - 1..];
      }
    }
  }

  /** A text without the characters that patterns treat specially. */
  predicate IsLiteral(x: string) {
    forall i :: 0 <= i < |x| ==> x[i] != '%' && x[i] != '_' && x[i] != '\\'
  }

  ghost predicate Contains(s: string, x: string) {
    exists a, b :: s == a + x + b
  }

  lemma StartsLikeLiteral(s: string, x: string)
    requires IsLiteral(x)
    ensures StartsLike(s, x) <==> x <= s
  {
  }

  lemma {:induction false} LikeFrom(s: string, k: nat, x: string)
    requires IsLiteral(x) && k <= |s|
    ensures Like(s[k..], x + "%") <==> x <= s[k..]
  {
    LikePrefixIff(s[k..], x);
    StartsLikeLiteral(s[k..], x);
  }

  lemma StartsAfter(a: string, x: string, b: string)
    ensures x <= (a + x + b)[|a|..]
  {
    assert (a + x + b)[|a|..] == x + b;
  }

  lemma ContainsFrom(s: string, x: string)
    ensures Contains(s, x) <==> exists k :: 0 <= k <= |s| && x <= s[k..]
  {
    if Contains(s, x) {
      var a, b :| s == a + x + b;
      StartsAfter(a, x, b);
    }
    if k: nat :| k <= |s| && x <= s[k..] {
      var t := s[k..];
      assert t == x + t[|x|..] && s == s[..k] + t;
      assert s[..k] + (x + t[|x|..]) == s[..k] + x + t[|x|..];
    }
  }

  /** For such a text, `%x%` matches exactly the texts that contain x. */
  lemma {:induction false} LikeContainsIff(s: string, x: string)
    requires IsLiteral(x)
    ensures Like(s, "%" + x + "%") <==> Contains(s, x)
  {
    assert "%" + x + "%" == "%" + (x + "%");
    LikeAnyStart(s, x + "%");
    forall k | 0 <= k <= |s|
      ensures Like(s[k..], x + "%") <==> x <= s[k..]
    {
      LikeFrom(s, k, x);
    }
    ContainsFrom(s, x);
  }

  /** `ILIKE` compares letter case aside. */
  lemma {:induction false} ILikeContainsIff(s: string, x: string)
    requires IsLiteral(x)
    ensures ILike(s, "%" + x + "%") <==> Contains(Lower(s), Lower(x))
  {
    assert Lower("%" + x + "%") == "%" + Lower(x) + "%";
    LikeContainsIff(Lower(s), Lower(x));
  }

  /** A backslash makes the next character stand for itself. */
  lemma {:induction false} LikeQuotedIff(s: string, c: char, rest: string)
    ensures Like(s, "\\" + [c] + rest) <==> s != "" && s[0] == c && Like(s[1..], rest)
  {
    var pattern := "\\" + [c] + rest;
    assert pattern[0] == '\\' && pattern[1] == c && pattern[2..] == rest;
  }
}
