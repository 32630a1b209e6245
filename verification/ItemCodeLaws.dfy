/** Codes that are given or typed in: what is made of the text, and when it is accepted. */
module ItemCodeLaws {
  import opened ItemCodeRuns
  import opened ItemCodes
  import opened Numerals
  import opened Options
  import opened TextLaws
  import opened Texts

  /** A given code is taken without the white space around it; white space alone gives none. */
  lemma GivenIsTrimmed(a: string, code: string, b: string)
    requires AllSpace(a) && AllSpace(b) && code != "" && !IsSpace(code[0]) && !IsSpace(code[|code| - 1])
    ensures Given(Some(a + code + b)) == Some(code) && Given(Some(a)).None? && Given(None).None?
  {
    StripTakesPadding(a, code, b);
  }

  lemma {:induction false} WithoutSpaceAppend(a: string, b: string)
    ensures WithoutSpace(a + b) == WithoutSpace(a) + WithoutSpace(b)
  {
    if a == "" {
      assert a + b == b;
    } else {
      assert (a + b)[1..] == a[1..] + b;
      WithoutSpaceAppend(a[1..], b);
    }
  }

  lemma {:induction false} WithoutSpaceIs(s: string)
    ensures forall i :: 0 <= i < |WithoutSpace(s)| ==> !IsSpace(WithoutSpace(s)[i])
    ensures AllSpace(s) ==> WithoutSpace(s) == ""
    ensures (forall i :: 0 <= i < |s| ==> !IsSpace(s[i])) ==> WithoutSpace(s) == s
  {
    if s != "" {
      WithoutSpaceIs(s[1..]);
    }
  }

  lemma {:induction false} StripIsIgnored(s: string)
    ensures WithoutSpace(Strip(s)) == WithoutSpace(s)
  {
    LeftIsIgnored(s);
    RightIsIgnored(StripLeft(s));
  }

  lemma {:induction false} LeftIsIgnored(s: string)
    ensures WithoutSpace(StripLeft(s)) == WithoutSpace(s)
  {
    if s != "" && IsSpace(s[0]) {
      LeftIsIgnored(s[1..]);
    }
  }

  lemma {:induction false} RightIsIgnored(s: string)
    ensures WithoutSpace(StripRight(s)) == WithoutSpace(s)
  {
    if s != "" && IsSpace(s[|s| - 1]) {
      RightIsIgnored(s[..|s| - 1]);
      WithoutSpaceAppend(s[..|s| - 1], s[|s| - 1..]);
      WithoutSpaceIs(s[|s| - 1..]);
      assert s == s[..|s| - 1] + s[|s| - 1..];
    }
  }

  lemma {:induction false} UpperKeepsSpace(s: string)
    ensures WithoutSpace(Upper(s)) == Upper(WithoutSpace(s))
  {
    if s != "" {
      UpperKeepsSpace(s[1..]);
      assert Upper(s)[1..] == Upper(s[1..]) && Upper(s)[0] == UpperChar(s[0]);
      assert IsSpace(UpperChar(s[0])) <==> IsSpace(s[0]);
      var c, rest := s[0], WithoutSpace(s[1..]);
      assert Upper([c] + rest) == [UpperChar(c)] + Upper(rest);
    }
  }

  /** A typed code is its characters other than white space, in capitals. */
  lemma {:induction false} NormalizedIs(typed: string)
    ensures Normalized(typed) == Upper(WithoutSpace(typed))
  {
    UpperKeepsSpace(Strip(typed));
    StripIsIgnored(typed);
  }

  /** Letter case makes no difference. */
  lemma {:induction false} CaseIsIgnored(typed: string)
    ensures Normalized(Lower(typed)) == Normalized(typed)
  {
    NormalizedIs(typed);
    NormalizedIs(Lower(typed));
    UpperKeepsSpace(typed);
    UpperKeepsSpace(Lower(typed));
    CasesAgree(typed);
  }

  lemma {:induction false} NoSmallLetters(typed: string, i: nat)
    requires i < |Normalized(typed)|
    ensures !('a' <= Normalized(typed)[i] <= 'z')
  {
    NormalizedIs(typed);
    assert Normalized(typed)[i] == UpperChar(WithoutSpace(typed)[i]);
  }

  /** White space inside a typed code is ignored. */
  lemma {:induction false} InnerSpaceIsIgnored(a: string, gap: string, b: string)
    requires AllSpace(gap)
    ensures Normalized(a + gap + b) == Normalized(a + b)
  {
    NormalizedIs(a + gap + b);
    NormalizedIs(a + b);
    WithoutSpaceAppend(a + gap, b);
    WithoutSpaceAppend(a, gap);
    WithoutSpaceAppend(a, b);
    WithoutSpaceIs(gap);
  }

  /** The code can be typed in for an item: it is not empty, has capitals, digits, underscores and hyphens only,
      and no other item that is not deleted has it, letter case aside. */
  ghost predicate IsFree(items: seq<Item>, code: string, except: int) {
    && code != "" && (forall i :: 0 <= i < |code| ==> 'A' <= code[i] <= 'Z' || '0' <= code[i] <= '9' || code[i] in "_-")
    && forall k :: 0 <= k < |items| && k != except && !items[k].deleted && items[k].code.Some? ==> Upper(items[k].code.value) != code
  }

  /** What the other requests do: batch creation adds an item without a code; deleting marks the item and keeps its
      code; an edit sets the given code or none; deleting for good takes the item out and moves the later ones up. */
  lemma RequestsDo(h: History, at: int, raw: Option<string>)
    ensures After(h, CreateBlank) == h.(items := h.items + [Item(None, false)])
    ensures 0 <= at < |h.items| ==> After(h, SoftDelete(at)) == h.(items := h.items[at := Item(h.items[at].code, true)])
    ensures 0 <= at < |h.items| ==> After(h, Edit(at, raw)) == h.(items := h.items[at := Item(Given(raw), h.items[at].deleted)])
    ensures 0 <= at < |h.items| ==>
              && |After(h, HardDelete(at)).items| == |h.items| - 1
              && forall k :: 0 <= k < |h.items| - 1 ==> After(h, HardDelete(at)).items[k] == h.items[if k < at then k else k + 1]
    ensures After(h, HardDelete(at)).given == h.given
  {
  }

  /** A scanned item is added, with the typed code, exactly if the code is free; the code of an existing item that
      is not deleted is changed exactly if the code is free for it. */
  lemma TypedCodeAcceptedIff(h: History, at: int, typed: string)
    ensures After(h, FromScan(typed))
            == if IsFree(h.items, Normalized(typed), -1) then h.(items := h.items + [Item(Some(Normalized(typed)), false)]) else h
    ensures After(h, PatchCode(at, typed))
            == if 0 <= at < |h.items| && !h.items[at].deleted && IsFree(h.items, Normalized(typed), at)
               then h.(items := h.items[at := h.items[at].(code := Some(Normalized(typed)))]) else h
  {
    forall except: int
      ensures Typeable(h.items, typed, except) <==> IsFree(h.items, Normalized(typed), except)
    {
    }
  }

  lemma {:induction false} PlainCode(code: string)
    requires code != "" && forall i :: 0 <= i < |code| ==> 'A' <= code[i] <= 'Z' || '0' <= code[i] <= '9' || code[i] == '-'
    ensures Normalized(code) == code && IsSlug(code)
  {
    NormalizedIs(code);
    WithoutSpaceIs(code);
    forall i | 0 <= i < |code|
      ensures Upper(code)[i] == code[i]
    {
      assert Upper(code)[i] == UpperChar(code[i]);
    }
  }

  /** In particular a printed code is accepted as it is, as long as it is not taken. */
  lemma {:induction false} PrintedCodeIsTyped(n: nat)
    ensures Normalized(CodeOf(n)) == CodeOf(n) && IsSlug(CodeOf(n))
  {
    var digits, start := ZeroPad(Decimal(n), 4), "ITM-";
    ParseOfDecimal(n);
    ParseOfPadded(Decimal(n), 4);
    forall i | 0 <= i < |start + digits|
      ensures 'A' <= (start + digits)[i] <= 'Z' || '0' <= (start + digits)[i] <= '9' || (start + digits)[i] == '-'
    {
      if i >= 4 {
        assert (start + digits)[i] == digits[i - 4] && IsDecimalDigit(digits[i - 4]);
      } else {
        assert (start + digits)[i] == start[i];
      }
    }
    PlainCode(start + digits);
  }
}
