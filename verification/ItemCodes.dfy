/** Sequential item codes: printed as `ITM-` and at least four digits, and read back by a scan. */
module ItemCodes {
  import opened Numerals
  import opened Options
  import opened Patterns
  import opened Texts

  /** An item of one business, as far as codes go; deleted items keep their row and their code. */
  datatype Item = Item(code: Option<string>, deleted: bool)

  function CodeOf(n: nat): string {
    "ITM-" + ZeroPad(Decimal(n), 4)
  }

  /** `^ITM-(\d+)$` in any letter case, on the stripped text. */
  function Parsed(code: string): Option<nat> {
    var s := Strip(code);
    if |s| > 4 && Upper(s[..4]) == "ITM-" && AllDigits(s[4..]) then Some(ParseDecimal(s[4..])) else None
  }

  /** The number that the scan takes from an item: its query sees only codes like `ITM-%`. */
  function Scanned(i: Item): Option<nat> {
    if i.code.Some? && Like(i.code.value, "ITM-%") then Parsed(i.code.value) else None
  }

  /** The largest number among the first n items. */
  function Largest(items: seq<Item>, n: nat): nat
    requires n <= |items|
  {
    if n == 0 then 0
    else
      var earlier, here := Largest(items, n - 1), Scanned(items[n - 1]);
      if here.Some? && here.value > earlier then here.value else earlier
  }

  function NextNumber(items: seq<Item>): nat {
    Largest(items, |items|) + 1
  }

  function NextCode(items: seq<Item>): string {
    CodeOf(NextNumber(items))
  }

  /** The text that a request gives, if it gives any. */
  function Given(raw: Option<string>): Option<string> {
    if raw.None? || Strip(raw.value) == "" then None else Some(Strip(raw.value))
  }

  datatype Generated = Assigned(code: string) | NotFound | HasCode(code: string)

  class ItemTable {
    var items: seq<Item>

    constructor ()
      ensures items == []
    {
      items := [];
    }

    method NextItemCode() returns (code: string)
      ensures code == NextCode(items)
    {
      var max := 0;
      for n := 0 to |items|
        invariant max == Largest(items, n)
      {
        if items[n].code.Some? && Like(items[n].code.value, "ITM-%") {
          var m := Parsed(items[n].code.value);
          if m.Some? && m.value > max {
            max := m.value;
          }
        }
      }
      code := CodeOf(max + 1);
    }

    /** A new item takes the given code as it is, or else the next one. */
    method Create(raw: Option<string>) returns (code: string)
      modifies this
      ensures code == (if Given(raw).Some? then Given(raw).value else NextCode(old(items)))
      ensures items == old(items) + [Item(Some(code), false)]
    {
      if Given(raw).Some? {
        code := Given(raw).value;
      } else {
        code := NextItemCode();
      }
      items := items + [Item(Some(code), false)];
    }

    /** An item without a code gets the next one. */
    method Generate(at: int) returns (answer: Generated)
      modifies this
      ensures if !(0 <= at < |old(items)|) then answer == NotFound && items == old(items)
              else if Given(old(items)[at].code).Some? then answer == HasCode(Given(old(items)[at].code).value) && items == old(items)
              else answer == Assigned(NextCode(old(items))) && items == old(items)[at := old(items)[at].(code := Some(NextCode(old(items))))]
    {
      if !(0 <= at < |items|) {
        return NotFound;
      }
      if Given(items[at].code).Some? {
        return HasCode(Given(items[at].code).value);
      }
      var code := NextItemCode();
      items := items[at := items[at].(code := Some(code))];
      return Assigned(code);
    }
  }

  // ----- printing and parsing -----

  /** A printed code is read back as its number, past four digits too. */
  lemma CodeRoundTrip(n: nat, deleted: bool)
    ensures Scanned(Item(Some(CodeOf(n)), deleted)) == Some(n)
  {
    var digits := ZeroPad(Decimal(n), 4);
    ParseOfDecimal(n);
    ParseOfPadded(Decimal(n), 4);
    LikePrefixIff("ITM-" + digits, "ITM-");
    assert "ITM-" + "%" == "ITM-%";
    CodeIsStripped(digits);
    assert ("ITM-" + digits)[4..] == digits && ("ITM-" + digits)[..4] == "ITM-";
    assert Upper("ITM-") == "ITM-";
  }

  /** Numbers below ten thousand are printed with four digits, longer ones with as many as they need. */
  lemma {:induction false} CodeWidth(n: nat)
    ensures n < 10000 ==> |CodeOf(n)| == 8
    ensures n >= 10000 ==> CodeOf(n) == "ITM-" + Decimal(n)
  {
    DecimalWidth(n, 4);
    PaddedWidth(Decimal(n), 4);
  }

  lemma {:induction false} DecimalWidth(n: nat, width: nat)
    requires width == 4 || width == 3 || width == 2 || width == 1
    ensures n < TenTo(width) <==> |Decimal(n)| <= width
  {
    if n >= 10 && width > 1 {
      DecimalWidth(n / 10, width - 1);
    } else if n >= 10 {
      ParseOfDecimal(n / 10);
    }
  }

  function TenTo(k: nat): nat {
    if k == 0 then 1 else 10 * TenTo(k - 1)
  }

  lemma {:induction false} PaddedWidth(s: string, width: nat)
    ensures |ZeroPad(s, width)| == if |s| < width then width else |s|
    decreases width - |s|
  {
    if |s| < width {
      PaddedWidth("0" + s, width);
    }
  }

  lemma CodeIsStripped(digits: string)
    requires AllDigits(digits) && digits != ""
    ensures Strip("ITM-" + digits) == "ITM-" + digits
  {
  }

  /** Different numbers have different codes. */
  lemma CodesDiffer(m: nat, n: nat)
    requires CodeOf(m) == CodeOf(n)
    ensures m == n
  {
    CodeRoundTrip(m, false);
    CodeRoundTrip(n, false);
  }

  lemma {:induction false} LargestBounds(items: seq<Item>, n: nat, k: nat)
    requires k < n <= |items| && Scanned(items[k]).Some?
    ensures Scanned(items[k]).value <= Largest(items, n)
  {
    if k < n - 1 {
      LargestBounds(items, n - 1, k);
    }
  }

  /** The next code is not the code of any item, deleted ones included. */
  lemma NextCodeIsNew(items: seq<Item>, k: nat)
    requires k < |items|
    ensures items[k].code != Some(NextCode(items))
  {
    if items[k].code == Some(NextCode(items)) {
      CodeRoundTrip(NextNumber(items), items[k].deleted);
      assert items[k] == Item(Some(NextCode(items)), items[k].deleted);
      LargestBounds(items, |items|, k);
    }
  }
}
