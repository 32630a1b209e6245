/** Item codes over runs of requests: when no code is ever assigned automatically twice. */
module ItemCodeRuns {
  import opened ItemCodes
  import opened Lists
  import opened Numerals
  import opened Options
  import opened Patterns
  import opened Texts

  /** Create takes a code or the next one, batch creation none, a scan must bring one; deleting for good
      removes the row. */
  datatype Action = Create(raw: Option<string>) | CreateBlank | FromScan(typed: string) | Generate(at: int) | SoftDelete(at: int)
                  | Edit(at: int, raw: Option<string>) | PatchCode(at: int, typed: string) | HardDelete(at: int)

  /** The items, and the numbers assigned automatically, in order. */
  datatype History = History(items: seq<Item>, given: seq<nat>)

  // ----- codes that are typed in -----

  function WithoutSpace(s: string): string {
    if s == "" then "" else (if IsSpace(s[0]) then "" else [s[0]]) + WithoutSpace(s[1..])
  }

  function Normalized(typed: string): string {
    WithoutSpace(Upper(Strip(typed)))
  }

  predicate IsSlug(code: string) {
    code != "" && forall i :: 0 <= i < |code| ==> 'A' <= code[i] <= 'Z' || IsDecimalDigit(code[i]) || code[i] == '_' || code[i] == '-'
  }

  /** Some other item that is not deleted has the code, letter case aside. */
  predicate Taken(items: seq<Item>, code: string, except: int) {
    exists k :: 0 <= k < |items| && k != except && !items[k].deleted && items[k].code.Some? && Upper(items[k].code.value) == code
  }

  predicate Typeable(items: seq<Item>, typed: string, except: int) {
    IsSlug(Normalized(typed)) && !Taken(items, Normalized(typed), except)
  }

  // ----- one request -----

  predicate Present(items: seq<Item>, at: int) {
    0 <= at < |items|
  }

  function After(h: History, a: Action): History {
    match a
    case Create(raw) =>
      if Given(raw).Some? then History(h.items + [Item(Given(raw), false)], h.given)
      else History(h.items + [Item(Some(NextCode(h.items)), false)], h.given + [NextNumber(h.items)])
    case CreateBlank => History(h.items + [Item(None, false)], h.given)
    case FromScan(typed) =>
      if Typeable(h.items, typed, -1) then History(h.items + [Item(Some(Normalized(typed)), false)], h.given) else h
    case Generate(at) =>
      if !Present(h.items, at) || Given(h.items[at].code).Some? then h
      else History(h.items[at := h.items[at].(code := Some(NextCode(h.items)))], h.given + [NextNumber(h.items)])
    case SoftDelete(at) =>
      if Present(h.items, at) then h.(items := h.items[at := h.items[at].(deleted := true)]) else h
    case Edit(at, raw) =>
      if Present(h.items, at) then h.(items := h.items[at := h.items[at].(code := Given(raw))]) else h
    case PatchCode(at, typed) =>
      if Present(h.items, at) && !h.items[at].deleted && Typeable(h.items, typed, at)
      then h.(items := h.items[at := h.items[at].(code := Some(Normalized(typed)))]) else h
    case HardDelete(at) =>
      if Present(h.items, at) then h.(items := h.items[..at] + h.items[at + 1..]) else h
  }

  function AfterRun(h: History, run: seq<Action>, n: nat): History
    requires n <= |run|
  {
    if n == 0 then h else After(AfterRun(h, run, n - 1), run[n - 1])
  }

  // ----- what is kept -----

  /** Everything assigned so far is below the next number, and nothing was assigned twice. */
  ghost predicate NeverTwice(h: History) {
    Increasing(h.given) && forall i :: 0 <= i < |h.given| ==> 0 < h.given[i] < NextNumber(h.items)
  }

  /** The requests that can take a code away from the table. */
  predicate Removes(a: Action) {
    a.Edit? || a.PatchCode? || a.HardDelete?
  }

  lemma {:induction false} LargestAppend(items: seq<Item>, more: seq<Item>, n: nat)
    requires n <= |items|
    ensures Largest(items + more, n) == Largest(items, n)
  {
    if n > 0 {
      LargestAppend(items, more, n - 1);
    }
  }

  /** Replacing an item without a number, or by one with the same number, lowers nothing. */
  lemma {:induction false} LargestReplace(items: seq<Item>, at: nat, i: Item, n: nat)
    requires at < |items| && n <= |items| && (Scanned(items[at]).None? || Scanned(i) == Scanned(items[at]))
    ensures Largest(items[at := i], n) >= Largest(items, n)
  {
    if n > 0 {
      LargestReplace(items, at, i, n - 1);
    }
  }

  lemma {:induction false} Noted(h: History, items: seq<Item>, n: nat)
    requires NeverTwice(h) && n == NextNumber(h.items) && Largest(items, |items|) >= n
    ensures NeverTwice(History(items, h.given + [n]))
  {
  }

  lemma {:induction false} OneMore(h: History, i: Item)
    requires NeverTwice(h)
    ensures NeverTwice(History(h.items + [i], h.given))
    ensures Largest(h.items + [i], |h.items| + 1) >= Largest(h.items, |h.items|)
  {
    LargestAppend(h.items, [i], |h.items|);
  }

  lemma {:induction false} GeneratedKeeps(h: History, at: int)
    requires NeverTwice(h)
    ensures NeverTwice(After(h, Generate(at)))
  {
    if Present(h.items, at) && Given(h.items[at].code).None? {
      var items := h.items[at := h.items[at].(code := Some(NextCode(h.items)))];
      CodeRoundTrip(NextNumber(h.items), h.items[at].deleted);
      LargestBounds(items, |items|, at);
      Noted(h, items, NextNumber(h.items));
    }
  }

  lemma {:induction false} CreatedKeeps(h: History, raw: Option<string>)
    requires NeverTwice(h)
    ensures NeverTwice(After(h, Create(raw)))
  {
    if Given(raw).Some? {
      OneMore(h, Item(Given(raw), false));
    } else {
      CreatedNext(h);
      Noted(h, h.items + [Item(Some(NextCode(h.items)), false)], NextNumber(h.items));
    }
  }

  /** An item created without a code takes the next number and moves it on by exactly one. */
  lemma {:induction false} CreatedNext(h: History)
    ensures var after := After(h, Create(None));
            after.given == h.given + [NextNumber(h.items)] && NextNumber(after.items) == NextNumber(h.items) + 1
  {
    var i := Item(Some(NextCode(h.items)), false);
    CodeRoundTrip(NextNumber(h.items), false);
    LargestAppend(h.items, [i], |h.items|);
    assert (h.items + [i])[|h.items|] == i;
  }

  lemma {:induction false} StepNeverTwice(h: History, a: Action)
    requires NeverTwice(h) && !Removes(a)
    ensures NeverTwice(After(h, a))
  {
    match a
    case Create(raw) => CreatedKeeps(h, raw);
    case CreateBlank => OneMore(h, Item(None, false));
    case FromScan(typed) => OneMore(h, Item(Some(Normalized(typed)), false));
    case Generate(at) => GeneratedKeeps(h, at);
    case SoftDelete(at) =>
      if Present(h.items, at) {
        LargestReplace(h.items, at, h.items[at].(deleted := true), |h.items|);
      }
  }

  /** Over every run of requests that take no code away, from any table, no code is assigned automatically
      twice. */
  lemma {:induction false} RunNeverAssignsTwice(h: History, run: seq<Action>, n: nat)
    requires NeverTwice(h) && n <= |run| && forall k :: 0 <= k < n ==> !Removes(run[k])
    ensures NeverTwice(AfterRun(h, run, n))
  {
    if n > 0 {
      RunNeverAssignsTwice(h, run, n - 1);
      StepNeverTwice(AfterRun(h, run, n - 1), run[n - 1]);
    }
  }

  // ----- requests that take codes away -----

  ghost predicate SomeCodeReaches(items: seq<Item>, g: nat) {
    exists k :: 0 <= k < |items| && Reaches(items[k], g)
  }

  predicate Reaches(i: Item, g: nat) {
    Scanned(i).Some? && Scanned(i).value >= g
  }

  lemma {:induction false} ReachedIff(items: seq<Item>, g: nat, n: nat)
    requires g > 0 && n <= |items|
    ensures Largest(items, n) >= g <==> exists k :: 0 <= k < n && Reaches(items[k], g)
  {
    if n > 0 {
      ReachedIff(items, g, n - 1);
    }
  }

  /** The last number assigned automatically is still reached by some code. */
  ghost predicate LastIsReached(h: History) {
    h.given == [] || SomeCodeReaches(h.items, h.given[|h.given| - 1])
  }

  lemma {:induction false} NeverTwiceIff(items: seq<Item>, h: History)
    requires NeverTwice(h)
    ensures NeverTwice(History(items, h.given)) <==> LastIsReached(History(items, h.given))
  {
    if h.given != [] {
      ReachedIff(items, h.given[|h.given| - 1], |items|);
    }
  }

  /** A request that takes a code away keeps the guarantee if and only if some remaining code has a number at
      least as large as the last one assigned; every other request keeps it anyway. */
  lemma {:induction false} StepKeepsNeverTwiceIff(h: History, a: Action)
    requires NeverTwice(h)
    ensures NeverTwice(After(h, a)) <==> !Removes(a) || LastIsReached(After(h, a))
  {
    if Removes(a) {
      NeverTwiceIff(After(h, a).items, h);
    } else {
      StepNeverTwice(h, a);
    }
  }

  /** The guarantee holds after each of the first n requests. */
  ghost predicate AlwaysNeverTwice(h: History, run: seq<Action>, n: nat)
    requires n <= |run|
  {
    NeverTwice(AfterRun(h, run, n)) && (n > 0 ==> AlwaysNeverTwice(h, run, n - 1))
  }

  /** Each of the first n requests that takes a code away leaves one that reaches the last number. */
  ghost predicate LastStaysReached(h: History, run: seq<Action>, n: nat)
    requires n <= |run|
  {
    n == 0 || (LastStaysReached(h, run, n - 1) && (Removes(run[n - 1]) ==> LastIsReached(AfterRun(h, run, n))))
  }

  /** Over every run of any requests, the guarantee holds throughout if and only if no request takes away the
      last code that reaches the last number assigned. */
  lemma {:induction false} RunKeepsNeverTwiceIff(h: History, run: seq<Action>, n: nat)
    requires NeverTwice(h) && n <= |run|
    ensures AlwaysNeverTwice(h, run, n) <==> LastStaysReached(h, run, n)
  {
    if n > 0 {
      RunKeepsNeverTwiceIff(h, run, n - 1);
      if AlwaysNeverTwice(h, run, n - 1) {
        NeverTwiceNow(h, run, n - 1);
        StepKeepsNeverTwiceIff(AfterRun(h, run, n - 1), run[n - 1]);
      }
    }
  }

  lemma {:induction false} NeverTwiceNow(h: History, run: seq<Action>, n: nat)
    requires n <= |run| && AlwaysNeverTwice(h, run, n)
    ensures NeverTwice(AfterRun(h, run, n))
  {
  }

  function Creates(m: nat): seq<Action> {
    seq(m, i => Create(None))
  }

  lemma {:induction false} CreatesCount(h: History, m: nat, n: nat)
    requires n <= m
    ensures var after := AfterRun(h, Creates(m), n);
            && NextNumber(after.items) == NextNumber(h.items) + n
            && |after.given| == |h.given| + n && h.given <= after.given
            && (n > 0 ==> after.given[|after.given| - 1] == NextNumber(h.items) + n - 1)
  {
    if n > 0 {
      CreatesCount(h, m, n - 1);
      var before := AfterRun(h, Creates(m), n - 1);
      CreatedNext(before);
      assert AfterRun(h, Creates(m), n) == After(before, Create(None));
    }
  }

  /** And once it is lost, it is broken: a number that was assigned and is no longer reached is assigned again
      by creating items without a code. */
  lemma {:induction false} LostNumberComesBack(h: History, j: nat) returns (run: seq<Action>)
    requires j < |h.given| && h.given[j] >= NextNumber(h.items)
    ensures forall k :: 0 <= k < |run| ==> run[k] == Create(None)
    ensures var after := AfterRun(h, run, |run|).given;
            |h.given| < |after| && after[j] == h.given[j] && after[|after| - 1] == h.given[j]
  {
    var m := h.given[j] - NextNumber(h.items) + 1;
    run := Creates(m);
    CreatesCount(h, m, m);
  }

  /** The smallest case: a code that is edited away right after it was assigned, or whose row is deleted for
      good, is the next one to be assigned again. */
  lemma {:induction false} RemovedCodeComesBack(items: seq<Item>, other: Option<string>)
    requires Scanned(Item(other, false)).None?
    ensures var created := items + [Item(Some(NextCode(items)), false)];
            NextCode(created[|items| := Item(other, false)]) == NextCode(items) && NextCode(created[..|items|]) == NextCode(items)
  {
    var edited := items + [Item(other, false)];
    assert (items + [Item(Some(NextCode(items)), false)])[|items| := Item(other, false)] == edited;
    assert (items + [Item(Some(NextCode(items)), false)])[..|items|] == items;
    LargestAppend(items, [Item(other, false)], |items|);
  }

  // ----- letter case -----

  lemma {:induction false} LikePrefixed(code: string)
    requires Like(code, "ITM-%")
    ensures |code| >= 4 && code[..4] == "ITM-"
  {
    var literal := "ITM-";
    assert literal + "%" == "ITM-%";
    LikePrefixIff(code, literal);
    forall i | 0 <= i < 4
      ensures code[i] == literal[i]
    {
    }
  }

  lemma {:induction false} ScannedClashIsEqual(code: string, n: nat)
    requires Like(code, "ITM-%") && Upper(code) == CodeOf(n)
    ensures code == CodeOf(n)
  {
    LikePrefixed(code);
    ParseOfDecimal(n);
    ParseOfPadded(Decimal(n), 4);
    var digits := ZeroPad(Decimal(n), 4);
    forall i | 0 <= i < |code|
      ensures code[i] == CodeOf(n)[i]
    {
      assert Upper(code)[i] == UpperChar(code[i]);
      if i < 4 {
        assert code[i] == code[..4][i];
      } else {
        assert CodeOf(n)[i] == digits[i - 4] && IsDecimalDigit(digits[i - 4]);
      }
    }
  }

  /** The item has the next code, letter case aside. */
  predicate Clashes(items: seq<Item>, k: nat)
    requires k < |items|
  {
    items[k].code.Some? && Upper(items[k].code.value) == NextCode(items)
  }

  /** In the sense of the uniqueness check, which ignores letter case, the next code is new if and only if no
      code outside the scan spells it. */
  lemma {:induction false} NextCodeClashesIff(items: seq<Item>)
    ensures (exists k :: 0 <= k < |items| && Clashes(items, k))
            <==> exists k :: 0 <= k < |items| && Clashes(items, k) && !Like(items[k].code.value, "ITM-%")
  {
    forall k | 0 <= k < |items| && Clashes(items, k)
      ensures !Like(items[k].code.value, "ITM-%")
    {
      if Like(items[k].code.value, "ITM-%") {
        ScannedClashIsEqual(items[k].code.value, NextNumber(items));
        NextCodeIsNew(items, k);
      }
    }
  }

  /** Such a code can be typed in: the scan misses it in lower case. */
  lemma LowerCaseCodeIsMissed()
    ensures NextCode([Item(Some("itm-0001"), false)]) == "ITM-0001"
  {
    var items := [Item(Some("itm-0001"), false)];
    assert Scanned(items[0]).None?;
    assert Largest(items, 0) == 0;
    assert ZeroPad("1", 4) == "0001" by {
      assert "0" + "1" == "01" && "0" + "01" == "001" && "0" + "001" == "0001";
      assert ZeroPad("001", 4) == ZeroPad("0001", 4);
    }
  }
}
