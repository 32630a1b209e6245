/** What sending a usage batch again does to the stock: when a later batch of the same day replaces an
    earlier one, and when both are taken away. */
module DailyUsageCorrections {
  import opened DailyUsage
  import opened DailyUsageTheorems
  import opened Lists
  import opened Numerals
  import opened Options

  // ----- the stock of one item over a batch -----

  /** The stock of an item after the first n lines, from its stock before and what arrived today. */
  function ItemStock(stock: int, arrived: nat, lines: seq<UsageLine>, item: Uuid, n: nat): int
    requires n <= |lines|
  {
    if n == 0 then stock
    else
      var before := ItemStock(stock, arrived, lines, item, n - 1);
      if lines[n - 1].item == item then Max(before, arrived) - lines[n - 1].used else before
  }

  function UsedOf(lines: seq<UsageLine>, item: Uuid, n: nat): nat
    requires n <= |lines|
  {
    if n == 0 then 0 else UsedOf(lines, item, n - 1) + (if lines[n - 1].item == item then lines[n - 1].used else 0)
  }

  lemma {:induction false} BatchStock(b: Books, lines: seq<UsageLine>, ds: seq<Delivery>, day: int, n: nat, item: Uuid)
    requires n <= |lines| && AfterLines(b, lines, ds, day, n).Accepted? && item in b.stock
    ensures item in AfterLines(b, lines, ds, day, n).value.stock
    ensures AfterLines(b, lines, ds, day, n).value.stock[item] == ItemStock(b.stock[item], Arrived(ds, item, day), lines, item, n)
  {
    if n > 0 {
      BatchStock(b, lines, ds, day, n - 1, item);
      LineLeaves(AfterLines(b, lines, ds, day, n - 1).value, lines[n - 1], ds, day);
    }
  }

  /** The k-th line of a batch names a known item that still has the used quantity. */
  predicate LineFits(b: Books, lines: seq<UsageLine>, ds: seq<Delivery>, day: int, k: nat)
    requires k < |lines|
  {
    var item := lines[k].item;
    item in b.stock && lines[k].used <= Max(ItemStock(b.stock[item], Arrived(ds, item, day), lines, item, k), Arrived(ds, item, day))
  }

  predicate AllFit(b: Books, lines: seq<UsageLine>, ds: seq<Delivery>, day: int, n: nat)
    requires n <= |lines|
  {
    n == 0 || (AllFit(b, lines, ds, day, n - 1) && LineFits(b, lines, ds, day, n - 1))
  }

  /** A batch is accepted exactly when every line fits. */
  lemma {:induction false} BatchAcceptedIff(b: Books, lines: seq<UsageLine>, ds: seq<Delivery>, day: int, n: nat)
    requires n <= |lines|
    ensures AfterLines(b, lines, ds, day, n).Accepted? <==> AllFit(b, lines, ds, day, n)
    ensures AfterLines(b, lines, ds, day, n).Accepted? ==> AfterLines(b, lines, ds, day, n).value.stock.Keys == b.stock.Keys
  {
    if n > 0 {
      BatchAcceptedIff(b, lines, ds, day, n - 1);
      var before := AfterLines(b, lines, ds, day, n - 1);
      if before.Accepted? {
        LineAcceptedIff(before.value, lines[n - 1], ds, day);
        if lines[n - 1].item in b.stock {
          BatchStock(b, lines, ds, day, n - 1, lines[n - 1].item);
        }
      }
    }
  }

  // ----- one item over an earlier and a later batch -----

  /** An earlier batch leaves an item as much available as before if and only if it used none of it, or no
      more was in stock than arrived today. */
  lemma {:induction false} EarlierLeaves(stock: int, arrived: nat, lines: seq<UsageLine>, item: Uuid, n: nat)
    requires n <= |lines|
    ensures var after := ItemStock(stock, arrived, lines, item, n);
            && Max(after, arrived) <= Max(stock, arrived)
            && (Max(after, arrived) == Max(stock, arrived) <==> UsedOf(lines, item, n) == 0 || stock <= arrived)
            && (stock > arrived ==> after <= stock && (after == stock <==> UsedOf(lines, item, n) == 0))
  {
    if n > 0 {
      EarlierLeaves(stock, arrived, lines, item, n - 1);
    }
  }

  /** Some line of the item among the first n finds no more in stock than arrived today. */
  predicate FindsFew(stock: int, arrived: nat, lines: seq<UsageLine>, item: Uuid, n: nat)
    requires n <= |lines|
  {
    n > 0
    && (FindsFew(stock, arrived, lines, item, n - 1)
        || (lines[n - 1].item == item && ItemStock(stock, arrived, lines, item, n - 1) <= arrived))
  }

  /** Two runs of the same lines, one of them with less available: it never has more, and they come together
      exactly when a line of the other run finds no more than the arrivals. */
  lemma {:induction false} RunsMeetIff(more: int, less: int, arrived: nat, lines: seq<UsageLine>, item: Uuid, n: nat)
    requires n <= |lines| && Max(less, arrived) < Max(more, arrived)
    ensures var a, b := ItemStock(more, arrived, lines, item, n), ItemStock(less, arrived, lines, item, n);
            && Max(b, arrived) <= Max(a, arrived)
            && (FindsFew(more, arrived, lines, item, n) ==> a == b)
            && (!FindsFew(more, arrived, lines, item, n) ==> if Mentions(lines, item, n) then b < a else a == more && b == less)
  {
    if n > 0 {
      RunsMeetIff(more, less, arrived, lines, item, n - 1);
      MentionsStep(lines, item, n);
    }
  }

  lemma MentionsStep(lines: seq<UsageLine>, item: Uuid, n: nat)
    requires 0 < n <= |lines|
    ensures Mentions(lines, item, n) <==> Mentions(lines, item, n - 1) || lines[n - 1].item == item
  {
    if lines[n - 1].item == item {
      assert Mentions(lines, item, n);
    }
  }

  lemma {:induction false} RunsAgree(a: int, b: int, arrived: nat, lines: seq<UsageLine>, item: Uuid, n: nat)
    requires n <= |lines| && Max(a, arrived) == Max(b, arrived)
    ensures var a', b' := ItemStock(a, arrived, lines, item, n), ItemStock(b, arrived, lines, item, n);
            Max(a', arrived) == Max(b', arrived) && (Mentions(lines, item, n) ==> a' == b')
  {
    if n > 0 {
      RunsAgree(a, b, arrived, lines, item, n - 1);
      MentionsStep(lines, item, n);
    }
  }

  lemma {:induction false} FewFromTheStart(stock: int, arrived: nat, lines: seq<UsageLine>, item: Uuid, n: nat)
    requires n <= |lines| && stock <= arrived
    ensures FindsFew(stock, arrived, lines, item, n) <==> Mentions(lines, item, n)
    ensures ItemStock(stock, arrived, lines, item, n) <= arrived
  {
    if n > 0 {
      FewFromTheStart(stock, arrived, lines, item, n - 1);
      MentionsStep(lines, item, n);
    }
  }

  lemma {:induction false} ItemReplacedIff(stock: int, arrived: nat, first: seq<UsageLine>, second: seq<UsageLine>, item: Uuid)
    requires Mentions(second, item, |second|)
    ensures ItemStock(ItemStock(stock, arrived, first, item, |first|), arrived, second, item, |second|)
            == ItemStock(stock, arrived, second, item, |second|)
            <==> UsedOf(first, item, |first|) == 0 || FindsFew(stock, arrived, second, item, |second|)
  {
    var middle := ItemStock(stock, arrived, first, item, |first|);
    EarlierLeaves(stock, arrived, first, item, |first|);
    if stock <= arrived {
      FewFromTheStart(stock, arrived, second, item, |second|);
    }
    if Max(middle, arrived) == Max(stock, arrived) {
      RunsAgree(middle, stock, arrived, second, item, |second|);
    } else {
      RunsMeetIff(stock, middle, arrived, second, item, |second|);
    }
  }

  // ----- a batch and its correction -----

  lemma {:induction false} LessAvailable(b: Books, c: Books, lines: seq<UsageLine>, ds: seq<Delivery>, day: int, n: nat)
    requires n <= |lines| && AllFit(c, lines, ds, day, n) && c.stock.Keys == b.stock.Keys
    requires forall i :: i in b.stock ==> Max(c.stock[i], Arrived(ds, i, day)) <= Max(b.stock[i], Arrived(ds, i, day))
    ensures AllFit(b, lines, ds, day, n)
  {
    if n > 0 {
      LessAvailable(b, c, lines, ds, day, n - 1);
      var item := lines[n - 1].item;
      var arrived := Arrived(ds, item, day);
      if Max(c.stock[item], arrived) == Max(b.stock[item], arrived) {
        RunsAgree(c.stock[item], b.stock[item], arrived, lines, item, n - 1);
      } else {
        RunsMeetIff(b.stock[item], c.stock[item], arrived, lines, item, n - 1);
      }
    }
  }

  /** A correction that is accepted after the batch would have been accepted in its place. */
  lemma {:induction false} CorrectionAloneAccepted(b: Books, first: seq<UsageLine>, second: seq<UsageLine>, ds: seq<Delivery>, day: int)
    requires AfterLines(b, first, ds, day, |first|).Accepted?
    requires AfterLines(AfterLines(b, first, ds, day, |first|).value, second, ds, day, |second|).Accepted?
    ensures AfterLines(b, second, ds, day, |second|).Accepted?
  {
    var middle := AfterLines(b, first, ds, day, |first|).value;
    BatchAcceptedIff(b, first, ds, day, |first|);
    BatchAcceptedIff(middle, second, ds, day, |second|);
    BatchAcceptedIff(b, second, ds, day, |second|);
    forall i | i in b.stock
      ensures Max(middle.stock[i], Arrived(ds, i, day)) <= Max(b.stock[i], Arrived(ds, i, day))
    {
      BatchStock(b, first, ds, day, |first|, i);
      EarlierLeaves(b.stock[i], Arrived(ds, i, day), first, i, |first|);
    }
    LessAvailable(b, middle, second, ds, day, |second|);
  }

  /** A second batch of the day leaves an item that it names at the stock that it would have left without the
      first batch, if and only if the first used none of the item, or the second, taken alone, has a line of
      the item that finds no more in stock than arrived today. */
  lemma {:induction false} CorrectionReplacesIff(b: Books, first: seq<UsageLine>, second: seq<UsageLine>, ds: seq<Delivery>, day: int, item: Uuid)
    requires AfterLines(b, first, ds, day, |first|).Accepted?
    requires AfterLines(AfterLines(b, first, ds, day, |first|).value, second, ds, day, |second|).Accepted?
    requires Mentions(second, item, |second|)
    ensures AfterLines(b, second, ds, day, |second|).Accepted? && item in b.stock
    ensures var both := AfterLines(AfterLines(b, first, ds, day, |first|).value, second, ds, day, |second|).value;
            var alone := AfterLines(b, second, ds, day, |second|).value;
            && item in both.stock && item in alone.stock
            && (both.stock[item] == alone.stock[item]
                <==> UsedOf(first, item, |first|) == 0 || FindsFew(b.stock[item], Arrived(ds, item, day), second, item, |second|))
  {
    CorrectionAloneAccepted(b, first, second, ds, day);
    BatchAcceptedIff(b, second, ds, day, |second|);
    MentionedIsKnown(b, second, ds, day, |second|, item);
    BatchStock(b, first, ds, day, |first|, item);
    BatchStock(AfterLines(b, first, ds, day, |first|).value, second, ds, day, |second|, item);
    BatchStock(b, second, ds, day, |second|, item);
    ItemReplacedIff(b.stock[item], Arrived(ds, item, day), first, second, item);
  }

  lemma {:induction false} MentionedIsKnown(b: Books, lines: seq<UsageLine>, ds: seq<Delivery>, day: int, n: nat, item: Uuid)
    requires n <= |lines| && AllFit(b, lines, ds, day, n) && Mentions(lines, item, n)
    ensures item in b.stock
  {
    MentionsStep(lines, item, n);
    if lines[n - 1].item != item {
      MentionedIsKnown(b, lines, ds, day, n - 1, item);
    }
  }

  /** For a line and its correction: the correction replaces the line if and only if the line used nothing or
      no more was in stock than arrived today. */
  lemma CorrectedLineIff(b: Books, line: UsageLine, again: UsageLine, ds: seq<Delivery>, day: int)
    requires AfterLine(b, line, ds, day).Accepted? && again.item == line.item
    requires AfterLine(AfterLine(b, line, ds, day).value, again, ds, day).Accepted?
    ensures AfterLine(b, again, ds, day).Accepted?
    ensures var item, both := line.item, AfterLine(AfterLine(b, line, ds, day).value, again, ds, day).value;
            && both.stock[item] == AfterLine(b, again, ds, day).value.stock[item] <==> line.used == 0 || b.stock[item] <= Arrived(ds, item, day)
  {
    LineLeaves(b, line, ds, day);
    LineLeaves(AfterLine(b, line, ds, day).value, again, ds, day);
    LineAcceptedIff(b, again, ds, day);
    LineLeaves(b, again, ds, day);
  }

  // ----- when both are taken away -----

  lemma {:induction false} SequelIsOneBatch(b: Books, first: seq<UsageLine>, second: seq<UsageLine>, ds: seq<Delivery>, day: int, n: nat)
    requires n <= |second| && AfterLines(b, first, ds, day, |first|).Accepted?
    ensures AfterLines(b, first + second, ds, day, |first| + n) == AfterLines(AfterLines(b, first, ds, day, |first|).value, second, ds, day, n)
  {
    if n == 0 {
      BatchPrefix(b, first, second, ds, day, |first|);
    } else {
      SequelIsOneBatch(b, first, second, ds, day, n - 1);
      var all, m := first + second, |first| + n;
      assert all[m - 1] == second[n - 1];
      assert AfterLines(b, all, ds, day, m) == AfterLines(b, all, ds, day, |first| + n);
    }
  }

  lemma {:induction false} BatchPrefix(b: Books, first: seq<UsageLine>, second: seq<UsageLine>, ds: seq<Delivery>, day: int, n: nat)
    requires n <= |first|
    ensures AfterLines(b, first + second, ds, day, n) == AfterLines(b, first, ds, day, n)
  {
    if n > 0 {
      BatchPrefix(b, first, second, ds, day, n - 1);
    }
  }

  /** Every line of the item but the first finds in stock at least what arrived today. */
  predicate CoveredAfterFirst(stock: int, arrived: nat, lines: seq<UsageLine>, item: Uuid, n: nat)
    requires n <= |lines|
  {
    n == 0
    || (CoveredAfterFirst(stock, arrived, lines, item, n - 1)
        && (lines[n - 1].item == item && Mentions(lines, item, n - 1) ==> ItemStock(stock, arrived, lines, item, n - 1) >= arrived))
  }

  lemma {:induction false} EverythingTakenIff(stock: int, arrived: nat, lines: seq<UsageLine>, item: Uuid, n: nat)
    requires n <= |lines|
    ensures var after := ItemStock(stock, arrived, lines, item, n);
            if Mentions(lines, item, n) then
              && after >= Max(stock, arrived) - UsedOf(lines, item, n)
              && (after == Max(stock, arrived) - UsedOf(lines, item, n) <==> CoveredAfterFirst(stock, arrived, lines, item, n))
            else
              after == stock && UsedOf(lines, item, n) == 0 && CoveredAfterFirst(stock, arrived, lines, item, n)
  {
    if n > 0 {
      EverythingTakenIff(stock, arrived, lines, item, n - 1);
      MentionsStep(lines, item, n);
    }
  }

  /** Two batches of the day take away everything that either used of an item, if and only if every line of
      the item after its first finds in stock at least what arrived today. */
  lemma {:induction false} BothAreTakenIff(b: Books, first: seq<UsageLine>, second: seq<UsageLine>, ds: seq<Delivery>, day: int, item: Uuid)
    requires AfterLines(b, first, ds, day, |first|).Accepted? && item in b.stock
    requires AfterLines(AfterLines(b, first, ds, day, |first|).value, second, ds, day, |second|).Accepted?
    requires Mentions(first + second, item, |first + second|)
    ensures var both := AfterLines(AfterLines(b, first, ds, day, |first|).value, second, ds, day, |second|).value;
            var lines, arrived := first + second, Arrived(ds, item, day);
            && item in both.stock
            && (both.stock[item] == Max(b.stock[item], arrived) - UsedOf(lines, item, |lines|)
                <==> CoveredAfterFirst(b.stock[item], arrived, lines, item, |lines|))
  {
    SequelIsOneBatch(b, first, second, ds, day, |second|);
    BatchStock(b, first + second, ds, day, |first + second|, item);
    EverythingTakenIff(b.stock[item], Arrived(ds, item, day), first + second, item, |first + second|);
  }

  /** For a line and its correction: both are taken away if and only if the first leaves at least what arrived. */
  lemma BothLinesAreTakenIff(b: Books, line: UsageLine, again: UsageLine, ds: seq<Delivery>, day: int)
    requires AfterLine(b, line, ds, day).Accepted? && again.item == line.item
    requires AfterLine(AfterLine(b, line, ds, day).value, again, ds, day).Accepted?
    ensures var item, both := line.item, AfterLine(AfterLine(b, line, ds, day).value, again, ds, day).value;
            var available := Max(b.stock[item], Arrived(ds, item, day));
            both.stock[item] == available - line.used - again.used <==> available - line.used >= Arrived(ds, item, day)
  {
    LineLeaves(b, line, ds, day);
    LineLeaves(AfterLine(b, line, ds, day).value, again, ds, day);
  }
}
