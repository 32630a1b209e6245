/** What counts as arrived on a day, and what the summary of a batch calls missing. */
module DailyUsageLaws {
  import opened DailyUsage
  import opened Lists
  import opened Numerals
  import opened Options

  /** Goods of the item from a purchase of the day that was delivered and is neither cancelled nor deleted. */
  ghost predicate IsDelivered(d: Delivery, item: Uuid, day: int) {
    d.delivered && d.item == item && d.day == day && d.status !in {"cancelled", "deleted"}
  }

  lemma {:induction false} ArrivedUpTo(ds: seq<Delivery>, k: nat, d: Delivery, item: Uuid, day: int, n: nat)
    requires k < |ds| && n <= |ds|
    ensures ArrivedQty(ds[k := d], item, day, n)
            == ArrivedQty(ds, item, day, n)
               + if n <= k then 0
                 else (if IsDelivered(d, item, day) then d.qty else 0) - (if IsDelivered(ds[k], item, day) then ds[k].qty else 0)
  {
    if n > 0 {
      ArrivedUpTo(ds, k, d, item, day, n - 1);
    }
  }

  /** Whatever becomes of one delivery, the arrivals of an item change by what it counts for afterwards less what
      it counted for before: its quantity if it is delivered, else nothing. */
  lemma {:induction false} ArrivedChanges(ds: seq<Delivery>, k: nat, d: Delivery, item: Uuid, day: int)
    requires k < |ds|
    ensures Arrived(ds[k := d], item, day)
            == Arrived(ds, item, day)
               + (if IsDelivered(d, item, day) then d.qty else 0) - (if IsDelivered(ds[k], item, day) then ds[k].qty else 0)
  {
    ArrivedUpTo(ds, k, d, item, day, |ds|);
  }

  /** In particular cancelling a delivered purchase takes its goods back out of the arrivals. */
  lemma {:induction false} CancellingTakesBack(ds: seq<Delivery>, k: nat)
    requires k < |ds| && IsDelivered(ds[k], ds[k].item, ds[k].day)
    ensures var item, day := ds[k].item, ds[k].day;
            Arrived(ds[k := ds[k].(status := "cancelled")], item, day) == Arrived(ds, item, day) - ds[k].qty
  {
    ArrivedChanges(ds, k, ds[k].(status := "cancelled"), ds[k].item, ds[k].day);
  }

  /** Nothing arrives without a delivery that counts. */
  lemma {:induction false} NothingArrives(ds: seq<Delivery>, item: Uuid, day: int, n: nat)
    requires n <= |ds| && forall k :: 0 <= k < n ==> !IsDelivered(ds[k], item, day)
    ensures ArrivedQty(ds, item, day, n) == 0
  {
    if n > 0 {
      NothingArrives(ds, item, day, n - 1);
    }
  }

  ghost function Named(lines: seq<UsageLine>, n: nat): set<Uuid>
    requires n <= |lines|
  {
    if n == 0 then {} else Named(lines, n - 1) + {lines[n - 1].item}
  }

  lemma {:induction false} NamedMembers(lines: seq<UsageLine>, n: nat, item: Uuid)
    requires n <= |lines|
    ensures item in Named(lines, n) <==> exists k :: 0 <= k < n && lines[k].item == item
  {
    if n > 0 {
      NamedMembers(lines, n - 1, item);
    }
  }

  lemma {:induction false} NamedCount(lines: seq<UsageLine>, n: nat)
    requires n <= |lines| && forall i, j :: 0 <= i < j < |lines| ==> lines[i].item != lines[j].item
    ensures |Named(lines, n)| == n
  {
    if n > 0 {
      NamedCount(lines, n - 1);
      NamedMembers(lines, n - 1, lines[n - 1].item);
    }
  }

  /** The items in stock that no line names. */
  ghost function Unnamed(stock: map<Uuid, int>, lines: seq<UsageLine>): set<Uuid> {
    set i | i in stock && stock[i] > 0 && (forall k :: 0 <= k < |lines| ==> lines[k].item != i)
  }

  /** When the lines name different items that are still in stock, the summary's missing items are those. */
  lemma {:induction false} MissingAreUnnamed(stock: map<Uuid, int>, lines: seq<UsageLine>)
    requires forall i, j :: 0 <= i < j < |lines| ==> lines[i].item != lines[j].item
    requires forall k :: 0 <= k < |lines| ==> lines[k].item in stock && stock[lines[k].item] > 0
    ensures SummaryOf(stock, lines).missing == |Unnamed(stock, lines)|
    ensures SummaryOf(stock, lines).logged == |lines|
  {
    var named, inStock := Named(lines, |lines|), InStock(stock);
    NamedCount(lines, |lines|);
    forall i: Uuid
      ensures i in named <==> exists k :: 0 <= k < |lines| && lines[k].item == i
    {
      NamedMembers(lines, |lines|, i);
    }
    assert named <= inStock && inStock - named == Unnamed(stock, lines);
    assert |inStock - named| == |inStock| - |named| by {
      assert inStock == named + (inStock - named) && named * (inStock - named) == {};
    }
  }

  /** A usage line adds its quantity to the total used, wherever it stands. */
  lemma {:induction false} UsedAdds(lines: seq<UsageLine>, line: UsageLine)
    ensures Used(lines + [line], |lines| + 1) == Used(lines, |lines|) + line.used && Used([], 0) == 0
  {
    UsedPrefix(lines, line, |lines|);
  }

  lemma {:induction false} UsedPrefix(lines: seq<UsageLine>, line: UsageLine, n: nat)
    requires n <= |lines|
    ensures Used(lines + [line], n) == Used(lines, n)
  {
    if n > 0 {
      UsedPrefix(lines, line, n - 1);
    }
  }
}
