/** A usage batch posted through the stock ledger: every line that changes the stock posts one
    absolute movement, and the ledger ends at the stock that the books show. */
module UsageMovements {
  import opened Numerals
  import opened Options
  import opened StockBackfill
  import opened Texts
  import M = StockMovements
  import U = DailyUsage

  /** The books of a business show exactly its live items, at their stock. */
  ghost predicate Shows(t: M.Tables, business: Uuid, stock: map<Uuid, int>) {
    && (forall i: Uuid :: i in stock <==> M.IsLive(t.items, business, i))
    && (forall i: Uuid :: i in stock ==> t.items[i].stock == stock[i])
  }

  function UsageRequest(business: Uuid, item: Uuid, closing: int): M.Request {
    M.Request(business, item, "usage", true, closing, Some("Daily usage log"), "", None, false, 0, true)
  }

  /** The tables after one line that closes at `closing`: no movement when the stock is already there. */
  function Posted(t: M.Tables, business: Uuid, item: Uuid, closing: int, s: M.Supply): M.Tables
    requires item in t.items
  {
    if closing != t.items[item].stock then M.After(t, UsageRequest(business, item, closing), s) else t
  }

  /** The ledger accepts the movement of a line, and it sets the stock of the item and no other. */
  lemma LinePosts(t: M.Tables, business: Uuid, stock: map<Uuid, int>, item: Uuid, closing: int, s: M.Supply)
    requires Shows(t, business, stock) && item in stock && closing >= 0
    ensures closing != stock[item] ==>
              var answer := M.Answer(t, UsageRequest(business, item, closing), s);
              && answer.Applied? && answer.movement.item == item && answer.movement.data.kind == "usage"
              && answer.movement.before == stock[item] && answer.movement.after == closing
    ensures Shows(Posted(t, business, item, closing, s), business, stock[item := closing])
  {
    assert M.IsLive(t.items, business, item);
  }

  ghost predicate IsUsageRow(l: LogRow, item: Uuid, before: int, after: int) {
    && l.item == item && l.adjustmentType == "usage" && l.oldQty == before && l.newQty == after
    && l.reason == Some("Daily usage log")
  }

  lemma UsageTexts()
    ensures Strip("usage") == "usage" && Lower("usage") == "usage" && Strip("Daily usage log") == "Daily usage log"
  {
    var kind := "usage";
    forall i | 0 <= i < |kind|
      ensures Lower(kind)[i] == kind[i]
    {
    }
  }

  /** And it files the change in the adjustment log, as usage. */
  lemma LineIsFiled(t: M.Tables, business: Uuid, stock: map<Uuid, int>, item: Uuid, closing: int, s: M.Supply)
    requires Shows(t, business, stock) && item in stock && closing >= 0 && closing != stock[item]
    ensures item in t.items
    ensures var log := Posted(t, business, item, closing, s).log;
            |log| == |t.log| + 1 && t.log <= log && IsUsageRow(log[|t.log|], item, stock[item], closing)
  {
    assert M.IsLive(t.items, business, item);
    LinePosts(t, business, stock, item, closing, s);
    UsageTexts();
  }

  /** The tables after the first n lines of an accepted batch. */
  ghost function PostedLines(t: M.Tables, business: Uuid, b: U.Books, lines: seq<U.UsageLine>, ds: seq<U.Delivery>, day: int,
                             supplies: seq<M.Supply>, n: nat): M.Tables
    requires n <= |lines| && n <= |supplies| && U.AfterLines(b, lines, ds, day, n).Accepted?
  {
    if n == 0 then t
    else
      var before, item := PostedLines(t, business, b, lines, ds, day, supplies, n - 1), lines[n - 1].item;
      if item in before.items
      then Posted(before, business, item, U.AfterLines(b, lines, ds, day, n).value.stock[item], supplies[n - 1])
      else before
  }

  ghost predicate LinesSupplied(t: M.Tables, business: Uuid, b: U.Books, lines: seq<U.UsageLine>, ds: seq<U.Delivery>, day: int,
                                supplies: seq<M.Supply>, n: nat)
    requires n <= |lines| && n <= |supplies| && U.AfterLines(b, lines, ds, day, n).Accepted?
  {
    n == 0
    || (LinesSupplied(t, business, b, lines, ds, day, supplies, n - 1)
        && M.SupplyOk(PostedLines(t, business, b, lines, ds, day, supplies, n - 1), lines[n - 1].item, supplies[n - 1]))
  }

  /** After a batch the ledger shows the same stock as the books. */
  lemma {:induction false} BatchPosts(t: M.Tables, business: Uuid, b: U.Books, lines: seq<U.UsageLine>, ds: seq<U.Delivery>, day: int,
                                      supplies: seq<M.Supply>, n: nat)
    requires n <= |lines| && n <= |supplies| && U.AfterLines(b, lines, ds, day, n).Accepted?
    requires Shows(t, business, b.stock)
    ensures Shows(PostedLines(t, business, b, lines, ds, day, supplies, n), business, U.AfterLines(b, lines, ds, day, n).value.stock)
  {
    if n > 0 {
      BatchPosts(t, business, b, lines, ds, day, supplies, n - 1);
      var before, books := PostedLines(t, business, b, lines, ds, day, supplies, n - 1), U.AfterLines(b, lines, ds, day, n - 1).value;
      var after, item := U.AfterLines(b, lines, ds, day, n).value, lines[n - 1].item;
      assert U.AfterLine(books, lines[n - 1], ds, day) == U.Accepted(after);
      LineStep(before, business, books, lines[n - 1], ds, day, supplies[n - 1]);
      assert PostedLines(t, business, b, lines, ds, day, supplies, n) == Posted(before, business, item, after.stock[item], supplies[n - 1]);
    }
  }

  lemma LineStep(t: M.Tables, business: Uuid, b: U.Books, line: U.UsageLine, ds: seq<U.Delivery>, day: int, s: M.Supply)
    requires Shows(t, business, b.stock) && U.AfterLine(b, line, ds, day).Accepted?
    ensures line.item in t.items
    ensures var after := U.AfterLine(b, line, ds, day).value;
            line.item in after.stock && Shows(Posted(t, business, line.item, after.stock[line.item], s), business, after.stock)
  {
    assert M.IsLive(t.items, business, line.item);
    LinePosts(t, business, b.stock, line.item, U.AfterLine(b, line, ds, day).value.stock[line.item], s);
  }

  lemma PostedKeepsTracking(t: M.Tables, start: map<Uuid, int>, business: Uuid, item: Uuid, closing: int, s: M.Supply)
    requires M.Tracks(t, start) && item in t.items && M.SupplyOk(t, item, s)
    ensures M.Tracks(Posted(t, business, item, closing, s), start)
  {
    M.RequestKeepsTracking(t, start, UsageRequest(business, item, closing), s);
  }

  /** And the ledger still explains that stock movement by movement. */
  lemma {:induction false} BatchKeepsTracking(t: M.Tables, start: map<Uuid, int>, business: Uuid, b: U.Books, lines: seq<U.UsageLine>,
                                              ds: seq<U.Delivery>, day: int, supplies: seq<M.Supply>, n: nat)
    requires n <= |lines| && n <= |supplies| && U.AfterLines(b, lines, ds, day, n).Accepted?
    requires M.Tracks(t, start) && LinesSupplied(t, business, b, lines, ds, day, supplies, n)
    ensures M.Tracks(PostedLines(t, business, b, lines, ds, day, supplies, n), start)
  {
    if n > 0 {
      BatchKeepsTracking(t, start, business, b, lines, ds, day, supplies, n - 1);
      var before, item := PostedLines(t, business, b, lines, ds, day, supplies, n - 1), lines[n - 1].item;
      if item in before.items {
        PostedKeepsTracking(before, start, business, item, U.AfterLines(b, lines, ds, day, n).value.stock[item], supplies[n - 1]);
      }
    }
  }
}
