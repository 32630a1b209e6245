/** What the daily usage books keep, over batches of usage lines and over days of snapshots. */
module DailyUsageTheorems {
  import opened DailyUsage
  import opened Lists
  import opened Numerals
  import opened Options

  // ----- the log table -----

  /** A search that finds nothing has nothing to find. */
  lemma {:induction false} FindMisses(logs: seq<DayLog>, item: Uuid, day: int, n: nat, k: nat)
    requires k < n <= |logs| && Find(logs, item, day, n).None?
    ensures !IsFor(logs[k], item, day)
  {
    if k < n - 1 {
      FindMisses(logs, item, day, n - 1, k);
    }
  }

  lemma {:induction false} FindAppended(logs: seq<DayLog>, more: seq<DayLog>, item: Uuid, day: int, n: nat)
    requires n <= |logs|
    ensures Find(logs + more, item, day, n) == Find(logs, item, day, n)
  {
    if n > 0 {
      FindAppended(logs, more, item, day, n - 1);
    }
  }

  lemma {:induction false} FindPast(logs: seq<DayLog>, item: Uuid, day: int, m: nat, n: nat)
    requires m <= n <= |logs| && forall k :: m <= k < n ==> !IsFor(logs[k], item, day)
    ensures Find(logs, item, day, n) == Find(logs, item, day, m)
  {
    if m < n {
      FindPast(logs, item, day, m, n - 1);
    }
  }

  /** Rows of other items or days do not hide a log. */
  lemma LogOnAppended(logs: seq<DayLog>, more: seq<DayLog>, item: Uuid, day: int)
    requires forall k :: 0 <= k < |more| ==> !IsFor(more[k], item, day)
    ensures LogOn(logs + more, item, day) == LogOn(logs, item, day)
  {
    FindAppended(logs, more, item, day, |logs|);
    FindPast(logs + more, item, day, |logs|, |logs + more|);
  }

  lemma {:induction false} FindReplaced(logs: seq<DayLog>, j: nat, row: DayLog, item: Uuid, day: int, n: nat)
    requires j < |logs| && n <= |logs| && IsFor(logs[j], row.item, row.day)
    ensures Find(logs[j := row], item, day, n) == Find(logs, item, day, n)
  {
    if n > 0 {
      FindReplaced(logs, j, row, item, day, n - 1);
    }
  }

  /** Writing a log changes the log of its item and day and no other. */
  lemma LogOnPut(logs: seq<DayLog>, row: DayLog, item: Uuid, day: int)
    ensures LogOn(Put(logs, row), item, day) == if IsFor(row, item, day) then Some(row) else LogOn(logs, item, day)
  {
    var k := Find(logs, row.item, row.day, |logs|);
    if k.Some? {
      FindReplaced(logs, k.value, row, item, day, |logs|);
    } else if !IsFor(row, item, day) {
      LogOnAppended(logs, [row], item, day);
    }
  }

  lemma PutKeeps(logs: seq<DayLog>, row: DayLog)
    ensures OnePerDay(logs) ==> OnePerDay(Put(logs, row))
    ensures AllBalanced(logs) && Balanced(row) ==> AllBalanced(Put(logs, row))
  {
    if OnePerDay(logs) {
      var after := Put(logs, row);
      forall i, j | 0 <= i < j < |after|
        ensures Apart(after, i, j)
      {
        if j < |logs| {
          assert Apart(logs, i, j);
        } else {
          FindMisses(logs, row.item, row.day, |logs|, i);
        }
      }
    }
  }

  // ----- one line -----

  function Max(a: int, b: int): int {
    if a < b then b else a
  }

  /** An accepted line leaves the larger of the stock and today's arrivals, less what was used; its
      log is balanced whatever the stock was. */
  lemma LineLeaves(b: Books, line: UsageLine, ds: seq<Delivery>, day: int)
    requires AfterLine(b, line, ds, day).Accepted?
    ensures var after, p := AfterLine(b, line, ds, day).value, Arrived(ds, line.item, day);
            var log := LogOn(after.logs, line.item, day);
            && after.stock == b.stock[line.item := Max(b.stock[line.item], p) - line.used]
            && after.stock[line.item] >= 0
            && log.Some? && Balanced(log.value)
            && log.value.purchased == p && log.value.used == line.used && log.value.closing == after.stock[line.item]
  {
    LogOnPut(b.logs, Entry(line, b.stock[line.item], Arrived(ds, line.item, day), day), line.item, day);
  }

  /** A line is accepted exactly for a known item that has at least the used quantity. */
  lemma LineAcceptedIff(b: Books, line: UsageLine, ds: seq<Delivery>, day: int)
    ensures AfterLine(b, line, ds, day).Accepted?
            <==> line.item in b.stock && line.used <= Max(b.stock[line.item], Arrived(ds, line.item, day))
    ensures AfterLine(b, line, ds, day).ItemNotFound? <==> line.item !in b.stock
  {
  }

  // ----- a whole batch -----

  /** A batch keeps every log balanced and one log per item and day. */
  lemma {:induction false} BatchKeepsLogs(b: Books, lines: seq<UsageLine>, ds: seq<Delivery>, day: int, n: nat)
    requires n <= |lines| && AfterLines(b, lines, ds, day, n).Accepted?
    requires OnePerDay(b.logs) && AllBalanced(b.logs)
    ensures OnePerDay(AfterLines(b, lines, ds, day, n).value.logs) && AllBalanced(AfterLines(b, lines, ds, day, n).value.logs)
    ensures AfterLines(b, lines, ds, day, n).value.stock.Keys == b.stock.Keys
  {
    if n > 0 {
      BatchKeepsLogs(b, lines, ds, day, n - 1);
      var before, line := AfterLines(b, lines, ds, day, n - 1).value, lines[n - 1];
      PutKeeps(before.logs, Entry(line, before.stock[line.item], Arrived(ds, line.item, day), day));
    }
  }

  predicate Mentions(lines: seq<UsageLine>, item: Uuid, n: nat)
    requires n <= |lines|
  {
    exists k :: 0 <= k < n && lines[k].item == item
  }

  /** After a batch, the log of the day of every item in it closes at the stock of the item; every
      other item and every other day is as before. */
  lemma {:induction false} BatchSettlesItsItems(b: Books, lines: seq<UsageLine>, ds: seq<Delivery>, day: int, n: nat, item: Uuid, on: int)
    requires n <= |lines| && AfterLines(b, lines, ds, day, n).Accepted?
    ensures var after := AfterLines(b, lines, ds, day, n).value;
            if Mentions(lines, item, n) && on == day then
              && item in after.stock && LogOn(after.logs, item, day).Some?
              && LogOn(after.logs, item, day).value.closing == after.stock[item]
              && Balanced(LogOn(after.logs, item, day).value)
            else
              && LogOn(after.logs, item, on) == LogOn(b.logs, item, on)
              && (!Mentions(lines, item, n) ==> (item in after.stock <==> item in b.stock) && (item in b.stock ==> after.stock[item] == b.stock[item]))
  {
    if n > 0 {
      BatchSettlesItsItems(b, lines, ds, day, n - 1, item, on);
      var before, line := AfterLines(b, lines, ds, day, n - 1).value, lines[n - 1];
      LogOnPut(before.logs, Entry(line, before.stock[line.item], Arrived(ds, line.item, day), day), item, on);
      assert Mentions(lines, item, n) <==> Mentions(lines, item, n - 1) || line.item == item by {
        if line.item == item {
          assert lines[n - 1].item == item;
        }
      }
    }
  }

  // ----- conservation -----

  /** The stock of the first n listed items. */
  ghost function TotalStock(stock: map<Uuid, int>, ids: seq<Uuid>, n: nat): int
    requires n <= |ids| && forall i :: 0 <= i < |ids| ==> ids[i] in stock
  {
    if n == 0 then 0 else TotalStock(stock, ids, n - 1) + stock[ids[n - 1]]
  }

  ghost predicate ListsAll(ids: seq<Uuid>, stock: map<Uuid, int>) {
    && Distinct(ids)
    && (forall i: Uuid :: i in ids <==> i in stock)
  }

  lemma {:induction false} TotalAfterSet(stock: map<Uuid, int>, ids: seq<Uuid>, n: nat, at: nat, qty: int)
    requires n <= |ids| && at < |ids| && ListsAll(ids, stock)
    ensures TotalStock(stock[ids[at] := qty], ids, n) == TotalStock(stock, ids, n) + (if at < n then qty - stock[ids[at]] else 0)
  {
    if n > 0 {
      TotalAfterSet(stock, ids, n - 1, at, qty);
      assert n - 1 < at ==> Differ(ids, n - 1, at);
      assert at < n - 1 ==> Differ(ids, at, n - 1);
    }
  }

  /** By how much today's arrivals exceed the stock that a line finds. */
  function Shortfall(b: Books, line: UsageLine, ds: seq<Delivery>, day: int): nat
    requires line.item in b.stock
  {
    Max(Arrived(ds, line.item, day) - b.stock[line.item], 0)
  }

  function Shortfalls(b: Books, lines: seq<UsageLine>, ds: seq<Delivery>, day: int, n: nat): nat
    requires n <= |lines| && AfterLines(b, lines, ds, day, n).Accepted?
  {
    if n == 0 then 0
    else Shortfalls(b, lines, ds, day, n - 1) + Shortfall(AfterLines(b, lines, ds, day, n - 1).value, lines[n - 1], ds, day)
  }

  lemma {:induction false} LineTotal(b: Books, line: UsageLine, ds: seq<Delivery>, day: int, ids: seq<Uuid>)
    requires AfterLine(b, line, ds, day).Accepted? && ListsAll(ids, b.stock)
    ensures ListsAll(ids, AfterLine(b, line, ds, day).value.stock)
    ensures TotalStock(AfterLine(b, line, ds, day).value.stock, ids, |ids|)
         == TotalStock(b.stock, ids, |ids|) - line.used + Shortfall(b, line, ds, day)
  {
    LineLeaves(b, line, ds, day);
    var at :| 0 <= at < |ids| && ids[at] == line.item;
    TotalAfterSet(b.stock, ids, |ids|, at, AfterLine(b, line, ds, day).value.stock[line.item]);
  }

  /** A batch lowers the total stock by the total used, except that every line that finds less stock
      than arrived today first puts the difference back. */
  lemma {:induction false} BatchTotal(b: Books, lines: seq<UsageLine>, ds: seq<Delivery>, day: int, n: nat, ids: seq<Uuid>)
    requires n <= |lines| && AfterLines(b, lines, ds, day, n).Accepted? && ListsAll(ids, b.stock)
    ensures ListsAll(ids, AfterLines(b, lines, ds, day, n).value.stock)
    ensures TotalStock(AfterLines(b, lines, ds, day, n).value.stock, ids, |ids|)
         == TotalStock(b.stock, ids, |ids|) - Used(lines, n) + Shortfalls(b, lines, ds, day, n)
  {
    if n > 0 {
      BatchTotal(b, lines, ds, day, n - 1, ids);
      LineTotal(AfterLines(b, lines, ds, day, n - 1).value, lines[n - 1], ds, day, ids);
    }
  }

  /** Every line finds in stock at least what arrived today. */
  ghost predicate AlwaysCovered(b: Books, lines: seq<UsageLine>, ds: seq<Delivery>, day: int, n: nat)
    requires n <= |lines| && AfterLines(b, lines, ds, day, n).Accepted?
  {
    n == 0
    || (AlwaysCovered(b, lines, ds, day, n - 1)
        && AfterLines(b, lines, ds, day, n - 1).value.stock[lines[n - 1].item] >= Arrived(ds, lines[n - 1].item, day))
  }

  lemma {:induction false} NoShortfallIff(b: Books, lines: seq<UsageLine>, ds: seq<Delivery>, day: int, n: nat)
    requires n <= |lines| && AfterLines(b, lines, ds, day, n).Accepted?
    ensures Shortfalls(b, lines, ds, day, n) == 0 <==> AlwaysCovered(b, lines, ds, day, n)
  {
    if n > 0 {
      NoShortfallIff(b, lines, ds, day, n - 1);
    }
  }

  /** The batch lowers the total stock by exactly the total it reports, if and only if every line,
      repeated items included, finds in stock at least what arrived today. */
  lemma {:induction false} BatchConservesStockIff(b: Books, lines: seq<UsageLine>, ds: seq<Delivery>, day: int, ids: seq<Uuid>)
    requires AfterLines(b, lines, ds, day, |lines|).Accepted? && ListsAll(ids, b.stock)
    ensures ListsAll(ids, AfterLines(b, lines, ds, day, |lines|).value.stock)
    ensures TotalStock(AfterLines(b, lines, ds, day, |lines|).value.stock, ids, |ids|) == TotalStock(b.stock, ids, |ids|) - Used(lines, |lines|)
            <==> AlwaysCovered(b, lines, ds, day, |lines|)
  {
    BatchTotal(b, lines, ds, day, |lines|, ids);
    NoShortfallIff(b, lines, ds, day, |lines|);
  }

  /** Sending a batch again, to correct it, can take the stock away twice: 10 in stock of which 5 arrived
      today, 4 used, then corrected to 3.  The log says 3 used and the stock has lost 7.  When it does is the
      subject of the module on corrections. */
  lemma CorrectionCountsTwice()
    ensures var b := Books(map[1 := 10], []);
            var ds := [Delivery(1, 7, "confirmed", true, 5)];
            var first := AfterLines(b, [UsageLine(1, 4)], ds, 7, 1);
            && first.Accepted?
            && var second := AfterLines(first.value, [UsageLine(1, 3)], ds, 7, 1);
               second == Accepted(Books(map[1 := 3], [DayLog(1, 7, 1, 5, 3, 3)]))
  {
    var item: Uuid := 1;
    var ds := [Delivery(item, 7, "confirmed", true, 5)];
    assert Arrived(ds, item, 7) == 5 by {
      assert ArrivedQty(ds, item, 7, 0) == 0;
    }
    var b, middle := Books(map[item := 10], []), Books(map[item := 6], [DayLog(item, 7, 5, 5, 4, 6)]);
    FirstLine(b, UsageLine(item, 4), ds, 7);
    assert Find(b.logs, item, 7, 0).None? && b.logs + middle.logs == middle.logs;
    assert AfterLine(b, UsageLine(item, 4), ds, 7) == Accepted(middle) by {
      assert b.stock[item := 6] == middle.stock;
    }
    FirstLine(middle, UsageLine(item, 3), ds, 7);
    assert Find(middle.logs, item, 7, 1) == Some(0);
    assert middle.stock[item := 3] == map[item := 3] && middle.logs[0 := DayLog(item, 7, 1, 5, 3, 3)] == [DayLog(item, 7, 1, 5, 3, 3)];
  }

  lemma {:induction false} FirstLine(b: Books, line: UsageLine, ds: seq<Delivery>, day: int)
    ensures AfterLines(b, [line], ds, day, 1) == AfterLine(b, line, ds, day)
  {
  }

  // ----- snapshots -----

  ghost predicate FreshRow(logs: seq<DayLog>, stock: map<Uuid, int>, ds: seq<Delivery>, day: int, row: DayLog) {
    LogOn(logs, row.item, day).None? && row == Snapshot(logs, row.item, StockOf(stock, row.item), Arrived(ds, row.item, day), day)
  }

  /** Every added row is the snapshot of a listed item that had no log for the day. */
  lemma {:induction false} NewRowsAreNew(logs: seq<DayLog>, active: seq<Uuid>, stock: map<Uuid, int>, ds: seq<Delivery>, day: int, n: nat, k: nat)
    requires n <= |active| && k < |NewRows(logs, active, stock, ds, day, n)|
    ensures Among(active, NewRows(logs, active, stock, ds, day, n)[k].item, n)
    ensures FreshRow(logs, stock, ds, day, NewRows(logs, active, stock, ds, day, n)[k])
  {
    if k < |NewRows(logs, active, stock, ds, day, n - 1)| {
      NewRowsAreNew(logs, active, stock, ds, day, n - 1, k);
    } else {
      assert active[n - 1] == NewRows(logs, active, stock, ds, day, n)[k].item;
    }
  }

  lemma {:induction false} NewRowsCover(logs: seq<DayLog>, active: seq<Uuid>, stock: map<Uuid, int>, ds: seq<Delivery>, day: int, n: nat, i: nat)
    requires i < n <= |active| && LogOn(logs, active[i], day).None?
    ensures Snapshot(logs, active[i], StockOf(stock, active[i]), Arrived(ds, active[i], day), day) in NewRows(logs, active, stock, ds, day, n)
  {
    if i < n - 1 {
      NewRowsCover(logs, active, stock, ds, day, n - 1, i);
    }
  }

  lemma {:induction false} NewRowsApart(logs: seq<DayLog>, active: seq<Uuid>, stock: map<Uuid, int>, ds: seq<Delivery>, day: int, n: nat)
    requires n <= |active| && Distinct(active)
    ensures OnePerDay(NewRows(logs, active, stock, ds, day, n))
  {
    if n > 0 {
      NewRowsApart(logs, active, stock, ds, day, n - 1);
      var item := active[n - 1];
      var rows := NewRows(logs, active, stock, ds, day, n - 1);
      var last := Snapshot(logs, item, StockOf(stock, item), Arrived(ds, item, day), day);
      forall j | 0 <= j < |rows|
        ensures !IsFor(last, rows[j].item, rows[j].day)
      {
        NewRowsAreNew(logs, active, stock, ds, day, n - 1, j);
        var i :| 0 <= i < n - 1 && active[i] == rows[j].item;
        assert Differ(active, i, n - 1);
      }
      Together(rows, [last]);
      assert NewRows(logs, active, stock, ds, day, n) == if LogOn(logs, item, day).Some? then rows else rows + [last];
    }
  }

  /** A snapshot keeps every existing log where it is, keeps one log per item and day and every log
      balanced, and leaves every item in stock with a log for the day. */
  lemma SnapshotsOpenTheDay(logs: seq<DayLog>, active: seq<Uuid>, stock: map<Uuid, int>, ds: seq<Delivery>, day: int)
    requires ListsActive(active, stock) && OnePerDay(logs)
    ensures var after := Materialized(logs, active, stock, ds, day);
            && logs <= after && OnePerDay(after) && (AllBalanced(logs) ==> AllBalanced(after))
            && forall i: Uuid :: i in active ==> LogOn(after, i, day).Some?
  {
    var rows := NewRows(logs, active, stock, ds, day, |active|);
    NewRowsApart(logs, active, stock, ds, day, |active|);
    forall k | 0 <= k < |rows|
      ensures Balanced(rows[k]) && forall j :: 0 <= j < |logs| ==> !IsFor(rows[k], logs[j].item, logs[j].day)
    {
      NewRowsAreNew(logs, active, stock, ds, day, |active|, k);
      forall j | 0 <= j < |logs|
        ensures !IsFor(logs[j], rows[k].item, day)
      {
        FindMisses(logs, rows[k].item, day, |logs|, j);
      }
    }
    Together(logs, rows);
    forall i: Uuid | i in active
      ensures LogOn(logs + rows, i, day).Some?
    {
      LoggedAfter(logs, active, stock, ds, day, i);
    }
  }

  lemma LoggedAfter(logs: seq<DayLog>, active: seq<Uuid>, stock: map<Uuid, int>, ds: seq<Delivery>, day: int, item: Uuid)
    requires item in active
    ensures LogOn(Materialized(logs, active, stock, ds, day), item, day).Some?
  {
    var rows := NewRows(logs, active, stock, ds, day, |active|);
    var all := logs + rows;
    if Find(all, item, day, |all|).None? {
      if LogOn(logs, item, day).Some? {
        FindMisses(all, item, day, |all|, Find(logs, item, day, |logs|).value);
      } else {
        var n :| 0 <= n < |active| && active[n] == item;
        NewRowsCover(logs, active, stock, ds, day, |active|, n);
        var k :| 0 <= k < |rows| && IsFor(rows[k], item, day);
        FindMisses(all, item, day, |all|, |logs| + k);
      }
    }
  }

  lemma Together(logs: seq<DayLog>, rows: seq<DayLog>)
    requires OnePerDay(logs) && OnePerDay(rows)
    requires forall j, k :: 0 <= j < |logs| && 0 <= k < |rows| ==> !IsFor(rows[k], logs[j].item, logs[j].day)
    ensures OnePerDay(logs + rows) && (AllBalanced(logs) && AllBalanced(rows) ==> AllBalanced(logs + rows))
  {
    var all := logs + rows;
    forall i, j | 0 <= i < j < |all|
      ensures Apart(all, i, j)
    {
      assert j < |logs| ==> Apart(logs, i, j);
      assert i >= |logs| ==> Apart(rows, i - |logs|, j - |logs|);
    }
  }

  lemma {:induction false} NothingNew(logs: seq<DayLog>, active: seq<Uuid>, stock: map<Uuid, int>, ds: seq<Delivery>, day: int, n: nat)
    requires n <= |active| && ListsActive(active, stock)
    requires forall i: Uuid :: i in active ==> LogOn(logs, i, day).Some?
    ensures NewRows(logs, active, stock, ds, day, n) == []
  {
    if n > 0 {
      NothingNew(logs, active, stock, ds, day, n - 1);
    }
  }

  /** A snapshot run changes nothing if and only if every item it lists has a log of the day. */
  lemma {:induction false} NothingMaterializedIff(logs: seq<DayLog>, active: seq<Uuid>, stock: map<Uuid, int>, ds: seq<Delivery>, day: int)
    requires ListsActive(active, stock)
    ensures Materialized(logs, active, stock, ds, day) == logs <==> forall i: Uuid :: i in active ==> LogOn(logs, i, day).Some?
  {
    if Materialized(logs, active, stock, ds, day) == logs {
      forall i: Uuid | i in active
        ensures LogOn(logs, i, day).Some?
      {
        LoggedAfter(logs, active, stock, ds, day, i);
      }
    }
    if forall i: Uuid :: i in active ==> LogOn(logs, i, day).Some? {
      NothingNew(logs, active, stock, ds, day, |active|);
    }
  }

  /** So materialising a day again changes nothing, even if stock and deliveries have changed since, if and only
      if each further item that has come into stock has a log of the day. */
  lemma {:induction false} MaterializeIdempotentIff(logs: seq<DayLog>, active: seq<Uuid>, stock: map<Uuid, int>, ds: seq<Delivery>,
                              active': seq<Uuid>, stock': map<Uuid, int>, ds': seq<Delivery>, day: int)
    requires OnePerDay(logs) && ListsActive(active, stock) && ListsActive(active', stock')
    ensures var once := Materialized(logs, active, stock, ds, day);
            Materialized(once, active', stock', ds', day) == once
            <==> forall i: Uuid :: i in active' && i !in active ==> LogOn(logs, i, day).Some?
  {
    var once := Materialized(logs, active, stock, ds, day);
    SnapshotsOpenTheDay(logs, active, stock, ds, day);
    NothingMaterializedIff(once, active', stock', ds', day);
    forall i: Uuid | i !in active
      ensures LogOn(once, i, day) == LogOn(logs, i, day)
    {
      UnlistedStays(logs, active, stock, ds, day, i);
    }
  }

  /** A snapshot run leaves the items that it does not list alone. */
  lemma {:induction false} UnlistedStays(logs: seq<DayLog>, active: seq<Uuid>, stock: map<Uuid, int>, ds: seq<Delivery>, day: int, item: Uuid)
    requires item !in active
    ensures LogOn(Materialized(logs, active, stock, ds, day), item, day) == LogOn(logs, item, day)
  {
    var rows := NewRows(logs, active, stock, ds, day, |active|);
    forall k | 0 <= k < |rows|
      ensures !IsFor(rows[k], item, day)
    {
      NewRowsAreNew(logs, active, stock, ds, day, |active|, k);
    }
    LogOnAppended(logs, rows, item, day);
  }

  // ----- consecutive days -----

  /** What a snapshot run sees: the items in stock, their stock and the deliveries. */
  datatype Sight = Sight(active: seq<Uuid>, stock: map<Uuid, int>, ds: seq<Delivery>)

  /** The logs before the first of consecutive days and after the snapshots of each. */
  ghost predicate AreSnapshots(run: seq<seq<DayLog>>, days: seq<Sight>, first: int) {
    |run| == |days| + 1 && forall k :: 0 <= k < |days| ==> Snapped(run, days, first, k)
  }

  ghost predicate Snapped(run: seq<seq<DayLog>>, days: seq<Sight>, first: int, k: nat)
    requires k < |days| && |run| == |days| + 1
  {
    run[k + 1] == AfterDay(run[k], days[k], first + k)
  }

  ghost function AfterDay(logs: seq<DayLog>, d: Sight, day: int): seq<DayLog> {
    Materialized(logs, d.active, d.stock, d.ds, day)
  }

  ghost function ArrivedOver(days: seq<Sight>, item: Uuid, first: int, n: nat): nat
    requires n <= |days|
  {
    if n == 0 then 0 else ArrivedOver(days, item, first, n - 1) + Arrived(days[n - 1].ds, item, first + n - 1)
  }

  /** One snapshot leaves every other day as it was. */
  lemma OtherDays(logs: seq<DayLog>, d: Sight, day: int, item: Uuid, on: int)
    requires on != day
    ensures LogOn(AfterDay(logs, d, day), item, on) == LogOn(logs, item, on)
  {
    var rows := NewRows(logs, d.active, d.stock, d.ds, day, |d.active|);
    forall k | 0 <= k < |rows|
      ensures !IsFor(rows[k], item, on)
    {
      NewRowsAreNew(logs, d.active, d.stock, d.ds, day, |d.active|, k);
    }
    LogOnAppended(logs, rows, item, on);
  }

  /** The log of a listed item that had none is its snapshot. */
  lemma SnapshotTaken(logs: seq<DayLog>, d: Sight, day: int, item: Uuid)
    requires item in d.active && LogOn(logs, item, day).None?
    ensures LogOn(AfterDay(logs, d, day), item, day) == Some(Snapshot(logs, item, StockOf(d.stock, item), Arrived(d.ds, item, day), day))
  {
    var rows := NewRows(logs, d.active, d.stock, d.ds, day, |d.active|);
    LoggedAfter(logs, d.active, d.stock, d.ds, day, item);
    var k := Find(logs + rows, item, day, |logs + rows|).value;
    if k < |logs| {
      FindMisses(logs, item, day, |logs|, k);
    } else {
      NewRowsAreNew(logs, d.active, d.stock, d.ds, day, |d.active|, k - |logs|);
    }
  }

  /** Where an item has no log of the day before either, the day opens with the stock less what arrived and
      closes with the larger of the two. */
  lemma FirstSnapshotOpens(logs: seq<DayLog>, d: Sight, day: int, item: Uuid)
    requires item in d.active && LogOn(logs, item, day).None? && LogOn(logs, item, day - 1).None?
    ensures var log, cur, p := LogOn(AfterDay(logs, d, day), item, day), StockOf(d.stock, item), Arrived(d.ds, item, day);
            log.Some? && log.value.opening == Max(cur - p, 0) && log.value.closing == Max(cur, p)
  {
    SnapshotTaken(logs, d, day, item);
  }

  /** The snapshots of the days from m to n touch the logs of those days only. */
  lemma {:induction false} OtherDaysStay(run: seq<seq<DayLog>>, days: seq<Sight>, first: int, m: nat, n: nat, item: Uuid, on: int)
    requires AreSnapshots(run, days, first) && m <= n <= |days| && !(first + m <= on < first + n)
    ensures LogOn(run[n], item, on) == LogOn(run[m], item, on)
  {
    if m < n {
      OtherDaysStay(run, days, first, m, n - 1, item, on);
      assert Snapped(run, days, first, n - 1);
      OtherDays(run[n - 1], days[n - 1], first + n - 1, item, on);
    }
  }

  /** The snapshot taken on the k-th day, from what the days before have left. */
  ghost function SnapshotOn(run: seq<seq<DayLog>>, days: seq<Sight>, item: Uuid, first: int, k: nat): DayLog
    requires k < |days| && |run| == |days| + 1
  {
    Snapshot(run[k], item, StockOf(days[k].stock, item), Arrived(days[k].ds, item, first + k), first + k)
  }

  lemma {:induction false} DayOpens(run: seq<seq<DayLog>>, days: seq<Sight>, item: Uuid, first: int, k: nat, n: nat)
    requires AreSnapshots(run, days, first) && k < n <= |days|
    requires item in days[k].active && LogOn(run[0], item, first + k).None?
    ensures LogOn(run[n], item, first + k) == Some(SnapshotOn(run, days, item, first, k))
  {
    OtherDaysStay(run, days, first, 0, k, item, first + k);
    assert Snapped(run, days, first, k);
    SnapshotTaken(run[k], days[k], first + k, item);
    OtherDaysStay(run, days, first, k + 1, n, item, first + k);
  }

  /** The log that the snapshots give an item on the k-th day. */
  ghost predicate OpenedOn(logs: seq<DayLog>, days: seq<Sight>, item: Uuid, first: int, k: nat)
    requires k < |days|
  {
    var log := LogOn(logs, item, first + k);
    && log.Some? && Balanced(log.value)
    && log.value.used == 0 && log.value.purchased == Arrived(days[k].ds, item, first + k)
  }

  ghost predicate Meet(earlier: Option<DayLog>, later: Option<DayLog>) {
    earlier.Some? && later.Some? && later.value.opening == earlier.value.closing
  }

  /** The item is listed every day and has no log of these days yet. */
  ghost predicate Unlogged(logs: seq<DayLog>, days: seq<Sight>, item: Uuid, first: int) {
    && (forall j :: 0 <= j < |days| ==> item in days[j].active)
    && (forall on :: first <= on < first + |days| ==> LogOn(logs, item, on).None?)
  }

  /** Over consecutive days of snapshots of an item that is in stock and has no log of its own yet, each
      day opens where the day before closed. */
  lemma {:induction false} DaysConnect(run: seq<seq<DayLog>>, days: seq<Sight>, item: Uuid, first: int, n: nat, k: nat)
    requires AreSnapshots(run, days, first) && Unlogged(run[0], days, item, first) && k < n <= |days|
    ensures OpenedOn(run[n], days, item, first, k)
    ensures k > 0 ==> Meet(LogOn(run[n], item, first + k - 1), LogOn(run[n], item, first + k))
  {
    DayOpens(run, days, item, first, k, n);
    SnapshotBalanced(run, days, item, first, k);
    if k > 0 {
      DayOpens(run, days, item, first, k - 1, n);
      SnapshotFollows(run, days, item, first, k);
    }
  }

  lemma {:induction false} SnapshotFollows(run: seq<seq<DayLog>>, days: seq<Sight>, item: Uuid, first: int, k: nat)
    requires AreSnapshots(run, days, first) && 0 < k < |days|
    requires item in days[k - 1].active && LogOn(run[0], item, first + k - 1).None?
    ensures SnapshotOn(run, days, item, first, k).opening == SnapshotOn(run, days, item, first, k - 1).closing
  {
    DayOpens(run, days, item, first, k - 1, k);
    SnapshotBalanced(run, days, item, first, k - 1);
  }

  lemma {:induction false} SnapshotBalanced(run: seq<seq<DayLog>>, days: seq<Sight>, item: Uuid, first: int, k: nat)
    requires k < |days| && |run| == |days| + 1
    ensures Balanced(SnapshotOn(run, days, item, first, k))
  {
  }

  /** The last closing is the first opening plus everything that arrived in between. */
  lemma {:induction false} DaysAddUp(run: seq<seq<DayLog>>, days: seq<Sight>, item: Uuid, first: int, n: nat)
    requires AreSnapshots(run, days, first) && Unlogged(run[0], days, item, first) && 0 < n <= |days|
    ensures LogOn(run[n], item, first).Some? && LogOn(run[n], item, first + n - 1).Some?
    ensures LogOn(run[n], item, first + n - 1).value.closing
            == LogOn(run[n], item, first).value.opening + ArrivedOver(days, item, first, n)
  {
    DaysConnect(run, days, item, first, n, n - 1);
    if n > 1 {
      DaysAddUp(run, days, item, first, n - 1);
      OtherDaysStay(run, days, first, n - 1, n, item, first);
      OtherDaysStay(run, days, first, n - 1, n, item, first + n - 2);
    } else {
      assert ArrivedOver(days, item, first, 0) == 0;
    }
  }
}
