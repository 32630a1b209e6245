/** Daily usage logs: a batch of usage lines closes the day of each item, and a snapshot opens a day
    for every item in stock.  Quantities are in thousandths; the tables are those of one business. */
module DailyUsage {
  import opened Lists
  import opened Numerals
  import opened Options

  /** A row of daily_usage_logs. */
  datatype DayLog = DayLog(item: Uuid, day: int, opening: int, purchased: int, used: int, closing: int)

  datatype UsageLine = UsageLine(item: Uuid, used: nat)

  /** A purchase line with its purchase, in the stock unit of the item. */
  datatype Delivery = Delivery(item: Uuid, day: int, status: string, delivered: bool, qty: nat)

  /** The stock of the items that are not deleted, and the logs. */
  datatype Books = Books(stock: map<Uuid, int>, logs: seq<DayLog>)

  datatype Reply<T> = Accepted(value: T) | ItemNotFound | ExceedsAvailable

  // ----- goods that arrived on a day -----

  predicate ArrivedOn(d: Delivery, item: Uuid, day: int) {
    d.item == item && d.day == day && d.status != "cancelled" && d.status != "deleted" && d.delivered
  }

  function ArrivedQty(ds: seq<Delivery>, item: Uuid, day: int, n: nat): nat
    requires n <= |ds|
  {
    if n == 0 then 0 else ArrivedQty(ds, item, day, n - 1) + (if ArrivedOn(ds[n - 1], item, day) then ds[n - 1].qty else 0)
  }

  function Arrived(ds: seq<Delivery>, item: Uuid, day: int): nat {
    ArrivedQty(ds, item, day, |ds|)
  }

  function Get(totals: map<Uuid, nat>, item: Uuid): nat {
    if item in totals then totals[item] else 0
  }

  /** The totals by item, over the deliveries of the wanted items. */
  method PurchasedToday(ds: seq<Delivery>, wanted: set<Uuid>, day: int) returns (totals: map<Uuid, nat>)
    ensures totals.Keys <= wanted
    ensures forall i: Uuid :: i in wanted ==> Get(totals, i) == Arrived(ds, i, day)
  {
    totals := map[];
    for k := 0 to |ds|
      invariant totals.Keys <= wanted
      invariant forall i: Uuid :: i in wanted ==> Get(totals, i) == ArrivedQty(ds, i, day, k)
    {
      var d := ds[k];
      if d.item in wanted && ArrivedOn(d, d.item, day) {
        totals := totals[d.item := Get(totals, d.item) + d.qty];
      }
    }
  }

  // ----- the log table -----

  predicate IsFor(row: DayLog, item: Uuid, day: int) {
    row.item == item && row.day == day
  }

  function Find(logs: seq<DayLog>, item: Uuid, day: int, n: nat): (r: Option<nat>)
    requires n <= |logs|
    ensures r.Some? ==> r.value < n && IsFor(logs[r.value], item, day)
  {
    if n == 0 then None
    else if IsFor(logs[n - 1], item, day) then Some(n - 1)
    else Find(logs, item, day, n - 1)
  }

  function LogOn(logs: seq<DayLog>, item: Uuid, day: int): (r: Option<DayLog>)
    ensures r.Some? ==> IsFor(r.value, item, day)
  {
    var k := Find(logs, item, day, |logs|);
    if k.Some? then Some(logs[k.value]) else None
  }

  /** Overwrites the log of the item and day, or adds it. */
  function Put(logs: seq<DayLog>, row: DayLog): seq<DayLog> {
    var k := Find(logs, row.item, row.day, |logs|);
    if k.Some? then logs[k.value := row] else logs + [row]
  }

  ghost predicate OnePerDay(logs: seq<DayLog>) {
    forall i, j :: 0 <= i < j < |logs| ==> Apart(logs, i, j)
  }

  ghost predicate Apart(logs: seq<DayLog>, i: nat, j: nat)
    requires i < j < |logs|
  {
    !IsFor(logs[j], logs[i].item, logs[i].day)
  }

  /** Opening plus purchases is usage plus closing, and nothing is negative. */
  predicate Balanced(row: DayLog) {
    && row.opening + row.purchased == row.used + row.closing
    && row.opening >= 0 && row.purchased >= 0 && row.used >= 0 && row.closing >= 0
  }

  ghost predicate AllBalanced(logs: seq<DayLog>) {
    forall k :: 0 <= k < |logs| ==> Balanced(logs[k])
  }

  // ----- a batch of usage lines -----

  function Opening(cur: int, p: nat): nat {
    if cur - p < 0 then 0 else cur - p
  }

  function Entry(line: UsageLine, cur: int, p: nat, day: int): DayLog {
    DayLog(line.item, day, Opening(cur, p), p, line.used, Opening(cur, p) + p - line.used)
  }

  function AfterLine(b: Books, line: UsageLine, ds: seq<Delivery>, day: int): Reply<Books> {
    if line.item !in b.stock then ItemNotFound
    else
      var cur, p := b.stock[line.item], Arrived(ds, line.item, day);
      if line.used > Opening(cur, p) + p then ExceedsAvailable
      else
        var row := Entry(line, cur, p, day);
        Accepted(Books(b.stock[line.item := row.closing], Put(b.logs, row)))
  }

  /** The books after the first n lines; the first refused line refuses the batch. */
  function AfterLines(b: Books, lines: seq<UsageLine>, ds: seq<Delivery>, day: int, n: nat): Reply<Books>
    requires n <= |lines|
  {
    if n == 0 then Accepted(b)
    else
      var sofar := AfterLines(b, lines, ds, day, n - 1);
      if sofar.Accepted? then AfterLine(sofar.value, lines[n - 1], ds, day) else sofar
  }

  function Used(lines: seq<UsageLine>, n: nat): nat
    requires n <= |lines|
  {
    if n == 0 then 0 else Used(lines, n - 1) + lines[n - 1].used
  }

  // ----- snapshots -----

  /** The row that opens a day: from yesterday's closing, else from the stock before today's arrivals. */
  function Snapshot(logs: seq<DayLog>, item: Uuid, cur: int, p: nat, day: int): DayLog {
    var prior := LogOn(logs, item, day - 1);
    var start := if prior.Some? then prior.value.closing else cur - p;
    var opening := if start < 0 then 0 else start;
    DayLog(item, day, opening, p, 0, opening + p)
  }

  /** The items in stock, as the query lists them. */
  ghost predicate ListsActive(active: seq<Uuid>, stock: map<Uuid, int>) {
    && Distinct(active)
    && (forall i: Uuid :: i in active <==> i in stock && stock[i] > 0)
  }

  function StockOf(stock: map<Uuid, int>, item: Uuid): int {
    if item in stock then stock[item] else 0
  }

  /** The rows added for the first n listed items. */
  function NewRows(logs: seq<DayLog>, active: seq<Uuid>, stock: map<Uuid, int>, ds: seq<Delivery>, day: int, n: nat): seq<DayLog>
    requires n <= |active|
  {
    if n == 0 then []
    else
      var item := active[n - 1];
      NewRows(logs, active, stock, ds, day, n - 1)
      + (if LogOn(logs, item, day).Some? then [] else [Snapshot(logs, item, StockOf(stock, item), Arrived(ds, item, day), day)])
  }

  function Materialized(logs: seq<DayLog>, active: seq<Uuid>, stock: map<Uuid, int>, ds: seq<Delivery>, day: int): seq<DayLog> {
    logs + NewRows(logs, active, stock, ds, day, |active|)
  }

  // ----- the service -----

  datatype Summary = Summary(logged: nat, missing: nat, totalUsed: nat)

  function InStock(stock: map<Uuid, int>): set<Uuid> {
    set i | i in stock && stock[i] > 0
  }

  /** How many lines were logged, how many items in stock were not among them, and the total used. */
  function SummaryOf(stock: map<Uuid, int>, lines: seq<UsageLine>): Summary {
    var active := |InStock(stock)|;
    Summary(|lines|, if active < |lines| then 0 else active - |lines|, Used(lines, |lines|))
  }

  class Warehouse {
    var stock: map<Uuid, int>
    var logs: seq<DayLog>

    constructor ()
      ensures stock == map[] && logs == []
    {
      stock, logs := map[], [];
    }

    /** Works through the batch; nothing is committed unless every line is accepted. */
    method SubmitUsage(lines: seq<UsageLine>, ds: seq<Delivery>, day: int) returns (reply: Reply<Summary>)
      modifies this
      ensures match AfterLines(Books(old(stock), old(logs)), lines, ds, day, |lines|)
              case Accepted(b) => Books(stock, logs) == b && reply == Accepted(SummaryOf(b.stock, lines))
              case ItemNotFound => reply == ItemNotFound && Books(stock, logs) == Books(old(stock), old(logs))
              case ExceedsAvailable => reply == ExceedsAvailable && Books(stock, logs) == Books(old(stock), old(logs))
    {
      var wanted := set k | 0 <= k < |lines| :: lines[k].item;
      var purchased := PurchasedToday(ds, wanted, day);
      var result, totalUsed, logged := SubmitLines(Books(stock, logs), lines, purchased, ds, day);
      if !result.Accepted? {
        return if result.ItemNotFound? then ItemNotFound else ExceedsAvailable;
      }
      stock, logs := result.value.stock, result.value.logs;
      var active := |InStock(stock)|;
      return Accepted(Summary(logged, if active - logged < 0 then 0 else active - logged, totalUsed));
    }

    static method SubmitLines(b: Books, lines: seq<UsageLine>, purchased: map<Uuid, nat>, ghost ds: seq<Delivery>, day: int)
      returns (result: Reply<Books>, totalUsed: nat, logged: nat)
      requires forall k :: 0 <= k < |lines| ==> Get(purchased, lines[k].item) == Arrived(ds, lines[k].item, day)
      ensures result == AfterLines(b, lines, ds, day, |lines|)
      ensures result.Accepted? ==> totalUsed == Used(lines, |lines|) && logged == |lines|
    {
      result, totalUsed, logged := Accepted(b), 0, 0;
      for n := 0 to |lines|
        invariant result.Accepted? && result == AfterLines(b, lines, ds, day, n)
        invariant totalUsed == Used(lines, n) && logged == n
      {
        result := SubmitLine(result.value, lines[n], Get(purchased, lines[n].item), ds, day);
        if !result.Accepted? {
          RefusedStays(b, lines, ds, day, n + 1, |lines|);
          return;
        }
        totalUsed, logged := totalUsed + lines[n].used, logged + 1;
      }
    }

    static method SubmitLine(b: Books, line: UsageLine, p: nat, ghost ds: seq<Delivery>, day: int) returns (step: Reply<Books>)
      requires p == Arrived(ds, line.item, day)
      ensures step == AfterLine(b, line, ds, day)
    {
      if line.item !in b.stock {
        return ItemNotFound;
      }
      var cur := b.stock[line.item];
      var opening := cur - p;
      if opening < 0 {
        opening := 0;
      }
      if line.used > opening + p {
        return ExceedsAvailable;
      }
      var closing := opening + p - line.used;
      var written := Put(b.logs, DayLog(line.item, day, opening, p, line.used, closing));
      if closing != cur {
        return Accepted(Books(b.stock[line.item := closing], written));
      }
      assert b.stock[line.item := closing] == b.stock;
      return Accepted(Books(b.stock, written));
    }

    method MaterializeSnapshots(active: seq<Uuid>, ds: seq<Delivery>, day: int) returns (created: nat)
      requires ListsActive(active, stock)
      modifies this`logs
      ensures logs == Materialized(old(logs), active, stock, ds, day)
      ensures created == |logs| - |old(logs)|
    {
      var purchased := PurchasedToday(ds, set k | 0 <= k < |active| :: active[k], day);
      created := 0;
      var rows := [];
      for n := 0 to |active|
        invariant logs == old(logs) && created == |rows|
        invariant rows == NewRows(logs, active, stock, ds, day, n)
      {
        var item := active[n];
        if LogOn(logs, item, day).None? {
          rows := rows + [Snapshot(logs, item, stock[item], Get(purchased, item), day)];
          created := created + 1;
        }
      }
      logs := logs + rows;
    }
  }

  lemma {:induction false} RefusedStays(b: Books, lines: seq<UsageLine>, ds: seq<Delivery>, day: int, n: nat, m: nat)
    requires n <= m <= |lines| && !AfterLines(b, lines, ds, day, n).Accepted?
    ensures AfterLines(b, lines, ds, day, m) == AfterLines(b, lines, ds, day, n)
  {
    if n < m {
      RefusedStays(b, lines, ds, day, n, m - 1);
    }
  }
}
