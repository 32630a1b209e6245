/** Runs of working days: every day the goods that arrive are booked, a snapshot opens the day, and a batch of
    usage lines may follow.  When does each day open where the day before closed? */
module DailyUsageRuns {
  import opened DailyUsage
  import opened DailyUsageCorrections
  import opened DailyUsageTheorems
  import opened Numerals
  import opened Options

  /** The items that the snapshot lists, the deliveries, and the usage lines of the day in their order. */
  datatype WorkDay = WorkDay(active: seq<Uuid>, ds: seq<Delivery>, lines: seq<UsageLine>)

  function Received(stock: map<Uuid, int>, ds: seq<Delivery>, day: int): map<Uuid, int> {
    map i | i in stock :: stock[i] + Arrived(ds, i, day)
  }

  function Opened(b: Books, d: WorkDay, day: int): Books {
    var stock := Received(b.stock, d.ds, day);
    Books(stock, Materialized(b.logs, d.active, stock, d.ds, day))
  }

  /** The lines that are written: a refused batch leaves nothing. */
  function Written(b: Books, d: WorkDay, day: int): seq<UsageLine> {
    if AfterLines(Opened(b, d, day), d.lines, d.ds, day, |d.lines|).Accepted? then d.lines else []
  }

  lemma {:induction false} WrittenIsAccepted(b: Books, d: WorkDay, day: int)
    ensures AfterLines(Opened(b, d, day), Written(b, d, day), d.ds, day, |Written(b, d, day)|).Accepted?
  {
  }

  function AfterWork(b: Books, d: WorkDay, day: int): Books {
    WrittenIsAccepted(b, d, day);
    AfterLines(Opened(b, d, day), Written(b, d, day), d.ds, day, |Written(b, d, day)|).value
  }

  // ----- the log that a batch leaves -----

  /** What the lines of the item before its last one have used. */
  function UsedBeforeLast(lines: seq<UsageLine>, item: Uuid, n: nat): nat
    requires n <= |lines|
  {
    if n == 0 then 0
    else if lines[n - 1].item == item then UsedOf(lines, item, n - 1)
    else UsedBeforeLast(lines, item, n - 1)
  }

  /** The opening that its last line writes. */
  function LastOpening(stock: int, arrived: nat, lines: seq<UsageLine>, item: Uuid, n: nat): int
    requires n <= |lines|
  {
    if n == 0 then 0
    else if lines[n - 1].item == item then Opening(ItemStock(stock, arrived, lines, item, n - 1), arrived)
    else LastOpening(stock, arrived, lines, item, n - 1)
  }

  lemma {:induction false} BatchOpening(b: Books, lines: seq<UsageLine>, ds: seq<Delivery>, day: int, n: nat, item: Uuid)
    requires n <= |lines| && AfterLines(b, lines, ds, day, n).Accepted? && item in b.stock && Mentions(lines, item, n)
    ensures var log := LogOn(AfterLines(b, lines, ds, day, n).value.logs, item, day);
            && log.Some? && log.value.opening == LastOpening(b.stock[item], Arrived(ds, item, day), lines, item, n)
            && log.value.purchased == Arrived(ds, item, day)
  {
    MentionsStep(lines, item, n);
    var before, line := AfterLines(b, lines, ds, day, n - 1).value, lines[n - 1];
    LogOnPut(before.logs, Entry(line, before.stock[line.item], Arrived(ds, line.item, day), day), item, day);
    if line.item == item {
      BatchStock(b, lines, ds, day, n - 1, item);
    } else {
      BatchOpening(b, lines, ds, day, n - 1, item);
    }
  }

  /** When the stock is what the day before left and what has arrived, the last line opens the day no higher
      than the day before closed, and at that point exactly when no earlier line has used anything or nothing
      was left. */
  lemma {:induction false} LastOpeningIff(left: nat, arrived: nat, lines: seq<UsageLine>, item: Uuid, n: nat)
    requires n <= |lines| && Mentions(lines, item, n)
    ensures var opening := LastOpening(left + arrived, arrived, lines, item, n);
            opening <= left && (opening == left <==> UsedBeforeLast(lines, item, n) == 0 || left == 0)
  {
    MentionsStep(lines, item, n);
    if lines[n - 1].item == item {
      EarlierLeaves(left + arrived, arrived, lines, item, n - 1);
    } else {
      LastOpeningIff(left, arrived, lines, item, n - 1);
    }
  }

  // ----- one day -----

  /** The log of the day closes at the stock. */
  ghost predicate InStep(b: Books, item: Uuid, day: int) {
    var log := LogOn(b.logs, item, day);
    item in b.stock && b.stock[item] >= 0 && log.Some? && log.value.closing == b.stock[item]
  }

  /** No line of the item on that day, but the last, uses anything, or nothing was left of it the day before. */
  ghost predicate OneUse(b: Books, d: WorkDay, day: int, item: Uuid) {
    UsedBeforeLast(Written(b, d, day), item, |Written(b, d, day)|) == 0 || (item in b.stock && b.stock[item] == 0)
  }

  lemma {:induction false} OtherDaysOfWork(b: Books, d: WorkDay, day: int, item: Uuid, on: int)
    requires on != day
    ensures LogOn(AfterWork(b, d, day).logs, item, on) == LogOn(b.logs, item, on)
  {
    WrittenIsAccepted(b, d, day);
    BatchSettlesItsItems(Opened(b, d, day), Written(b, d, day), d.ds, day, |Written(b, d, day)|, item, on);
    OtherDays(b.logs, Sight(d.active, Received(b.stock, d.ds, day), d.ds), day, item, on);
  }

  lemma {:induction false} SnapshotInStep(b: Books, d: WorkDay, day: int, item: Uuid)
    requires InStep(b, item, day - 1) && item in d.active && LogOn(b.logs, item, day).None?
    ensures var o, p := Opened(b, d, day), Arrived(d.ds, item, day);
            && item in o.stock && o.stock[item] == b.stock[item] + p
            && LogOn(o.logs, item, day) == Some(DayLog(item, day, b.stock[item], p, 0, b.stock[item] + p))
  {
    SnapshotTaken(b.logs, Sight(d.active, Received(b.stock, d.ds, day), d.ds), day, item);
  }

  /** A working day stays in step with the stock, opens no higher than the day before closed, and meets that
      closing exactly when it has one use of the item. */
  lemma {:induction false} WorkKeepsStep(b: Books, d: WorkDay, day: int, item: Uuid)
    requires InStep(b, item, day - 1) && item in d.active && LogOn(b.logs, item, day).None?
    ensures InStep(AfterWork(b, d, day), item, day)
    ensures var log := LogOn(AfterWork(b, d, day).logs, item, day).value;
            && Balanced(log) && log.purchased == Arrived(d.ds, item, day)
            && log.opening <= b.stock[item] && (log.opening == b.stock[item] <==> OneUse(b, d, day, item))
  {
    var o, lines := Opened(b, d, day), Written(b, d, day);
    WrittenIsAccepted(b, d, day);
    SnapshotInStep(b, d, day, item);
    BatchSettlesItsItems(o, lines, d.ds, day, |lines|, item, day);
    if Mentions(lines, item, |lines|) {
      BatchOpening(o, lines, d.ds, day, |lines|, item);
      LastOpeningIff(b.stock[item], Arrived(d.ds, item, day), lines, item, |lines|);
      BatchStock(o, lines, d.ds, day, |lines|, item);
    } else {
      NothingBeforeLast(lines, item, |lines|);
    }
  }

  lemma {:induction false} NothingBeforeLast(lines: seq<UsageLine>, item: Uuid, n: nat)
    requires n <= |lines| && !Mentions(lines, item, n)
    ensures UsedBeforeLast(lines, item, n) == 0
  {
    if n > 0 {
      MentionsStep(lines, item, n);
      NothingBeforeLast(lines, item, n - 1);
    }
  }

  // ----- runs of days -----

  /** The books before the first of the days and after each of them. */
  ghost predicate IsRun(run: seq<Books>, days: seq<WorkDay>, first: int) {
    |run| == |days| + 1 && forall k :: 0 <= k < |days| ==> Worked(run, days, first, k)
  }

  ghost predicate Worked(run: seq<Books>, days: seq<WorkDay>, first: int, k: nat)
    requires k < |days| && |run| == |days| + 1
  {
    run[k + 1] == AfterWork(run[k], days[k], first + k)
  }

  /** The item is in step the day before, is listed every day, and has no logs of these days yet. */
  ghost predicate Ready(b: Books, days: seq<WorkDay>, item: Uuid, first: int) {
    && InStep(b, item, first - 1)
    && (forall j :: 0 <= j < |days| ==> item in days[j].active)
    && (forall on :: first <= on < first + |days| ==> LogOn(b.logs, item, on).None?)
  }

  /** The k-th day has one use of the item. */
  ghost predicate OneUseOn(run: seq<Books>, days: seq<WorkDay>, item: Uuid, first: int, k: nat)
    requires k < |days| && |run| == |days| + 1
  {
    OneUse(run[k], days[k], first + k, item)
  }

  lemma {:induction false} OtherDaysAfter(b: Books, d: WorkDay, day: int, after: Books, item: Uuid, on: int)
    requires on != day && after == AfterWork(b, d, day)
    ensures LogOn(after.logs, item, on) == LogOn(b.logs, item, on)
  {
    OtherDaysOfWork(b, d, day, item, on);
  }

  lemma {:induction false} OtherDayOfRun(run: seq<Books>, days: seq<WorkDay>, first: int, k: nat, item: Uuid, on: int)
    requires IsRun(run, days, first) && k < |days| && on != first + k
    ensures LogOn(run[k + 1].logs, item, on) == LogOn(run[k].logs, item, on)
  {
    assert Worked(run, days, first, k);
    OtherDaysAfter(run[k], days[k], first + k, run[k + 1], item, on);
  }

  lemma {:induction false} OtherWorkDays(run: seq<Books>, days: seq<WorkDay>, first: int, m: nat, n: nat, item: Uuid, on: int)
    requires IsRun(run, days, first) && m <= n <= |days| && !(first + m <= on < first + n)
    ensures LogOn(run[n].logs, item, on) == LogOn(run[m].logs, item, on)
  {
    if m < n {
      OtherWorkDays(run, days, first, m, n - 1, item, on);
      OtherDayOfRun(run, days, first, n - 1, item, on);
    }
  }

  /** What a day of the run does, from books that are in step. */
  lemma {:induction false} DayOfRun(run: seq<Books>, days: seq<WorkDay>, item: Uuid, first: int, k: nat)
    requires IsRun(run, days, first) && Ready(run[0], days, item, first) && k < |days| && InStep(run[k], item, first + k - 1)
    ensures InStep(run[k + 1], item, first + k)
    ensures var log := LogOn(run[k + 1].logs, item, first + k).value;
            && Balanced(log) && log.opening <= run[k].stock[item] && (log.opening == run[k].stock[item] <==> OneUseOn(run, days, item, first, k))
  {
    assert Worked(run, days, first, k);
    OtherWorkDays(run, days, first, 0, k, item, first + k);
    WorkKeepsStep(run[k], days[k], first + k, item);
  }

  lemma {:induction false} StaysInStep(run: seq<Books>, days: seq<WorkDay>, item: Uuid, first: int, n: nat)
    requires IsRun(run, days, first) && Ready(run[0], days, item, first) && n <= |days|
    ensures InStep(run[n], item, first + n - 1)
  {
    if n > 0 {
      StaysInStep(run, days, item, first, n - 1);
      DayOfRun(run, days, item, first, n - 1);
    }
  }

  /** Over any run of working days, a day opens where the day before closed if and only if it has one use of the
      item; otherwise it opens lower. */
  lemma {:induction false} WorkDaysConnectIff(run: seq<Books>, days: seq<WorkDay>, item: Uuid, first: int, k: nat)
    requires IsRun(run, days, first) && Ready(run[0], days, item, first) && k < |days|
    ensures var before, now := LogOn(run[|days|].logs, item, first + k - 1), LogOn(run[|days|].logs, item, first + k);
            && before.Some? && now.Some? && Balanced(now.value) && now.value.opening <= before.value.closing
            && (Meet(before, now) <==> OneUseOn(run, days, item, first, k))
  {
    StaysInStep(run, days, item, first, k);
    DayOfRun(run, days, item, first, k);
    OtherWorkDays(run, days, first, k, |days|, item, first + k - 1);
    OtherWorkDays(run, days, first, k + 1, |days|, item, first + k);
  }

  /** What arrived less what was used, as the logs of n days say. */
  ghost function NetOver(logs: seq<DayLog>, item: Uuid, first: int, n: nat): int {
    if n == 0 then 0
    else
      var log := LogOn(logs, item, first + n - 1);
      NetOver(logs, item, first, n - 1) + (if log.Some? then log.value.purchased - log.value.used else 0)
  }

  lemma {:induction false} NetOverStays(logs: seq<DayLog>, more: seq<DayLog>, item: Uuid, first: int, n: nat)
    requires forall on :: first <= on < first + n ==> LogOn(more, item, on) == LogOn(logs, item, on)
    ensures NetOver(more, item, first, n) == NetOver(logs, item, first, n)
  {
    if n > 0 {
      NetOverStays(logs, more, item, first, n - 1);
    }
  }

  lemma {:induction false} NetOfDay(run: seq<Books>, days: seq<WorkDay>, item: Uuid, first: int, k: nat)
    requires IsRun(run, days, first) && k < |days|
    ensures NetOver(run[k + 1].logs, item, first, k) == NetOver(run[k].logs, item, first, k)
  {
    forall on | first <= on < first + k
      ensures LogOn(run[k + 1].logs, item, on) == LogOn(run[k].logs, item, on)
    {
      OtherDayOfRun(run, days, first, k, item, on);
    }
    NetOverStays(run[k].logs, run[k + 1].logs, item, first, k);
  }

  /** What the logs say about one more day, against what it does to the stock. */
  lemma {:induction false} NetStep(run: seq<Books>, days: seq<WorkDay>, item: Uuid, first: int, k: nat)
    requires IsRun(run, days, first) && Ready(run[0], days, item, first) && k < |days|
    ensures item in run[k].stock && item in run[k + 1].stock
    ensures var promised := run[k].stock[item] + NetOver(run[k + 1].logs, item, first, k + 1) - NetOver(run[k].logs, item, first, k);
            run[k + 1].stock[item] <= promised && (run[k + 1].stock[item] == promised <==> OneUseOn(run, days, item, first, k))
  {
    StaysInStep(run, days, item, first, k);
    DayOfRun(run, days, item, first, k);
    NetOfDay(run, days, item, first, k);
    var n := k + 1;
    assert NetOver(run[n].logs, item, first, n)
        == NetOver(run[n].logs, item, first, k) + LogOn(run[n].logs, item, first + k).value.purchased - LogOn(run[n].logs, item, first + k).value.used;
  }

  /** The logs of the days account for the stock exactly when every day has one use of the item; otherwise they
      promise more than is there. */
  lemma {:induction false} WorkDaysAddUpIff(run: seq<Books>, days: seq<WorkDay>, item: Uuid, first: int, n: nat)
    requires IsRun(run, days, first) && Ready(run[0], days, item, first) && n <= |days|
    ensures item in run[0].stock && item in run[n].stock
    ensures var promised := run[0].stock[item] + NetOver(run[n].logs, item, first, n);
            && run[n].stock[item] <= promised
            && (run[n].stock[item] == promised <==> forall k :: 0 <= k < n ==> OneUseOn(run, days, item, first, k))
  {
    if n > 0 {
      WorkDaysAddUpIff(run, days, item, first, n - 1);
      NetStep(run, days, item, first, n - 1);
    }
  }
}
