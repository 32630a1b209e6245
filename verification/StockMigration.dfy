/** What migrations 049 and 050, run in one transaction, make of a database that the live service has written:
    when they go through, when they keep the live stock, and by how much they miss it when every movement has
    its row in the adjustment log. */
module StockMigration {
  import opened Numerals
  import opened Options
  import opened StockAfterBackfill
  import opened StockBackfill
  import opened StockBackfillTheorems
  import opened StockLedger
  import opened StockMovements
  import opened StockRefusals
  import opened Windows

  /** The ledger after 049. */
  function Posted(t: Tables, purchases: seq<Purchase>, ids: map<string, Uuid>): seq<Movement> {
    Backfilled(t.movements, t.log, purchases, t.items, ids)
  }

  /** 049 and 050 in one transaction. */
  predicate UpgradeGoesThrough(t: Tables, purchases: seq<Purchase>, ids: map<string, Uuid>) {
    GoesThrough(t.movements, t.log, purchases, t.items, ids)
  }

  /** The tables after the transaction: as they were when the constraint on the stock refuses it. */
  function Upgraded(t: Tables, purchases: seq<Purchase>, ids: map<string, Uuid>): Tables {
    Tables(if UpgradeGoesThrough(t, purchases, ids) then Replayed(Posted(t, purchases, ids)) else t.movements, t.log,
           UpgradedItems(t.movements, t.log, purchases, t.items, ids))
  }

  ghost function Added(t: Tables, purchases: seq<Purchase>, ids: map<string, Uuid>, item: Uuid): int {
    AddedDelta(t.movements, t.log, purchases, t.items, ids, item)
  }

  // ----- when the upgrade goes through, and when it keeps the live stock -----

  /** On a ledger that explains the live stock, 050 goes through after 049 if and only if every live item, with
      what 049 adds, is at least at its starting stock. */
  lemma {:induction false} LiveUpgradeAllowedIff(t: Tables, start: map<Uuid, int>, purchases: seq<Purchase>, ids: map<string, Uuid>)
    requires Tracks(t, start) && UniqueKeys(t.movements)
    requires DistinctSources(t.log, purchases) && FreshIds(t.movements, t.log, purchases, ids)
    ensures SyncAllowed(SyncFromTail(t.items, Posted(t, purchases, ids)), Replayed(Posted(t, purchases, ids)))
            <==> forall i :: i in t.items && !t.items[i].deleted ==> t.items[i].stock + Added(t, purchases, ids, i) >= start[i]
  {
    ReplayAfterBackfillAllowedIff(t.movements, t.log, purchases, t.items, ids);
    forall i | i in t.items
      ensures t.items[i].stock == start[i] + Total(OfItem(t.movements, i))
    {
      TrackedStock(t, start, i);
    }
  }

  /** In particular a live item that stays below its starting stock stops the upgrade for every item. */
  lemma {:induction false} BelowStartIsRefused(t: Tables, start: map<Uuid, int>, purchases: seq<Purchase>, ids: map<string, Uuid>, item: Uuid)
    requires Tracks(t, start) && UniqueKeys(t.movements)
    requires DistinctSources(t.log, purchases) && FreshIds(t.movements, t.log, purchases, ids)
    requires item in t.items && !t.items[item].deleted && t.items[item].stock + Added(t, purchases, ids, item) < start[item]
    ensures !UpgradeGoesThrough(t, purchases, ids) && Upgraded(t, purchases, ids) == t
  {
    LiveUpgradeAllowedIff(t, start, purchases, ids);
  }

  /** The stock after the upgrade. */
  lemma {:induction false} UpgradedStock(t: Tables, start: map<Uuid, int>, purchases: seq<Purchase>, ids: map<string, Uuid>, item: Uuid)
    requires Tracks(t, start) && UniqueKeys(t.movements)
    requires DistinctSources(t.log, purchases) && FreshIds(t.movements, t.log, purchases, ids)
    requires item in t.items && !t.items[item].deleted
    ensures item in start && item in Upgraded(t, purchases, ids).items
    ensures Upgraded(t, purchases, ids).items[item].stock
         == if UpgradeGoesThrough(t, purchases, ids) && OfItem(Posted(t, purchases, ids), item) != []
            then t.items[item].stock - start[item] + Added(t, purchases, ids, item) else t.items[item].stock
  {
    TrackedStock(t, start, item);
    StockAfterBackfillAndReplay(t.movements, t.log, purchases, t.items, ids, item);
  }

  /** On such a ledger the upgrade keeps the stock of a live item if and only if it is refused, or finds no
      movement of the item at all, or the deltas that 049 adds come to exactly the starting stock. */
  lemma {:induction false} MigrationKeepsStockIff(t: Tables, start: map<Uuid, int>, purchases: seq<Purchase>, ids: map<string, Uuid>, item: Uuid)
    requires Tracks(t, start) && UniqueKeys(t.movements)
    requires DistinctSources(t.log, purchases) && FreshIds(t.movements, t.log, purchases, ids)
    requires item in t.items && !t.items[item].deleted
    ensures item in start && item in Upgraded(t, purchases, ids).items
    ensures Upgraded(t, purchases, ids).items[item].stock == t.items[item].stock
            <==> || !UpgradeGoesThrough(t, purchases, ids)
                 || OfItem(Posted(t, purchases, ids), item) == []
                 || Added(t, purchases, ids, item) == start[item]
  {
    UpgradedStock(t, start, purchases, ids, item);
  }

  // ----- runs keep the database's constraints -----

  /** Keys drawn for requests without one are new, and so are the ids of log rows. */
  ghost predicate KeysSupplied(t: Tables, requests: seq<(Request, Supply)>) {
    requests == []
    || (&& KeysSupplied(t, requests[..|requests| - 1])
        && SupplyIsNew(RunOf(t, requests[..|requests| - 1]), requests[|requests| - 1].1))
  }

  ghost predicate SupplyIsNew(t: Tables, s: Supply) {
    (forall m :: m in t.movements ==> m.data.key != s.generatedKey) && (forall l :: l in t.log ==> l.id != s.logId)
  }

  lemma {:induction false} NotStored(movements: seq<Movement>, business: Uuid, key: string)
    requires Stored(movements, business, key).None?
    ensures forall m :: m in movements ==> m.data.business != business || m.data.key != key
  {
    if movements != [] {
      NotStored(movements[1..], business, key);
      assert movements == [movements[0]] + movements[1..];
    }
  }

  lemma {:induction false} UniqueKeysSnoc(movements: seq<Movement>, m: Movement)
    requires UniqueKeys(movements)
    requires forall x :: x in movements ==> x.data.key != m.data.key || x.data.business != m.data.business
    ensures UniqueKeys(movements + [m])
  {
    if movements == [] {
      assert movements + [m] == [m];
    } else {
      assert (movements + [m])[1..] == movements[1..] + [m];
      UniqueKeysSnoc(movements[1..], m);
    }
  }

  lemma {:induction false} DistinctLogSnoc(log: seq<LogRow>, l: LogRow)
    requires DistinctLog(log) && forall x :: x in log ==> x.id != l.id
    ensures DistinctLog(log + [l])
  {
    if log == [] {
      assert log + [l] == [l];
    } else {
      assert (log + [l])[1..] == log[1..] + [l];
      DistinctLogSnoc(log[1..], l);
    }
  }

  lemma {:induction false} RequestKeepsKeys(t: Tables, req: Request, s: Supply)
    requires UniqueKeys(t.movements) && DistinctLog(t.log) && SupplyIsNew(t, s)
    ensures UniqueKeys(After(t, req, s).movements) && DistinctLog(After(t, req, s).log)
  {
    var answer := Answer(t, req, s);
    if answer.Applied? {
      if req.key != "" {
        NotStored(t.movements, req.business, req.key);
      }
      UniqueKeysSnoc(t.movements, answer.movement);
      if req.projection {
        DistinctLogSnoc(t.log, LogRowOf(req, s, t.items[req.item].stock));
      }
    }
  }

  /** Over every run the ledger keeps its unique key and the log its primary key. */
  lemma {:induction false} RunKeepsKeys(t: Tables, requests: seq<(Request, Supply)>)
    requires UniqueKeys(t.movements) && DistinctLog(t.log) && KeysSupplied(t, requests)
    ensures UniqueKeys(RunOf(t, requests).movements) && DistinctLog(RunOf(t, requests).log)
  {
    if requests != [] {
      var k := |requests| - 1;
      RunKeepsKeys(t, requests[..k]);
      RequestKeepsKeys(RunOf(t, requests[..k]), requests[k].0, requests[k].1);
    }
  }

  /** A database as the service leaves it after a run. */
  ghost predicate Served(t: Tables, start: map<Uuid, int>, requests: seq<(Request, Supply)>) {
    && Tracks(t, start) && UniqueKeys(t.movements) && DistinctLog(t.log)
    && RunSupplied(t, requests) && KeysSupplied(t, requests)
  }

  lemma {:induction false} ServedTables(t: Tables, start: map<Uuid, int>, requests: seq<(Request, Supply)>)
    requires Served(t, start, requests)
    ensures var served := RunOf(t, requests); Tracks(served, start) && UniqueKeys(served.movements) && DistinctLog(served.log)
  {
    RunKeepsTracking(t, start, requests);
    RunKeepsKeys(t, requests);
  }

  /** The same after any run of requests. */
  lemma {:induction false} RunThenMigrationKeepsStockIff(t: Tables, start: map<Uuid, int>, requests: seq<(Request, Supply)>, purchases: seq<Purchase>,
                                                         ids: map<string, Uuid>, item: Uuid)
    requires Served(t, start, requests) && DistinctPurchases(purchases)
    requires FreshIds(RunOf(t, requests).movements, RunOf(t, requests).log, purchases, ids)
    requires item in RunOf(t, requests).items && !RunOf(t, requests).items[item].deleted
    ensures var served := RunOf(t, requests);
            && item in start && item in Upgraded(served, purchases, ids).items
            && (Upgraded(served, purchases, ids).items[item].stock == served.items[item].stock
                <==> || !UpgradeGoesThrough(served, purchases, ids)
                     || OfItem(Posted(served, purchases, ids), item) == []
                     || Added(served, purchases, ids, item) == start[item])
  {
    ServedTables(t, start, requests);
    MigrationKeepsStockIff(RunOf(t, requests), start, purchases, ids, item);
  }

  // ----- when every movement has its row in the log -----

  /** The quantity changes that the adjustment log records for an item. */
  ghost function LogTotal(log: seq<LogRow>, item: Uuid): int {
    if log == [] then 0
    else LogTotal(log[..|log| - 1], item)
         + (if log[|log| - 1].item == item then log[|log| - 1].newQty - log[|log| - 1].oldQty else 0)
  }

  /** When every request writes its projection, the log records the same changes as the ledger. */
  lemma {:induction false} ProjectedRun(t: Tables, requests: seq<(Request, Supply)>, item: Uuid)
    requires LogTotal(t.log, item) == Total(OfItem(t.movements, item))
    requires forall k :: 0 <= k < |requests| ==> requests[k].0.projection
    ensures LogTotal(RunOf(t, requests).log, item) == Total(OfItem(RunOf(t, requests).movements, item))
  {
    if requests != [] {
      var k := |requests| - 1;
      var before, req, s := RunOf(t, requests[..k]), requests[k].0, requests[k].1;
      ProjectedRun(t, requests[..k], item);
      assert requests[k].0.projection;
      var answer := Answer(before, req, s);
      if answer.Applied? {
        OfItemAppend(before.movements, [answer.movement], item);
        TotalAppend(OfItem(before.movements, item), OfItem([answer.movement], item));
        var row := LogRowOf(req, s, before.items[req.item].stock);
        assert (before.log + [row])[..|before.log|] == before.log;
        assert OfItem([answer.movement], item) == if req.item == item then [answer.movement] else [];
      }
    }
  }

  lemma {:induction false} LogTotalSplit(l: LogRow, rest: seq<LogRow>, item: Uuid)
    ensures LogTotal([l] + rest, item) == (if l.item == item then l.newQty - l.oldQty else 0) + LogTotal(rest, item)
  {
    if rest == [] {
      assert [l] + rest == [l] && [l][..0] == [];
    } else {
      var k := |rest| - 1;
      assert ([l] + rest)[..|rest|] == [l] + rest[..k];
      LogTotalSplit(l, rest[..k], item);
    }
  }

  /** All log rows of an item are copied when none of them has its key in the ledger yet. */
  lemma {:induction false} LegacyTotal(movements: seq<Movement>, log: seq<LogRow>, items: map<Uuid, Item>, ids: map<string, Uuid>, item: Uuid)
    requires item in items && forall l :: l in log ==> !HasKey(movements, LegacyKey(l.id))
    ensures Total(OfItem(LegacyRows(movements, log, items, ids), item)) == LogTotal(log, item)
  {
    if log != [] {
      assert log[0] in log && log == [log[0]] + log[1..];
      LegacyTotal(movements, log[1..], items, ids, item);
      LogTotalSplit(log[0], log[1..], item);
      var first, rest := LegacyMovement(log[0], ids), LegacyRows(movements, log[1..], items, ids);
      assert [] + rest == rest && ([first] + rest)[1..] == rest;
      assert ([first] + OfItem(rest, item))[1..] == OfItem(rest, item);
    }
  }

  /** 049 has copied no log row yet and has no purchase of the item to post. */
  ghost predicate NothingPostedYet(t: Tables, purchases: seq<Purchase>, ids: map<string, Uuid>, item: Uuid) {
    && (forall l :: l in t.log ==> !HasKey(t.movements, LegacyKey(l.id)))
    && OfItem(Eligible(AfterPhase1(t.movements, t.log, t.items, ids), t.log, Receipts(purchases)), item) == []
  }

  lemma {:induction false} ProjectionsAdded(t: Tables, purchases: seq<Purchase>, ids: map<string, Uuid>, item: Uuid)
    requires item in t.items && LogTotal(t.log, item) == Total(OfItem(t.movements, item)) && NothingPostedYet(t, purchases, ids, item)
    ensures Added(t, purchases, ids, item) == Total(OfItem(t.movements, item))
    ensures OfItem(t.movements, item) != [] ==> OfItem(Posted(t, purchases, ids), item) != []
  {
    var ledger := AfterPhase1(t.movements, t.log, t.items, ids);
    LegacyTotal(t.movements, t.log, t.items, ids, item);
    OfItemAppend(t.movements, LegacyRows(t.movements, t.log, t.items, ids), item);
    OfItemAppend(ledger, PostedRows(ledger, Phase2(ledger, t.log, purchases), t.items, ids), item);
  }

  /** On tables whose log repeats the ledger, 049 adds once more what every item has gained. */
  lemma {:induction false} AddedAgain(t: Tables, start: map<Uuid, int>, purchases: seq<Purchase>, ids: map<string, Uuid>, item: Uuid)
    requires Tracks(t, start) && item in t.items
    requires LogTotal(t.log, item) == Total(OfItem(t.movements, item)) && NothingPostedYet(t, purchases, ids, item)
    ensures item in start && Added(t, purchases, ids, item) == t.items[item].stock - start[item]
    ensures OfItem(t.movements, item) != [] ==> OfItem(Posted(t, purchases, ids), item) != []
  {
    TrackedStock(t, start, item);
    ProjectionsAdded(t, purchases, ids, item);
  }

  ghost predicate IsDoubled(upgraded: int, live: int, start: int, goesThrough: bool) {
    && upgraded == (if goesThrough then 2 * (live - start) else live)
    && (upgraded == live <==> !goesThrough || live == 2 * start)
  }

  lemma Doubled(live: int, start: int, goesThrough: bool)
    ensures IsDoubled(if goesThrough then live - start + (live - start) else live, live, start, goesThrough)
  {
  }

  lemma {:induction false} CountedTwice(t: Tables, start: map<Uuid, int>, purchases: seq<Purchase>, ids: map<string, Uuid>, item: Uuid)
    requires Tracks(t, start) && UniqueKeys(t.movements)
    requires DistinctSources(t.log, purchases) && FreshIds(t.movements, t.log, purchases, ids)
    requires item in t.items && !t.items[item].deleted && OfItem(Posted(t, purchases, ids), item) != []
    requires item in start && Added(t, purchases, ids, item) == t.items[item].stock - start[item]
    ensures item in Upgraded(t, purchases, ids).items
    ensures IsDoubled(Upgraded(t, purchases, ids).items[item].stock, t.items[item].stock, start[item], UpgradeGoesThrough(t, purchases, ids))
  {
    UpgradedStock(t, start, purchases, ids, item);
    Doubled(t.items[item].stock, start[item], UpgradeGoesThrough(t, purchases, ids));
  }

  /** After a run in which every request writes its row in the log, an upgrade that goes through leaves a moved
      item with twice what it has gained since its start: the live stock is doubled from a start at zero, and
      kept only when it is twice the starting stock. */
  lemma {:induction false} ProjectedRunsAreCountedTwice(t: Tables, start: map<Uuid, int>, requests: seq<(Request, Supply)>, purchases: seq<Purchase>,
                                                        ids: map<string, Uuid>, item: Uuid)
    requires Served(t, start, requests) && DistinctPurchases(purchases)
    requires LogTotal(t.log, item) == Total(OfItem(t.movements, item))
    requires forall k :: 0 <= k < |requests| ==> requests[k].0.projection
    requires FreshIds(RunOf(t, requests).movements, RunOf(t, requests).log, purchases, ids)
    requires item in RunOf(t, requests).items && !RunOf(t, requests).items[item].deleted && OfItem(RunOf(t, requests).movements, item) != []
    requires NothingPostedYet(RunOf(t, requests), purchases, ids, item)
    ensures var served := RunOf(t, requests);
            && item in start && item in Upgraded(served, purchases, ids).items
            && Upgraded(served, purchases, ids).items[item].stock
               == (if UpgradeGoesThrough(served, purchases, ids) then 2 * (served.items[item].stock - start[item]) else served.items[item].stock)
            && (Upgraded(served, purchases, ids).items[item].stock == served.items[item].stock
                <==> !UpgradeGoesThrough(served, purchases, ids) || served.items[item].stock == 2 * start[item])
  {
    ProjectedRun(t, requests, item);
    ServedTables(t, start, requests);
    AddedAgain(RunOf(t, requests), start, purchases, ids, item);
    CountedTwice(RunOf(t, requests), start, purchases, ids, item);
  }

  // ----- and when such an upgrade goes through -----

  /** No balance in the ledger and no quantity in the log is negative. */
  ghost predicate NothingNegative(t: Tables) {
    (forall m :: m in t.movements ==> m.after >= 0) && (forall l :: l in t.log ==> l.newQty >= 0)
  }

  lemma {:induction false} RunKeepsNonnegative(t: Tables, requests: seq<(Request, Supply)>)
    requires NothingNegative(t)
    ensures NothingNegative(RunOf(t, requests))
  {
    if requests != [] {
      RunKeepsNonnegative(t, requests[..|requests| - 1]);
    }
  }

  lemma {:induction false} LegacyNonnegative(movements: seq<Movement>, log: seq<LogRow>, items: map<Uuid, Item>, ids: map<string, Uuid>)
    requires forall l :: l in log ==> l.newQty >= 0
    ensures forall m :: m in LegacyRows(movements, log, items, ids) ==> m.after >= 0
  {
    if log != [] {
      assert log[0] in log;
      LegacyNonnegative(movements, log[1..], items, ids);
    }
  }

  lemma {:induction false} TailNonnegative<T(!new)>(rows: seq<Row<T>>, item: Uuid)
    requires forall r :: r in OfItem(rows, item) ==> r.after >= 0
    ensures TailQty(rows, item) >= 0
  {
    SortMembers(OfItem(rows, item));
    var chain := Chain(rows, item);
    assert chain != [] ==> chain[|chain| - 1] in chain;
  }

  /** With no balance below zero and no purchase of a live item left to post, phase 3 of 049 goes through. */
  lemma {:induction false} BackfillOfNonnegative(t: Tables, purchases: seq<Purchase>, ids: map<string, Uuid>)
    requires NothingNegative(t) && forall i :: i in t.items && !t.items[i].deleted ==> NothingPostedYet(t, purchases, ids, i)
    ensures SyncAllowed(t.items, Posted(t, purchases, ids))
  {
    var ledger := AfterPhase1(t.movements, t.log, t.items, ids);
    LegacyNonnegative(t.movements, t.log, t.items, ids);
    forall i | i in t.items && Synced(t.items, Posted(t, purchases, ids), i)
      ensures TailQty(Posted(t, purchases, ids), i) >= 0
    {
      NothingPosted(t, purchases, ids, i);
      OfItemMembers(ledger, i);
      TailNonnegative(Posted(t, purchases, ids), i);
    }
  }

  lemma {:induction false} NothingPosted(t: Tables, purchases: seq<Purchase>, ids: map<string, Uuid>, item: Uuid)
    requires NothingPostedYet(t, purchases, ids, item)
    ensures OfItem(Posted(t, purchases, ids), item) == OfItem(AfterPhase1(t.movements, t.log, t.items, ids), item)
  {
    var ledger := AfterPhase1(t.movements, t.log, t.items, ids);
    var eligible := Eligible(ledger, t.log, Receipts(purchases));
    NoBalancesOf(ledger, eligible, eligible, item);
    NoPostedOf(ledger, Phase2(ledger, t.log, purchases), t.items, ids, item);
    OfItemAppend(ledger, PostedRows(ledger, Phase2(ledger, t.log, purchases), t.items, ids), item);
  }

  lemma {:induction false} NoBalancesOf(ledger: seq<Movement>, rows: seq<Receipt>, todo: seq<Receipt>, item: Uuid)
    requires OfItem(todo, item) == []
    ensures OfItem(BalanceEach(ledger, rows, todo), item) == []
  {
    if todo != [] {
      NoBalancesOf(ledger, rows, todo[1..], item);
      assert BalanceEach(ledger, rows, todo)[1..] == BalanceEach(ledger, rows, todo[1..]);
    }
  }

  lemma {:induction false} NoPostedOf(ledger: seq<Movement>, receipts: seq<Receipt>, items: map<Uuid, Item>, ids: map<string, Uuid>, item: Uuid)
    requires OfItem(receipts, item) == []
    ensures OfItem(PostedRows(ledger, receipts, items, ids), item) == []
  {
    if receipts != [] {
      NoPostedOf(ledger, receipts[1..], items, ids, item);
      var rest := PostedRows(ledger, receipts[1..], items, ids);
      assert ([PostedMovement(receipts[0], ids)] + rest)[1..] == rest && [] + rest == rest;
    }
  }

  lemma {:induction false} ProjectedTablesGoThroughIff(t: Tables, start: map<Uuid, int>, purchases: seq<Purchase>, ids: map<string, Uuid>)
    requires Tracks(t, start) && UniqueKeys(t.movements) && NothingNegative(t)
    requires DistinctSources(t.log, purchases) && FreshIds(t.movements, t.log, purchases, ids)
    requires forall i :: i in t.items ==> LogTotal(t.log, i) == Total(OfItem(t.movements, i))
    requires forall i :: i in t.items && !t.items[i].deleted ==> NothingPostedYet(t, purchases, ids, i)
    ensures UpgradeGoesThrough(t, purchases, ids)
            <==> forall i :: i in t.items && !t.items[i].deleted ==> t.items[i].stock >= start[i]
  {
    BackfillOfNonnegative(t, purchases, ids);
    LiveUpgradeAllowedIff(t, start, purchases, ids);
    forall i | i in t.items && !t.items[i].deleted
      ensures t.items[i].stock + Added(t, purchases, ids, i) >= start[i] <==> t.items[i].stock >= start[i]
    {
      AddedAgain(t, start, purchases, ids, i);
    }
  }

  /** After a run of projecting requests from tables without a negative quantity, with nothing of a purchase to
      post, the upgrade goes through if and only if no live item is below its starting stock.  So it either
      counts every movement twice, or fails because some item has lost stock. */
  lemma {:induction false} ProjectedUpgradeGoesThroughIff(t: Tables, start: map<Uuid, int>, requests: seq<(Request, Supply)>,
                                                          purchases: seq<Purchase>, ids: map<string, Uuid>)
    requires Served(t, start, requests) && DistinctPurchases(purchases) && NothingNegative(t)
    requires forall i :: i in t.items ==> LogTotal(t.log, i) == Total(OfItem(t.movements, i))
    requires forall k :: 0 <= k < |requests| ==> requests[k].0.projection
    requires FreshIds(RunOf(t, requests).movements, RunOf(t, requests).log, purchases, ids)
    requires var served := RunOf(t, requests);
             forall i :: i in served.items && !served.items[i].deleted ==> NothingPostedYet(served, purchases, ids, i)
    ensures var served := RunOf(t, requests);
            && start.Keys == served.items.Keys
            && (UpgradeGoesThrough(served, purchases, ids)
                <==> forall i :: i in served.items && !served.items[i].deleted ==> served.items[i].stock >= start[i])
  {
    ServedTables(t, start, requests);
    RunKeepsNonnegative(t, requests);
    forall i | i in RunOf(t, requests).items
      ensures LogTotal(RunOf(t, requests).log, i) == Total(OfItem(RunOf(t, requests).movements, i))
    {
      ProjectedRun(t, requests, i);
    }
    ProjectedTablesGoThroughIff(RunOf(t, requests), start, purchases, ids);
  }

  lemma OneRow(m: Movement)
    ensures OfItem([m], m.item) == [m] && Chain([m], m.item) == [m] && Total([m]) == m.delta
  {
    assert [m][1..] == [] && [m] + [] == [m];
    assert Sort([m]) == Insert(m, Sort([m][1..]));
  }

  lemma OneRowTracks(t: Tables, m: Movement, start: int)
    requires t.movements == [m] && m.item in t.items
    requires m.before == start && m.after == start + m.delta == t.items[m.item].stock >= 0
    ensures TracksItem(t, m.item, start)
  {
    OneRow(m);
    assert [m][1..] == [];
    assert ConsistentFrom([m], start);
  }

  /** The smallest refusal of 050: an item that started at ten and is down to two. */
  lemma LostStockIsRefused(business: Uuid)
    ensures var m := Row(1, 0, 2, -8, 10, 2, MovementInfo(business, "usage", "k", false));
            var t := Tables([m], [], map[1 := Item(business, 2, 1, false)]);
            && Tracks(t, map[1 := 10])
            && !UpgradeGoesThrough(t, [], map[]) && Upgraded(t, [], map[]) == t
  {
    var m := Row(1, 0, 2, -8, 10, 2, MovementInfo(business, "usage", "k", false));
    var t := Tables([m], [], map[1 := Item(business, 2, 1, false)]);
    OneRowTracks(t, m, 10);
    assert Added(t, [], map[], 1) == 0;
    BelowStartIsRefused(t, map[1 := 10], [], map[], 1);
  }
}
