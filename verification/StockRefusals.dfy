/** When the constraint that live stock is never negative refuses migrations 049 and 050.  It is older than
    both, and a refusal undoes the whole transaction. */
module StockRefusals {
  import opened Numerals
  import opened Options
  import opened StockAfterBackfill
  import opened StockBackfill
  import opened StockBackfillTheorems
  import opened StockLedger
  import opened Windows

  // ----- 049 -----

  ghost predicate IsLatest(rows: seq<Movement>, m: Movement) {
    m in rows && forall x :: x in rows && x.item == m.item && x != m ==> Earlier(x, m)
  }

  /** The latest row of an item after phase 2 is an old one and k is zero, or it is the row of the k-th receipt
      in the item's chain. */
  ghost predicate EndsAt(ledger: seq<Movement>, log: seq<LogRow>, purchases: seq<Purchase>, items: map<Uuid, Item>, ids: map<string, Uuid>,
                         item: Uuid, k: nat, m: Movement) {
    && m.item == item && IsLatest(AfterPhase2(ledger, log, purchases, items, ids), m)
    && k <= |Chain(Phase2(ledger, log, purchases), item)| && (k == 0 <==> m in ledger)
    && (k > 0 ==> m == PostedMovement(Chain(Phase2(ledger, log, purchases), item)[k - 1], ids))
  }

  /** What phase 3 then writes. */
  ghost function UpTo(ledger: seq<Movement>, log: seq<LogRow>, purchases: seq<Purchase>, item: Uuid, k: nat): int
    requires k <= |Chain(Phase2(ledger, log, purchases), item)|
  {
    TailQty(ledger, item) + Total(Chain(Phase2(ledger, log, purchases), item)[..k])
  }

  lemma {:induction false} EndsSomewhere(ledger: seq<Movement>, log: seq<LogRow>, purchases: seq<Purchase>, items: map<Uuid, Item>,
                                         ids: map<string, Uuid>, item: Uuid) returns (k: nat, m: Movement)
    requires DistinctPurchases(purchases) && DistinctIds(ledger) && DistinctIds(AfterPhase2(ledger, log, purchases, items, ids))
    requires OfItem(AfterPhase2(ledger, log, purchases, items, ids), item) != []
    ensures EndsAt(ledger, log, purchases, items, ids, item, k, m)
  {
    m, k := LatestRow(ledger, log, purchases, items, ids, item);
  }

  lemma {:induction false} EndQty(ledger: seq<Movement>, log: seq<LogRow>, purchases: seq<Purchase>, items: map<Uuid, Item>, ids: map<string, Uuid>,
                                  item: Uuid, k: nat, m: Movement)
    requires DistinctPurchases(purchases) && DistinctIds(ledger) && DistinctIds(AfterPhase2(ledger, log, purchases, items, ids))
    requires EndsAt(ledger, log, purchases, items, ids, item, k, m)
    ensures TailQty(AfterPhase2(ledger, log, purchases, items, ids), item) == UpTo(ledger, log, purchases, item, k)
  {
    LatestIsTail(AfterPhase2(ledger, log, purchases, items, ids), m);
    LatestRowQty(ledger, log, purchases, items, ids, m, k);
  }

  /** Phase 3 goes through if and only if, for every live item with rows, the old tail and the deltas of the
      receipts up to its latest row add up to nothing negative.  Every such item has such a row. */
  lemma {:induction false} BackfillAllowedIff(ledger: seq<Movement>, log: seq<LogRow>, purchases: seq<Purchase>, items: map<Uuid, Item>,
                                              ids: map<string, Uuid>)
    requires DistinctPurchases(purchases) && DistinctIds(ledger) && DistinctIds(AfterPhase2(ledger, log, purchases, items, ids))
    ensures var after := AfterPhase2(ledger, log, purchases, items, ids);
            && (SyncAllowed(items, after)
                <==> forall i, k, m :: Synced(items, after, i) && EndsAt(ledger, log, purchases, items, ids, i, k, m)
                                       ==> UpTo(ledger, log, purchases, i, k) >= 0)
            && forall i :: Synced(items, after, i) ==> exists k, m :: EndsAt(ledger, log, purchases, items, ids, i, k, m)
  {
    var after := AfterPhase2(ledger, log, purchases, items, ids);
    forall i, k, m | EndsAt(ledger, log, purchases, items, ids, i, k, m)
      ensures TailQty(after, i) == UpTo(ledger, log, purchases, i, k)
    {
      EndQty(ledger, log, purchases, items, ids, i, k, m);
    }
    forall i | Synced(items, after, i)
      ensures exists k, m :: EndsAt(ledger, log, purchases, items, ids, i, k, m)
    {
      var k, m := EndsSomewhere(ledger, log, purchases, items, ids, i);
    }
  }

  /** The same for 049 as a whole, whose phase 1 has added the log rows to the ledger. */
  lemma {:induction false} UpgradeAllowedIff(movements: seq<Movement>, log: seq<LogRow>, purchases: seq<Purchase>, items: map<Uuid, Item>,
                                             ids: map<string, Uuid>)
    requires UniqueKeys(movements) && DistinctIds(movements)
    requires DistinctSources(log, purchases) && FreshIds(movements, log, purchases, ids)
    ensures var ledger, after049 := AfterPhase1(movements, log, items, ids), Backfilled(movements, log, purchases, items, ids);
            SyncAllowed(items, after049)
            <==> forall i, k, m :: Synced(items, after049, i) && EndsAt(ledger, log, purchases, items, ids, i, k, m)
                                   ==> UpTo(ledger, log, purchases, i, k) >= 0
  {
    BackfillKeepsKeysUnique(movements, log, purchases, items, ids);
    Phase1Safe(movements, log, purchases, items, ids);
    BackfillAllowedIff(AfterPhase1(movements, log, items, ids), log, purchases, items, ids);
  }

  /** The smallest input that 049 refuses: one log row that ends below zero. */
  lemma NegativeLogIsRefused(business: Uuid, ids: map<string, Uuid>)
    ensures var items: map<Uuid, Item> := map[1 := Item(business, 0, 0, false)];
            var after049 := Backfilled([], [LogRow(2, business, 1, "correction", 0, -5, None, 0)], [], items, ids);
            !SyncAllowed(items, after049) && AttemptedSync(items, after049) == items
  {
    var l := LogRow(2, business, 1, "correction", 0, -5, None, 0);
    var items: map<Uuid, Item> := map[1 := Item(business, 0, 0, false)];
    var m := LegacyMovement(l, ids);
    assert [l][1..] == [] && LegacyRows([], [l], items, ids) == [m];
    assert [] + [m] == [m] && Backfilled([], [l], [], items, ids) == [m];
    assert [m][1..] == [] && [m] + [] == [m] && OfItem([m], 1) == [m];
    assert Sort([m]) == Insert(m, Sort([m][1..]));
    assert Synced(items, [m], 1) && TailQty([m], 1) == -5;
  }

  // ----- 050 after 049 -----

  /** The first sync does not change what the second is allowed to do. */
  lemma AllowedAfterSync(items: map<Uuid, Item>, before: seq<Movement>, movements: seq<Movement>)
    ensures SyncAllowed(SyncFromTail(items, before), movements) <==> SyncAllowed(items, movements)
  {
    var synced := SyncFromTail(items, before);
    assert forall i :: Synced(synced, movements, i) <==> Synced(items, movements, i);
  }

  /** After 049, 050 goes through if and only if no live item's deltas, old and added, sum to a negative
      quantity. */
  lemma {:induction false} ReplayAfterBackfillAllowedIff(movements: seq<Movement>, log: seq<LogRow>, purchases: seq<Purchase>, items: map<Uuid, Item>,
                                                         ids: map<string, Uuid>)
    requires UniqueKeys(movements) && DistinctIds(movements)
    requires DistinctSources(log, purchases) && FreshIds(movements, log, purchases, ids)
    ensures var after049 := Backfilled(movements, log, purchases, items, ids);
            SyncAllowed(SyncFromTail(items, after049), Replayed(after049))
            <==> forall i :: i in items && !items[i].deleted
                   ==> Total(OfItem(movements, i)) + AddedDelta(movements, log, purchases, items, ids, i) >= 0
  {
    var after049 := Backfilled(movements, log, purchases, items, ids);
    BackfillKeepsKeysUnique(movements, log, purchases, items, ids);
    AllowedAfterSync(items, after049, Replayed(after049));
    ReplayAllowedIff(items, after049);
    forall i | i in items
      ensures Total(OfItem(after049, i)) == Total(OfItem(movements, i)) + AddedDelta(movements, log, purchases, items, ids, i)
    {
      BackfilledTotal(movements, log, purchases, items, ids, i);
    }
  }
}
