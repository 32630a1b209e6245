/** Balances and live stock after migration 049, and after 049 followed by 050. */
module StockAfterBackfill {
  import opened Numerals
  import opened Patterns
  import opened StockBackfill
  import opened StockBackfillTheorems
  import opened StockLedger
  import opened Windows

  // ----- chains -----

  /** The receipts of an item, in the order of commit time and purchase, form an unbroken chain from
      the ledger's tail to that tail plus the sum of what they deliver. */
  lemma {:induction false} ReceiptsFormChain(ledger: seq<Movement>, log: seq<LogRow>, purchases: seq<Purchase>, item: Uuid)
    requires DistinctPurchases(purchases)
    ensures var eligible := Eligible(ledger, log, Receipts(purchases));
            var chain := Chain(Phase2(ledger, log, purchases), item);
            && ConsistentFrom(chain, TailQty(ledger, item))
            && |chain| == |OfItem(eligible, item)|
            && Total(chain) == Total(OfItem(eligible, item))
            && (chain != [] ==> chain[|chain| - 1].after == TailQty(ledger, item) + Total(OfItem(eligible, item)))
  {
    var eligible := Eligible(ledger, log, Receipts(purchases));
    Phase2Receipts(ledger, log, purchases);
    RunningBalances(ledger, eligible, item);
    ChainOfBalances(ledger, eligible, eligible, item);
    TotalOfBalances(ledger, eligible, Chain(eligible, item));
    ChainMembers(eligible, item);
    var chain := Chain(Phase2(ledger, log, purchases), item);
    if chain != [] {
      ConsistentEnd(chain, TailQty(ledger, item));
    }
  }

  lemma {:induction false} OfItemAppend<T(!new)>(a: seq<Row<T>>, b: seq<Row<T>>, item: Uuid)
    ensures OfItem(a + b, item) == OfItem(a, item) + OfItem(b, item)
  {
    if a == [] {
      assert a + b == b;
    } else {
      assert (a + b)[1..] == a[1..] + b;
      OfItemAppend(a[1..], b, item);
    }
  }

  /** The posted rows of an item carry the same deltas as its receipts. */
  lemma {:induction false} PostedTotal(ledger: seq<Movement>, receipts: seq<Receipt>, items: map<Uuid, Item>, ids: map<string, Uuid>, item: Uuid)
    requires forall r :: r in receipts ==> !HasKey(ledger, ReceiptKey(r.id, r.item))
    ensures Total(OfItem(PostedRows(ledger, receipts, items, ids), item)) == if item in items then Total(OfItem(receipts, item)) else 0
  {
    if receipts != [] {
      var r := receipts[0];
      assert r in receipts;
      PostedTotal(ledger, receipts[1..], items, ids, item);
      var rest := PostedRows(ledger, receipts[1..], items, ids);
      assert [] + rest == rest;
      assert OfItem([PostedMovement(r, ids)] + rest, item) == (if r.item == item then [PostedMovement(r, ids)] else []) + OfItem(rest, item)
        by { assert ([PostedMovement(r, ids)] + rest)[1..] == rest; }
      var mine := OfItem(receipts[1..], item);
      assert ([r] + mine)[1..] == mine;
      assert ([PostedMovement(r, ids)] + OfItem(rest, item))[1..] == OfItem(rest, item);
    }
  }

  // ----- sums -----

  /** The deltas that 049 adds to the ledger of an item: those of the copied log rows and those of
      the posted receipts. */
  ghost function AddedDelta(movements: seq<Movement>, log: seq<LogRow>, purchases: seq<Purchase>, items: map<Uuid, Item>,
                            ids: map<string, Uuid>, item: Uuid): int {
    var ledger := AfterPhase1(movements, log, items, ids);
    Total(OfItem(LegacyRows(movements, log, items, ids), item)) + Total(OfItem(Eligible(ledger, log, Receipts(purchases)), item))
  }

  lemma {:induction false} TotalOfItemBalances(ledger: seq<Movement>, rows: seq<Receipt>, todo: seq<Receipt>, item: Uuid)
    ensures Total(OfItem(BalanceEach(ledger, rows, todo), item)) == Total(OfItem(todo, item))
  {
    ChainOfBalances(ledger, rows, todo, item);
    ChainMembers(BalanceEach(ledger, rows, todo), item);
    ChainMembers(todo, item);
    TotalOfBalances(ledger, rows, Chain(todo, item));
  }

  lemma {:induction false} BackfilledTotal(movements: seq<Movement>, log: seq<LogRow>, purchases: seq<Purchase>, items: map<Uuid, Item>,
                        ids: map<string, Uuid>, item: Uuid)
    requires DistinctPurchases(purchases) && item in items
    ensures Total(OfItem(Backfilled(movements, log, purchases, items, ids), item))
            == Total(OfItem(movements, item)) + AddedDelta(movements, log, purchases, items, ids, item)
  {
    var legacy := LegacyRows(movements, log, items, ids);
    var ledger := AfterPhase1(movements, log, items, ids);
    var eligible := Eligible(ledger, log, Receipts(purchases));
    var receipts := Phase2(ledger, log, purchases);
    Phase2Receipts(ledger, log, purchases);
    OfItemAppend(movements, legacy, item);
    TotalAppend(OfItem(movements, item), OfItem(legacy, item));
    OfItemAppend(ledger, PostedRows(ledger, receipts, items, ids), item);
    TotalAppend(OfItem(ledger, item), OfItem(PostedRows(ledger, receipts, items, ids), item));
    PostedTotal(ledger, receipts, items, ids, item);
    TotalOfItemBalances(ledger, eligible, eligible, item);
  }

  /** 049 and then 050 in one transaction meet the constraint on the stock. */
  predicate GoesThrough(movements: seq<Movement>, log: seq<LogRow>, purchases: seq<Purchase>, items: map<Uuid, Item>, ids: map<string, Uuid>) {
    var after049 := Backfilled(movements, log, purchases, items, ids);
    SyncAllowed(items, after049) && SyncAllowed(SyncFromTail(items, after049), Replayed(after049))
  }

  /** The items after that transaction: as they were when it fails. */
  function UpgradedItems(movements: seq<Movement>, log: seq<LogRow>, purchases: seq<Purchase>, items: map<Uuid, Item>,
                         ids: map<string, Uuid>): map<Uuid, Item> {
    var after049 := Backfilled(movements, log, purchases, items, ids);
    if GoesThrough(movements, log, purchases, items, ids) then SyncFromTail(SyncFromTail(items, after049), Replayed(after049)) else items
  }

  /** 049 followed by 050: whatever the timestamps, the stock of a live item with movements is the sum of all
      deltas, old and added, if the two go through, and what it was if they do not. */
  lemma {:induction false} StockAfterBackfillAndReplay(movements: seq<Movement>, log: seq<LogRow>, purchases: seq<Purchase>, items: map<Uuid, Item>,
                                    ids: map<string, Uuid>, item: Uuid)
    requires UniqueKeys(movements) && DistinctIds(movements)
    requires DistinctSources(log, purchases) && FreshIds(movements, log, purchases, ids)
    requires item in items && !items[item].deleted
    ensures var upgraded := UpgradedItems(movements, log, purchases, items, ids);
            && item in upgraded
            && upgraded[item].stock
               == if GoesThrough(movements, log, purchases, items, ids) && OfItem(Backfilled(movements, log, purchases, items, ids), item) != []
                  then Total(OfItem(movements, item)) + AddedDelta(movements, log, purchases, items, ids, item) else items[item].stock
  {
    var after049 := Backfilled(movements, log, purchases, items, ids);
    BackfillKeepsKeysUnique(movements, log, purchases, items, ids);
    ReplaySetsStockToSum(SyncFromTail(items, after049), after049);
    BackfilledTotal(movements, log, purchases, items, ids, item);
  }

  // ----- the tail by timestamp -----

  lemma {:induction false} LastOfSorted<T(!new)>(chain: seq<Row<T>>, k: nat)
    requires StrictlySorted(chain) && k < |chain| - 1
    ensures Earlier(chain[k], chain[|chain| - 1])
  {
    if k == 0 {
      assert chain[|chain| - 1] == chain[1..][|chain| - 2];
      assert chain[1..][|chain| - 2] in chain[1..];
    } else {
      LastOfSorted(chain[1..], k - 1);
    }
  }

  /** The latest row of an item decides its tail quantity. */
  lemma {:induction false} LatestIsTail<T(!new)>(rows: seq<Row<T>>, m: Row<T>)
    requires DistinctIds(rows) && m in rows
    requires forall x :: x in rows && x.item == m.item && x != m ==> Earlier(x, m)
    ensures TailQty(rows, m.item) == m.after
  {
    var chain := Chain(rows, m.item);
    ChainSorted(rows, m.item);
    ChainMembers(rows, m.item);
    ChainAt(rows, m.item);
    assert m in chain;
    var k :| 0 <= k < |chain| && chain[k] == m;
    if k < |chain| - 1 {
      LastOfSorted(chain, k);
    }
  }

  /** The tail row of an item that has rows: later than all its other rows. */
  lemma TailRow<T(!new)>(rows: seq<Row<T>>, item: Uuid) returns (m: Row<T>)
    requires DistinctIds(rows) && OfItem(rows, item) != []
    ensures m in rows && m.item == item && m == Chain(rows, item)[|Chain(rows, item)| - 1] && TailQty(rows, item) == m.after
    ensures forall x :: x in rows && x.item == item && x != m ==> Earlier(x, m)
  {
    var chain := Chain(rows, item);
    ChainSorted(rows, item);
    ChainMembers(rows, item);
    ChainAt(rows, item);
    m := chain[|chain| - 1];
    forall x | x in rows && x.item == item && x != m
      ensures Earlier(x, m)
    {
      assert x in chain;
      var k :| 0 <= k < |chain| && chain[k] == x;
      LastOfSorted(chain, k);
    }
  }

  /** `latest` is the last receipt of its item and no other receipt has its commit time. */
  ghost predicate StrictlyLatest(receipts: seq<Receipt>, latest: Receipt) {
    latest in receipts && forall r :: r in receipts && r.item == latest.item && r != latest ==> r.at < latest.at
  }

  /** The posted row of a receipt of an existing item is in the ledger. */
  lemma {:induction false} PostedIsThere(ledger: seq<Movement>, log: seq<LogRow>, purchases: seq<Purchase>, items: map<Uuid, Item>, ids: map<string, Uuid>, r: Receipt)
    requires DistinctPurchases(purchases) && r in Phase2(ledger, log, purchases) && r.item in items
    ensures PostedMovement(r, ids) in AfterPhase2(ledger, log, purchases, items, ids)
  {
    Phase2Receipts(ledger, log, purchases);
    PostedRowsMembers(ledger, Phase2(ledger, log, purchases), items, ids);
  }

  lemma AfterPhase2Members(ledger: seq<Movement>, log: seq<LogRow>, purchases: seq<Purchase>, items: map<Uuid, Item>, ids: map<string, Uuid>, m: Movement)
    requires m in AfterPhase2(ledger, log, purchases, items, ids) && m !in ledger
    ensures exists r :: r in Phase2(ledger, log, purchases) && m == PostedMovement(r, ids)
  {
    PostedRowsMembers(ledger, Phase2(ledger, log, purchases), items, ids);
  }

  /** Balances along a consistent chain. */
  lemma {:induction false} ConsistentUpTo<T(!new)>(chain: seq<Row<T>>, q: int, k: nat)
    requires ConsistentFrom(chain, q) && 0 < k <= |chain|
    ensures chain[k - 1].after == q + Total(chain[..k])
  {
    ConsistentAt(chain, q, k - 1);
    assert chain[..k] == chain[..k - 1] + [chain[k - 1]];
    TotalAppend(chain[..k - 1], [chain[k - 1]]);
  }

  lemma {:induction false} TotalSplit<T(!new)>(chain: seq<Row<T>>, k: nat)
    requires k <= |chain|
    ensures Total(chain) == Total(chain[..k]) + Total(chain[k..])
  {
    assert chain == chain[..k] + chain[k..];
    TotalAppend(chain[..k], chain[k..]);
  }

  /** The place, in the chain of its item, of the receipt that a new row was posted for. */
  lemma {:induction false} PlaceOf(ledger: seq<Movement>, log: seq<LogRow>, purchases: seq<Purchase>, items: map<Uuid, Item>, ids: map<string, Uuid>,
                                   m: Movement) returns (k: nat)
    requires m in AfterPhase2(ledger, log, purchases, items, ids) && m !in ledger
    ensures k < |Chain(Phase2(ledger, log, purchases), m.item)|
    ensures m == PostedMovement(Chain(Phase2(ledger, log, purchases), m.item)[k], ids)
  {
    AfterPhase2Members(ledger, log, purchases, items, ids, m);
    var r :| r in Phase2(ledger, log, purchases) && m == PostedMovement(r, ids);
    ChainMembers(Phase2(ledger, log, purchases), m.item);
    assert r in Chain(Phase2(ledger, log, purchases), m.item);
    k :| 0 <= k < |Chain(Phase2(ledger, log, purchases), m.item)| && Chain(Phase2(ledger, log, purchases), m.item)[k] == r;
  }

  lemma {:induction false} OldTail(ledger: seq<Movement>, after: seq<Movement>, m: Movement)
    requires DistinctIds(ledger) && (forall x :: x in ledger ==> x in after) && m in ledger
    requires forall x :: x in after && x.item == m.item && x != m ==> Earlier(x, m)
    ensures TailQty(ledger, m.item) == m.after
  {
    LatestIsTail(ledger, m);
  }

  /** The latest row of an item after phase 2, and how many receipts of the item's chain come up to it: none
      when it is an old row. */
  lemma {:induction false} LatestRow(ledger: seq<Movement>, log: seq<LogRow>, purchases: seq<Purchase>, items: map<Uuid, Item>,
                                     ids: map<string, Uuid>, item: Uuid) returns (m: Movement, k: nat)
    requires DistinctPurchases(purchases) && DistinctIds(ledger) && DistinctIds(AfterPhase2(ledger, log, purchases, items, ids))
    requires OfItem(AfterPhase2(ledger, log, purchases, items, ids), item) != []
    ensures m in AfterPhase2(ledger, log, purchases, items, ids) && m.item == item
    ensures forall x :: x in AfterPhase2(ledger, log, purchases, items, ids) && x.item == item && x != m ==> Earlier(x, m)
    ensures TailQty(AfterPhase2(ledger, log, purchases, items, ids), item) == m.after
    ensures k <= |Chain(Phase2(ledger, log, purchases), item)| && (k == 0 <==> m in ledger)
    ensures k > 0 ==> m == PostedMovement(Chain(Phase2(ledger, log, purchases), item)[k - 1], ids)
  {
    m := TailRow(AfterPhase2(ledger, log, purchases, items, ids), item);
    k := 0;
    if m !in ledger {
      var j := PlaceOf(ledger, log, purchases, items, ids, m);
      k := j + 1;
    }
  }

  lemma {:induction false} LatestRowQty(ledger: seq<Movement>, log: seq<LogRow>, purchases: seq<Purchase>, items: map<Uuid, Item>,
                                        ids: map<string, Uuid>, m: Movement, k: nat)
    requires DistinctPurchases(purchases) && DistinctIds(ledger)
    requires forall x :: x in AfterPhase2(ledger, log, purchases, items, ids) && x.item == m.item && x != m ==> Earlier(x, m)
    requires k <= |Chain(Phase2(ledger, log, purchases), m.item)| && (k == 0 <==> m in ledger)
    requires k > 0 ==> m == PostedMovement(Chain(Phase2(ledger, log, purchases), m.item)[k - 1], ids)
    ensures m.after == TailQty(ledger, m.item) + Total(Chain(Phase2(ledger, log, purchases), m.item)[..k])
  {
    var chain := Chain(Phase2(ledger, log, purchases), m.item);
    if k == 0 {
      OldTail(ledger, AfterPhase2(ledger, log, purchases, items, ids), m);
    } else {
      ReceiptsFormChain(ledger, log, purchases, m.item);
      ConsistentUpTo(chain, TailQty(ledger, m.item), k);
      ConsistentAt(chain, TailQty(ledger, m.item), k - 1);
    }
  }

  /** Phase 3 reads the tail by `(created_at, id)`.  Whatever the timestamps, ties included: if no live item
      ends below zero, the stock becomes the old tail plus the deltas of the first k receipts of the chain,
      where the k-th receipt is the one whose row is the latest of the item, and k is zero when that row is an
      old one.  So the stock reaches the end of the chain if and only if the receipts after the k-th add up to
      nothing. */
  lemma {:induction false} StockAfterBackfillIff(ledger: seq<Movement>, log: seq<LogRow>, purchases: seq<Purchase>, items: map<Uuid, Item>,
                                                 ids: map<string, Uuid>, item: Uuid) returns (m: Movement, k: nat)
    requires DistinctPurchases(purchases) && DistinctIds(ledger) && DistinctIds(AfterPhase2(ledger, log, purchases, items, ids))
    requires item in items && !items[item].deleted && OfItem(AfterPhase2(ledger, log, purchases, items, ids), item) != []
    ensures m in AfterPhase2(ledger, log, purchases, items, ids) && m.item == item
    ensures forall x :: x in AfterPhase2(ledger, log, purchases, items, ids) && x.item == item && x != m ==> Earlier(x, m)
    ensures k <= |Chain(Phase2(ledger, log, purchases), item)| && (k == 0 <==> m in ledger)
    ensures k > 0 ==> m == PostedMovement(Chain(Phase2(ledger, log, purchases), item)[k - 1], ids)
    ensures var chain, after := Chain(Phase2(ledger, log, purchases), item), AfterPhase2(ledger, log, purchases, items, ids);
            var stock := AttemptedSync(items, after)[item].stock;
            && stock == (if SyncAllowed(items, after) then TailQty(ledger, item) + Total(chain[..k]) else items[item].stock)
            && (SyncAllowed(items, after) ==>
                  (stock == TailQty(ledger, item) + Total(OfItem(Eligible(ledger, log, Receipts(purchases)), item)) <==> Total(chain[k..]) == 0))
  {
    m, k := LatestRow(ledger, log, purchases, items, ids, item);
    LatestRowQty(ledger, log, purchases, items, ids, m, k);
    ReceiptsFormChain(ledger, log, purchases, item);
    TotalSplit(Chain(Phase2(ledger, log, purchases), item), k);
  }

  /** In particular, when the last receipt of an item is strictly the latest of its receipts and shares its
      commit time with no old row, and phase 3 goes through: the stock becomes the end of the receipt chain
      exactly when that receipt is later than everything that was there, or the receipts add up to nothing;
      otherwise it is the old tail. */
  lemma {:induction false} StockAfterBackfill(ledger: seq<Movement>, log: seq<LogRow>, purchases: seq<Purchase>, items: map<Uuid, Item>,
                           ids: map<string, Uuid>, latest: Receipt)
    requires DistinctPurchases(purchases) && DistinctIds(ledger)
    requires DistinctIds(AfterPhase2(ledger, log, purchases, items, ids))
    requires latest.item in items && !items[latest.item].deleted
    requires StrictlyLatest(Phase2(ledger, log, purchases), latest)
    requires forall m :: m in ledger && m.item == latest.item ==> m.at != latest.at
    ensures var item, after := latest.item, AfterPhase2(ledger, log, purchases, items, ids);
            var delivered := Total(OfItem(Eligible(ledger, log, Receipts(purchases)), item));
            && Synced(items, after, item)
            && (SyncAllowed(items, after) ==>
                  && (AttemptedSync(items, after)[item].stock == TailQty(ledger, item) + delivered
                      <==> (forall m :: m in ledger && m.item == item ==> m.at < latest.at) || delivered == 0)
                  && (!(forall m :: m in ledger && m.item == item ==> m.at < latest.at)
                      ==> AttemptedSync(items, after)[item].stock == TailQty(ledger, item)))
            && (!SyncAllowed(items, after) ==> AttemptedSync(items, after)[item].stock == items[item].stock)
  {
    var item, after := latest.item, AfterPhase2(ledger, log, purchases, items, ids);
    PostedIsThere(ledger, log, purchases, items, ids, latest);
    OfItemMembers(after, item);
    assert PostedMovement(latest, ids) in OfItem(after, item);
    var m, k := StockAfterBackfillIff(ledger, log, purchases, items, ids, item);
    assert m.at >= latest.at by {
      assert PostedMovement(latest, ids) == m || Earlier(PostedMovement(latest, ids), m);
    }
    Phase2DistinctIds(ledger, log, purchases);
    LatestPlace(ledger, Phase2(ledger, log, purchases), latest, m, k);
    ReceiptsFormChain(ledger, log, purchases, item);
    assert Chain(Phase2(ledger, log, purchases), item)[..|Chain(Phase2(ledger, log, purchases), item)|] == Chain(Phase2(ledger, log, purchases), item);
  }

  /** The latest row is that of such a receipt, which then has the last place in its chain, or it is an old row. */
  lemma {:induction false} LatestPlace(ledger: seq<Movement>, receipts: seq<Receipt>, latest: Receipt, m: Movement, k: nat)
    requires DistinctIds(receipts) && StrictlyLatest(receipts, latest) && m.item == latest.item && m.at >= latest.at
    requires forall x :: x in ledger && x.item == latest.item ==> x.at != latest.at
    requires forall x :: x in ledger && x.item == latest.item && x != m ==> Earlier(x, m)
    requires k <= |Chain(receipts, latest.item)| && (k == 0 <==> m in ledger)
    requires k > 0 ==> m.at == Chain(receipts, latest.item)[k - 1].at
    ensures k == if forall x :: x in ledger && x.item == latest.item ==> x.at < latest.at then |Chain(receipts, latest.item)| else 0
  {
    if k > 0 {
      LastPlace(receipts, latest, k);
    }
  }

  lemma {:induction false} LastPlace(receipts: seq<Receipt>, latest: Receipt, k: nat)
    requires DistinctIds(receipts) && StrictlyLatest(receipts, latest)
    requires 0 < k <= |Chain(receipts, latest.item)| && Chain(receipts, latest.item)[k - 1].at >= latest.at
    ensures k == |Chain(receipts, latest.item)| && Chain(receipts, latest.item)[k - 1] == latest
  {
    var chain := Chain(receipts, latest.item);
    LatestIsLast(receipts, latest);
    ChainMembers(receipts, latest.item);
    ChainSorted(receipts, latest.item);
    assert chain[k - 1] in chain;
    if k < |chain| {
      LastOfSorted(chain, k - 1);
    }
  }

  lemma {:induction false} Phase2DistinctIds(ledger: seq<Movement>, log: seq<LogRow>, purchases: seq<Purchase>)
    requires DistinctPurchases(purchases)
    ensures DistinctIds(Phase2(ledger, log, purchases))
  {
    Phase2Receipts(ledger, log, purchases);
    DistinctReceiptIds(Phase2(ledger, log, purchases));
  }

  lemma {:induction false} LatestIsLast(receipts: seq<Receipt>, latest: Receipt)
    requires DistinctIds(receipts) && StrictlyLatest(receipts, latest)
    ensures Chain(receipts, latest.item) != [] && Chain(receipts, latest.item)[|Chain(receipts, latest.item)| - 1] == latest
  {
    OfItemMembers(receipts, latest.item);
    var last := TailRow(receipts, latest.item);
  }

  // ----- running the migration twice, and undoing it -----

  lemma {:induction false} LegacyRowsCover(movements: seq<Movement>, log: seq<LogRow>, items: map<Uuid, Item>, ids: map<string, Uuid>, later: seq<Movement>, ids': map<string, Uuid>)
    requires forall m :: m in movements ==> m in later
    requires forall m :: m in LegacyRows(movements, log, items, ids) ==> m in later
    ensures LegacyRows(later, log, items, ids') == []
  {
    if log != [] {
      var l := log[0];
      var rest := LegacyRows(movements, log[1..], items, ids);
      if l.item in items && !HasKey(movements, LegacyKey(l.id)) {
        assert LegacyMovement(l, ids) in LegacyRows(movements, log, items, ids);
        assert LegacyMovement(l, ids).data.key == LegacyKey(l.id);
      } else if l.item in items {
        var m :| m in movements && m.data.key == LegacyKey(l.id);
        assert m in later;
      }
      LegacyRowsCover(movements, log[1..], items, ids, later, ids');
    }
  }

  lemma {:induction false} NothingPosted(ledger: seq<Movement>, receipts: seq<Receipt>, items: map<Uuid, Item>, ids: map<string, Uuid>)
    requires forall r :: r in receipts ==> r.item !in items
    ensures PostedRows(ledger, receipts, items, ids) == []
  {
    if receipts != [] {
      assert receipts[0] in receipts;
      NothingPosted(ledger, receipts[1..], items, ids);
    }
  }

  /** After phase 2 every receipt of an existing item that the log does not mention has its key. */
  lemma {:induction false} ReceiptHasKey(ledger: seq<Movement>, log: seq<LogRow>, purchases: seq<Purchase>, items: map<Uuid, Item>, ids: map<string, Uuid>, e: Receipt)
    requires DistinctPurchases(purchases)
    requires e in Receipts(purchases) && !LoggedAlready(log, e) && e.item in items
    ensures HasKey(AfterPhase2(ledger, log, purchases, items, ids), ReceiptKey(e.id, e.item))
  {
    var key, after := ReceiptKey(e.id, e.item), AfterPhase2(ledger, log, purchases, items, ids);
    if HasKey(ledger, key) {
      var m :| m in ledger && m.data.key == key;
      assert m in after;
    } else {
      var eligible := Eligible(ledger, log, Receipts(purchases));
      EligibleMembers(ledger, log, Receipts(purchases));
      var i :| 0 <= i < |eligible| && eligible[i] == e;
      var r := WithBalances(ledger, eligible)[i];
      PostedIsThere(ledger, log, purchases, items, ids, r);
      assert PostedMovement(r, ids).data.key == key;
    }
  }

  /** Running the backfill again, with any newly drawn ids, adds nothing. */
  lemma {:induction false} BackfillIdempotent(movements: seq<Movement>, log: seq<LogRow>, purchases: seq<Purchase>, items: map<Uuid, Item>, items': map<Uuid, Item>,
                           ids: map<string, Uuid>, ids': map<string, Uuid>)
    requires DistinctPurchases(purchases) && items'.Keys == items.Keys
    ensures Backfilled(Backfilled(movements, log, purchases, items, ids), log, purchases, items', ids')
            == Backfilled(movements, log, purchases, items, ids)
  {
    var ledger, once := AfterPhase1(movements, log, items, ids), Backfilled(movements, log, purchases, items, ids);
    LegacyRowsSameItems(once, log, items, items', ids');
    LegacyRowsCover(movements, log, items, ids, once, ids');
    assert AfterPhase1(once, log, items', ids') == once;
    var again := Phase2(once, log, purchases);
    Phase2Receipts(once, log, purchases);
    forall r | r in again
      ensures r.item !in items'
    {
      var e :| e in Receipts(purchases) && IsEligible(once, log, e) && e.id == r.id && e.item == r.item;
      if e.item in items {
        ReceiptHasKey(ledger, log, purchases, items, ids, e);
      }
    }
    NothingPosted(once, again, items', ids');
  }

  lemma {:induction false} LegacyRowsSameItems(movements: seq<Movement>, log: seq<LogRow>, items: map<Uuid, Item>, items': map<Uuid, Item>, ids: map<string, Uuid>)
    requires items'.Keys == items.Keys
    ensures LegacyRows(movements, log, items', ids) == LegacyRows(movements, log, items, ids)
  {
    if log != [] {
      LegacyRowsSameItems(movements, log[1..], items, items', ids);
      assert log[0].item in items' <==> log[0].item in items;
    }
  }

  /** The tail sync is idempotent as well, so a second run of 049 changes neither table. */
  lemma SyncIdempotent(items: map<Uuid, Item>, movements: seq<Movement>)
    ensures SyncFromTail(SyncFromTail(items, movements), movements) == SyncFromTail(items, movements)
  {
  }

  lemma {:induction false} DowngradeAppend(a: seq<Movement>, b: seq<Movement>)
    ensures Downgraded(a + b) == Downgraded(a) + Downgraded(b)
  {
    if a == [] {
      assert a + b == b;
    } else {
      assert (a + b)[1..] == a[1..] + b;
      DowngradeAppend(a[1..], b);
    }
  }

  lemma {:induction false} DowngradeDropsAll(rows: seq<Movement>)
    requires forall m :: m in rows ==> LooksBackfilled(m)
    ensures Downgraded(rows) == []
  {
    if rows != [] {
      assert rows[0] in rows;
      DowngradeDropsAll(rows[1..]);
    }
  }

  lemma {:induction false} DowngradeKeepsAllIff(rows: seq<Movement>)
    ensures |Downgraded(rows)| <= |rows|
    ensures Downgraded(rows) == rows <==> forall m :: m in rows ==> !LooksBackfilled(m)
  {
    if rows != [] {
      DowngradeKeepsAllIff(rows[1..]);
      assert rows == [rows[0]] + rows[1..];
      var rest := Downgraded(rows[1..]);
      assert Downgraded(rows) == (if LooksBackfilled(rows[0]) then rest else [rows[0]] + rest);
      if !LooksBackfilled(rows[0]) && Downgraded(rows) == rows {
        assert rest == Downgraded(rows)[1..] == rows[1..];
      }
      if LooksBackfilled(rows[0]) {
        assert rows[0] in rows && |rest| < |rows|;
      }
    }
  }

  /** What the filter on keys matches: any character will do for its underscore. */
  lemma {:induction false} FilterMatchesIff(key: string)
    ensures Like(key, "legacy_adj:%") <==> |key| >= 11 && key[..6] == "legacy" && key[7..11] == "adj:"
  {
    var literal := "legacy_adj:";
    assert literal + "%" == "legacy_adj:%";
    LikePrefixIff(key, literal);
    if |key| >= 11 {
      assert literal[..6] == "legacy" && literal[6] == '_' && literal[7..] == "adj:";
      if StartsLike(key, literal) {
        forall i | 0 <= i < 4
          ensures key[7..11][i] == "adj:"[i]
        {
          assert literal[7 + i] == key[7 + i];
        }
        assert key[7..11] == "adj:";
        assert key[..6] == "legacy";
      }
      if key[..6] == "legacy" && key[7..11] == "adj:" {
        forall i | 0 <= i < 11 && i != 6
          ensures literal[i] == key[i]
        {
          assert i < 6 ==> key[i] == key[..6][i];
          assert i > 6 ==> key[i] == key[7..11][i - 7];
        }
      }
    }
  }

  /** So the downgrade can delete a live movement that no migration has written. */
  lemma {:induction false} ForeignKeyIsDeleted(m: Movement)
    requires m.data.key == "legacyXadj:1" && !m.data.backfill
    ensures forall l: LogRow :: LegacyKey(l.id) != m.data.key
    ensures Downgraded([m]) == []
  {
    var key := "legacyXadj:1";
    FilterMatchesIff(key);
    assert key[..6] == "legacy" && key[7..11] == "adj:";
    forall l: LogRow
      ensures LegacyKey(l.id) != key
    {
      assert LegacyKey(l.id)[6] == "legacy_adj:"[6] && key[6] == 'X';
    }
    assert [m][1..] == [];
  }

  lemma {:induction false} LegacyRowsLookBackfilled(movements: seq<Movement>, log: seq<LogRow>, items: map<Uuid, Item>, ids: map<string, Uuid>)
    ensures forall m :: m in LegacyRows(movements, log, items, ids) ==> LooksBackfilled(m)
  {
    if log != [] {
      LegacyRowsLookBackfilled(movements, log[1..], items, ids);
      FilterMatchesIff(LegacyKey(log[0].id));
    }
  }

  lemma {:induction false} PostedRowsLookBackfilled(ledger: seq<Movement>, receipts: seq<Receipt>, items: map<Uuid, Item>, ids: map<string, Uuid>)
    ensures forall m :: m in PostedRows(ledger, receipts, items, ids) ==> LooksBackfilled(m)
  {
    if receipts != [] {
      PostedRowsLookBackfilled(ledger, receipts[1..], items, ids);
    }
  }

  /** Downgrading after an upgrade restores the movements exactly when no original row matches the
      downgrade's filter; note that the underscore in the filter matches any character. */
  lemma DowngradeUndoesUpgradeIff(movements: seq<Movement>, log: seq<LogRow>, purchases: seq<Purchase>, items: map<Uuid, Item>, ids: map<string, Uuid>)
    ensures Downgraded(Backfilled(movements, log, purchases, items, ids)) == movements
            <==> forall m :: m in movements ==> !LooksBackfilled(m)
  {
    var legacy := LegacyRows(movements, log, items, ids);
    var ledger := AfterPhase1(movements, log, items, ids);
    var posted := PostedRows(ledger, Phase2(ledger, log, purchases), items, ids);
    LegacyRowsLookBackfilled(movements, log, items, ids);
    PostedRowsLookBackfilled(ledger, Phase2(ledger, log, purchases), items, ids);
    DowngradeDropsAll(legacy);
    DowngradeDropsAll(posted);
    DowngradeAppend(movements, legacy);
    DowngradeAppend(ledger, posted);
    assert Downgraded(Backfilled(movements, log, purchases, items, ids)) == Downgraded(movements);
    DowngradeKeepsAllIff(movements);
  }
}
