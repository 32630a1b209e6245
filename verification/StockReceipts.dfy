/** Which row 049 inserts for a purchase and an item, from the purchase, the ledger and the adjustment log
    alone. */
module StockReceipts {
  import opened Numerals
  import opened Options
  import opened Patterns
  import opened StockAfterBackfill
  import opened StockBackfill
  import opened StockBackfillTheorems
  import opened StockLedger
  import opened StockRounding
  import opened Texts
  import opened Windows

  /** A "purchase" row of the item in the adjustment log whose reason names the purchase, letter case aside. */
  ghost predicate Names(l: LogRow, humanId: string, item: Uuid) {
    && l.item == item && l.adjustmentType == "purchase"
    && l.reason.Some? && Contains(Lower(l.reason.value), Lower(humanId))
  }

  ghost predicate NamedInLog(log: seq<LogRow>, humanId: string, item: Uuid) {
    exists l :: l in log && Names(l, humanId, item)
  }

  /** Goods of the item are in stock from this purchase, which is neither deleted nor cancelled. */
  ghost predicate Delivers(p: Purchase, item: Uuid) {
    && p.deliveryStatus == "stock_committed" && p.status != "deleted" && p.status != "cancelled"
    && SumExact(LinesOf(p.lines, item)) > 0.0
  }

  /** When they were committed: the commit time if there is one, else the delivery, else the last update. */
  ghost predicate IsCommitTime(p: Purchase, at: int) {
    && (p.stockCommittedAt.Some? ==> at == p.stockCommittedAt.value)
    && (p.stockCommittedAt.None? && p.deliveredAt.Some? ==> at == p.deliveredAt.value)
    && (p.stockCommittedAt.None? && p.deliveredAt.None? ==> at == p.updatedAt)
  }

  /** The row of a delivery: the quantity of the group, received at the commit time, marked as backfilled. */
  ghost predicate IsDelivery(m: Movement, p: Purchase, item: Uuid) {
    && m.item == item && m.delta == SumQty(LinesOf(p.lines, item)) && m.after == m.before + m.delta && IsCommitTime(p, m.at)
    && m.data.business == p.business && m.data.kind == "delivery_receive" && m.data.backfill
  }

  function WithKey(rows: seq<Movement>, key: string): seq<Movement> {
    if rows == [] then [] else (if rows[0].data.key == key then [rows[0]] else []) + WithKey(rows[1..], key)
  }

  // ----- receipts -----

  lemma {:induction false} NeedsLines(lines: seq<Line>, item: Uuid)
    requires LinesOf(lines, item) != []
    ensures item in GroupItems(lines)
  {
    if item !in GroupItems(lines) {
      NoLinesOf(lines, item);
    }
  }

  function ReceiptOf(p: Purchase, item: Uuid): Receipt {
    Row(item, CommittedAt(p), p.id, SumQty(LinesOf(p.lines, item)), 0, 0, ReceiptInfo(p.business, p.humanId))
  }

  lemma {:induction false} ReceiptsForAre(p: Purchase, groups: seq<Uuid>, r: Receipt)
    ensures r in ReceiptsFor(p, groups) <==> r.item in groups && SumExact(LinesOf(p.lines, r.item)) > 0.0 && r == ReceiptOf(p, r.item)
  {
    if groups != [] {
      ReceiptsForAre(p, groups[1..], r);
      assert groups == [groups[0]] + groups[1..];
    }
  }

  lemma {:induction false} ReceiptsOfAre(p: Purchase, r: Receipt)
    ensures r in ReceiptsOf(p) <==> Delivers(p, r.item) && r == ReceiptOf(p, r.item)
  {
    if Received(p) {
      ReceiptsForAre(p, GroupItems(p.lines), r);
      if SumExact(LinesOf(p.lines, r.item)) > 0.0 {
        NeedsLines(p.lines, r.item);
      }
    }
  }

  /** The receipts of a purchase among those of all purchases. */
  lemma {:induction false} ReceiptsAre(purchases: seq<Purchase>, p: Purchase, r: Receipt)
    requires DistinctPurchases(purchases) && p in purchases && r.id == p.id
    ensures r in Receipts(purchases) <==> r in ReceiptsOf(p)
  {
    var q := purchases[0];
    ReceiptsOfAre(q, r);
    if p == q {
      if r in Receipts(purchases[1..]) {
        ReceiptsDistinct(purchases[1..]);
      }
    } else {
      assert p in purchases[1..] && p.id != q.id;
      ReceiptsAre(purchases[1..], p, r);
    }
  }

  /** The test on keys and the log, in terms of texts. */
  lemma {:induction false} EligibleIff(ledger: seq<Movement>, log: seq<LogRow>, r: Receipt)
    requires IsLiteral(r.data.humanId)
    ensures IsEligible(ledger, log, r)
            <==> (forall m :: m in ledger ==> m.data.key != ReceiptKey(r.id, r.item)) && !NamedInLog(log, r.data.humanId, r.item)
  {
    forall l | l in log && l.reason.Some?
      ensures ILike(l.reason.value, "%" + r.data.humanId + "%") <==> Contains(Lower(l.reason.value), Lower(r.data.humanId))
    {
      ILikeContainsIff(l.reason.value, r.data.humanId);
    }
    assert LoggedAlready(log, r) <==> NamedInLog(log, r.data.humanId, r.item);
  }

  // ----- the inserted row -----

  lemma {:induction false} WithKeyNone(rows: seq<Movement>, key: string)
    requires forall m :: m in rows ==> m.data.key != key
    ensures WithKey(rows, key) == []
  {
    if rows != [] {
      assert rows[0] in rows;
      WithKeyNone(rows[1..], key);
    }
  }

  lemma {:induction false} WithKeyOne(rows: seq<Movement>, m: Movement)
    requires DistinctKeys(rows) && m in rows
    ensures WithKey(rows, m.data.key) == [m]
  {
    if rows[0] == m {
      WithKeyNone(rows[1..], m.data.key);
      assert [m] + [] == [m];
    } else {
      assert m in rows[1..];
      WithKeyOne(rows[1..], m);
      assert [] + [m] == [m];
    }
  }

  lemma Reassociated(x: seq<Movement>, y: seq<Movement>, z: seq<Movement>)
    ensures x + (y + z) == (x + y) + z
  {
  }

  lemma {:induction false} WithKeyAppend(a: seq<Movement>, b: seq<Movement>, key: string)
    ensures WithKey(a + b, key) == WithKey(a, key) + WithKey(b, key)
  {
    if a == [] {
      assert a + b == b && [] + WithKey(b, key) == WithKey(b, key);
    } else {
      assert (a + b)[1..] == a[1..] + b && (a + b)[0] == a[0];
      WithKeyAppend(a[1..], b, key);
      Reassociated(if a[0].data.key == key then [a[0]] else [], WithKey(a[1..], key), WithKey(b, key));
    }
  }

  lemma {:induction false} Phase2Has(ledger: seq<Movement>, log: seq<LogRow>, purchases: seq<Purchase>, e: Receipt)
    requires e in Receipts(purchases) && IsEligible(ledger, log, e)
    ensures exists r :: r in Phase2(ledger, log, purchases) && SameEvent(r, e) && r.delta == e.delta && r.data == e.data && r.after == r.before + r.delta
  {
    var eligible := Eligible(ledger, log, Receipts(purchases));
    EligibleMembers(ledger, log, Receipts(purchases));
    var i :| 0 <= i < |eligible| && eligible[i] == e;
    assert Phase2(ledger, log, purchases)[i] == Balanced(ledger, eligible, e);
  }

  /** 049 has the delivery of the item to record: the item exists, the ledger does not have the key and no row
      of the log names the purchase. */
  ghost predicate IsMissing(movements: seq<Movement>, log: seq<LogRow>, items: map<Uuid, Item>, p: Purchase, item: Uuid) {
    && Delivers(p, item) && item in items
    && (forall m :: m in movements ==> m.data.key != ReceiptKey(p.id, item)) && !NamedInLog(log, p.humanId, item)
  }

  lemma {:induction false} MissingIsEligible(ledger: seq<Movement>, log: seq<LogRow>, purchases: seq<Purchase>, p: Purchase, r: Receipt)
    requires DistinctPurchases(purchases) && p in purchases && IsLiteral(p.humanId) && r.id == p.id
    ensures r in Receipts(purchases) && IsEligible(ledger, log, r)
            <==> && r == ReceiptOf(p, r.item) && Delivers(p, r.item)
                 && (forall m :: m in ledger ==> m.data.key != ReceiptKey(p.id, r.item)) && !NamedInLog(log, p.humanId, r.item)
  {
    ReceiptsAre(purchases, p, r);
    ReceiptsOfAre(p, r);
    if r == ReceiptOf(p, r.item) {
      EligibleIff(ledger, log, r);
    }
  }

  lemma {:induction false} MissingIsPosted(ledger: seq<Movement>, log: seq<LogRow>, purchases: seq<Purchase>, items: map<Uuid, Item>, ids: map<string, Uuid>,
                                           p: Purchase, item: Uuid) returns (m: Movement)
    requires DistinctPurchases(purchases) && p in purchases && IsLiteral(p.humanId) && IsMissing(ledger, log, items, p, item)
    ensures m in PostedRows(ledger, Phase2(ledger, log, purchases), items, ids)
    ensures m.data.key == ReceiptKey(p.id, item) && IsDelivery(m, p, item)
  {
    var e := ReceiptOf(p, item);
    MissingIsEligible(ledger, log, purchases, p, e);
    Phase2Has(ledger, log, purchases, e);
    var r :| r in Phase2(ledger, log, purchases) && SameEvent(r, e) && r.delta == e.delta && r.data == e.data && r.after == r.before + r.delta;
    PostedRowsMembers(ledger, Phase2(ledger, log, purchases), items, ids);
    m := PostedMovement(r, ids);
  }

  lemma {:induction false} PostedWasMissing(ledger: seq<Movement>, log: seq<LogRow>, purchases: seq<Purchase>, items: map<Uuid, Item>, ids: map<string, Uuid>,
                                            p: Purchase, item: Uuid, m: Movement)
    requires DistinctPurchases(purchases) && p in purchases && IsLiteral(p.humanId)
    requires m in PostedRows(ledger, Phase2(ledger, log, purchases), items, ids) && m.data.key == ReceiptKey(p.id, item)
    ensures IsMissing(ledger, log, items, p, item)
  {
    PostedRowsMembers(ledger, Phase2(ledger, log, purchases), items, ids);
    var r :| r in Phase2(ledger, log, purchases) && r.item in items && !HasKey(ledger, ReceiptKey(r.id, r.item)) && m == PostedMovement(r, ids);
    ReceiptKeyInjective(r.id, r.item, p.id, item);
    Phase2Receipts(ledger, log, purchases);
    var e :| e in Receipts(purchases) && IsEligible(ledger, log, e) && e.id == r.id && e.item == r.item;
    MissingIsEligible(ledger, log, purchases, p, e);
  }

  lemma {:induction false} PostedOnceIff(ledger: seq<Movement>, log: seq<LogRow>, purchases: seq<Purchase>, items: map<Uuid, Item>, ids: map<string, Uuid>,
                                         p: Purchase, item: Uuid)
    requires DistinctPurchases(purchases) && p in purchases && IsLiteral(p.humanId)
    ensures var rows := WithKey(PostedRows(ledger, Phase2(ledger, log, purchases), items, ids), ReceiptKey(p.id, item));
            if IsMissing(ledger, log, items, p, item) then |rows| == 1 && IsDelivery(rows[0], p, item) else rows == []
  {
    var posted := PostedRows(ledger, Phase2(ledger, log, purchases), items, ids);
    if IsMissing(ledger, log, items, p, item) {
      var m := MissingIsPosted(ledger, log, purchases, items, ids, p, item);
      Phase2Receipts(ledger, log, purchases);
      PostedRowsDistinct(ledger, Phase2(ledger, log, purchases), items, ids);
      WithKeyOne(posted, m);
    } else {
      forall m | m in posted
        ensures m.data.key != ReceiptKey(p.id, item)
      {
        if m.data.key == ReceiptKey(p.id, item) {
          PostedWasMissing(ledger, log, purchases, items, ids, p, item, m);
        }
      }
      WithKeyNone(posted, ReceiptKey(p.id, item));
    }
  }

  lemma {:induction false} LegacyHasNoReceipt(movements: seq<Movement>, log: seq<LogRow>, items: map<Uuid, Item>, ids: map<string, Uuid>, p: Uuid, item: Uuid)
    ensures forall m :: m in LegacyRows(movements, log, items, ids) ==> m.data.key != ReceiptKey(p, item)
  {
    forall l | l in log
      ensures LegacyKey(l.id) != ReceiptKey(p, item)
    {
      KeyFormatsDisjoint(l.id, p, item);
    }
    LegacyRowsAvoid(movements, log, items, ids, ReceiptKey(p, item));
  }

  /** 049 as a whole, for any purchase and item: it adds exactly one row with their key, the delivery, if the
      purchase delivers the existing item, the ledger does not have the key, and no "purchase" row of the item in
      the log contains the purchase's human id, letter case aside.  Otherwise it adds none. */
  lemma {:induction false} DeliveryIsRecordedOnceIff(movements: seq<Movement>, log: seq<LogRow>, purchases: seq<Purchase>, items: map<Uuid, Item>,
                                                     ids: map<string, Uuid>, p: Purchase, item: Uuid)
    requires DistinctPurchases(purchases) && p in purchases && IsLiteral(p.humanId)
    ensures var before, after := WithKey(movements, ReceiptKey(p.id, item)), WithKey(Backfilled(movements, log, purchases, items, ids), ReceiptKey(p.id, item));
            if IsMissing(movements, log, items, p, item) then before == [] && |after| == 1 && IsDelivery(after[0], p, item) else after == before
  {
    var legacy, key := LegacyRows(movements, log, items, ids), ReceiptKey(p.id, item);
    var ledger := AfterPhase1(movements, log, items, ids);
    LegacyHasNoReceipt(movements, log, items, ids, p.id, item);
    WithKeyNone(legacy, key);
    WithKeyAppend(movements, legacy, key);
    WithKeyAppend(ledger, PostedRows(ledger, Phase2(ledger, log, purchases), items, ids), key);
    PostedOnceIff(ledger, log, purchases, items, ids, p, item);
    assert IsMissing(ledger, log, items, p, item) <==> IsMissing(movements, log, items, p, item);
    assert WithKey(movements, key) + [] == WithKey(movements, key);
    if IsMissing(movements, log, items, p, item) {
      WithKeyNone(movements, key);
      assert [] + WithKey(PostedRows(ledger, Phase2(ledger, log, purchases), items, ids), key) == WithKey(PostedRows(ledger, Phase2(ledger, log, purchases), items, ids), key);
    }
  }

  lemma ContainsThrough(s: string, x: string, y: string)
    requires Contains(s, x) && Contains(x, y)
    ensures Contains(s, y)
  {
    var a, b :| s == a + x + b;
    var c, d :| x == c + y + d;
    assert s == (a + c) + y + (d + b);
  }

  /** A row of the log that names a purchase also hides the deliveries of every purchase whose human id is part of
      that one's: 049 adds nothing for them. */
  lemma {:induction false} LongerIdHidesDelivery(movements: seq<Movement>, log: seq<LogRow>, purchases: seq<Purchase>, items: map<Uuid, Item>,
                                                 ids: map<string, Uuid>, p: Purchase, longer: string, item: Uuid)
    requires DistinctPurchases(purchases) && p in purchases && IsLiteral(p.humanId)
    requires NamedInLog(log, longer, item) && Contains(Lower(longer), Lower(p.humanId))
    ensures var key := ReceiptKey(p.id, item); WithKey(Backfilled(movements, log, purchases, items, ids), key) == WithKey(movements, key)
  {
    var l :| l in log && Names(l, longer, item);
    ContainsThrough(Lower(l.reason.value), Lower(longer), Lower(p.humanId));
    assert Names(l, p.humanId, item);
    DeliveryIsRecordedOnceIff(movements, log, purchases, items, ids, p, item);
  }
}
