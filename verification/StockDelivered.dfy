/** What migration 049 delivers of one purchase: the rows it inserts for the purchase add up to the
    purchase's eligible receipts. */
module StockDelivered {
  import opened Decimals
  import opened Numerals
  import opened Options
  import opened StockBackfill
  import opened StockBackfillTheorems
  import opened StockLedger
  import opened StockRounding
  import opened Windows

  /** The deltas of the rows that carry the keys of a purchase. */
  ghost function Delivered(rows: seq<Movement>, purchase: Uuid): int {
    if rows == [] then 0
    else (if rows[0].data.key == ReceiptKey(purchase, rows[0].item) then rows[0].delta else 0) + Delivered(rows[1..], purchase)
  }

  /** The deltas of the receipts of a purchase. */
  ghost function ReceiptsTotal(receipts: seq<Receipt>, purchase: Uuid): int {
    if receipts == [] then 0
    else (if receipts[0].id == purchase then receipts[0].delta else 0) + ReceiptsTotal(receipts[1..], purchase)
  }

  lemma PostedKey(r: Receipt, ids: map<string, Uuid>, purchase: Uuid)
    ensures PostedMovement(r, ids).data.key == ReceiptKey(purchase, r.item) <==> r.id == purchase
  {
    if ReceiptKey(r.id, r.item) == ReceiptKey(purchase, r.item) {
      ReceiptKeyInjective(r.id, r.item, purchase, r.item);
    }
  }

  lemma {:induction false} PostedRowsDeliver(ledger: seq<Movement>, receipts: seq<Receipt>, items: map<Uuid, Item>, ids: map<string, Uuid>, purchase: Uuid)
    requires forall r :: r in receipts && r.id == purchase ==> r.item in items && !HasKey(ledger, ReceiptKey(r.id, r.item))
    ensures Delivered(PostedRows(ledger, receipts, items, ids), purchase) == ReceiptsTotal(receipts, purchase)
  {
    if receipts != [] {
      var r, rest := receipts[0], PostedRows(ledger, receipts[1..], items, ids);
      assert r in receipts;
      PostedRowsDeliver(ledger, receipts[1..], items, ids, purchase);
      PostedKey(r, ids, purchase);
      assert ([PostedMovement(r, ids)] + rest)[1..] == rest && [] + rest == rest;
    }
  }

  lemma {:induction false} BalancesKeepTotal(ledger: seq<Movement>, rows: seq<Receipt>, todo: seq<Receipt>, purchase: Uuid)
    ensures ReceiptsTotal(BalanceEach(ledger, rows, todo), purchase) == ReceiptsTotal(todo, purchase)
  {
    if todo != [] {
      BalancesKeepTotal(ledger, rows, todo[1..], purchase);
      assert BalanceEach(ledger, rows, todo)[1..] == BalanceEach(ledger, rows, todo[1..]);
    }
  }

  /** The deltas of those receipts of a purchase that are kept. */
  ghost function KeptTotal(receipts: seq<Receipt>, keep: Receipt -> bool, purchase: Uuid): int {
    if receipts == [] then 0
    else (if keep(receipts[0]) && receipts[0].id == purchase then receipts[0].delta else 0) + KeptTotal(receipts[1..], keep, purchase)
  }

  lemma {:induction false} KeptTotalAppend(a: seq<Receipt>, b: seq<Receipt>, keep: Receipt -> bool, purchase: Uuid)
    ensures KeptTotal(a + b, keep, purchase) == KeptTotal(a, keep, purchase) + KeptTotal(b, keep, purchase)
  {
    if a == [] {
      assert a + b == b;
    } else {
      assert (a + b)[1..] == a[1..] + b;
      KeptTotalAppend(a[1..], b, keep, purchase);
    }
  }

  lemma {:induction false} EligibleIsKept(ledger: seq<Movement>, log: seq<LogRow>, receipts: seq<Receipt>, keep: Receipt -> bool, purchase: Uuid)
    requires forall r :: keep(r) <==> IsEligible(ledger, log, r)
    ensures ReceiptsTotal(Eligible(ledger, log, receipts), purchase) == KeptTotal(receipts, keep, purchase)
  {
    if receipts != [] {
      EligibleIsKept(ledger, log, receipts[1..], keep, purchase);
      assert keep(receipts[0]) <==> IsEligible(ledger, log, receipts[0]);
      var rest := Eligible(ledger, log, receipts[1..]);
      assert ([receipts[0]] + rest)[1..] == rest && [] + rest == rest;
    }
  }

  lemma {:induction false} EligibleTotalAppend(ledger: seq<Movement>, log: seq<LogRow>, a: seq<Receipt>, b: seq<Receipt>, purchase: Uuid)
    ensures ReceiptsTotal(Eligible(ledger, log, a + b), purchase)
         == ReceiptsTotal(Eligible(ledger, log, a), purchase) + ReceiptsTotal(Eligible(ledger, log, b), purchase)
  {
    var keep := r => IsEligible(ledger, log, r);
    EligibleIsKept(ledger, log, a, keep, purchase);
    EligibleIsKept(ledger, log, b, keep, purchase);
    EligibleIsKept(ledger, log, a + b, keep, purchase);
    KeptTotalAppend(a, b, keep, purchase);
  }

  lemma {:induction false} AllOfPurchase(receipts: seq<Receipt>, id: Uuid, purchase: Uuid)
    requires forall r :: r in receipts ==> r.id == id
    ensures ReceiptsTotal(receipts, purchase) == if id == purchase then Total(receipts) else 0
  {
    if receipts != [] {
      assert receipts[0] in receipts;
      AllOfPurchase(receipts[1..], id, purchase);
    }
  }

  lemma {:induction false} ReceiptsForIds(p: Purchase, groups: seq<Uuid>)
    ensures forall r :: r in ReceiptsFor(p, groups) ==> r.id == p.id
  {
    if groups != [] {
      ReceiptsForIds(p, groups[1..]);
    }
  }

  lemma {:induction false} EligibleOfPurchase(ledger: seq<Movement>, log: seq<LogRow>, q: Purchase, purchase: Uuid)
    ensures ReceiptsTotal(Eligible(ledger, log, ReceiptsOf(q)), purchase)
         == if q.id == purchase then Total(Eligible(ledger, log, ReceiptsOf(q))) else 0
  {
    ReceiptsForIds(q, GroupItems(q.lines));
    EligibleMembers(ledger, log, ReceiptsOf(q));
    AllOfPurchase(Eligible(ledger, log, ReceiptsOf(q)), q.id, purchase);
  }

  lemma {:induction false} EligibleTotalOf(ledger: seq<Movement>, log: seq<LogRow>, purchases: seq<Purchase>, purchase: Uuid)
    requires forall q :: q in purchases ==> q.id != purchase
    ensures ReceiptsTotal(Eligible(ledger, log, Receipts(purchases)), purchase) == 0
  {
    if purchases != [] {
      assert purchases[0] in purchases;
      EligibleTotalOf(ledger, log, purchases[1..], purchase);
      EligibleOfPurchase(ledger, log, purchases[0], purchase);
      EligibleTotalAppend(ledger, log, ReceiptsOf(purchases[0]), Receipts(purchases[1..]), purchase);
    }
  }

  lemma {:induction false} EligibleOfOne(ledger: seq<Movement>, log: seq<LogRow>, purchases: seq<Purchase>, p: Purchase)
    requires DistinctPurchases(purchases) && p in purchases
    ensures ReceiptsTotal(Eligible(ledger, log, Receipts(purchases)), p.id) == Total(Eligible(ledger, log, ReceiptsOf(p)))
  {
    EligibleOfPurchase(ledger, log, purchases[0], p.id);
    EligibleTotalAppend(ledger, log, ReceiptsOf(purchases[0]), Receipts(purchases[1..]), p.id);
    if p == purchases[0] {
      EligibleTotalOf(ledger, log, purchases[1..], p.id);
    } else {
      EligibleOfOne(ledger, log, purchases[1..], p);
    }
  }

  /** The rows that phase 2 inserts for a purchase whose items exist add up to its eligible receipts. */
  lemma {:induction false} DeliveredIsEligible(ledger: seq<Movement>, log: seq<LogRow>, purchases: seq<Purchase>, items: map<Uuid, Item>,
                                               ids: map<string, Uuid>, p: Purchase)
    requires DistinctPurchases(purchases) && p in purchases
    requires forall l :: l in p.lines && l.item.Some? ==> l.item.value in items
    ensures Delivered(PostedRows(ledger, Phase2(ledger, log, purchases), items, ids), p.id) == Total(Eligible(ledger, log, ReceiptsOf(p)))
  {
    var eligible := Eligible(ledger, log, Receipts(purchases));
    forall r | r in Phase2(ledger, log, purchases) && r.id == p.id
      ensures r.item in items && !HasKey(ledger, ReceiptKey(r.id, r.item))
    {
      ReceiptOfPurchase(ledger, log, purchases, r, p);
    }
    PostedRowsDeliver(ledger, Phase2(ledger, log, purchases), items, ids, p.id);
    BalancesKeepTotal(ledger, eligible, eligible, p.id);
    EligibleOfOne(ledger, log, purchases, p);
  }

  lemma {:induction false} ReceiptOfPurchase(ledger: seq<Movement>, log: seq<LogRow>, purchases: seq<Purchase>, r: Receipt, p: Purchase)
    requires DistinctPurchases(purchases) && p in purchases && r in Phase2(ledger, log, purchases) && r.id == p.id
    ensures !HasKey(ledger, ReceiptKey(r.id, r.item))
    ensures exists l :: l in p.lines && l.item == Some(r.item)
  {
    Phase2Receipts(ledger, log, purchases);
    var e :| e in Receipts(purchases) && IsEligible(ledger, log, e) && e.id == r.id && e.item == r.item;
    ReceiptNamesItem(purchases, p, e);
  }

  lemma {:induction false} ReceiptNamesItem(purchases: seq<Purchase>, p: Purchase, r: Receipt)
    requires DistinctPurchases(purchases) && p in purchases && r in Receipts(purchases) && r.id == p.id
    ensures exists l :: l in p.lines && l.item == Some(r.item)
  {
    var q := purchases[0];
    ReceiptsForIds(q, GroupItems(q.lines));
    if r in ReceiptsOf(q) {
      assert q.id == p.id && q == p by {
        assert p in purchases[1..] ==> p.id != q.id;
      }
      ReceiptsForItems(q, GroupItems(q.lines), r);
      GroupItemNamed(q.lines, r.item);
    } else {
      LaterReceipt(purchases[1..], r);
      ReceiptNamesItem(purchases[1..], p, r);
    }
  }

  /** A receipt comes from some purchase. */
  lemma {:induction false} LaterReceipt(purchases: seq<Purchase>, r: Receipt)
    requires r in Receipts(purchases)
    ensures exists q :: q in purchases && q.id == r.id
  {
    var q := purchases[0];
    ReceiptsForIds(q, GroupItems(q.lines));
    if r in ReceiptsOf(q) {
      assert q in purchases;
    } else {
      LaterReceipt(purchases[1..], r);
    }
  }

  lemma {:induction false} ReceiptsForItems(p: Purchase, groups: seq<Uuid>, r: Receipt)
    requires r in ReceiptsFor(p, groups)
    ensures r.item in groups
  {
    if r.item != groups[0] {
      ReceiptsForItems(p, groups[1..], r);
    }
  }

  lemma {:induction false} GroupItemNamed(lines: seq<Line>, g: Uuid)
    requires g in GroupItems(lines)
    ensures exists l :: l in lines && l.item == Some(g)
  {
    if lines[0].item == Some(g) {
      assert lines[0] in lines;
    } else {
      GroupItemNamed(lines[1..], g);
      var l :| l in lines[1..] && l.item == Some(g);
      assert l in lines;
    }
  }

  /** After 048 and 049, the committed quantity of a received purchase whose items exist and the movements that
      049 has inserted for it differ by the exact sum of the lines that 049 does not post, up to rounding. */
  lemma {:induction false} CommittedMatchesDelivered(ledger: seq<Movement>, log: seq<LogRow>, purchases: seq<Purchase>, items: map<Uuid, Item>,
                                                     ids: map<string, Uuid>, p: Purchase)
    requires DistinctPurchases(purchases) && p in purchases && Received(p)
    requires forall l :: l in p.lines && l.item.Some? ==> l.item.value in items
    ensures var delivered := Delivered(PostedRows(ledger, Phase2(ledger, log, purchases), items, ids), p.id);
            Abs(CommittedQty(p) as real - delivered as real - SumExact(UnpostedLines(p, ledger, log)))
            <= 0.5 * (ScaledLines(PostedLines(p, ledger, log)) + 1) as real
  {
    DeliveredIsEligible(ledger, log, purchases, items, ids, p);
    CommittedMatchesPosted(p, ledger, log);
  }
}
