/** What the ledger backfill of migration 049 guarantees, alone and followed by the replay of 050. */
module StockBackfillTheorems {
  import opened Numerals
  import opened Patterns
  import opened StockBackfill
  import opened StockLedger
  import StockRounding
  import opened Windows

  // ----- preconditions the database guarantees -----

  /** Log rows and purchases have distinct primary keys. */
  ghost predicate DistinctSources(log: seq<LogRow>, purchases: seq<Purchase>) {
    DistinctLog(log) && DistinctPurchases(purchases)
  }

  ghost predicate DistinctLog(log: seq<LogRow>) {
    log == [] || ((forall l :: l in log[1..] ==> l.id != log[0].id) && DistinctLog(log[1..]))
  }

  ghost predicate DistinctPurchases(purchases: seq<Purchase>) {
    purchases == [] || ((forall p :: p in purchases[1..] ==> p.id != purchases[0].id) && DistinctPurchases(purchases[1..]))
  }

  /** The ids drawn for new rows differ from each other and from all ids in use, and every key that
      may be inserted has one. */
  ghost predicate FreshIds(movements: seq<Movement>, log: seq<LogRow>, purchases: seq<Purchase>, ids: map<string, Uuid>) {
    && (forall j, k :: j in ids && k in ids && j != k ==> ids[j] != ids[k])
    && (forall m, k :: m in movements && k in ids ==> m.id != ids[k])
    && (forall l :: l in log ==> LegacyKey(l.id) in ids)
    && (forall r :: r in Receipts(purchases) ==> ReceiptKey(r.id, r.item) in ids)
  }

  // ----- keys -----

  lemma LegacyKeyInjective(a: Uuid, b: Uuid)
    requires LegacyKey(a) == LegacyKey(b)
    ensures a == b
  {
    assert LegacyKey(a)[11..] == UuidText(a) && LegacyKey(b)[11..] == UuidText(b);
    UuidTextInjective(a, b);
  }

  lemma ReceiptKeyInjective(p: Uuid, i: Uuid, q: Uuid, j: Uuid)
    requires ReceiptKey(p, i) == ReceiptKey(q, j)
    ensures p == q && i == j
  {
    var s, t := ReceiptKey(p, i), ReceiptKey(q, j);
    assert s[15..51] == UuidText(p) && t[15..51] == UuidText(q);
    assert s[52..] == UuidText(i) && t[52..] == UuidText(j);
    UuidTextInjective(p, q);
    UuidTextInjective(i, j);
  }

  lemma LegacyKeysDiffer(a: Uuid, b: Uuid)
    requires a != b
    ensures LegacyKey(a) != LegacyKey(b)
  {
    if LegacyKey(a) == LegacyKey(b) {
      LegacyKeyInjective(a, b);
    }
  }

  lemma ReceiptKeysDiffer(p: Uuid, i: Uuid, q: Uuid, j: Uuid)
    requires p != q || i != j
    ensures ReceiptKey(p, i) != ReceiptKey(q, j)
  {
    if ReceiptKey(p, i) == ReceiptKey(q, j) {
      ReceiptKeyInjective(p, i, q, j);
    }
  }

  lemma KeyFormatsDisjoint(l: Uuid, p: Uuid, i: Uuid)
    ensures LegacyKey(l) != ReceiptKey(p, i)
  {
  }

  /** No key occurs twice. */
  ghost predicate DistinctKeys(movements: seq<Movement>) {
    movements == [] || ((forall m :: m in movements[1..] ==> m.data.key != movements[0].data.key) && DistinctKeys(movements[1..]))
  }

  // ----- members of the inserted rows -----

  lemma {:induction false} LegacyRowsMembers(movements: seq<Movement>, log: seq<LogRow>, items: map<Uuid, Item>, ids: map<string, Uuid>)
    ensures forall m :: m in LegacyRows(movements, log, items, ids)
              <==> exists l :: l in log && l.item in items && !HasKey(movements, LegacyKey(l.id)) && m == LegacyMovement(l, ids)
  {
    if log != [] {
      LegacyRowsMembers(movements, log[1..], items, ids);
      assert log == [log[0]] + log[1..];
    }
  }

  /** The movement that records a log row: same item and moment, from the old to the new quantity, of the kind
      that its type stands for. */
  predicate Records(m: Movement, l: LogRow) {
    && m.data.key == LegacyKey(l.id) && m.data.business == l.business && m.item == l.item && m.at == l.updatedAt
    && m.before == l.oldQty && m.after == l.newQty && m.before + m.delta == m.after
    && m.data.kind == LegacyKind(l.adjustmentType) && !m.data.backfill
  }

  /** Phase 1 records every log row of an existing item that the ledger does not have yet. */
  lemma {:induction false} LogRowIsRecorded(movements: seq<Movement>, log: seq<LogRow>, items: map<Uuid, Item>, ids: map<string, Uuid>, l: LogRow)
    returns (m: Movement)
    requires l in log && l.item in items && !HasKey(movements, LegacyKey(l.id))
    ensures m in LegacyRows(movements, log, items, ids) && Records(m, l)
  {
    m := LegacyMovement(l, ids);
    LegacyRowsMembers(movements, log, items, ids);
  }

  /** And it adds nothing else. */
  lemma {:induction false} LegacyRowRecords(movements: seq<Movement>, log: seq<LogRow>, items: map<Uuid, Item>, ids: map<string, Uuid>, m: Movement)
    returns (l: LogRow)
    requires m in LegacyRows(movements, log, items, ids)
    ensures l in log && l.item in items && !HasKey(movements, LegacyKey(l.id)) && Records(m, l)
  {
    LegacyRowsMembers(movements, log, items, ids);
    l :| l in log && l.item in items && !HasKey(movements, LegacyKey(l.id)) && m == LegacyMovement(l, ids);
  }

  lemma {:induction false} LegacyRowsAvoid(movements: seq<Movement>, log: seq<LogRow>, items: map<Uuid, Item>, ids: map<string, Uuid>, key: string)
    requires forall l :: l in log ==> LegacyKey(l.id) != key
    ensures forall m :: m in LegacyRows(movements, log, items, ids) ==> m.data.key != key
  {
    if log != [] {
      LegacyRowsAvoid(movements, log[1..], items, ids, key);
      assert log[0] in log;
    }
  }

  lemma {:induction false} DistinctKeysCons(m: Movement, rest: seq<Movement>)
    requires DistinctKeys(rest) && forall n :: n in rest ==> n.data.key != m.data.key
    ensures DistinctKeys([m] + rest)
  {
  }

  lemma {:induction false} LegacyRowsDistinct(movements: seq<Movement>, log: seq<LogRow>, items: map<Uuid, Item>, ids: map<string, Uuid>)
    requires DistinctLog(log)
    ensures DistinctKeys(LegacyRows(movements, log, items, ids))
  {
    if log != [] {
      var first, rest := LegacyMovement(log[0], ids), LegacyRows(movements, log[1..], items, ids);
      LegacyRowsDistinct(movements, log[1..], items, ids);
      forall l | l in log[1..]
        ensures LegacyKey(l.id) != first.data.key
      {
        LegacyKeysDiffer(l.id, log[0].id);
      }
      LegacyRowsAvoid(movements, log[1..], items, ids, first.data.key);
      DistinctKeysCons(first, rest);
      assert [] + rest == rest;
    }
  }

  /** Keys of receipts, as a predicate on the receipts of one statement. */
  ghost predicate DistinctReceipts(receipts: seq<Receipt>) {
    receipts == [] || (&& (forall r :: r in receipts[1..] ==> r.id != receipts[0].id || r.item != receipts[0].item)
                       && DistinctReceipts(receipts[1..]))
  }

  lemma {:induction false} DistinctReceiptsAppend(a: seq<Receipt>, b: seq<Receipt>)
    requires DistinctReceipts(a) && DistinctReceipts(b)
    requires forall r, s :: r in a && s in b ==> r.id != s.id
    ensures DistinctReceipts(a + b)
  {
    if a == [] {
      assert a + b == b;
    } else {
      assert (a + b)[1..] == a[1..] + b;
      DistinctReceiptsAppend(a[1..], b);
      forall r | r in (a + b)[1..]
        ensures r.id != a[0].id || r.item != a[0].item
      {
        assert r in a[1..] || r in b;
      }
    }
  }

  lemma {:induction false} ReceiptsForDistinct(p: Purchase, groups: seq<Uuid>)
    requires StockRounding.NoRepeats(groups)
    ensures DistinctReceipts(ReceiptsFor(p, groups))
    ensures forall r :: r in ReceiptsFor(p, groups) ==> r.id == p.id && r.item in groups
  {
    if groups != [] {
      ReceiptsForDistinct(p, groups[1..]);
      var rest, all := ReceiptsFor(p, groups[1..]), ReceiptsFor(p, groups);
      assert all == rest || (all[0].item == groups[0] && all[0].id == p.id && all[1..] == rest && all == [all[0]] + rest);
    }
  }

  lemma {:induction false} ReceiptsDistinct(purchases: seq<Purchase>)
    requires DistinctPurchases(purchases)
    ensures DistinctReceipts(Receipts(purchases))
    ensures forall r :: r in Receipts(purchases) ==> exists p :: p in purchases && p.id == r.id
  {
    if purchases != [] {
      var p := purchases[0];
      ReceiptsDistinct(purchases[1..]);
      StockRounding.GroupItemsDistinct(p.lines);
      ReceiptsForDistinct(p, GroupItems(p.lines));
      DistinctReceiptsAppend(ReceiptsOf(p), Receipts(purchases[1..]));
      forall r | r in Receipts(purchases)
        ensures exists p :: p in purchases && p.id == r.id
      {
        if r in ReceiptsOf(p) {
          assert p in purchases && p.id == r.id;
        } else {
          var q :| q in purchases[1..] && q.id == r.id;
          assert q in purchases;
        }
      }
    }
  }

  lemma {:induction false} EligibleMembers(movements: seq<Movement>, log: seq<LogRow>, receipts: seq<Receipt>)
    ensures forall r :: r in Eligible(movements, log, receipts) <==> r in receipts && IsEligible(movements, log, r)
    ensures DistinctReceipts(receipts) ==> DistinctReceipts(Eligible(movements, log, receipts))
  {
    if receipts != [] {
      EligibleMembers(movements, log, receipts[1..]);
      assert receipts == [receipts[0]] + receipts[1..];
      var rest, all := Eligible(movements, log, receipts[1..]), Eligible(movements, log, receipts);
      assert all == rest || (all == [receipts[0]] + rest && all[1..] == rest);
    }
  }

  lemma {:induction false} DistinctReceiptIds(receipts: seq<Receipt>)
    requires DistinctReceipts(receipts)
    ensures DistinctIds(receipts)
  {
    if receipts != [] {
      DistinctReceiptIds(receipts[1..]);
    }
  }

  lemma {:induction false} PostedRowsMembers(movements: seq<Movement>, receipts: seq<Receipt>, items: map<Uuid, Item>, ids: map<string, Uuid>)
    ensures forall m :: m in PostedRows(movements, receipts, items, ids)
              <==> exists r :: r in receipts && r.item in items && !HasKey(movements, ReceiptKey(r.id, r.item)) && m == PostedMovement(r, ids)
  {
    if receipts != [] {
      PostedRowsMembers(movements, receipts[1..], items, ids);
      assert receipts == [receipts[0]] + receipts[1..];
    }
  }

  lemma {:induction false} PostedRowsAvoid(movements: seq<Movement>, receipts: seq<Receipt>, items: map<Uuid, Item>, ids: map<string, Uuid>, key: string)
    requires forall r :: r in receipts ==> ReceiptKey(r.id, r.item) != key
    ensures forall m :: m in PostedRows(movements, receipts, items, ids) ==> m.data.key != key
  {
    if receipts != [] {
      PostedRowsAvoid(movements, receipts[1..], items, ids, key);
      assert receipts[0] in receipts;
    }
  }

  lemma {:induction false} PostedRowsDistinct(movements: seq<Movement>, receipts: seq<Receipt>, items: map<Uuid, Item>, ids: map<string, Uuid>)
    requires DistinctReceipts(receipts)
    ensures DistinctKeys(PostedRows(movements, receipts, items, ids))
  {
    if receipts != [] {
      var first, rest := PostedMovement(receipts[0], ids), PostedRows(movements, receipts[1..], items, ids);
      PostedRowsDistinct(movements, receipts[1..], items, ids);
      forall r | r in receipts[1..]
        ensures ReceiptKey(r.id, r.item) != first.data.key
      {
        ReceiptKeysDiffer(r.id, r.item, receipts[0].id, receipts[0].item);
      }
      PostedRowsAvoid(movements, receipts[1..], items, ids, first.data.key);
      DistinctKeysCons(first, rest);
      assert [] + rest == rest;
    }
  }

  // ----- identifiers of the inserted rows -----

  /** Every row carries the id drawn for its key. */
  ghost predicate IdsFromKeys(rows: seq<Movement>, ids: map<string, Uuid>) {
    forall m :: m in rows ==> m.data.key in ids && m.id == ids[m.data.key]
  }

  lemma {:induction false} DistinctIdsFromKeys(rows: seq<Movement>, ids: map<string, Uuid>)
    requires DistinctKeys(rows) && IdsFromKeys(rows, ids)
    requires forall j, k :: j in ids && k in ids && j != k ==> ids[j] != ids[k]
    ensures DistinctIds(rows)
  {
    if rows != [] {
      assert rows[0] in rows;
      DistinctIdsFromKeys(rows[1..], ids);
    }
  }

  lemma {:induction false} DistinctIdsAppend(a: seq<Movement>, b: seq<Movement>)
    requires DistinctIds(a) && DistinctIds(b)
    requires forall m, n :: m in a && n in b ==> m.id != n.id
    ensures DistinctIds(a + b)
  {
    if a == [] {
      assert a + b == b;
    } else {
      assert (a + b)[1..] == a[1..] + b;
      DistinctIdsAppend(a[1..], b);
      forall m | m in (a + b)[1..] && m.item == a[0].item
        ensures m.id != a[0].id
      {
        assert m in a[1..] || m in b;
      }
    }
  }

  lemma {:induction false} LegacyRowIds(movements: seq<Movement>, log: seq<LogRow>, items: map<Uuid, Item>, ids: map<string, Uuid>)
    requires forall l :: l in log ==> LegacyKey(l.id) in ids
    ensures IdsFromKeys(LegacyRows(movements, log, items, ids), ids)
  {
    if log != [] {
      LegacyRowIds(movements, log[1..], items, ids);
      assert log[0] in log;
    }
  }

  lemma {:induction false} PostedRowIds(movements: seq<Movement>, receipts: seq<Receipt>, items: map<Uuid, Item>, ids: map<string, Uuid>)
    requires forall r :: r in receipts ==> ReceiptKey(r.id, r.item) in ids
    ensures IdsFromKeys(PostedRows(movements, receipts, items, ids), ids)
  {
    if receipts != [] {
      PostedRowIds(movements, receipts[1..], items, ids);
      assert receipts[0] in receipts;
    }
  }

  lemma {:induction false} LegacyRowsAreNew(movements: seq<Movement>, log: seq<LogRow>, items: map<Uuid, Item>, ids: map<string, Uuid>)
    ensures forall m, n :: m in movements && n in LegacyRows(movements, log, items, ids) ==> m.data.key != n.data.key
  {
    if log != [] {
      LegacyRowsAreNew(movements, log[1..], items, ids);
    }
  }

  lemma {:induction false} PostedRowsAreNew(movements: seq<Movement>, receipts: seq<Receipt>, items: map<Uuid, Item>, ids: map<string, Uuid>)
    ensures forall m, n :: m in movements && n in PostedRows(movements, receipts, items, ids) ==> m.data.key != n.data.key
  {
    if receipts != [] {
      PostedRowsAreNew(movements, receipts[1..], items, ids);
    }
  }

  // ----- the receipts that phase 2 posts -----

  /** The receipts of phase 2 with their running balances. */
  ghost function Phase2(ledger: seq<Movement>, log: seq<LogRow>, purchases: seq<Purchase>): seq<Receipt> {
    WithBalances(ledger, Eligible(ledger, log, Receipts(purchases)))
  }

  lemma {:induction false} BalancesKeepDistinct(ledger: seq<Movement>, rows: seq<Receipt>, todo: seq<Receipt>)
    requires DistinctReceipts(todo)
    ensures DistinctReceipts(BalanceEach(ledger, rows, todo))
  {
    if todo != [] {
      var b := BalanceEach(ledger, rows, todo);
      assert b[1..] == BalanceEach(ledger, rows, todo[1..]);
      BalancesKeepDistinct(ledger, rows, todo[1..]);
      forall r | r in b[1..]
        ensures r.id != b[0].id || r.item != b[0].item
      {
        var i :| 0 <= i < |b[1..]| && b[1..][i] == r;
        assert todo[1..][i] in todo[1..];
      }
    }
  }

  lemma {:induction false} Phase2Receipts(ledger: seq<Movement>, log: seq<LogRow>, purchases: seq<Purchase>)
    requires DistinctPurchases(purchases)
    ensures DistinctReceipts(Phase2(ledger, log, purchases))
    ensures DistinctIds(Eligible(ledger, log, Receipts(purchases)))
    ensures forall r :: r in Phase2(ledger, log, purchases) ==>
              && !HasKey(ledger, ReceiptKey(r.id, r.item))
              && exists e :: e in Receipts(purchases) && IsEligible(ledger, log, e) && e.id == r.id && e.item == r.item
  {
    var eligible := Eligible(ledger, log, Receipts(purchases));
    ReceiptsDistinct(purchases);
    EligibleMembers(ledger, log, Receipts(purchases));
    DistinctReceiptIds(eligible);
    BalancesKeepDistinct(ledger, eligible, eligible);
    forall r | r in Phase2(ledger, log, purchases)
      ensures !HasKey(ledger, ReceiptKey(r.id, r.item))
      ensures exists e :: e in Receipts(purchases) && IsEligible(ledger, log, e) && e.id == r.id && e.item == r.item
    {
      var i :| 0 <= i < |eligible| && r == Balanced(ledger, eligible, eligible[i]);
      assert eligible[i] in eligible;
    }
  }

  // ----- the whole backfill -----

  /** The unique constraint of the table: no business has a key twice. */
  ghost predicate UniqueKeys(movements: seq<Movement>) {
    movements == [] || (&& (forall m :: m in movements[1..] ==> m.data.key != movements[0].data.key || m.data.business != movements[0].data.business)
                        && UniqueKeys(movements[1..]))
  }

  lemma {:induction false} UniqueKeysAppend(a: seq<Movement>, b: seq<Movement>)
    requires UniqueKeys(a) && DistinctKeys(b)
    requires forall m, n :: m in a && n in b ==> m.data.key != n.data.key
    ensures UniqueKeys(a + b)
  {
    if a != [] {
      assert (a + b)[1..] == a[1..] + b;
      UniqueKeysAppend(a[1..], b);
      forall m | m in (a + b)[1..]
        ensures m.data.key != a[0].data.key || m.data.business != a[0].data.business
      {
        assert m in a[1..] || m in b;
      }
    } else if b != [] {
      assert a + b == b;
      UniqueKeysAppend([], b[1..]);
      assert [] + b[1..] == b[1..];
    }
  }

  lemma {:induction false} Phase1Safe(movements: seq<Movement>, log: seq<LogRow>, purchases: seq<Purchase>, items: map<Uuid, Item>, ids: map<string, Uuid>)
    requires UniqueKeys(movements) && DistinctIds(movements)
    requires DistinctSources(log, purchases) && FreshIds(movements, log, purchases, ids)
    ensures UniqueKeys(AfterPhase1(movements, log, items, ids)) && DistinctIds(AfterPhase1(movements, log, items, ids))
  {
    var legacy := LegacyRows(movements, log, items, ids);
    LegacyRowsDistinct(movements, log, items, ids);
    LegacyRowIds(movements, log, items, ids);
    LegacyRowsAreNew(movements, log, items, ids);
    UniqueKeysAppend(movements, legacy);
    DistinctIdsFromKeys(legacy, ids);
    DistinctIdsAppend(movements, legacy);
  }

  /** Legacy rows and receipts never draw the same id, because their key formats are disjoint. */
  lemma {:induction false} PostedIdsFresh(movements: seq<Movement>, log: seq<LogRow>, purchases: seq<Purchase>, items: map<Uuid, Item>,
                       ids: map<string, Uuid>, receipts: seq<Receipt>)
    requires FreshIds(movements, log, purchases, ids)
    requires forall r :: r in receipts ==> ReceiptKey(r.id, r.item) in ids
    ensures var ledger := AfterPhase1(movements, log, items, ids);
            forall m, n :: m in ledger && n in PostedRows(ledger, receipts, items, ids) ==> m.id != n.id
  {
    var ledger := AfterPhase1(movements, log, items, ids);
    LegacyRowIds(movements, log, items, ids);
    PostedRowIds(ledger, receipts, items, ids);
    PostedRowsAreNew(ledger, receipts, items, ids);
    forall m, n | m in ledger && n in PostedRows(ledger, receipts, items, ids)
      ensures m.id != n.id
    {
      assert m in movements || m in LegacyRows(movements, log, items, ids);
    }
  }

  /** The backfill never violates the primary key or the unique key of the ledger. */
  lemma {:induction false} BackfillKeepsKeysUnique(movements: seq<Movement>, log: seq<LogRow>, purchases: seq<Purchase>, items: map<Uuid, Item>, ids: map<string, Uuid>)
    requires UniqueKeys(movements) && DistinctIds(movements)
    requires DistinctSources(log, purchases) && FreshIds(movements, log, purchases, ids)
    ensures UniqueKeys(Backfilled(movements, log, purchases, items, ids))
    ensures DistinctIds(Backfilled(movements, log, purchases, items, ids))
  {
    var ledger := AfterPhase1(movements, log, items, ids);
    var receipts := Phase2(ledger, log, purchases);
    var posted := PostedRows(ledger, receipts, items, ids);
    Phase1Safe(movements, log, purchases, items, ids);
    Phase2Receipts(ledger, log, purchases);
    PostedRowsDistinct(ledger, receipts, items, ids);
    forall r | r in receipts
      ensures ReceiptKey(r.id, r.item) in ids
    {
      var e :| e in Receipts(purchases) && e.id == r.id && e.item == r.item;
    }
    PostedRowIds(ledger, receipts, items, ids);
    PostedRowsAreNew(ledger, receipts, items, ids);
    UniqueKeysAppend(ledger, posted);
    DistinctIdsFromKeys(posted, ids);
    PostedIdsFresh(movements, log, purchases, items, ids, receipts);
    DistinctIdsAppend(ledger, posted);
  }
}
