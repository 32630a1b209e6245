/** The stock movement ledger, its replay from zero and the sync of live stock from its tail
    (migration 050). */
module StockLedger {
  import opened Numerals
  import opened Windows

  /** The columns of a movement that no running sum looks at. */
  datatype MovementInfo = MovementInfo(business: Uuid, kind: string, key: string, backfill: bool)

  type Movement = Row<MovementInfo>

  /** A catalog item as far as stock is concerned; quantities are in thousandths. */
  datatype Item = Item(business: Uuid, stock: int, version: int, deleted: bool)

  /** Every balance recomputed from zero, in window order, whatever was stored before. */
  function Replayed(movements: seq<Movement>): seq<Movement> {
    WithBalances<MovementInfo, MovementInfo>([], movements)
  }

  /** Items whose stock a tail sync writes. */
  predicate Synced(items: map<Uuid, Item>, movements: seq<Movement>, item: Uuid) {
    item in items && !items[item].deleted && OfItem(movements, item) != []
  }

  /** Live items with movements take the quantity after their latest movement. */
  function SyncFromTail(items: map<Uuid, Item>, movements: seq<Movement>): map<Uuid, Item> {
    map i | i in items ::
      if Synced(items, movements, i) then items[i].(stock := TailQty(movements, i)) else items[i]
  }

  /** The sync respects the constraint that live stock is never negative. */
  predicate SyncAllowed(items: map<Uuid, Item>, movements: seq<Movement>) {
    forall i :: i in items && Synced(items, movements, i) ==> TailQty(movements, i) >= 0
  }

  /** The items after a sync in its transaction: as they were when the constraint refuses any of them. */
  function AttemptedSync(items: map<Uuid, Item>, movements: seq<Movement>): map<Uuid, Item> {
    if SyncAllowed(items, movements) then SyncFromTail(items, movements) else items
  }

  /** The ledger after 050 in its transaction. */
  function AttemptedReplay(items: map<Uuid, Item>, movements: seq<Movement>): seq<Movement> {
    if SyncAllowed(items, Replayed(movements)) then Replayed(movements) else movements
  }

  // ----- replay -----

  lemma {:induction false} TotalOfBalances<T(!new), U(!new)>(ledger: seq<Row<T>>, rows: seq<Row<U>>, todo: seq<Row<U>>)
    ensures Total(BalanceEach(ledger, rows, todo)) == Total(todo)
  {
    if todo != [] {
      TotalOfBalances(ledger, rows, todo[1..]);
      assert BalanceEach(ledger, rows, todo)[1..] == BalanceEach(ledger, rows, todo[1..]);
    }
  }

  lemma {:induction false} SumBeforeOfBalances<T(!new), U(!new), V(!new)>(ledger: seq<Row<T>>, rows: seq<Row<U>>, todo: seq<Row<U>>, r: Row<V>)
    ensures SumBefore(BalanceEach(ledger, rows, todo), r) == SumBefore(todo, r)
  {
    if todo != [] {
      SumBeforeOfBalances(ledger, rows, todo[1..], r);
      assert BalanceEach(ledger, rows, todo)[1..] == BalanceEach(ledger, rows, todo[1..]);
    }
  }

  lemma {:induction false} SameDeltasSameTotals<T(!new)>(a: seq<Row<T>>, b: seq<Row<T>>, k: nat)
    requires |a| == |b| && k <= |a|
    requires forall i :: 0 <= i < |a| ==> a[i].delta == b[i].delta
    ensures Total(a[..k]) == Total(b[..k])
  {
    if k > 0 {
      assert a[..k] == a[..k - 1] + [a[k - 1]] && b[..k] == b[..k - 1] + [b[k - 1]];
      TotalAppend(a[..k - 1], [a[k - 1]]);
      TotalAppend(b[..k - 1], [b[k - 1]]);
      SameDeltasSameTotals(a, b, k - 1);
    }
  }

  /** The balances of a consistent chain, read off the deltas of any chain with the same deltas. */
  lemma {:induction false} ConsistentMirror<T(!new)>(deltas: seq<Row<T>>, chain: seq<Row<T>>, q: int)
    requires ConsistentFrom(chain, q) && |chain| == |deltas|
    requires forall i :: 0 <= i < |chain| ==> chain[i].delta == deltas[i].delta
    ensures forall k :: 0 <= k < |chain| ==> chain[k].before == q + Total(deltas[..k]) && chain[k].after == chain[k].before + deltas[k].delta
    ensures chain != [] ==> chain[|chain| - 1].after == q + Total(deltas)
  {
    forall k | 0 <= k < |chain|
      ensures chain[k].before == q + Total(deltas[..k]) && chain[k].after == chain[k].before + deltas[k].delta
    {
      ConsistentAt(chain, q, k);
      SameDeltasSameTotals(chain, deltas, k);
    }
    if chain != [] {
      ConsistentEnd(chain, q);
      SameDeltasSameTotals(chain, deltas, |chain|);
      assert chain[..|chain|] == chain && deltas[..|deltas|] == deltas;
    }
  }

  lemma {:induction false} ReplayedChain(movements: seq<Movement>, item: Uuid)
    requires DistinctIds(movements)
    ensures var old_, new_ := Chain(movements, item), Chain(Replayed(movements), item);
            && ConsistentFrom(new_, 0)
            && |new_| == |old_|
            && (forall k :: 0 <= k < |new_| ==> SameEvent(new_[k], old_[k]) && new_[k].delta == old_[k].delta)
  {
    RunningBalances<MovementInfo, MovementInfo>([], movements, item);
    ChainOfBalances<MovementInfo, MovementInfo>([], movements, movements, item);
  }

  /** Replay yields a correct ledger for every item: the same events in the same order, starting from
      zero, each row ending at its start plus its delta and consecutive rows meeting. */
  lemma {:induction false} ReplayYieldsCorrectLedger(movements: seq<Movement>, item: Uuid)
    requires DistinctIds(movements)
    ensures var old_, new_ := Chain(movements, item), Chain(Replayed(movements), item);
            && ConsistentFrom(new_, 0)
            && |new_| == |old_|
            && (forall k :: 0 <= k < |new_| ==> SameEvent(new_[k], old_[k]))
            && (forall k :: 0 <= k < |new_| ==> new_[k].before == Total(old_[..k]) && new_[k].after == new_[k].before + old_[k].delta)
            && (new_ != [] ==> new_[|new_| - 1].after == Total(old_))
  {
    ReplayedChain(movements, item);
    ConsistentMirror(Chain(movements, item), Chain(Replayed(movements), item), 0);
  }

  lemma {:induction false} ChainEmpty<T(!new)>(rows: seq<Row<T>>, item: Uuid)
    ensures Chain(rows, item) == [] <==> OfItem(rows, item) == []
  {
  }

  /** The tail of the replayed ledger is the sum of all deltas of the item. */
  lemma {:induction false} ReplayedTail(movements: seq<Movement>, item: Uuid)
    requires DistinctIds(movements)
    ensures OfItem(Replayed(movements), item) != [] <==> OfItem(movements, item) != []
    ensures TailQty(Replayed(movements), item) == Total(OfItem(movements, item))
  {
    ReplayYieldsCorrectLedger(movements, item);
    ChainEmpty(movements, item);
    ChainEmpty(Replayed(movements), item);
    ChainMembers(movements, item);
  }

  /** After 050 the stock of every live item with movements is the sum of all its deltas; deleted
      items and items without movements keep what they had. */
  lemma {:induction false} ReplaySetsStockToSum(items: map<Uuid, Item>, movements: seq<Movement>)
    requires DistinctIds(movements)
    ensures var synced := SyncFromTail(items, Replayed(movements));
            && synced.Keys == items.Keys
            && forall i :: i in items ==>
                 synced[i] == if !items[i].deleted && OfItem(movements, i) != []
                              then items[i].(stock := Total(OfItem(movements, i))) else items[i]
  {
    forall i: Uuid
      ensures OfItem(Replayed(movements), i) != [] <==> OfItem(movements, i) != []
      ensures TailQty(Replayed(movements), i) == Total(OfItem(movements, i))
    {
      ReplayedTail(movements, i);
    }
  }

  /** The migration goes through exactly when no live item's deltas sum to a negative quantity. */
  lemma {:induction false} ReplayAllowedIff(items: map<Uuid, Item>, movements: seq<Movement>)
    requires DistinctIds(movements)
    ensures SyncAllowed(items, Replayed(movements))
            <==> forall i :: i in items && !items[i].deleted ==> Total(OfItem(movements, i)) >= 0
  {
    forall i: Uuid
      ensures OfItem(Replayed(movements), i) != [] <==> OfItem(movements, i) != []
      ensures TailQty(Replayed(movements), i) == Total(OfItem(movements, i))
    {
      ReplayedTail(movements, i);
    }
    assert forall i :: i in items && !items[i].deleted && !Synced(items, Replayed(movements), i) ==> Total(OfItem(movements, i)) >= 0;
    if SyncAllowed(items, Replayed(movements)) {
      forall i | i in items && !items[i].deleted
        ensures Total(OfItem(movements, i)) >= 0
      {
        assert Synced(items, Replayed(movements), i) ==> TailQty(Replayed(movements), i) >= 0;
      }
    }
  }

  lemma ReplayIdempotent(movements: seq<Movement>)
    ensures Replayed(Replayed(movements)) == Replayed(movements)
  {
    var once := Replayed(movements);
    var twice := Replayed(once);
    forall i | 0 <= i < |once|
      ensures twice[i] == once[i]
    {
      SumBeforeOfBalances<MovementInfo, MovementInfo, MovementInfo>([], movements, movements, once[i]);
      SumBeforeSameKey(movements, once[i], movements[i]);
    }
  }

  lemma {:induction false} SumBeforeSameKey<T(!new), U(!new)>(rows: seq<Row<T>>, r: Row<U>, s: Row<U>)
    requires r.item == s.item && r.at == s.at && r.id == s.id
    ensures SumBefore(rows, r) == SumBefore(rows, s)
  {
    if rows != [] {
      SumBeforeSameKey(rows[1..], r, s);
    }
  }

  /** A stored balance agrees with the replay when its chain is consistent from zero. */
  lemma {:induction false} ConsistentMeansReplayed(movements: seq<Movement>, m: Movement)
    requires DistinctIds(movements) && m in movements
    requires ConsistentFrom(Chain(movements, m.item), 0)
    ensures Balanced<MovementInfo, MovementInfo>([], movements, m) == m
  {
    var chain := Chain(movements, m.item);
    ChainMembers(movements, m.item);
    ChainAt(movements, m.item);
    ChainSorted(movements, m.item);
    assert m in chain;
    var k :| 0 <= k < |chain| && chain[k] == m;
    ConsistentAt(chain, 0, k);
    SumBeforeChain(movements, m);
    SumBeforeAt(chain, k);
  }

  /** Exactly which ledgers 050 leaves alone: those whose every chain is consistent from zero. */
  lemma {:induction false} ReplayFixpoints(movements: seq<Movement>)
    requires DistinctIds(movements)
    ensures Replayed(movements) == movements <==> forall item: Uuid :: ConsistentFrom(Chain(movements, item), 0)
  {
    if Replayed(movements) == movements {
      forall item: Uuid
        ensures ConsistentFrom(Chain(movements, item), 0)
      {
        ReplayYieldsCorrectLedger(movements, item);
      }
    }
    if forall item: Uuid :: ConsistentFrom(Chain(movements, item), 0) {
      forall i | 0 <= i < |movements|
        ensures Replayed(movements)[i] == movements[i]
      {
        ConsistentMeansReplayed(movements, movements[i]);
      }
    }
  }

  /** A chain is moved by exactly `-q` if and only if it was consistent from `q`. */
  lemma {:induction false} ReplayShiftsConsistentChain(movements: seq<Movement>, item: Uuid, q: int)
    requires DistinctIds(movements)
    ensures var old_, new_ := Chain(movements, item), Chain(Replayed(movements), item);
            && |new_| == |old_|
            && (ConsistentFrom(old_, q)
                <==> forall k :: 0 <= k < |old_| ==> new_[k].before == old_[k].before - q && new_[k].after == old_[k].after - q)
  {
    ReplayYieldsCorrectLedger(movements, item);
    var old_, new_ := Chain(movements, item), Chain(Replayed(movements), item);
    if ConsistentFrom(old_, q) {
      forall k | 0 <= k < |old_|
        ensures new_[k].before == old_[k].before - q && new_[k].after == old_[k].after - q
      {
        ConsistentAt(old_, q, k);
      }
    }
    if forall k :: 0 <= k < |old_| ==> new_[k].before == old_[k].before - q && new_[k].after == old_[k].after - q {
      ConsistentIfAt(old_, q);
    }
  }
}
