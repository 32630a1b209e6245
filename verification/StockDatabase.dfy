/** The stock tables and the operations that update them in place.  Each operation is proved to do
    what its specification function says; the properties of those functions are proved beside them. */
module StockDatabase {
  import opened Lists
  import opened Numerals
  import opened Options
  import opened StockBackfill
  import opened StockLedger
  import opened StockMigration
  import opened StockMovements
  import opened StockRounding
  import opened Windows

  /** `kept` are the rows of the first n that do not match the filter, and `at` says where they stood. */
  ghost predicate RemainUpTo(all: seq<Movement>, kept: seq<Movement>, at: seq<nat>, n: nat)
    requires n <= |all|
  {
    && |at| == |kept| && Increasing(at)
    && (forall k :: 0 <= k < |at| ==> at[k] < n && kept[k] == all[at[k]] && !LooksBackfilled(kept[k]))
    && (forall i :: 0 <= i < n && !LooksBackfilled(all[i]) ==> i in at)
  }

  ghost predicate Remain(all: seq<Movement>, kept: seq<Movement>, at: seq<nat>) {
    RemainUpTo(all, kept, at, |all|)
  }

  lemma RemainStep(all: seq<Movement>, kept: seq<Movement>, at: seq<nat>, n: nat)
    requires n < |all| && RemainUpTo(all, kept, at, n)
    ensures if LooksBackfilled(all[n]) then RemainUpTo(all, kept, at, n + 1) else RemainUpTo(all, kept + [all[n]], at + [n], n + 1)
  {
  }

  lemma DowngradeStep(all: seq<Movement>, kept: seq<Movement>, n: nat)
    requires n < |all|
    ensures kept + Downgraded(all[n..]) == (if LooksBackfilled(all[n]) then kept else kept + [all[n]]) + Downgraded(all[n + 1..])
  {
    assert all[n..][1..] == all[n + 1..];
  }

  class Database {
    var movements: seq<Movement>
    var log: seq<LogRow>
    var purchases: seq<Purchase>
    var items: map<Uuid, Item>

    ghost function View(): Tables
      reads this
    {
      Tables(movements, log, items)
    }

    constructor (movements: seq<Movement>, log: seq<LogRow>, purchases: seq<Purchase>, items: map<Uuid, Item>)
      ensures View() == Tables(movements, log, items) && this.purchases == purchases
    {
      this.movements, this.log, this.purchases, this.items := movements, log, purchases, items;
    }

    /** 048, row by row: received purchases with lines and no positive quantity get one. */
    method BackfillCommittedQty()
      modifies this`purchases
      ensures |purchases| == |old(purchases)|
      ensures forall i :: 0 <= i < |purchases| ==> IsCommitted(old(purchases)[i], purchases[i])
      ensures forall i :: 0 <= i < |purchases| ==> purchases[i] == WithCommittedQty(old(purchases)[i])
    {
      for n := 0 to |purchases|
        invariant |purchases| == |old(purchases)|
        invariant forall i :: 0 <= i < |purchases| ==> purchases[i] == if i < n then WithCommittedQty(old(purchases)[i]) else old(purchases)[i]
      {
        var p := purchases[n];
        if Received(p) && p.lines != [] && (p.committedQty.None? || p.committedQty.value <= 0) {
          purchases := purchases[n := p.(committedQty := Some(CommittedQty(p)))];
        }
      }
      forall i | 0 <= i < |purchases|
        ensures IsCommitted(old(purchases)[i], purchases[i])
      {
        CommittedQtyIsFilled(old(purchases)[i]);
      }
    }

    /** 049 upgrade, one transaction: when the synced stock would be negative nothing changes. */
    method BackfillLedger(ids: map<string, Uuid>) returns (ok: bool)
      modifies this`movements, this`items
      ensures var backfilled := Backfilled(old(movements), log, purchases, old(items), ids);
              && (ok <==> SyncAllowed(old(items), backfilled))
              && (ok ==> movements == backfilled && items == SyncFromTail(old(items), backfilled))
              && (!ok ==> movements == old(movements) && items == old(items))
    {
      var before := movements;
      movements := movements + LegacyRows(movements, log, items, ids);
      var receipts := Eligible(movements, log, Receipts(purchases));
      movements := movements + PostedRows(movements, WithBalances(movements, receipts), items, ids);
      if !SyncAllowed(items, movements) {
        movements := before;
        return false;
      }
      items := SyncFromTail(items, movements);
      return true;
    }

    /** 049 downgrade: the rows that do not match the filter remain, each of them, once and in order. */
    method RemoveBackfill()
      modifies this`movements
      ensures movements == Downgraded(old(movements))
      ensures exists at: seq<nat> :: Remain(old(movements), movements, at)
    {
      ghost var at;
      movements, at := Remaining(movements);
    }

    static method Remaining(all: seq<Movement>) returns (kept: seq<Movement>, ghost at: seq<nat>)
      ensures kept == Downgraded(all) && Remain(all, kept, at)
    {
      kept, at := [], [];
      for n := 0 to |all|
        invariant kept + Downgraded(all[n..]) == Downgraded(all)
        invariant RemainUpTo(all, kept, at, n)
      {
        RemainStep(all, kept, at, n);
        DowngradeStep(all, kept, n);
        if !LooksBackfilled(all[n]) {
          kept, at := kept + [all[n]], at + [n];
        }
      }
    }

    /** 050, one transaction. */
    method ReplayLedger() returns (ok: bool)
      modifies this`movements, this`items
      ensures ok <==> SyncAllowed(old(items), Replayed(old(movements)))
      ensures ok ==> movements == Replayed(old(movements)) && items == SyncFromTail(old(items), Replayed(old(movements)))
      ensures !ok ==> movements == old(movements) && items == old(items)
    {
      var before := movements;
      movements := Replayed(movements);
      if !SyncAllowed(items, movements) {
        movements := before;
        return false;
      }
      items := SyncFromTail(items, movements);
      return true;
    }

    /** 049 and 050 pending together: one transaction, undone as a whole when either is refused. */
    method UpgradeLedger(ids: map<string, Uuid>) returns (ok: bool)
      modifies this`movements, this`items
      ensures ok <==> UpgradeGoesThrough(old(View()), purchases, ids)
      ensures View() == Upgraded(old(View()), purchases, ids)
    {
      var before, was := movements, items;
      ok := BackfillLedger(ids);
      if ok {
        ok := ReplayLedger();
        if !ok {
          movements, items := before, was;
        }
      }
    }

    /** One live stock movement. */
    method Move(req: Request, s: Supply) returns (outcome: Outcome)
      modifies this`movements, this`log, this`items
      ensures outcome == old(Answer(View(), req, s))
      ensures View() == old(After(View(), req, s))
    {
      if req.key != "" {
        var stored := Stored(movements, req.business, req.key);
        if stored.Some? {
          if !IsLive(items, req.business, stored.value.item) {
            return ItemNotFound;
          }
          return Duplicate(stored.value);
        }
      }
      if !IsLive(items, req.business, req.item) {
        return ItemNotFound;
      }
      var item := items[req.item];
      if !VersionAccepted(req, item.version) {
        return StaleVersion;
      }
      var after := if req.absolute then req.qty else item.stock + req.qty;
      if after < 0 {
        return NegativeStock;
      }
      var movement := MovementOf(req, s, item.stock);
      items := items[req.item := item.(stock := after, version := item.version + 1)];
      movements := movements + [movement];
      if req.projection {
        log := log + [LogRowOf(req, s, item.stock)];
      }
      return Applied(movement);
    }
  }
}
