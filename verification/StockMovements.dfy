/** Live stock movements: one request writes the item, the ledger and, as a projection, the legacy
    adjustment log.  Requests on one database are serialised by row locks, so a run is a sequence. */
module StockMovements {
  import opened Numerals
  import opened Options
  import opened StockAfterBackfill
  import opened StockBackfill
  import opened StockBackfillTheorems
  import opened StockLedger
  import opened Texts
  import opened Windows

  datatype Tables = Tables(movements: seq<Movement>, log: seq<LogRow>, items: map<Uuid, Item>)

  /** `key` is the caller's idempotency key, already stripped; empty when there is none. */
  datatype Request = Request(business: Uuid, item: Uuid, kind: string, absolute: bool, qty: int, reason: Option<string>, key: string,
                             lastSeenVersion: Option<int>, force: bool, tolerance: int, projection: bool)

  /** What the environment supplies: the clock, the drawn row ids and the key for a keyless request. */
  datatype Supply = Supply(now: int, movementId: Uuid, logId: Uuid, generatedKey: string)

  datatype Outcome = Applied(movement: Movement) | Duplicate(movement: Movement) | ItemNotFound | StaleVersion | NegativeStock

  /** The type under which the adjustment log files a movement; unknown kinds are manual. */
  function AdjustmentType(kind: string): string {
    TypeOf(Lower(Strip(kind)))
  }

  function TypeOf(kind: string): string {
    match kind
    case "quick_purchase" => "purchase"
    case "physical_count" => "verification"
    case "damage" => "damaged"
    case "correction" => "correction"
    case "sale" => "sale"
    case "opening_stock" => "opening_stock"
    case "delivery_receive" => "purchase"
    case "delivery_revoke" => "purchase_reversal"
    case "delivery_adjustment" => "purchase_adjustment"
    case "usage" => "usage"
    case "undo" => "correction"
    case _ => "manual"
  }

  predicate IsLive(items: map<Uuid, Item>, business: Uuid, item: Uuid) {
    item in items && items[item].business == business && !items[item].deleted
  }

  /** The movement stored under a key of a business. */
  function Stored(movements: seq<Movement>, business: Uuid, key: string): Option<Movement> {
    if movements == [] then None
    else if movements[0].data.business == business && movements[0].data.key == key then Some(movements[0])
    else Stored(movements[1..], business, key)
  }

  predicate VersionAccepted(req: Request, version: int) {
    || req.lastSeenVersion.None? || req.lastSeenVersion.value == version || req.force
    || (req.tolerance > 0 && 0 < version - req.lastSeenVersion.value <= req.tolerance)
  }

  function QtyAfter(req: Request, before: int): int {
    if req.absolute then req.qty else before + req.qty
  }

  function EffectiveKey(req: Request, s: Supply): string {
    if req.key != "" then req.key else s.generatedKey
  }

  function MovementOf(req: Request, s: Supply, before: int): Movement {
    var after := QtyAfter(req, before);
    Row(req.item, s.now, s.movementId, after - before, before, after, MovementInfo(req.business, req.kind, EffectiveKey(req, s), false))
  }

  /** A reason is stripped, unless nothing would be left of it. */
  function LoggedReason(reason: Option<string>): Option<string> {
    if reason.Some? && Strip(reason.value) != "" then Some(Strip(reason.value)) else reason
  }

  function LogRowOf(req: Request, s: Supply, before: int): LogRow {
    LogRow(s.logId, req.business, req.item, AdjustmentType(req.kind), before, QtyAfter(req, before), LoggedReason(req.reason), s.now)
  }

  /** The reply to one request. */
  function Answer(t: Tables, req: Request, s: Supply): Outcome {
    var stored := if req.key == "" then None else Stored(t.movements, req.business, req.key);
    if stored.Some? then
      if IsLive(t.items, req.business, stored.value.item) then Duplicate(stored.value) else ItemNotFound
    else if !IsLive(t.items, req.business, req.item) then ItemNotFound
    else if !VersionAccepted(req, t.items[req.item].version) then StaleVersion
    else if QtyAfter(req, t.items[req.item].stock) < 0 then NegativeStock
    else Applied(MovementOf(req, s, t.items[req.item].stock))
  }

  /** The tables after one request: only an applied request changes them. */
  function After(t: Tables, req: Request, s: Supply): Tables {
    var answer := Answer(t, req, s);
    if !answer.Applied? then t
    else
      var item := t.items[req.item];
      Tables(t.movements + [answer.movement],
             if req.projection then t.log + [LogRowOf(req, s, item.stock)] else t.log,
             t.items[req.item := item.(stock := answer.movement.after, version := item.version + 1)])
  }

  // ----- the ledger follows the stock -----

  /** Every item's ledger is an unbroken chain from its starting stock to its current stock, which is
      never negative. */
  ghost predicate Tracks(t: Tables, start: map<Uuid, int>) {
    && DistinctIds(t.movements)
    && start.Keys == t.items.Keys
    && forall i :: i in t.items ==> TracksItem(t, i, start[i])
  }

  ghost predicate TracksItem(t: Tables, item: Uuid, start: int)
    requires item in t.items
  {
    && t.items[item].stock >= 0
    && ConsistentFrom(Chain(t.movements, item), start)
    && t.items[item].stock == (if OfItem(t.movements, item) == [] then start else TailQty(t.movements, item))
  }

  /** The drawn movement id is new, and the clock puts the movement after those of the same item. */
  ghost predicate SupplyOk(t: Tables, item: Uuid, s: Supply) {
    forall m :: m in t.movements ==>
      m.id != s.movementId && (m.item == item ==> m.at < s.now || (m.at == s.now && m.id < s.movementId))
  }

  lemma {:induction false} InsertBeforeLast<T(!new)>(r: Row<T>, rows: seq<Row<T>>, last: Row<T>)
    requires Earlier(r, last)
    ensures Insert(r, rows + [last]) == Insert(r, rows) + [last]
  {
    if !(rows == [] || Earlier(r, rows[0])) {
      assert (rows + [last])[1..] == rows[1..] + [last];
      InsertBeforeLast(r, rows[1..], last);
    }
  }

  lemma {:induction false} SortAppendLast<T(!new)>(rows: seq<Row<T>>, last: Row<T>)
    requires forall r :: r in rows ==> Earlier(r, last)
    ensures Sort(rows + [last]) == Sort(rows) + [last]
  {
    if rows == [] {
      assert [last][1..] == [];
      assert rows + [last] == [last];
    } else {
      assert (rows + [last])[1..] == rows[1..] + [last];
      SortAppendLast(rows[1..], last);
      InsertBeforeLast(rows[0], Sort(rows[1..]), last);
    }
  }

  lemma {:induction false} ChainAppendLatest(movements: seq<Movement>, m: Movement, item: Uuid)
    requires forall x :: x in movements && x.item == m.item ==> Earlier(x, m)
    ensures Chain(movements + [m], item) == if m.item == item then Chain(movements, item) + [m] else Chain(movements, item)
    ensures OfItem(movements + [m], item) == if m.item == item then OfItem(movements, item) + [m] else OfItem(movements, item)
  {
    OfItemAppend(movements, [m], item);
    assert OfItem([m], item) == if m.item == item then [m] else [];
    OfItemMembers(movements, item);
    if m.item == item {
      SortAppendLast(OfItem(movements, item), m);
    } else {
      assert OfItem(movements, item) + [] == OfItem(movements, item);
    }
  }

  /** A movement that starts from the tracked stock keeps the item tracked. */
  lemma MovementKeepsItem(t: Tables, t': Tables, m: Movement, item: Uuid, start: int)
    requires item in t.items && item in t'.items && TracksItem(t, item, start)
    requires t'.movements == t.movements + [m] && forall x :: x in t.movements && x.item == m.item ==> Earlier(x, m)
    requires m.item == item ==> m.before == t.items[item].stock && m.after == m.before + m.delta && m.after == t'.items[item].stock >= 0
    requires m.item != item ==> t'.items[item] == t.items[item]
    ensures TracksItem(t', item, start)
  {
    ChainAppendLatest(t.movements, m, item);
    if m.item == item {
      ChainEmpty(t.movements, item);
      assert [m][1..] == [];
      ConsistentAppend(Chain(t.movements, item), [m], start);
    }
  }

  /** Every request keeps the ledger in step with the stock. */
  lemma RequestKeepsTracking(t: Tables, start: map<Uuid, int>, req: Request, s: Supply)
    requires Tracks(t, start) && SupplyOk(t, req.item, s)
    ensures Tracks(After(t, req, s), start)
  {
    var t', answer := After(t, req, s), Answer(t, req, s);
    if answer.Applied? {
      var m := answer.movement;
      DistinctIdsAppend(t.movements, [m]);
      forall i | i in t'.items
        ensures TracksItem(t', i, start[i])
      {
        assert TracksItem(t, i, start[i]);
        MovementKeepsItem(t, t', m, i, start[i]);
      }
    }
  }

  /** A run of requests, each with what the environment supplies. */
  ghost function RunOf(t: Tables, requests: seq<(Request, Supply)>): Tables {
    if requests == [] then t
    else After(RunOf(t, requests[..|requests| - 1]), requests[|requests| - 1].0, requests[|requests| - 1].1)
  }

  /** The movements of an item follow each other in time, and ids are not drawn twice. */
  ghost predicate RunSupplied(t: Tables, requests: seq<(Request, Supply)>) {
    requests == []
    || (&& RunSupplied(t, requests[..|requests| - 1])
        && SupplyOk(RunOf(t, requests[..|requests| - 1]), requests[|requests| - 1].0.item, requests[|requests| - 1].1))
  }

  lemma {:induction false} RunKeepsTracking(t: Tables, start: map<Uuid, int>, requests: seq<(Request, Supply)>)
    requires Tracks(t, start) && RunSupplied(t, requests)
    ensures Tracks(RunOf(t, requests), start)
  {
    if requests != [] {
      var k := |requests| - 1;
      RunKeepsTracking(t, start, requests[..k]);
      RequestKeepsTracking(RunOf(t, requests[..k]), start, requests[k].0, requests[k].1);
    }
  }

  lemma {:induction false} TrackedStock(t: Tables, start: map<Uuid, int>, item: Uuid)
    requires Tracks(t, start) && item in t.items
    ensures item in start && t.items[item].stock >= 0
    ensures t.items[item].stock == start[item] + Total(OfItem(t.movements, item))
  {
    assert TracksItem(t, item, start[item]);
    ChainMembers(t.movements, item);
    ChainEmpty(t.movements, item);
    if Chain(t.movements, item) != [] {
      ConsistentEnd(Chain(t.movements, item), start[item]);
    }
  }

  /** Conservation over every run: the stock of an item is its starting stock plus all deltas of its
      ledger, and it is never negative. */
  lemma {:induction false} StockIsStartPlusDeltas(t: Tables, start: map<Uuid, int>, requests: seq<(Request, Supply)>, item: Uuid)
    requires Tracks(t, start) && RunSupplied(t, requests)
    requires item in RunOf(t, requests).items
    ensures var t' := RunOf(t, requests);
            && item in start
            && t'.items[item].stock == start[item] + Total(OfItem(t'.movements, item))
            && t'.items[item].stock >= 0
  {
    RunKeepsTracking(t, start, requests);
    TrackedStock(RunOf(t, requests), start, item);
  }

  lemma {:induction false} StoredAppend(movements: seq<Movement>, m: Movement)
    requires Stored(movements, m.data.business, m.data.key).None?
    ensures Stored(movements + [m], m.data.business, m.data.key) == Some(m)
  {
    if movements == [] {
      assert movements + [m] == [m];
    } else {
      assert (movements + [m])[1..] == movements[1..] + [m];
      StoredAppend(movements[1..], m);
    }
  }

  /** Sending an applied key again, with whatever else in the request, changes nothing and reports
      the first movement. */
  lemma RepeatIsDuplicate(t: Tables, req: Request, s: Supply, again: Request, s': Supply)
    requires Answer(t, req, s).Applied? && req.key != ""
    requires again.key == req.key && again.business == req.business
    ensures Answer(After(t, req, s), again, s') == Duplicate(Answer(t, req, s).movement)
    ensures After(After(t, req, s), again, s') == After(t, req, s)
  {
    StoredAppend(t.movements, Answer(t, req, s).movement);
  }

  /** On a ledger that tracks the stock, 050 goes through if and only if no live item is below its starting
      stock. */
  lemma {:induction false} LiveReplayAllowedIff(t: Tables, start: map<Uuid, int>)
    requires Tracks(t, start)
    ensures SyncAllowed(t.items, Replayed(t.movements))
            <==> forall i :: i in t.items && !t.items[i].deleted ==> t.items[i].stock >= start[i]
  {
    ReplayAllowedIff(t.items, t.movements);
    forall i | i in t.items
      ensures t.items[i].stock == start[i] + Total(OfItem(t.movements, i))
    {
      TrackedStock(t, start, i);
    }
  }

  /** 050 leaves a ledger that tracks the stock alone exactly when it is refused, because some live item is below
      its starting stock, or every item with movements started from zero. */
  lemma {:induction false} ReplayOfLiveLedger(t: Tables, start: map<Uuid, int>)
    requires Tracks(t, start)
    requires forall m :: m in t.movements ==> m.item in t.items
    ensures AttemptedReplay(t.items, t.movements) == t.movements
            <==> (exists i :: i in t.items && !t.items[i].deleted && t.items[i].stock < start[i])
                 || forall i :: i in t.items && OfItem(t.movements, i) != [] ==> start[i] == 0
  {
    LiveReplayAllowedIff(t, start);
    LiveReplayFixpoint(t, start);
  }

  lemma {:induction false} LiveReplayFixpoint(t: Tables, start: map<Uuid, int>)
    requires Tracks(t, start)
    requires forall m :: m in t.movements ==> m.item in t.items
    ensures Replayed(t.movements) == t.movements
            <==> forall i :: i in t.items && OfItem(t.movements, i) != [] ==> start[i] == 0
  {
    ReplayFixpoints(t.movements);
    forall i: Uuid
      ensures i in t.items ==> (ConsistentFrom(Chain(t.movements, i), 0) <==> (OfItem(t.movements, i) != [] ==> start[i] == 0))
      ensures i !in t.items ==> ConsistentFrom(Chain(t.movements, i), 0)
    {
      ChainEmpty(t.movements, i);
      OfItemMembers(t.movements, i);
      if i in t.items {
        assert TracksItem(t, i, start[i]);
      } else {
        NoRowsOf(t.movements, i);
      }
    }
  }

  lemma {:induction false} NoRowsOf(movements: seq<Movement>, item: Uuid)
    requires forall m :: m in movements ==> m.item != item
    ensures OfItem(movements, item) == []
  {
    if movements != [] {
      assert movements[0] in movements;
      NoRowsOf(movements[1..], item);
    }
  }
}
