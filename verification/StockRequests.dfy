/** What live stock requests are answered and what they do to the stock, in terms of the requests themselves. */
module StockRequests {
  import opened Numerals
  import opened Options
  import opened Patterns
  import opened StockBackfill
  import opened StockBackfillTheorems
  import opened StockLedger
  import opened StockMovements
  import opened StockReceipts
  import opened Texts
  import opened Windows

  // ----- one request -----

  /** The stock that the request asks for. */
  ghost function Wanted(req: Request, stock: int): int {
    if req.absolute then req.qty else stock + req.qty
  }

  /** The version that the caller has seen will do: the current one, one that is not too old, or any if forced. */
  ghost predicate VersionWillDo(req: Request, version: int) {
    req.lastSeenVersion.Some? && !req.force ==>
      version == req.lastSeenVersion.value || req.lastSeenVersion.value < version <= req.lastSeenVersion.value + req.tolerance
  }

  ghost predicate HasItem(t: Tables, business: Uuid, item: Uuid) {
    item in t.items && t.items[item].business == business && !t.items[item].deleted
  }

  ghost predicate KeyIsNew(t: Tables, req: Request) {
    req.key == "" || forall m :: m in t.movements ==> m.data.business != req.business || m.data.key != req.key
  }

  lemma {:induction false} StoredIs(movements: seq<Movement>, business: Uuid, key: string)
    ensures var stored := Stored(movements, business, key);
            && (stored.None? <==> forall m :: m in movements ==> m.data.business != business || m.data.key != key)
            && (stored.Some? ==> stored.value in movements && stored.value.data.business == business && stored.value.data.key == key)
  {
    if movements != [] {
      StoredIs(movements[1..], business, key);
      assert movements == [movements[0]] + movements[1..];
    }
  }

  /** Which answer a request gets: a used key is reported, if its item is still there; else the item must be
      there, then the version must do, then the stock must not become negative. */
  lemma {:induction false} AnswerIs(t: Tables, req: Request, s: Supply)
    ensures var answer := Answer(t, req, s);
            && (!KeyIsNew(t, req) ==> exists m :: m in t.movements && m.data.business == req.business && m.data.key == req.key
                                                 && answer == if HasItem(t, req.business, m.item) then Duplicate(m) else ItemNotFound)
            && (KeyIsNew(t, req) ==>
                  && !answer.Duplicate? && (answer.ItemNotFound? <==> !HasItem(t, req.business, req.item))
                  && (HasItem(t, req.business, req.item) ==>
                        var item := t.items[req.item];
                        && (answer.StaleVersion? <==> !VersionWillDo(req, item.version))
                        && (answer.NegativeStock? <==> VersionWillDo(req, item.version) && Wanted(req, item.stock) < 0)
                        && (answer.Applied? <==> VersionWillDo(req, item.version) && Wanted(req, item.stock) >= 0)))
  {
    if req.key != "" {
      StoredIs(t.movements, req.business, req.key);
    }
  }

  /** The movement of an applied request: from the stock to what was asked for, in its own words. */
  ghost predicate IsMovementOf(m: Movement, t: Tables, req: Request, s: Supply)
    requires req.item in t.items
  {
    && m.item == req.item && m.at == s.now && m.id == s.movementId
    && m.before == t.items[req.item].stock && m.after == Wanted(req, m.before)
    && m.delta == (if req.absolute then req.qty - m.before else req.qty)
    && m.data.business == req.business && m.data.kind == req.kind && !m.data.backfill
    && m.data.key == if req.key == "" then s.generatedKey else req.key
  }

  ghost predicate IsLogRowOf(l: LogRow, t: Tables, req: Request, s: Supply)
    requires req.item in t.items
  {
    && l.id == s.logId && l.business == req.business && l.item == req.item && l.updatedAt == s.now
    && l.oldQty == t.items[req.item].stock && l.newQty == Wanted(req, l.oldQty)
  }

  /** What an applied request leaves: the item at the wanted stock and the next version, everything else as it
      was, one more movement, and one more log row exactly if it was asked for. */
  lemma AppliedLeaves(t: Tables, req: Request, s: Supply)
    requires Answer(t, req, s).Applied?
    ensures req.item in t.items
    ensures var t' := After(t, req, s); var stock := t.items[req.item].stock;
            && t'.items == t.items[req.item := t.items[req.item].(stock := Wanted(req, stock), version := t.items[req.item].version + 1)]
            && |t'.movements| == |t.movements| + 1 && t.movements <= t'.movements
            && IsMovementOf(t'.movements[|t.movements|], t, req, s) && Answer(t, req, s) == Applied(t'.movements[|t.movements|])
            && (!req.projection ==> t'.log == t.log)
            && (req.projection ==> |t'.log| == |t.log| + 1 && t.log <= t'.log && IsLogRowOf(t'.log[|t.log|], t, req, s))
  {
  }

  /** Any other answer leaves everything as it was. */
  lemma RefusedLeaves(t: Tables, req: Request, s: Supply)
    requires !Answer(t, req, s).Applied?
    ensures After(t, req, s) == t
  {
  }

  // ----- runs of requests -----

  ghost predicate Moves(t: Tables, requests: seq<(Request, Supply)>, k: nat, item: Uuid)
    requires k < |requests|
  {
    Answer(RunOf(t, requests[..k]), requests[k].0, requests[k].1).Applied? && requests[k].0.item == item
  }

  /** The stock that the applied ones of the first n requests ask for, one after the other. */
  ghost function Asked(t: Tables, requests: seq<(Request, Supply)>, item: Uuid, stock: int, n: nat): int
    requires n <= |requests|
  {
    if n == 0 then stock
    else
      var before, req := Asked(t, requests, item, stock, n - 1), requests[n - 1].0;
      if !Moves(t, requests, n - 1, item) then before
      else if req.absolute then req.qty
      else before + req.qty
  }

  ghost function MovesOf(t: Tables, requests: seq<(Request, Supply)>, item: Uuid, n: nat): nat
    requires n <= |requests|
  {
    if n == 0 then 0 else MovesOf(t, requests, item, n - 1) + if Moves(t, requests, n - 1, item) then 1 else 0
  }

  /** Over every run the stock of an item is what its applied requests have asked for, and its version has gone
      up by their number. */
  lemma {:induction false} RunLeavesAsked(t: Tables, requests: seq<(Request, Supply)>, item: Uuid, n: nat)
    requires n <= |requests| && item in t.items
    ensures item in RunOf(t, requests[..n]).items
    ensures RunOf(t, requests[..n]).items[item].stock == Asked(t, requests, item, t.items[item].stock, n)
    ensures RunOf(t, requests[..n]).items[item].version == t.items[item].version + MovesOf(t, requests, item, n)
  {
    if n > 0 {
      RunLeavesAsked(t, requests, item, n - 1);
      var before, req, s := RunOf(t, requests[..n - 1]), requests[n - 1].0, requests[n - 1].1;
      assert requests[..n][..n - 1] == requests[..n - 1];
      assert RunOf(t, requests[..n]) == After(before, req, s);
      if Answer(before, req, s).Applied? {
        AppliedLeaves(before, req, s);
      } else {
        RefusedLeaves(before, req, s);
      }
    }
  }

  ghost function SumOfQty(t: Tables, requests: seq<(Request, Supply)>, item: Uuid, n: nat): int
    requires n <= |requests|
  {
    if n == 0 then 0 else SumOfQty(t, requests, item, n - 1) + if Moves(t, requests, n - 1, item) then requests[n - 1].0.qty else 0
  }

  /** In particular relative requests add up: without an absolute request for it, an item has its stock before
      the run plus the quantities of its applied requests. */
  lemma {:induction false} RelativeRequestsAddUp(t: Tables, requests: seq<(Request, Supply)>, item: Uuid)
    requires item in t.items && forall k :: 0 <= k < |requests| && requests[k].0.item == item ==> !requests[k].0.absolute
    ensures item in RunOf(t, requests).items
    ensures RunOf(t, requests).items[item].stock == t.items[item].stock + SumOfQty(t, requests, item, |requests|)
  {
    assert requests[..|requests|] == requests;
    RunLeavesAsked(t, requests, item, |requests|);
    AskedAddsUp(t, requests, item, t.items[item].stock, |requests|);
  }

  lemma {:induction false} AskedAddsUp(t: Tables, requests: seq<(Request, Supply)>, item: Uuid, stock: int, n: nat)
    requires n <= |requests| && forall k :: 0 <= k < n && requests[k].0.item == item ==> !requests[k].0.absolute
    ensures Asked(t, requests, item, stock, n) == stock + SumOfQty(t, requests, item, n)
  {
    if n > 0 {
      AskedAddsUp(t, requests, item, stock, n - 1);
    }
  }

  /** A request that has seen the item before the run is stale after it if and only if it is not forced and more
      requests than it tolerates have moved the item since. */
  lemma {:induction false} StaleAfterRunIff(t: Tables, requests: seq<(Request, Supply)>, req: Request, s: Supply)
    requires HasItem(t, req.business, req.item) && req.lastSeenVersion == Some(t.items[req.item].version)
    requires KeyIsNew(RunOf(t, requests), req)
    ensures Answer(RunOf(t, requests), req, s).StaleVersion?
            <==> !req.force && MovesOf(t, requests, req.item, |requests|) > (if req.tolerance > 0 then req.tolerance else 0)
  {
    assert requests[..|requests|] == requests;
    RunLeavesAsked(t, requests, req.item, |requests|);
    RunKeepsItems(t, requests, req.item);
    AnswerIs(RunOf(t, requests), req, s);
  }

  lemma {:induction false} RunKeepsItems(t: Tables, requests: seq<(Request, Supply)>, item: Uuid)
    requires item in t.items
    ensures item in RunOf(t, requests).items
    ensures RunOf(t, requests).items[item].business == t.items[item].business && RunOf(t, requests).items[item].deleted == t.items[item].deleted
  {
    if requests != [] {
      RunKeepsItems(t, requests[..|requests| - 1], item);
    }
  }

  // ----- the adjustment log of live requests under 049 -----

  /** Which kinds of movement, in lower case, the log files as a purchase. */
  lemma FiledAsPurchaseIff(kind: string)
    ensures TypeOf(kind) == "purchase" <==> kind == "quick_purchase" || kind == "delivery_receive"
  {
  }

  /** And which kinds the other types of the log come from; any further kind is manual. */
  lemma FiledAsIff(kind: string)
    ensures TypeOf(kind) == "verification" <==> kind == "physical_count"
    ensures TypeOf(kind) == "damaged" <==> kind == "damage"
    ensures TypeOf(kind) == "correction" <==> kind == "correction" || kind == "undo"
    ensures TypeOf(kind) == "sale" <==> kind == "sale"
    ensures TypeOf(kind) == "opening_stock" <==> kind == "opening_stock"
  {
  }

  lemma FiledAsChangeIff(kind: string)
    ensures TypeOf(kind) == "purchase_reversal" <==> kind == "delivery_revoke"
    ensures TypeOf(kind) == "purchase_adjustment" <==> kind == "delivery_adjustment"
    ensures TypeOf(kind) == "usage" <==> kind == "usage"
  {
  }

  /** Which kinds 049 gives back to the movement that it makes of a log row: the others come back as something
      else. */
  lemma CopiedKindIff(kind: string)
    ensures LegacyKind(TypeOf(kind)) == kind
            <==> kind == "physical_count" || kind == "correction" || kind == "opening_stock" || kind == "delivery_receive"
  {
  }

  /** A live delivery that writes its log row with the purchase's human id in its reason is not posted again by
      049, whatever the key it was sent with. */
  lemma {:induction false} LiveDeliveryIsNotPostedAgain(t: Tables, req: Request, s: Supply, purchases: seq<Purchase>, ids: map<string, Uuid>, p: Purchase)
    requires Answer(t, req, s).Applied? && req.projection
    requires Lower(Strip(req.kind)) == "delivery_receive" || Lower(Strip(req.kind)) == "quick_purchase"
    requires DistinctPurchases(purchases) && p in purchases && IsLiteral(p.humanId)
    requires req.reason.Some? && Strip(req.reason.value) != "" && Contains(Lower(Strip(req.reason.value)), Lower(p.humanId))
    ensures var t', key := After(t, req, s), ReceiptKey(p.id, req.item);
            WithKey(Backfilled(t'.movements, t'.log, purchases, t'.items, ids), key) == WithKey(t'.movements, key)
  {
    var t' := After(t, req, s);
    var l := LogRowOf(req, s, t.items[req.item].stock);
    FiledAsPurchaseIff(Lower(Strip(req.kind)));
    assert l in t'.log && Names(l, p.humanId, req.item);
    DeliveryIsRecordedOnceIff(t'.movements, t'.log, purchases, t'.items, ids, p, req.item);
  }
}
