/** Backfill of the stock ledger from the legacy adjustment log and from committed purchases
    (migration 049), and of the committed quantity of a purchase (migration 048). */
module StockBackfill {
  import opened Decimals
  import opened Numerals
  import opened Options
  import opened Patterns
  import opened StockLedger
  import opened Windows

  /** One row of the legacy adjustment log. */
  datatype LogRow = LogRow(id: Uuid, business: Uuid, item: Uuid, adjustmentType: string, oldQty: int, newQty: int,
                           reason: Option<string>, updatedAt: int)

  /** A purchase line; quantities are in thousandths. */
  datatype Line = Line(item: Option<Uuid>, qty: Option<int>, qtyInStockUnit: Option<int>, received: Option<int>)

  datatype Purchase = Purchase(id: Uuid, business: Uuid, humanId: string, deliveryStatus: string, status: string,
                               stockCommittedAt: Option<int>, deliveredAt: Option<int>, updatedAt: int,
                               committedQty: Option<int>, lines: seq<Line>)

  // ----- quantities of purchase lines -----

  function Coalesce<T>(a: Option<T>, b: T): T {
    if a.Some? then a.value else b
  }

  /** A line whose received quantity scales its stock quantity. */
  predicate Scaled(line: Line) {
    line.received.Some? && line.qty.Some? && line.qty.value > 0
  }

  /** The exact stock quantity of a line, in thousandths. */
  function ExactQty(line: Line): real {
    if Scaled(line)
    then Coalesce(line.qtyInStockUnit, line.qty.value) as real * line.received.value as real / line.qty.value as real
    else Coalesce(line.qtyInStockUnit, Coalesce(line.qty, 0)) as real
  }

  /** The quantity that 049 posts for a line: rounded when it had to be scaled. */
  function LineQty(line: Line): int {
    if Scaled(line) then Round(ExactQty(line)) else Coalesce(line.qtyInStockUnit, Coalesce(line.qty, 0))
  }

  function SumExact(lines: seq<Line>): real {
    if lines == [] then 0.0 else ExactQty(lines[0]) + SumExact(lines[1..])
  }

  function SumQty(lines: seq<Line>): int {
    if lines == [] then 0 else LineQty(lines[0]) + SumQty(lines[1..])
  }

  function LinesOf(lines: seq<Line>, item: Uuid): seq<Line> {
    if lines == [] then []
    else if lines[0].item == Some(item) then [lines[0]] + LinesOf(lines[1..], item)
    else LinesOf(lines[1..], item)
  }

  /** The items on the lines, each once. */
  function GroupItems(lines: seq<Line>): seq<Uuid> {
    if lines == [] then []
    else
      var rest := GroupItems(lines[1..]);
      if lines[0].item.Some? && lines[0].item.value !in rest then [lines[0].item.value] + rest else rest
  }

  predicate Received(p: Purchase) {
    p.deliveryStatus == "stock_committed" && p.status != "deleted" && p.status != "cancelled"
  }

  // ----- 048 -----

  /** The committed quantity of a purchase, stored with three decimals: one rounding for the lot. */
  function CommittedQty(p: Purchase): int {
    Round(SumExact(p.lines))
  }

  function WithCommittedQty(p: Purchase): Purchase {
    if Received(p) && p.lines != [] && (p.committedQty.None? || p.committedQty.value <= 0)
    then p.(committedQty := Some(CommittedQty(p))) else p
  }

  // ----- 049 -----

  datatype ReceiptInfo = ReceiptInfo(business: Uuid, humanId: string)

  /** What a purchase delivers of one item; the id is the purchase's. */
  type Receipt = Row<ReceiptInfo>

  function LegacyKey(log: Uuid): string {
    "legacy_adj:" + UuidText(log)
  }

  function ReceiptKey(purchase: Uuid, item: Uuid): string {
    "trade_purchase:" + UuidText(purchase) + ":" + UuidText(item)
  }

  predicate HasKey(movements: seq<Movement>, key: string) {
    exists m :: m in movements && m.data.key == key
  }

  function LegacyKind(adjustmentType: string): string {
    match adjustmentType
    case "purchase" => "delivery_receive"
    case "verification" => "physical_count"
    case "opening_stock" => "opening_stock"
    case _ => "correction"
  }

  /** Row ids are drawn at random; `ids` says which id is drawn for which key. */
  function NewId(ids: map<string, Uuid>, key: string): Uuid {
    if key in ids then ids[key] else 0
  }

  function LegacyMovement(l: LogRow, ids: map<string, Uuid>): Movement {
    Row(l.item, l.updatedAt, NewId(ids, LegacyKey(l.id)), l.newQty - l.oldQty, l.oldQty, l.newQty,
        MovementInfo(l.business, LegacyKind(l.adjustmentType), LegacyKey(l.id), false))
  }

  /** Phase 1: the log rows of existing items whose key the ledger does not have yet. */
  function LegacyRows(movements: seq<Movement>, log: seq<LogRow>, items: map<Uuid, Item>, ids: map<string, Uuid>): seq<Movement> {
    if log == [] then []
    else
      (if log[0].item in items && !HasKey(movements, LegacyKey(log[0].id)) then [LegacyMovement(log[0], ids)] else [])
      + LegacyRows(movements, log[1..], items, ids)
  }

  function CommittedAt(p: Purchase): int {
    Coalesce(p.stockCommittedAt, Coalesce(p.deliveredAt, p.updatedAt))
  }

  /** The groups of a purchase whose exact quantity is positive. */
  function ReceiptsFor(p: Purchase, groups: seq<Uuid>): seq<Receipt> {
    if groups == [] then []
    else
      var lines := LinesOf(p.lines, groups[0]);
      (if SumExact(lines) > 0.0
       then [Row(groups[0], CommittedAt(p), p.id, SumQty(lines), 0, 0, ReceiptInfo(p.business, p.humanId))] else [])
      + ReceiptsFor(p, groups[1..])
  }

  function ReceiptsOf(p: Purchase): seq<Receipt> {
    if Received(p) then ReceiptsFor(p, GroupItems(p.lines)) else []
  }

  function Receipts(purchases: seq<Purchase>): seq<Receipt> {
    if purchases == [] then [] else ReceiptsOf(purchases[0]) + Receipts(purchases[1..])
  }

  /** The adjustment log already mentions the purchase for this item. */
  predicate LoggedAlready(log: seq<LogRow>, r: Receipt) {
    exists l :: l in log && l.item == r.item && l.adjustmentType == "purchase" && l.reason.Some?
                && ILike(l.reason.value, "%" + r.data.humanId + "%")
  }

  predicate IsEligible(movements: seq<Movement>, log: seq<LogRow>, r: Receipt) {
    !HasKey(movements, ReceiptKey(r.id, r.item)) && !LoggedAlready(log, r)
  }

  function Eligible(movements: seq<Movement>, log: seq<LogRow>, receipts: seq<Receipt>): seq<Receipt> {
    if receipts == [] then []
    else (if IsEligible(movements, log, receipts[0]) then [receipts[0]] else []) + Eligible(movements, log, receipts[1..])
  }

  function PostedMovement(r: Receipt, ids: map<string, Uuid>): Movement {
    var key := ReceiptKey(r.id, r.item);
    Row(r.item, r.at, NewId(ids, key), r.delta, r.before, r.before + r.delta,
        MovementInfo(r.data.business, "delivery_receive", key, true))
  }

  function PostedRows(movements: seq<Movement>, receipts: seq<Receipt>, items: map<Uuid, Item>, ids: map<string, Uuid>): seq<Movement> {
    if receipts == [] then []
    else
      (if receipts[0].item in items && !HasKey(movements, ReceiptKey(receipts[0].id, receipts[0].item))
       then [PostedMovement(receipts[0], ids)] else [])
      + PostedRows(movements, receipts[1..], items, ids)
  }

  function AfterPhase1(movements: seq<Movement>, log: seq<LogRow>, items: map<Uuid, Item>, ids: map<string, Uuid>): seq<Movement> {
    movements + LegacyRows(movements, log, items, ids)
  }

  /** Phase 2: eligible receipts with running balances on top of the ledger's tail. */
  function AfterPhase2(movements: seq<Movement>, log: seq<LogRow>, purchases: seq<Purchase>, items: map<Uuid, Item>,
                       ids: map<string, Uuid>): seq<Movement> {
    var receipts := Eligible(movements, log, Receipts(purchases));
    movements + PostedRows(movements, WithBalances(movements, receipts), items, ids)
  }

  function Backfilled(movements: seq<Movement>, log: seq<LogRow>, purchases: seq<Purchase>, items: map<Uuid, Item>,
                      ids: map<string, Uuid>): seq<Movement> {
    AfterPhase2(AfterPhase1(movements, log, items, ids), log, purchases, items, ids)
  }

  /** What the downgrade deletes. */
  predicate LooksBackfilled(m: Movement) {
    Like(m.data.key, "legacy_adj:%") || m.data.backfill
  }

  function Downgraded(movements: seq<Movement>): seq<Movement> {
    if movements == [] then []
    else (if LooksBackfilled(movements[0]) then [] else [movements[0]]) + Downgraded(movements[1..])
  }
}
