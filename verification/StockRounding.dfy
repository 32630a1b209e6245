/** How far the two backfills of a purchase can drift apart: 048 rounds once per purchase, 049 once
    per scaled line. */
module StockRounding {
  import opened Decimals
  import opened Numerals
  import opened Options
  import opened StockBackfill
  import opened Windows

  ghost function ScaledLines(lines: seq<Line>): nat {
    if lines == [] then 0 else (if Scaled(lines[0]) then 1 else 0) + ScaledLines(lines[1..])
  }

  lemma {:induction false} SumError(lines: seq<Line>)
    ensures Abs(SumQty(lines) as real - SumExact(lines)) <= 0.5 * ScaledLines(lines) as real
    ensures ScaledLines(lines) <= |lines|
  {
    if lines != [] {
      SumError(lines[1..]);
      RoundError(ExactQty(lines[0]));
    }
  }

  // ----- groups partition the lines -----

  ghost function GroupsQty(lines: seq<Line>, groups: seq<Uuid>, items: set<Uuid>): int {
    if groups == [] then 0
    else (if groups[0] in items then SumQty(LinesOf(lines, groups[0])) else 0) + GroupsQty(lines, groups[1..], items)
  }

  ghost predicate NoRepeats(groups: seq<Uuid>) {
    groups == [] || (groups[0] !in groups[1..] && NoRepeats(groups[1..]))
  }

  ghost predicate NamesOneOf(line: Line, items: set<Uuid>) {
    line.item.Some? && line.item.value in items
  }

  /** The lines that name one of the items. */
  ghost function LinesIn(lines: seq<Line>, items: set<Uuid>): seq<Line> {
    if lines == [] then [] else (if NamesOneOf(lines[0], items) then [lines[0]] else []) + LinesIn(lines[1..], items)
  }

  /** The other lines, those without an item among them. */
  ghost function LinesOut(lines: seq<Line>, items: set<Uuid>): seq<Line> {
    if lines == [] then [] else (if NamesOneOf(lines[0], items) then [] else [lines[0]]) + LinesOut(lines[1..], items)
  }

  lemma {:induction false} GroupItemsDistinct(lines: seq<Line>)
    ensures NoRepeats(GroupItems(lines))
  {
    if lines != [] {
      GroupItemsDistinct(lines[1..]);
      var rest := GroupItems(lines[1..]);
      if lines[0].item.Some? && lines[0].item.value !in rest {
        assert ([lines[0].item.value] + rest)[1..] == rest;
      }
    }
  }

  lemma {:induction false} NoLinesOf(lines: seq<Line>, item: Uuid)
    requires item !in GroupItems(lines)
    ensures LinesOf(lines, item) == []
  {
    if lines != [] {
      NoLinesOf(lines[1..], item);
    }
  }

  /** One more line adds its quantity to its own group and to no other. */
  lemma {:induction false} GroupsQtyStep(line: Line, rest: seq<Line>, groups: seq<Uuid>, items: set<Uuid>)
    requires NoRepeats(groups)
    ensures GroupsQty([line] + rest, groups, items)
            == GroupsQty(rest, groups, items) + (if NamesOneOf(line, items) && line.item.value in groups then LineQty(line) else 0)
  {
    if groups != [] {
      GroupsQtyStep(line, rest, groups[1..], items);
      assert ([line] + rest)[1..] == rest;
      var mine := LinesOf(rest, groups[0]);
      assert ([line] + mine)[1..] == mine;
    }
  }

  /** Summing some of the item groups is summing the lines that name those items. */
  lemma {:induction false} GroupsPartition(lines: seq<Line>, items: set<Uuid>)
    ensures GroupsQty(lines, GroupItems(lines), items) == SumQty(LinesIn(lines, items))
  {
    if lines != [] {
      GroupsPartition(lines[1..], items);
      GroupItemsDistinct(lines);
      var line, rest := lines[0], GroupItems(lines[1..]);
      assert lines == [line] + lines[1..];
      GroupsQtyStep(line, lines[1..], GroupItems(lines), items);
      if line.item.Some? && line.item.value !in rest {
        NoLinesOf(lines[1..], line.item.value);
        assert ([line.item.value] + rest)[1..] == rest;
      }
      var mine := LinesIn(lines[1..], items);
      assert ([line] + mine)[1..] == mine && [] + mine == mine;
    }
  }

  lemma {:induction false} ExactPartition(lines: seq<Line>, items: set<Uuid>)
    ensures SumExact(lines) == SumExact(LinesIn(lines, items)) + SumExact(LinesOut(lines, items))
    ensures |LinesIn(lines, items)| <= |lines|
  {
    if lines != [] {
      ExactPartition(lines[1..], items);
      var inside, outside := LinesIn(lines[1..], items), LinesOut(lines[1..], items);
      assert ([lines[0]] + inside)[1..] == inside && [] + inside == inside;
      assert ([lines[0]] + outside)[1..] == outside && [] + outside == outside;
    }
  }

  // ----- what 049 posts of a purchase -----

  /** The receipt of a group; 049 posts it when the exact quantity is positive and it is eligible. */
  ghost predicate PostsGroup(p: Purchase, movements: seq<StockLedger.Movement>, log: seq<LogRow>, item: Uuid) {
    var lines := LinesOf(p.lines, item);
    && SumExact(lines) > 0.0
    && IsEligible(movements, log, Row(item, CommittedAt(p), p.id, SumQty(lines), 0, 0, ReceiptInfo(p.business, p.humanId)))
  }

  ghost function PostedItems(p: Purchase, movements: seq<StockLedger.Movement>, log: seq<LogRow>): set<Uuid> {
    set g | g in GroupItems(p.lines) && PostsGroup(p, movements, log, g)
  }

  /** The lines that 049 posts a quantity for, and the others. */
  ghost function PostedLines(p: Purchase, movements: seq<StockLedger.Movement>, log: seq<LogRow>): seq<Line> {
    LinesIn(p.lines, PostedItems(p, movements, log))
  }

  ghost function UnpostedLines(p: Purchase, movements: seq<StockLedger.Movement>, log: seq<LogRow>): seq<Line> {
    LinesOut(p.lines, PostedItems(p, movements, log))
  }

  lemma {:induction false} EligibleTotal(p: Purchase, movements: seq<StockLedger.Movement>, log: seq<LogRow>, groups: seq<Uuid>, items: set<Uuid>)
    requires forall g :: g in groups ==> (g in items <==> PostsGroup(p, movements, log, g))
    ensures Total(Eligible(movements, log, ReceiptsFor(p, groups))) == GroupsQty(p.lines, groups, items)
  {
    if groups != [] {
      var g := groups[0];
      assert g in groups;
      EligibleTotal(p, movements, log, groups[1..], items);
      var all, rest := ReceiptsFor(p, groups), ReceiptsFor(p, groups[1..]);
      if SumExact(LinesOf(p.lines, g)) > 0.0 {
        assert all[1..] == rest;
        var eligible := Eligible(movements, log, rest);
        assert ([all[0]] + eligible)[1..] == eligible && [] + eligible == eligible;
      } else {
        assert all == rest;
      }
    }
  }

  /** For every received purchase, the committed quantity of 048 exceeds what 049 posts of the purchase by the
      exact sum of the lines that 049 does not post, give or take half a thousandth per posted scaled line and
      half a thousandth.  Not posted are lines without an item, of an item whose exact quantity is not
      positive, and of an item whose receipt is not eligible. */
  lemma {:induction false} CommittedMatchesPosted(p: Purchase, movements: seq<StockLedger.Movement>, log: seq<LogRow>)
    requires Received(p)
    ensures Abs(CommittedQty(p) as real - Total(Eligible(movements, log, ReceiptsOf(p))) as real - SumExact(UnpostedLines(p, movements, log)))
            <= 0.5 * (ScaledLines(PostedLines(p, movements, log)) + 1) as real
    ensures ScaledLines(PostedLines(p, movements, log)) <= |p.lines|
  {
    var posted, unposted := PostedLines(p, movements, log), UnpostedLines(p, movements, log);
    PostedIsLineSum(p, movements, log);
    ExactPartition(p.lines, PostedItems(p, movements, log));
    SumError(posted);
    Differ(SumExact(p.lines), SumQty(posted), SumExact(posted), SumExact(unposted), ScaledLines(posted));
  }

  lemma {:induction false} PostedIsLineSum(p: Purchase, movements: seq<StockLedger.Movement>, log: seq<LogRow>)
    requires Received(p)
    ensures Total(Eligible(movements, log, ReceiptsOf(p))) == SumQty(PostedLines(p, movements, log))
  {
    var items := PostedItems(p, movements, log);
    EligibleTotal(p, movements, log, GroupItems(p.lines), items);
    GroupsPartition(p.lines, items);
  }

  /** Rounding a sum once and part of it piecewise leaves the other part, up to the errors of rounding. */
  lemma Differ(exact: real, posted: int, inside: real, outside: real, n: nat)
    requires exact == inside + outside && Abs(posted as real - inside) <= 0.5 * n as real
    ensures Abs(Round(exact) as real - posted as real - outside) <= 0.5 * (n + 1) as real
  {
    RoundError(exact);
  }

  lemma {:induction false} NothingOut(lines: seq<Line>, items: set<Uuid>)
    requires forall l :: l in lines ==> NamesOneOf(l, items)
    ensures LinesOut(lines, items) == [] && LinesIn(lines, items) == lines
  {
    if lines != [] {
      assert lines[0] in lines;
      NothingOut(lines[1..], items);
    }
  }

  /** In particular, when every line names an item that 049 posts, the two differ by the rounding alone. */
  lemma {:induction false} FullyPostedDiffersByRounding(p: Purchase, movements: seq<StockLedger.Movement>, log: seq<LogRow>)
    requires Received(p) && forall l :: l in p.lines ==> NamesOneOf(l, PostedItems(p, movements, log))
    ensures Abs(CommittedQty(p) as real - Total(Eligible(movements, log, ReceiptsOf(p))) as real) <= 0.5 * (ScaledLines(p.lines) + 1) as real
    ensures ScaledLines(p.lines) <= |p.lines|
  {
    EverythingIsPosted(p, movements, log);
    SumError(p.lines);
    Differ(SumExact(p.lines), SumQty(p.lines), SumExact(p.lines), 0.0, ScaledLines(p.lines));
  }

  lemma {:induction false} EverythingIsPosted(p: Purchase, movements: seq<StockLedger.Movement>, log: seq<LogRow>)
    requires Received(p) && forall l :: l in p.lines ==> NamesOneOf(l, PostedItems(p, movements, log))
    ensures Total(Eligible(movements, log, ReceiptsOf(p))) == SumQty(p.lines)
  {
    NothingOut(p.lines, PostedItems(p, movements, log));
    PostedIsLineSum(p, movements, log);
  }

  // ----- what 048 writes -----

  ghost predicate LacksCommittedQty(p: Purchase) {
    Received(p) && p.lines != [] && !(p.committedQty.Some? && p.committedQty.value > 0)
  }

  /** 048 has been here: a received purchase with lines and no positive quantity holds the exact sum to half a
      thousandth, every other purchase is as it was. */
  ghost predicate IsCommitted(before: Purchase, after: Purchase) {
    && after == before.(committedQty := after.committedQty)
    && (if LacksCommittedQty(before)
        then after.committedQty.Some? && Abs(after.committedQty.value as real - SumExact(before.lines)) <= 0.5
        else after == before)
  }

  /** 048 fills exactly those purchases, and a second run changes nothing. */
  lemma {:induction false} CommittedQtyIsFilled(p: Purchase)
    ensures IsCommitted(p, WithCommittedQty(p)) && WithCommittedQty(WithCommittedQty(p)) == WithCommittedQty(p)
  {
    RoundError(SumExact(p.lines));
  }

  /** The smallest purchase that shows the difference: one line without an item. */
  lemma ItemlessLineBreaksBound(business: Uuid)
    ensures var p := Purchase(1, business, "PUR-1", "stock_committed", "confirmed", None, None, 0, None,
                              [Line(None, Some(5000), None, None)]);
            Received(p) && CommittedQty(p) == 5000 && ReceiptsOf(p) == []
  {
  }
}
