/** The laws of the quantity that a purchase line brings into stock. */
module LineQuantities {
  import opened Decimals
  import opened Numerals
  import opened Options
  import opened StockBackfill

  /** The quantity in the stock unit if the line has one, else the ordered quantity, else nothing. */
  ghost predicate IsOrdered(line: Line, qty: int) {
    && (line.qtyInStockUnit.Some? ==> qty == line.qtyInStockUnit.value)
    && (line.qtyInStockUnit.None? && line.qty.Some? ==> qty == line.qty.value)
    && (line.qtyInStockUnit.None? && line.qty.None? ==> qty == 0)
  }

  /** A line that says nothing about what was received, or whose ordered quantity is not positive, counts in full. */
  lemma UnscaledCounts(line: Line, qty: int)
    requires line.received.None? || line.qty.None? || line.qty.value <= 0
    requires IsOrdered(line, qty)
    ensures ExactQty(line) == qty as real && LineQty(line) == qty
  {
  }

  /** So does a line that was received in full. */
  lemma ReceivedInFull(line: Line, qty: int)
    requires line.qty.Some? && line.qty.value > 0 && line.received == line.qty && IsOrdered(line, qty)
    ensures ExactQty(line) == qty as real && LineQty(line) == qty
  {
    var q := line.qty.value as real;
    Cancel(qty as real, q);
    assert ExactQty(line) == qty as real;
  }

  lemma Cancel(x: real, q: real)
    requires q > 0.0
    ensures x * q / q == x
  {
  }

  /** What is received in two parts counts as the sum of the parts; nothing received counts as nothing. */
  lemma ReceivedSplits(line: Line, a: int)
    requires line.qty.Some? && line.qty.value > 0 && line.received.Some?
    ensures ExactQty(line) == ExactQty(line.(received := Some(a))) + ExactQty(line.(received := Some(line.received.value - a)))
    ensures ExactQty(line.(received := Some(0))) == 0.0
  {
    var per, q := Coalesce(line.qtyInStockUnit, line.qty.value) as real, line.qty.value as real;
    var r, s := a as real, (line.received.value - a) as real;
    assert per * (r + s) == per * r + per * s;
    QuotientSplits(per * r, per * s, q);
    assert line.received.value as real == r + s;
    assert per * 0.0 / q == 0.0;
  }

  lemma QuotientSplits(x: real, y: real, q: real)
    requires q > 0.0
    ensures (x + y) / q == x / q + y / q
  {
  }

  /** 049 counts whole thousandths: exactly, or rounded where the received part was scaled. */
  lemma LineQtyIsNear(line: Line)
    ensures Abs(LineQty(line) as real - ExactQty(line)) <= 0.5
  {
    RoundError(ExactQty(line));
  }

  // ----- the lines of a purchase -----

  /** The lines with the received quantity of the n-th one in two parts. */
  ghost function SplitReceived(lines: seq<Line>, n: nat, a: int): seq<Line>
    requires n < |lines| && lines[n].received.Some?
  {
    lines[..n] + [lines[n].(received := Some(a)), lines[n].(received := Some(lines[n].received.value - a))] + lines[n + 1..]
  }

  lemma {:induction false} SumExactAppend(a: seq<Line>, b: seq<Line>)
    ensures SumExact(a + b) == SumExact(a) + SumExact(b)
  {
    if a == [] {
      assert a + b == b;
    } else {
      assert (a + b)[1..] == a[1..] + b;
      SumExactAppend(a[1..], b);
    }
  }

  /** Receiving a line in two deliveries leaves the committed quantity of its purchase as it was. */
  lemma {:induction false} SplitKeepsCommitted(p: Purchase, n: nat, a: int)
    requires n < |p.lines| && p.lines[n].received.Some? && p.lines[n].qty.Some? && p.lines[n].qty.value > 0
    ensures CommittedQty(p.(lines := SplitReceived(p.lines, n, a))) == CommittedQty(p)
  {
    var l := p.lines[n];
    var x, y := l.(received := Some(a)), l.(received := Some(l.received.value - a));
    ReceivedSplits(l, a);
    assert p.lines == p.lines[..n] + [l] + p.lines[n + 1..];
    assert [x, y] == [x] + [y] && [x][1..] == [] && [y][1..] == [] && [l][1..] == [];
    SumExactAppend(p.lines[..n] + [l], p.lines[n + 1..]);
    SumExactAppend(p.lines[..n], [l]);
    SumExactAppend([x], [y]);
    SumExactAppend(p.lines[..n] + [x, y], p.lines[n + 1..]);
    SumExactAppend(p.lines[..n], [x, y]);
  }
}
