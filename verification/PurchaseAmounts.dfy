/** The laws of line amounts: what a unit costs, and that splitting a line changes neither its purchase's sums nor
    its header. */
module PurchaseAmounts {
  import opened Decimals
  import opened Numerals
  import opened Options
  import opened PurchaseTotals

  // ----- one line -----

  /** The two ways to price a line: by the kilogram, if weight and rate per kilogram are there, or by the unit. */
  ghost predicate PricedByKilogram(l: Line) {
    l.kgPerUnit.Some? && l.landingPerKg.Some?
  }

  /** One unit of one kilogram costs the rate per kilogram, and one unit of another line its rate per unit; it
      sells at the selling rate. */
  lemma UnitAmounts(l: Line)
    requires l.qty == 1000
    ensures PricedByKilogram(l) && l.kgPerUnit.value == 1000 ==> LandingAmount(l) == l.landingPerKg.value as real
    ensures !PricedByKilogram(l) ==> LandingAmount(l) == l.landing as real
    ensures l.selling.Some? && (PricedByKilogram(l) ==> l.kgPerUnit.value == 1000) ==> SellingAmount(l) == l.selling.value as real
  {
  }

  /** A line without a selling rate sells nothing. */
  lemma UnsoldAmount(l: Line)
    requires l.selling.None?
    ensures SellingAmount(l) == 0.0
  {
  }

  lemma UnitsSplit(l: Line, a: int)
    ensures Units(l) == Units(l.(qty := a)) + Units(l.(qty := l.qty - a))
    ensures PricedByKilogram(l) ==> Units(l) == Units(l.(kgPerUnit := Some(a))) + Units(l.(kgPerUnit := Some(l.kgPerUnit.value - a)))
  {
  }

  lemma Distributes(x: real, y: real, z: real, rate: real)
    requires x == y + z
    ensures x * rate == y * rate + z * rate
  {
  }

  /** Splitting the quantity of a line splits its amounts. */
  lemma QtySplits(l: Line, a: int)
    ensures LandingAmount(l) == LandingAmount(l.(qty := a)) + LandingAmount(l.(qty := l.qty - a))
    ensures SellingAmount(l) == SellingAmount(l.(qty := a)) + SellingAmount(l.(qty := l.qty - a))
  {
    UnitsSplit(l, a);
    Distributes(Units(l), Units(l.(qty := a)), Units(l.(qty := l.qty - a)), (if PricedByKilogram(l) then l.landingPerKg.value else l.landing) as real);
    if l.selling.Some? {
      Distributes(Units(l), Units(l.(qty := a)), Units(l.(qty := l.qty - a)), l.selling.value as real);
    }
  }

  /** Splitting the weight per unit of a line priced by the kilogram splits its amounts. */
  lemma WeightSplits(l: Line, a: int)
    requires PricedByKilogram(l)
    ensures LandingAmount(l) == LandingAmount(l.(kgPerUnit := Some(a))) + LandingAmount(l.(kgPerUnit := Some(l.kgPerUnit.value - a)))
    ensures SellingAmount(l) == SellingAmount(l.(kgPerUnit := Some(a))) + SellingAmount(l.(kgPerUnit := Some(l.kgPerUnit.value - a)))
  {
    var m, n := l.(kgPerUnit := Some(a)), l.(kgPerUnit := Some(l.kgPerUnit.value - a));
    UnitsSplit(l, a);
    Distributes(Units(l), Units(m), Units(n), l.landingPerKg.value as real);
    if l.selling.Some? {
      Distributes(Units(l), Units(m), Units(n), l.selling.value as real);
    }
  }

  /** Splitting the rate that a line is priced at splits its landing amount, and splitting its selling rate its
      selling amount. */
  lemma RateSplits(l: Line, a: int)
    ensures PricedByKilogram(l) ==>
              LandingAmount(l) == LandingAmount(l.(landingPerKg := Some(a))) + LandingAmount(l.(landingPerKg := Some(l.landingPerKg.value - a)))
    ensures !PricedByKilogram(l) ==> LandingAmount(l) == LandingAmount(l.(landing := a)) + LandingAmount(l.(landing := l.landing - a))
    ensures l.selling.Some? ==>
              SellingAmount(l) == SellingAmount(l.(selling := Some(a))) + SellingAmount(l.(selling := Some(l.selling.value - a)))
  {
    if PricedByKilogram(l) {
      Distributes(l.landingPerKg.value as real, a as real, (l.landingPerKg.value - a) as real, Units(l));
    } else {
      Distributes(l.landing as real, a as real, (l.landing - a) as real, Units(l));
    }
    if l.selling.Some? {
      Distributes(l.selling.value as real, a as real, (l.selling.value - a) as real, Units(l));
    }
  }

  // ----- the lines of a purchase -----

  lemma {:induction false} LinesOfAppend(a: seq<Line>, b: seq<Line>, p: Uuid)
    ensures LinesOf(a + b, p) == LinesOf(a, p) + LinesOf(b, p)
  {
    if a == [] {
      assert a + b == b;
    } else {
      assert (a + b)[1..] == a[1..] + b;
      LinesOfAppend(a[1..], b, p);
    }
  }

  lemma {:induction false} SumsAppend(a: seq<Line>, b: seq<Line>)
    ensures SumLanding(a + b) == SumLanding(a) + SumLanding(b) && SumSelling(a + b) == SumSelling(a) + SumSelling(b)
  {
    if a == [] {
      assert a + b == b;
    } else {
      assert (a + b)[1..] == a[1..] + b;
      SumsAppend(a[1..], b);
    }
  }

  /** The lines with the n-th one in two parts. */
  ghost function Split(lines: seq<Line>, n: nat, a: int): seq<Line>
    requires n < |lines|
  {
    lines[..n] + [lines[n].(qty := a), lines[n].(qty := lines[n].qty - a)] + lines[n + 1..]
  }

  lemma {:induction false} PartsOf(l: Line, a: int, p: Uuid)
    ensures SumLanding(LinesOf([l.(qty := a), l.(qty := l.qty - a)], p)) == SumLanding(LinesOf([l], p))
    ensures SumSelling(LinesOf([l.(qty := a), l.(qty := l.qty - a)], p)) == SumSelling(LinesOf([l], p))
    ensures LinesOf([l], p) == [] <==> LinesOf([l.(qty := a), l.(qty := l.qty - a)], p) == []
  {
    var m, n := l.(qty := a), l.(qty := l.qty - a);
    QtySplits(l, a);
    assert [l][1..] == [] && [m, n][1..] == [n] && [n][1..] == [];
    assert [l] + [] == [l] && [n] + [] == [n] && [m] + [n] == [m, n];
  }

  /** Splitting a line leaves the exact sums of every purchase as they were. */
  lemma {:induction false} SplitKeepsSums(lines: seq<Line>, n: nat, a: int, p: Uuid)
    requires n < |lines|
    ensures SumLanding(LinesOf(Split(lines, n, a), p)) == SumLanding(LinesOf(lines, p))
    ensures SumSelling(LinesOf(Split(lines, n, a), p)) == SumSelling(LinesOf(lines, p))
    ensures LinesOf(Split(lines, n, a), p) == [] <==> LinesOf(lines, p) == []
  {
    var parts := [lines[n].(qty := a), lines[n].(qty := lines[n].qty - a)];
    assert lines == lines[..n] + [lines[n]] + lines[n + 1..];
    PartsOf(lines[n], a, p);
    Joined(lines[..n], [lines[n]], lines[n + 1..], p);
    Joined(lines[..n], parts, lines[n + 1..], p);
  }

  lemma {:induction false} Joined(a: seq<Line>, b: seq<Line>, c: seq<Line>, p: Uuid)
    ensures LinesOf(a + b + c, p) == LinesOf(a, p) + LinesOf(b, p) + LinesOf(c, p)
    ensures SumLanding(LinesOf(a + b + c, p)) == SumLanding(LinesOf(a, p)) + SumLanding(LinesOf(b, p)) + SumLanding(LinesOf(c, p))
    ensures SumSelling(LinesOf(a + b + c, p)) == SumSelling(LinesOf(a, p)) + SumSelling(LinesOf(b, p)) + SumSelling(LinesOf(c, p))
  {
    LinesOfAppend(a + b, c, p);
    LinesOfAppend(a, b, p);
    SumsAppend(LinesOf(a, p) + LinesOf(b, p), LinesOf(c, p));
    SumsAppend(LinesOf(a, p), LinesOf(b, p));
  }

  // ----- after the migrations -----

  /** Splitting a line leaves the header that the migrations give to each purchase as it was. */
  lemma {:induction false} SplitKeepsHeaders(headers: map<Uuid, Header>, lines: seq<Line>, n: nat, a: int)
    requires n < |lines|
    ensures UpgradedHeaders(headers, Split(lines, n, a)) == UpgradedHeaders(headers, lines)
  {
    forall p | p in headers
      ensures UpgradedHeaders(headers, Split(lines, n, a))[p] == UpgradedHeaders(headers, lines)[p]
    {
      SplitKeepsSums(lines, n, a, p);
    }
  }

  /** And its two parts get totals that add up to the total of the whole to one hundredth. */
  lemma SplitTotals(l: Line, a: int)
    requires l.lineTotal.None?
    ensures var m, n := Filled(l.(qty := a)), Filled(l.(qty := l.qty - a));
            && Filled(l).lineTotal.Some? && m.lineTotal.Some? && n.lineTotal.Some?
            && -1 <= m.lineTotal.value + n.lineTotal.value - Filled(l).lineTotal.value <= 1
  {
    QtySplits(l, a);
    RoundedParts(LandingAmount(l.(qty := a)), LandingAmount(l.(qty := l.qty - a)));
  }

  lemma RoundedParts(x: real, y: real)
    ensures -1 <= Round(x) + Round(y) - Round(x + y) <= 1
  {
    RoundError(x);
    RoundError(y);
    RoundError(x + y);
  }
}
