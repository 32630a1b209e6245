/** Money totals of purchases: header subtotals from lines (008), narrowing of the header to two
    decimals (009) and per-line totals and profit (010).  Line inputs are at their stored scale. */
module PurchaseTotals {
  import opened Decimals
  import opened Numerals
  import opened Options

  /** Quantities and weights in thousandths, rates and amounts in hundredths. */
  datatype Line = Line(purchase: Uuid, qty: int, kgPerUnit: Option<int>, landing: int, landingPerKg: Option<int>,
                       selling: Option<int>, lineTotal: Option<int>, profit: Option<int>)

  /** Header amounts in ten-thousandths. */
  datatype Header = Header(landing: Option<int>, selling: Option<int>, profit: Option<int>)

  // ----- exact amounts, in hundredths -----

  predicate ByWeight(l: Line) {
    l.kgPerUnit.Some? && l.landingPerKg.Some?
  }

  /** What one unit of a rate is multiplied with: the quantity, or the weight of weight-priced lines. */
  function Units(l: Line): real {
    if ByWeight(l) then (l.qty as real / 1000.0) * (l.kgPerUnit.value as real / 1000.0) else l.qty as real / 1000.0
  }

  function LandingAmount(l: Line): real {
    Units(l) * (if ByWeight(l) then l.landingPerKg.value else l.landing) as real
  }

  function SellingAmount(l: Line): real {
    if l.selling.None? then 0.0 else Units(l) * l.selling.value as real
  }

  function SumLanding(lines: seq<Line>): real {
    if lines == [] then 0.0 else LandingAmount(lines[0]) + SumLanding(lines[1..])
  }

  function SumSelling(lines: seq<Line>): real {
    if lines == [] then 0.0 else SellingAmount(lines[0]) + SumSelling(lines[1..])
  }

  function LinesOf(lines: seq<Line>, purchase: Uuid): seq<Line> {
    if lines == [] then []
    else if lines[0].purchase == purchase then [lines[0]] + LinesOf(lines[1..], purchase)
    else LinesOf(lines[1..], purchase)
  }

  // ----- the three migrations -----

  /** 008: an exact sum stored with four decimals. */
  function Stored4(hundredths: real): int {
    Round(hundredths * 100.0)
  }

  function Subtotals(lines: seq<Line>): Header {
    HeaderOf(SumLanding(lines), SumSelling(lines))
  }

  function HeaderOf(landing: real, selling: real): Header {
    Header(Some(Stored4(landing)),
           if selling == 0.0 then None else Some(Stored4(selling)),
           if selling == 0.0 then None else Some(Stored4(selling - landing)))
  }

  /** 009: a stored amount cut to two decimals, still counted in ten-thousandths. */
  function Narrowed(amount: Option<int>): Option<int> {
    if amount.None? then None else Some(100 * Round(amount.value as real / 100.0))
  }

  function NarrowedHeader(h: Header): Header {
    Header(Narrowed(h.landing), Narrowed(h.selling), Narrowed(h.profit))
  }

  /** 010: a line keeps the totals it has and gets the missing ones. */
  function Filled(l: Line): Line {
    l.(lineTotal := if l.lineTotal.Some? then l.lineTotal else Some(Round(LandingAmount(l))),
       profit := if l.profit.Some? then l.profit
                 else if l.selling.Some? then Some(Round(SellingAmount(l) - LandingAmount(l))) else None)
  }

  /** The headers after the three migrations. */
  function UpgradedHeaders(headers: map<Uuid, Header>, lines: seq<Line>): map<Uuid, Header> {
    map p | p in headers :: NarrowedHeader(if LinesOf(lines, p) == [] then headers[p] else Subtotals(LinesOf(lines, p)))
  }

  // ----- what the three updates promise, row by row -----

  /** The stored amount, in ten-thousandths, is within half a ten-thousandth of the exact one. */
  predicate Holds4(stored: Option<int>, exact: real) {
    stored.Some? && Abs(stored.value as real / 100.0 - exact) <= 0.005
  }

  /** A header that 008 has written for these lines. */
  predicate HoldsSubtotals(h: Header, lines: seq<Line>) {
    && Holds4(h.landing, SumLanding(lines))
    && (if SumSelling(lines) == 0.0 then h.selling.None? && h.profit.None?
        else Holds4(h.selling, SumSelling(lines)) && Holds4(h.profit, SumSelling(lines) - SumLanding(lines)))
  }

  /** An amount that 009 has narrowed: whole hundredths, moved by at most half of one. */
  predicate IsNarrowed(before: Option<int>, after: Option<int>) {
    if before.None? then after.None?
    else after.Some? && after.value % 100 == 0 && -50 <= after.value - before.value <= 50
  }

  predicate HeaderIsNarrowed(before: Header, after: Header) {
    IsNarrowed(before.landing, after.landing) && IsNarrowed(before.selling, after.selling) && IsNarrowed(before.profit, after.profit)
  }

  /** A line that 010 has filled: what was there stays, a missing total is the landing amount to half a
      hundredth, and a missing profit the difference of the amounts, if the line has a selling rate. */
  predicate IsFilled(before: Line, after: Line) {
    && after == before.(lineTotal := after.lineTotal, profit := after.profit)
    && (if before.lineTotal.Some? then after.lineTotal == before.lineTotal
        else after.lineTotal.Some? && Abs(after.lineTotal.value as real - LandingAmount(before)) <= 0.5)
    && (if before.profit.Some? then after.profit == before.profit
        else if before.selling.None? then after.profit.None?
        else after.profit.Some? && Abs(after.profit.value as real - (SellingAmount(before) - LandingAmount(before))) <= 0.5)
  }

  lemma SubtotalsHold(lines: seq<Line>)
    ensures HoldsSubtotals(Subtotals(lines), lines)
  {
    Stored4Holds(SumLanding(lines));
    Stored4Holds(SumSelling(lines));
    Stored4Holds(SumSelling(lines) - SumLanding(lines));
  }

  lemma Stored4Holds(exact: real)
    ensures Holds4(Some(Stored4(exact)), exact)
  {
  }

  lemma NarrowedIsNarrowed(h: Header)
    ensures HeaderIsNarrowed(h, NarrowedHeader(h))
  {
  }

  lemma FilledIsFilled(l: Line)
    ensures IsFilled(l, Filled(l))
  {
    RoundError(LandingAmount(l));
    RoundError(SellingAmount(l) - LandingAmount(l));
  }

  class PurchaseTables {
    var headers: map<Uuid, Header>
    var lines: seq<Line>

    constructor (headers: map<Uuid, Header>, lines: seq<Line>)
      ensures this.headers == headers && this.lines == lines
    {
      this.headers, this.lines := headers, lines;
    }

    /** The sums by purchase, in one pass over the lines. */
    method SumLines() returns (landing: map<Uuid, real>, selling: map<Uuid, real>)
      ensures landing.Keys == selling.Keys
      ensures forall p: Uuid :: p in landing <==> LinesOf(lines, p) != []
      ensures forall p: Uuid :: p in landing ==> landing[p] == SumLanding(LinesOf(lines, p)) && selling[p] == SumSelling(LinesOf(lines, p))
    {
      landing, selling := map[], map[];
      for n := |lines| downto 0
        invariant landing.Keys == selling.Keys
        invariant forall p: Uuid :: SumsOf(landing, selling, LinesOf(lines[n..], p), p)
      {
        var l := lines[n];
        LineAdded(landing, selling, l, lines[n + 1..]);
        assert lines[n..] == [l] + lines[n + 1..];
        landing := landing[l.purchase := (if l.purchase in landing then landing[l.purchase] else 0.0) + LandingAmount(l)];
        selling := selling[l.purchase := (if l.purchase in selling then selling[l.purchase] else 0.0) + SellingAmount(l)];
      }
      assert lines[0..] == lines;
      forall p: Uuid
        ensures SumsOf(landing, selling, LinesOf(lines, p), p)
      {
      }
    }

    /** 008: purchases without lines keep their header. */
    method AddSubtotals()
      modifies this`headers
      ensures headers.Keys == old(headers).Keys
      ensures forall p :: p in headers ==> if LinesOf(lines, p) == [] then headers[p] == old(headers)[p]
                                           else headers[p] == Subtotals(LinesOf(lines, p)) && HoldsSubtotals(headers[p], LinesOf(lines, p))
    {
      var landing, selling := SumLines();
      WriteSubtotals(landing, selling);
      forall p | p in headers && LinesOf(lines, p) != []
        ensures HoldsSubtotals(headers[p], LinesOf(lines, p))
      {
        SubtotalsHold(LinesOf(lines, p));
      }
    }

    method WriteSubtotals(landing: map<Uuid, real>, selling: map<Uuid, real>)
      requires landing.Keys == selling.Keys
      modifies this`headers
      ensures headers.Keys == old(headers).Keys
      ensures forall p :: p in headers ==> headers[p] == if p in landing then HeaderOf(landing[p], selling[p]) else old(headers)[p]
    {
      var todo := headers.Keys;
      while todo != {}
        invariant todo <= headers.Keys == old(headers).Keys
        invariant forall p :: p in headers ==>
                    headers[p] == if p in todo || p !in landing then old(headers)[p] else HeaderOf(landing[p], selling[p])
      {
        var p :| p in todo;
        if p in landing {
          headers := headers[p := HeaderOf(landing[p], selling[p])];
        }
        todo := todo - {p};
      }
    }

    /** 009. */
    method NarrowHeaders()
      modifies this`headers
      ensures headers.Keys == old(headers).Keys
      ensures forall p :: p in headers ==> headers[p] == NarrowedHeader(old(headers)[p]) && HeaderIsNarrowed(old(headers)[p], headers[p])
    {
      var todo := headers.Keys;
      while todo != {}
        invariant todo <= headers.Keys == old(headers).Keys
        invariant forall p :: p in headers ==> headers[p] == if p in todo then old(headers)[p] else NarrowedHeader(old(headers)[p])
      {
        var p :| p in todo;
        headers := headers[p := NarrowedHeader(headers[p])];
        todo := todo - {p};
      }
      forall p | p in headers
        ensures HeaderIsNarrowed(old(headers)[p], headers[p])
      {
        NarrowedIsNarrowed(old(headers)[p]);
      }
    }

    /** 010. */
    method FillLines()
      modifies this`lines
      ensures lines == FilledAll(old(lines))
      ensures |lines| == |old(lines)| && forall i :: 0 <= i < |lines| ==> IsFilled(old(lines)[i], lines[i])
    {
      for n := 0 to |lines|
        invariant |lines| == |old(lines)|
        invariant forall i :: 0 <= i < |lines| ==> lines[i] == if i < n then Filled(old(lines)[i]) else old(lines)[i]
      {
        var filled := FillLine(lines[n]);
        lines := lines[n := filled];
      }
      forall i | 0 <= i < |lines|
        ensures IsFilled(old(lines)[i], lines[i])
      {
        FilledIsFilled(old(lines)[i]);
      }
    }

    static method FillLine(l: Line) returns (filled: Line)
      ensures filled == Filled(l)
    {
      filled := l;
      if filled.lineTotal.None? {
        filled := filled.(lineTotal := Some(Round(LandingAmount(l))));
      }
      if filled.profit.None? && l.selling.Some? {
        filled := filled.(profit := Some(Round(SellingAmount(l) - LandingAmount(l))));
      }
    }

    /** The three migrations in order: the header of every purchase with lines, none of which had a total
        before, agrees with its own lines to half a hundredth per line plus 0.505 hundredths. */
    method Upgrade()
      modifies this
      ensures headers == UpgradedHeaders(old(headers), old(lines)) && |lines| == |old(lines)|
      ensures forall p: Uuid :: LinesOf(lines, p) == FilledAll(LinesOf(old(lines), p))
      ensures forall p :: p in headers && LinesOf(lines, p) != [] && WithoutTotals(LinesOf(old(lines), p)) ==> Agrees(headers[p], LinesOf(lines, p))
    {
      AddSubtotals();
      NarrowHeaders();
      ghost var before := lines;
      FillLines();
      forall p: Uuid
        ensures LinesOf(lines, p) == FilledAll(LinesOf(before, p))
      {
        FilledLinesOf(before, p);
      }
      forall p | p in headers && LinesOf(lines, p) != [] && WithoutTotals(LinesOf(before, p))
        ensures Agrees(headers[p], LinesOf(lines, p))
      {
        UpgradedAgrees(LinesOf(before, p));
      }
    }
  }

  /** Lines as 010 finds them when it adds their totals. */
  ghost predicate WithoutTotals(lines: seq<Line>) {
    forall l :: l in lines ==> l.lineTotal.None? && l.profit.None?
  }

  ghost predicate SumsOf(landing: map<Uuid, real>, selling: map<Uuid, real>, mine: seq<Line>, p: Uuid) {
    if mine == [] then p !in landing && p !in selling
    else p in landing && p in selling && landing[p] == SumLanding(mine) && selling[p] == SumSelling(mine)
  }

  lemma {:induction false} LineAdded(landing: map<Uuid, real>, selling: map<Uuid, real>, l: Line, rest: seq<Line>)
    requires forall p: Uuid :: SumsOf(landing, selling, LinesOf(rest, p), p)
    ensures var landing' := landing[l.purchase := (if l.purchase in landing then landing[l.purchase] else 0.0) + LandingAmount(l)];
            var selling' := selling[l.purchase := (if l.purchase in selling then selling[l.purchase] else 0.0) + SellingAmount(l)];
            forall p: Uuid :: SumsOf(landing', selling', LinesOf([l] + rest, p), p)
  {
    var landing' := landing[l.purchase := (if l.purchase in landing then landing[l.purchase] else 0.0) + LandingAmount(l)];
    var selling' := selling[l.purchase := (if l.purchase in selling then selling[l.purchase] else 0.0) + SellingAmount(l)];
    assert ([l] + rest)[1..] == rest;
    forall p: Uuid
      ensures SumsOf(landing', selling', LinesOf([l] + rest, p), p)
    {
      var mine := LinesOf(rest, p);
      assert SumsOf(landing, selling, mine, p) && ([l] + mine)[1..] == mine;
    }
  }

  /** Filling does not move lines between purchases. */
  lemma {:induction false} FilledLinesOf(lines: seq<Line>, p: Uuid)
    ensures LinesOf(FilledAll(lines), p) == FilledAll(LinesOf(lines, p))
  {
    if lines != [] {
      FilledLinesOf(lines[1..], p);
      assert FilledAll(lines)[1..] == FilledAll(lines[1..]);
    }
  }

  // ----- bounds -----

  /** An exact amount after 008 and 009, in hundredths. */
  ghost function TwiceRounded(exact: real): int {
    Round(Stored4(exact) as real / 100.0)
  }

  /** Storing with four decimals and narrowing to two moves an amount by at most 0.505 hundredths. */
  lemma TwoRoundings(exact: real)
    ensures Abs(TwiceRounded(exact) as real - exact) <= 0.505
  {
  }

  ghost function SumTotals(lines: seq<Line>): int {
    if lines == [] then 0 else (if lines[0].lineTotal.Some? then lines[0].lineTotal.value else 0) + SumTotals(lines[1..])
  }

  ghost function FilledAll(lines: seq<Line>): (r: seq<Line>)
    ensures |r| == |lines| && forall i :: 0 <= i < |r| ==> r[i] == Filled(lines[i])
  {
    seq(|lines|, i requires 0 <= i < |lines| => Filled(lines[i]))
  }

  lemma AddError(a: int, b: int, x: real, y: real, n: nat)
    requires Abs(a as real - x) <= 0.5 && Abs(b as real - y) <= 0.5 * n as real
    ensures Abs((a + b) as real - (x + y)) <= 0.5 * (n + 1) as real
  {
  }

  lemma {:induction false} LineTotalsError(lines: seq<Line>)
    requires forall l :: l in lines ==> l.lineTotal.None?
    ensures Abs(SumTotals(FilledAll(lines)) as real - SumLanding(lines)) <= 0.5 * |lines| as real
  {
    if lines != [] {
      assert lines[0] in lines;
      LineTotalsError(lines[1..]);
      var total := Filled(lines[0]).lineTotal.value;
      RoundError(LandingAmount(lines[0]));
      assert FilledAll(lines)[1..] == FilledAll(lines[1..]);
      AddError(total, SumTotals(FilledAll(lines[1..])), LandingAmount(lines[0]), SumLanding(lines[1..]), |lines| - 1);
    }
  }

  /** A narrowed header is as close to a total as the exact sums are, plus the two roundings. */
  lemma NarrowedLandingNear(landing: real, selling: real, total: int, bound: real)
    requires Abs(total as real - landing) <= bound
    ensures var h := NarrowedHeader(HeaderOf(landing, selling));
            h.landing.Some? && Abs(h.landing.value as real / 100.0 - total as real) <= bound + 0.505
  {
    NarrowedHeaderOf(landing, selling);
    TwoRoundings(landing);
  }

  lemma NarrowedProfitNear(landing: real, selling: real, total: int, bound: real)
    requires selling != 0.0 && Abs(total as real - (selling - landing)) <= bound
    ensures var h := NarrowedHeader(HeaderOf(landing, selling));
            h.profit.Some? && Abs(h.profit.value as real / 100.0 - total as real) <= bound + 0.505
  {
    NarrowedHeaderOf(landing, selling);
    TwoRoundings(selling - landing);
  }

  /** Header against lines: the landing subtotal that 008 writes and 009 narrows differs from the sum of
      the line totals that 010 writes by at most half a hundredth per line, plus 0.505 hundredths. */
  lemma LandingSubtotalMatchesLines(lines: seq<Line>)
    requires forall l :: l in lines ==> l.lineTotal.None?
    ensures var header := NarrowedHeader(Subtotals(lines));
            && header.landing.Some?
            && Abs(header.landing.value as real / 100.0 - SumTotals(FilledAll(lines)) as real) <= 0.5 * |lines| as real + 0.505
  {
    LineTotalsError(lines);
    NarrowedLandingNear(SumLanding(lines), SumSelling(lines), SumTotals(FilledAll(lines)), 0.5 * |lines| as real);
  }

  /** Line against line: the profit of a line is within one hundredth of its rounded selling amount
      minus its line total. */
  lemma LineProfitMatchesTotals(l: Line)
    requires l.lineTotal.None? && l.profit.None? && l.selling.Some?
    ensures var f := Filled(l);
            f.profit.Some? && f.lineTotal.Some? && -1 <= f.profit.value - (Round(SellingAmount(l)) - f.lineTotal.value) <= 1
  {
  }

  /** Header against header: after 009 the profit is within one hundredth of selling minus landing,
      and it is missing exactly when nothing is sold. */
  lemma {:induction false} HeaderProfitMatchesSubtotals(lines: seq<Line>)
    ensures var h := NarrowedHeader(Subtotals(lines));
            && (h.profit.None? <==> SumSelling(lines) == 0.0) && (h.selling.None? <==> h.profit.None?) && h.landing.Some?
            && (h.profit.Some? ==> -100 <= h.profit.value - (h.selling.value - h.landing.value) <= 100)
  {
    NarrowedHeaderOf(SumLanding(lines), SumSelling(lines));
    ProfitWithinOne(SumSelling(lines), SumLanding(lines));
  }

  lemma ProfitWithinOne(selling: real, landing: real)
    ensures -1 <= TwiceRounded(selling - landing) - (TwiceRounded(selling) - TwiceRounded(landing)) <= 1
  {
  }

  lemma NarrowedHeaderOf(landing: real, selling: real)
    ensures NarrowedHeader(HeaderOf(landing, selling))
            == Header(Some(100 * TwiceRounded(landing)),
                      if selling == 0.0 then None else Some(100 * TwiceRounded(selling)),
                      if selling == 0.0 then None else Some(100 * TwiceRounded(selling - landing)))
  {
  }

  /** What the lines say the header profit should be: line profits, less the line totals of lines
      without a selling rate. */
  ghost function SumProfits(lines: seq<Line>): int {
    if lines == [] then 0 else ProfitPart(lines[0]) + SumProfits(lines[1..])
  }

  ghost function ProfitPart(l: Line): int {
    if l.selling.Some? && l.profit.Some? then l.profit.value
    else if l.selling.None? && l.lineTotal.Some? then -l.lineTotal.value
    else 0
  }

  lemma ProfitPartError(l: Line)
    requires l.lineTotal.None? && l.profit.None?
    ensures Abs(ProfitPart(Filled(l)) as real - (SellingAmount(l) - LandingAmount(l))) <= 0.5
  {
    RoundError(LandingAmount(l));
    RoundError(SellingAmount(l) - LandingAmount(l));
  }

  lemma {:induction false} SumProfitsFilled(lines: seq<Line>)
    requires lines != []
    ensures SumProfits(FilledAll(lines)) == ProfitPart(Filled(lines[0])) + SumProfits(FilledAll(lines[1..]))
  {
    assert FilledAll(lines)[1..] == FilledAll(lines[1..]);
  }

  lemma {:induction false} LineProfitsError(lines: seq<Line>)
    requires WithoutTotals(lines)
    ensures Abs(SumProfits(FilledAll(lines)) as real - (SumSelling(lines) - SumLanding(lines))) <= 0.5 * |lines| as real
  {
    if lines != [] {
      assert lines[0] in lines;
      LineProfitsError(lines[1..]);
      ProfitPartError(lines[0]);
      SumProfitsFilled(lines);
      AddError(ProfitPart(Filled(lines[0])), SumProfits(FilledAll(lines[1..])), SellingAmount(lines[0]) - LandingAmount(lines[0]),
               SumSelling(lines[1..]) - SumLanding(lines[1..]), |lines| - 1);
    }
  }

  /** The header profit is not the sum of the line profits: it also charges the landing of lines
      without a selling rate.  With those charged, header and lines agree up to rounding. */
  lemma {:induction false} HeaderProfitMatchesLines(lines: seq<Line>)
    requires WithoutTotals(lines)
    ensures var h := NarrowedHeader(Subtotals(lines));
            SumSelling(lines) != 0.0 ==>
              h.profit.Some? && Abs(h.profit.value as real / 100.0 - SumProfits(FilledAll(lines)) as real) <= 0.5 * |lines| as real + 0.505
  {
    LineProfitsError(lines);
    if SumSelling(lines) != 0.0 {
      NarrowedProfitNear(SumLanding(lines), SumSelling(lines), SumProfits(FilledAll(lines)), 0.5 * |lines| as real);
    }
  }

  /** A header agrees with its filled lines: its landing with their totals, and its profit, if anything is sold,
      with their profits less the totals of lines without a selling rate. */
  ghost predicate Agrees(h: Header, lines: seq<Line>) {
    && (forall l :: l in lines ==> l.lineTotal.Some?)
    && h.landing.Some? && Abs(h.landing.value as real / 100.0 - SumTotals(lines) as real) <= 0.5 * |lines| as real + 0.505
    && (h.profit.None? <==> SumSelling(lines) == 0.0)
    && (h.profit.Some? ==> Abs(h.profit.value as real / 100.0 - SumProfits(lines) as real) <= 0.5 * |lines| as real + 0.505)
  }

  lemma {:induction false} FillingKeepsSelling(lines: seq<Line>)
    ensures SumSelling(FilledAll(lines)) == SumSelling(lines)
  {
    if lines != [] {
      FillingKeepsSelling(lines[1..]);
      assert FilledAll(lines)[1..] == FilledAll(lines[1..]);
    }
  }

  lemma UpgradedAgrees(lines: seq<Line>)
    requires WithoutTotals(lines)
    ensures Agrees(NarrowedHeader(Subtotals(lines)), FilledAll(lines))
  {
    LandingSubtotalMatchesLines(lines);
    HeaderProfitMatchesSubtotals(lines);
    HeaderProfitMatchesLines(lines);
    FillingKeepsSelling(lines);
  }
}
