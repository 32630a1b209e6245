/** Latest and volume-weighted prices of one item per supplier, and the choice of the best supplier. */
module SupplierPrices {
  import opened Numerals
  import opened Options

  /** A purchase line of the item, as the query returns it, newest first. */
  datatype PriceRow = PriceRow(purchase: Uuid, supplier: Uuid, name: string, landing: Option<real>, qty: real, unit: string,
                               date: int, line: Uuid, amount: real)

  datatype SupplierPrice = SupplierPrice(supplier: Uuid, name: string, landing: real, unit: string, date: int, isBest: bool,
                                         deals: nat, vwap: Option<real>)

  const EPSILON: real := 0.000000000001

  // ----- the direct specification, over the first n rows -----

  predicate CountsFor(r: PriceRow, s: Uuid) {
    r.supplier == s && r.landing.Some?
  }

  function AmountOf(rows: seq<PriceRow>, s: Uuid, n: nat): real
    requires n <= |rows|
  {
    if n == 0 then 0.0 else AmountOf(rows, s, n - 1) + (if CountsFor(rows[n - 1], s) then rows[n - 1].amount else 0.0)
  }

  function QtyOf(rows: seq<PriceRow>, s: Uuid, n: nat): real
    requires n <= |rows|
  {
    if n == 0 then 0.0 else QtyOf(rows, s, n - 1) + (if CountsFor(rows[n - 1], s) then rows[n - 1].qty else 0.0)
  }

  function DealsOf(rows: seq<PriceRow>, s: Uuid, n: nat): set<Uuid>
    requires n <= |rows|
  {
    if n == 0 then {} else DealsOf(rows, s, n - 1) + (if CountsFor(rows[n - 1], s) then {rows[n - 1].purchase} else {})
  }

  predicate Mentions(rows: seq<PriceRow>, s: Uuid) {
    exists i :: 0 <= i < |rows| && rows[i].supplier == s
  }

  /** The first priced row of every supplier, in order of appearance. */
  function LatestRows(rows: seq<PriceRow>, n: nat): seq<PriceRow>
    requires n <= |rows|
  {
    if n == 0 then []
    else
      var earlier := LatestRows(rows, n - 1);
      if rows[n - 1].landing.Some? && !Mentions(earlier, rows[n - 1].supplier) then earlier + [rows[n - 1]] else earlier
  }

  function Landings(rows: seq<PriceRow>, n: nat): seq<real>
    requires n <= |rows|
  {
    if n == 0 then []
    else Landings(rows, n - 1) + (if rows[n - 1].landing.Some? then [rows[n - 1].landing.value] else [])
  }

  /** The price per unit over everything bought from a supplier. */
  function Vwap(amount: real, qty: real): Option<real> {
    if qty > EPSILON then Some(amount / qty) else None
  }

  function VwapOf(rows: seq<PriceRow>, s: Uuid): Option<real> {
    Vwap(AmountOf(rows, s, |rows|), QtyOf(rows, s, |rows|))
  }

  // ----- choosing and sorting -----

  predicate Cheaper(a: (real, Uuid), b: (real, Uuid)) {
    a.0 < b.0 || (a.0 == b.0 && a.1 < b.1)
  }

  function Least(offers: seq<(real, Uuid)>): (m: (real, Uuid))
    requires offers != []
    ensures m in offers
    ensures forall o :: o in offers ==> !Cheaper(o, m)
  {
    if |offers| == 1 then offers[0]
    else
      var rest := Least(offers[1..]);
      assert offers == [offers[0]] + offers[1..];
      if Cheaper(rest, offers[0]) then rest else offers[0]
  }

  /** What a supplier quotes at its volume-weighted price, if it has two deals or more. */
  function Quote(s: Uuid, deals: set<Uuid>, vwap: Option<real>): Option<(real, Uuid)> {
    if |deals| >= 2 && vwap.Some? then Some((vwap.value, s)) else None
  }

  function SeasonedQuote(rows: seq<PriceRow>, s: Uuid): Option<(real, Uuid)> {
    Quote(s, DealsOf(rows, s, |rows|), VwapOf(rows, s))
  }

  function SeasonedQuotes(rows: seq<PriceRow>, latest: seq<PriceRow>): (r: seq<Option<(real, Uuid)>>)
    ensures |r| == |latest| && forall i :: 0 <= i < |r| ==> r[i] == SeasonedQuote(rows, latest[i].supplier)
  {
    seq(|latest|, i requires 0 <= i < |latest| => SeasonedQuote(rows, latest[i].supplier))
  }

  /** What a supplier quotes on its latest line. */
  function LatestQuote(r: PriceRow): Option<(real, Uuid)> {
    if r.landing.Some? then Some((r.landing.value, r.supplier)) else None
  }

  function LatestQuotes(latest: seq<PriceRow>): (r: seq<Option<(real, Uuid)>>)
    ensures |r| == |latest| && forall i :: 0 <= i < |r| ==> r[i] == LatestQuote(latest[i])
  {
    seq(|latest|, i requires 0 <= i < |latest| => LatestQuote(latest[i]))
  }

  function Made(quotes: seq<Option<(real, Uuid)>>, n: nat): seq<(real, Uuid)>
    requires n <= |quotes|
  {
    if n == 0 then [] else Made(quotes, n - 1) + (if quotes[n - 1].Some? then [quotes[n - 1].value] else [])
  }

  function Best(rows: seq<PriceRow>): Option<Uuid> {
    var latest := LatestRows(rows, |rows|);
    Choose(SeasonedQuotes(rows, latest), LatestQuotes(latest))
  }

  function Choose(seasoned: seq<Option<(real, Uuid)>>, latest: seq<Option<(real, Uuid)>>): Option<Uuid> {
    var eligible, listed := Made(seasoned, |seasoned|), Made(latest, |latest|);
    if eligible != [] then Some(Least(eligible).1)
    else if listed != [] then Some(Least(listed).1)
    else None
  }

  predicate TextBefore(a: string, b: string) {
    if b == "" then false
    else if a == "" then true
    else a[0] < b[0] || (a[0] == b[0] && TextBefore(a[1..], b[1..]))
  }

  predicate ByPrice(a: SupplierPrice, b: SupplierPrice) {
    Cheaper((a.landing, a.supplier), (b.landing, b.supplier))
  }

  /** Best first, then by price, then by name. */
  predicate ForDisplay(a: SupplierPrice, b: SupplierPrice) {
    if a.isBest != b.isBest then a.isBest
    else if a.landing != b.landing then a.landing < b.landing
    else TextBefore(a.name, b.name)
  }

  /** A stable sort: equal elements keep their order. */
  function InsertBy(x: SupplierPrice, xs: seq<SupplierPrice>, before: (SupplierPrice, SupplierPrice) -> bool): seq<SupplierPrice> {
    if xs == [] || !before(xs[0], x) then [x] + xs else [xs[0]] + InsertBy(x, xs[1..], before)
  }

  function SortBy(xs: seq<SupplierPrice>, before: (SupplierPrice, SupplierPrice) -> bool): seq<SupplierPrice> {
    if xs == [] then [] else InsertBy(xs[0], SortBy(xs[1..], before), before)
  }

  /** The report row of a supplier, from its latest line and its totals over all rows. */
  function Priced(rows: seq<PriceRow>, r: PriceRow, best: Option<Uuid>): SupplierPrice {
    SupplierPrice(r.supplier, r.name, if r.landing.Some? then r.landing.value else 0.0, r.unit, r.date, best == Some(r.supplier),
                  |DealsOf(rows, r.supplier, |rows|)|, VwapOf(rows, r.supplier))
  }

  function PricedAll(rows: seq<PriceRow>, latest: seq<PriceRow>, best: Option<Uuid>): (r: seq<SupplierPrice>)
    ensures |r| == |latest| && forall i :: 0 <= i < |r| ==> r[i] == Priced(rows, latest[i], best)
  {
    seq(|latest|, i requires 0 <= i < |latest| => Priced(rows, latest[i], best))
  }

  function Report(rows: seq<PriceRow>): seq<SupplierPrice> {
    SortBy(SortBy(PricedAll(rows, LatestRows(rows, |rows|), Best(rows)), ByPrice), ForDisplay)
  }

  // ----- facts about the latest rows -----

  lemma {:induction false} LatestFacts(rows: seq<PriceRow>, n: nat)
    requires n <= |rows|
    ensures forall i :: 0 <= i < |LatestRows(rows, n)| ==> LatestRows(rows, n)[i].landing.Some?
    ensures forall i, j :: 0 <= i < j < |LatestRows(rows, n)| ==> LatestRows(rows, n)[i].supplier != LatestRows(rows, n)[j].supplier
    ensures forall k :: 0 <= k < n && rows[k].landing.Some? ==> Mentions(LatestRows(rows, n), rows[k].supplier)
  {
    if n > 0 {
      LatestFacts(rows, n - 1);
      var earlier, now := LatestRows(rows, n - 1), LatestRows(rows, n);
      forall k | 0 <= k < n && rows[k].landing.Some?
        ensures Mentions(now, rows[k].supplier)
      {
        if Mentions(earlier, rows[k].supplier) {
          var i :| 0 <= i < |earlier| && earlier[i].supplier == rows[k].supplier;
          assert now[i] == earlier[i];
        } else {
          assert now[|now| - 1] == rows[n - 1];
        }
      }
    }
  }

  /** The entry of a supplier is its first priced row. */
  lemma {:induction false} LatestIsFirst(rows: seq<PriceRow>, n: nat, i: nat) returns (k: nat)
    requires n <= |rows| && i < |LatestRows(rows, n)|
    ensures k < n && LatestRows(rows, n)[i] == rows[k]
    ensures forall j :: 0 <= j < k ==> !CountsFor(rows[j], rows[k].supplier)
  {
    var earlier := LatestRows(rows, n - 1);
    if i < |earlier| {
      k := LatestIsFirst(rows, n - 1, i);
    } else {
      k := n - 1;
      LatestFacts(rows, n - 1);
    }
  }

  /** Newest first, as the query orders the rows. */
  ghost predicate NewestFirst(rows: seq<PriceRow>) {
    forall i, j :: 0 <= i < j < |rows| ==> rows[i].date > rows[j].date || (rows[i].date == rows[j].date && rows[i].line >= rows[j].line)
  }

  /** On rows in the query's order, the entry of a supplier is its newest priced row. */
  lemma {:induction false} LatestIsNewest(rows: seq<PriceRow>, i: nat, j: nat)
    requires NewestFirst(rows) && i < |LatestRows(rows, |rows|)| && j < |rows|
    requires CountsFor(rows[j], LatestRows(rows, |rows|)[i].supplier)
    ensures var e := LatestRows(rows, |rows|)[i]; e.date > rows[j].date || (e.date == rows[j].date && e.line >= rows[j].line)
  {
    var k := LatestIsFirst(rows, |rows|, i);
  }

  // ----- the loop -----

  /** What the loop keeps while it reads the rows. */
  datatype Totals = Totals(seen: set<Uuid>, latest: seq<PriceRow>, sumAmount: map<Uuid, real>, sumQty: map<Uuid, real>,
                           deals: map<Uuid, set<Uuid>>, landings: seq<real>, lastFive: seq<real>)

  ghost predicate SumsFollow(t: Totals, rows: seq<PriceRow>, n: nat, s: Uuid)
    requires n <= |rows|
  {
    if s in t.seen then
      && s in t.sumAmount && s in t.sumQty && s in t.deals
      && t.sumAmount[s] == AmountOf(rows, s, n) && t.sumQty[s] == QtyOf(rows, s, n) && t.deals[s] == DealsOf(rows, s, n)
    else
      && s !in t.sumAmount && s !in t.sumQty && s !in t.deals
      && AmountOf(rows, s, n) == 0.0 && QtyOf(rows, s, n) == 0.0 && DealsOf(rows, s, n) == {}
  }

  ghost predicate Follows(t: Totals, rows: seq<PriceRow>, n: nat)
    requires n <= |rows|
  {
    && t.latest == LatestRows(rows, n)
    && (forall s: Uuid :: s in t.seen <==> Mentions(t.latest, s))
    && (forall s: Uuid :: SumsFollow(t, rows, n, s))
    && t.landings == Landings(rows, n)
    && t.lastFive == FirstFive(t.landings)
  }

  function FirstFive(xs: seq<real>): seq<real> {
    if |xs| < 5 then xs else xs[..5]
  }

  /** One row of the loop: a row without a price is skipped, a supplier seen before only adds to the sums. */
  method AddRow(t: Totals, row: PriceRow, ghost rows: seq<PriceRow>, ghost n: nat) returns (t': Totals)
    requires n < |rows| && row == rows[n] && Follows(t, rows, n)
    ensures Follows(t', rows, n + 1)
  {
    if row.landing.None? {
      SkipKeeps(t, rows, n);
      return t;
    }
    t' := AddPriced(t, row);
    AddKeeps(t, rows, n);
  }

  method AddPriced(t: Totals, row: PriceRow) returns (t': Totals)
    requires row.landing.Some?
    ensures t' == Added(t, row)
  {
    t' := t;
    var s := row.supplier;
    t' := t'.(sumAmount := t'.sumAmount[s := (if s in t'.sumAmount then t'.sumAmount[s] else 0.0) + row.amount]);
    t' := t'.(sumQty := t'.sumQty[s := (if s in t'.sumQty then t'.sumQty[s] else 0.0) + row.qty]);
    t' := t'.(deals := t'.deals[s := (if s in t'.deals then t'.deals[s] else {}) + {row.purchase}]);
    t' := t'.(landings := t'.landings + [row.landing.value]);
    if |t'.lastFive| < 5 {
      t' := t'.(lastFive := t'.lastFive + [row.landing.value]);
    }
    if s in t'.seen {
      return;
    }
    t' := t'.(seen := t'.seen + {s}, latest := t'.latest + [row]);
  }

  lemma SkipKeeps(t: Totals, rows: seq<PriceRow>, n: nat)
    requires n < |rows| && rows[n].landing.None? && Follows(t, rows, n)
    ensures Follows(t, rows, n + 1)
  {
    var m := n + 1;
    forall s: Uuid
      ensures SumsFollow(t, rows, m, s)
    {
      assert SumsFollow(t, rows, n, s);
    }
  }

  ghost function Added(t: Totals, row: PriceRow): Totals
    requires row.landing.Some?
  {
    var s, landing := row.supplier, row.landing.value;
    Totals(if s in t.seen then t.seen else t.seen + {s},
           if s in t.seen then t.latest else t.latest + [row],
           t.sumAmount[s := (if s in t.sumAmount then t.sumAmount[s] else 0.0) + row.amount],
           t.sumQty[s := (if s in t.sumQty then t.sumQty[s] else 0.0) + row.qty],
           t.deals[s := (if s in t.deals then t.deals[s] else {}) + {row.purchase}],
           t.landings + [landing],
           if |t.lastFive| < 5 then t.lastFive + [landing] else t.lastFive)
  }

  lemma AddKeeps(t: Totals, rows: seq<PriceRow>, n: nat)
    requires n < |rows| && rows[n].landing.Some? && Follows(t, rows, n)
    ensures Follows(Added(t, rows[n]), rows, n + 1)
  {
    var row, m, t' := rows[n], n + 1, Added(t, rows[n]);
    forall s: Uuid
      ensures SumsFollow(t', rows, m, s)
    {
      assert SumsFollow(t, rows, n, s);
    }
    forall s: Uuid
      ensures s in t'.seen <==> Mentions(t'.latest, s)
    {
      MentionsAppend(t.latest, row, s);
    }
  }

  lemma MentionsAppend(latest: seq<PriceRow>, row: PriceRow, s: Uuid)
    ensures Mentions(latest + [row], s) <==> Mentions(latest, s) || row.supplier == s
  {
    var all := latest + [row];
    if Mentions(latest, s) {
      var i :| 0 <= i < |latest| && latest[i].supplier == s;
      assert all[i].supplier == s;
    }
    if row.supplier == s {
      assert all[|latest|].supplier == s;
    }
  }

  /** The whole endpoint: sums, best supplier and the report in display order. */
  method TradeSupplierPrices(rows: seq<PriceRow>) returns (report: seq<SupplierPrice>, lastFive: seq<real>, average: Option<real>)
    ensures report == Report(rows)
    ensures lastFive == FirstFive(Landings(rows, |rows|))
    ensures average == if Landings(rows, |rows|) == [] then None else Some(Sum(Landings(rows, |rows|)) / |Landings(rows, |rows|)| as real)
  {
    var t := Totals({}, [], map[], map[], map[], [], []);
    for n := 0 to |rows|
      invariant Follows(t, rows, n)
    {
      t := AddRow(t, rows[n], rows, n);
    }
    report := FromTotals(t, rows);
    lastFive := t.lastFive;
    average := if t.landings == [] then None else Some(Sum(t.landings) / |t.landings| as real);
  }

  function Sum(xs: seq<real>): real {
    if xs == [] then 0.0 else xs[0] + Sum(xs[1..])
  }

  /** Choosing and sorting from the totals. */
  method FromTotals(t: Totals, ghost rows: seq<PriceRow>) returns (report: seq<SupplierPrice>)
    requires Follows(t, rows, |rows|)
    ensures report == Report(rows)
  {
    var best := BestFromTotals(t, rows);
    var priced := PricedFromTotals(t, rows, best);
    report := SortBy(SortBy(priced, ByPrice), ForDisplay);
  }

  /** At the end of the loop the totals of a listed supplier are those over all rows. */
  lemma {:induction false} EntryTotals(t: Totals, rows: seq<PriceRow>, i: nat)
    requires Follows(t, rows, |rows|) && i < |t.latest|
    ensures var s := t.latest[i].supplier;
            && s in t.sumAmount && s in t.sumQty && s in t.deals
            && Vwap(t.sumAmount[s], t.sumQty[s]) == VwapOf(rows, s) && t.deals[s] == DealsOf(rows, s, |rows|)
            && t.latest[i].landing.Some?
  {
    LatestFacts(rows, |rows|);
    var s := t.latest[i].supplier;
    assert Mentions(t.latest, s);
    assert SumsFollow(t, rows, |rows|, s);
  }

  method BestFromTotals(t: Totals, ghost rows: seq<PriceRow>) returns (best: Option<Uuid>)
    requires Follows(t, rows, |rows|)
    ensures best == Best(rows)
  {
    var quotes := QuotesFromTotals(t, rows);
    best := Choose(quotes, LatestQuotes(t.latest));
  }

  method QuotesFromTotals(t: Totals, ghost rows: seq<PriceRow>) returns (quotes: seq<Option<(real, Uuid)>>)
    requires Follows(t, rows, |rows|)
    ensures quotes == SeasonedQuotes(rows, t.latest)
  {
    quotes := [];
    for i := 0 to |t.latest|
      invariant |quotes| == i && forall k :: 0 <= k < i ==> quotes[k] == SeasonedQuote(rows, t.latest[k].supplier)
    {
      var s := t.latest[i].supplier;
      EntryTotals(t, rows, i);
      quotes := quotes + [Quote(s, t.deals[s], Vwap(t.sumAmount[s], t.sumQty[s]))];
    }
  }

  method PricedFromTotals(t: Totals, ghost rows: seq<PriceRow>, best: Option<Uuid>) returns (priced: seq<SupplierPrice>)
    requires Follows(t, rows, |rows|)
    ensures priced == PricedAll(rows, t.latest, best)
  {
    priced := [];
    for i := 0 to |t.latest|
      invariant |priced| == i && forall k :: 0 <= k < i ==> priced[k] == Priced(rows, t.latest[k], best)
    {
      var r := t.latest[i];
      EntryTotals(t, rows, i);
      priced := priced + [SupplierPrice(r.supplier, r.name, r.landing.value, r.unit, r.date, best == Some(r.supplier),
                                        |t.deals[r.supplier]|, Vwap(t.sumAmount[r.supplier], t.sumQty[r.supplier]))];
    }
  }

  // ----- guarantees -----

  ghost predicate SomeMade(quotes: seq<Option<(real, Uuid)>>) {
    exists i :: 0 <= i < |quotes| && quotes[i].Some?
  }

  /** s makes a quote and no other quote is cheaper; ties go to the smaller identifier. */
  ghost predicate CheapestAmong(quotes: seq<Option<(real, Uuid)>>, s: Uuid) {
    exists b :: 0 <= b < |quotes| && quotes[b].Some? && quotes[b].value.1 == s
                && forall i :: 0 <= i < |quotes| && quotes[i].Some? ==> !Cheaper(quotes[i].value, quotes[b].value)
  }

  /** The choice is the cheapest by volume-weighted price among suppliers with at least two deals;
      without such a supplier it is the cheapest latest line; only an empty list has no choice. */
  lemma {:induction false} BestIsCheapest(rows: seq<PriceRow>)
    ensures var latest := LatestRows(rows, |rows|);
            if SomeMade(SeasonedQuotes(rows, latest)) then
              Best(rows).Some? && CheapestAmong(SeasonedQuotes(rows, latest), Best(rows).value)
            else if latest != [] then
              Best(rows).Some? && CheapestAmong(LatestQuotes(latest), Best(rows).value)
            else
              Best(rows).None?
  {
    var latest := LatestRows(rows, |rows|);
    LatestFacts(rows, |rows|);
    assert latest != [] ==> LatestQuotes(latest)[0].Some?;
    ChooseIsCheapest(SeasonedQuotes(rows, latest), LatestQuotes(latest));
  }

  lemma ChooseIsCheapest(seasoned: seq<Option<(real, Uuid)>>, latest: seq<Option<(real, Uuid)>>)
    ensures if SomeMade(seasoned) then Choose(seasoned, latest).Some? && CheapestAmong(seasoned, Choose(seasoned, latest).value)
            else if SomeMade(latest) then Choose(seasoned, latest).Some? && CheapestAmong(latest, Choose(seasoned, latest).value)
            else Choose(seasoned, latest).None?
  {
    MadeMembers(seasoned, |seasoned|);
    MadeMembers(latest, |latest|);
  }

  lemma {:induction false} MadeMembers(quotes: seq<Option<(real, Uuid)>>, n: nat)
    requires n <= |quotes|
    ensures forall o :: o in Made(quotes, n) ==> exists i :: 0 <= i < n && quotes[i] == Some(o)
    ensures forall i :: 0 <= i < n && quotes[i].Some? ==> quotes[i].value in Made(quotes, n)
  {
    if n > 0 {
      MadeMembers(quotes, n - 1);
    }
  }

  /** The chosen supplier is one of the listed ones. */
  lemma {:induction false} BestIsListed(rows: seq<PriceRow>)
    requires LatestRows(rows, |rows|) != []
    ensures Best(rows).Some? && Mentions(LatestRows(rows, |rows|), Best(rows).value)
  {
    BestIsCheapest(rows);
  }

  // ----- the report -----

  ghost predicate DistinctSuppliers(xs: seq<SupplierPrice>) {
    xs == [] || ((forall x :: x in xs[1..] ==> x.supplier != xs[0].supplier) && DistinctSuppliers(xs[1..]))
  }

  lemma {:induction false} InsertMembers(x: SupplierPrice, xs: seq<SupplierPrice>, before: (SupplierPrice, SupplierPrice) -> bool)
    ensures forall y :: y in InsertBy(x, xs, before) <==> y == x || y in xs
    ensures |InsertBy(x, xs, before)| == |xs| + 1
    ensures DistinctSuppliers(xs) && (forall y :: y in xs ==> y.supplier != x.supplier) ==> DistinctSuppliers(InsertBy(x, xs, before))
  {
    if xs == [] || !before(xs[0], x) {
      assert ([x] + xs)[1..] == xs;
    } else {
      InsertMembers(x, xs[1..], before);
      assert xs == [xs[0]] + xs[1..];
      assert InsertBy(x, xs, before)[1..] == InsertBy(x, xs[1..], before);
    }
  }

  /** Sorting loses and invents nobody. */
  lemma {:induction false} SortMembers(xs: seq<SupplierPrice>, before: (SupplierPrice, SupplierPrice) -> bool)
    ensures forall y :: y in SortBy(xs, before) <==> y in xs
    ensures |SortBy(xs, before)| == |xs|
    ensures DistinctSuppliers(xs) ==> DistinctSuppliers(SortBy(xs, before))
  {
    if xs != [] {
      SortMembers(xs[1..], before);
      InsertMembers(xs[0], SortBy(xs[1..], before), before);
      assert xs == [xs[0]] + xs[1..];
    }
  }

  /** The order that the display sort guarantees: best before others, then by price. */
  ghost predicate NoDearer(a: SupplierPrice, b: SupplierPrice) {
    if a.isBest != b.isBest then a.isBest else a.landing <= b.landing
  }

  ghost predicate InOrder(xs: seq<SupplierPrice>) {
    xs == [] || ((forall x :: x in xs[1..] ==> NoDearer(xs[0], x)) && InOrder(xs[1..]))
  }

  lemma {:induction false} InsertKeepsOrder(x: SupplierPrice, xs: seq<SupplierPrice>)
    requires InOrder(xs)
    ensures InOrder(InsertBy(x, xs, ForDisplay))
  {
    if xs == [] || !ForDisplay(xs[0], x) {
      assert ([x] + xs)[1..] == xs;
      assert xs != [] ==> xs == [xs[0]] + xs[1..];
    } else {
      InsertKeepsOrder(x, xs[1..]);
      InsertMembers(x, xs[1..], ForDisplay);
      assert InsertBy(x, xs, ForDisplay)[1..] == InsertBy(x, xs[1..], ForDisplay);
    }
  }

  lemma {:induction false} DisplayInOrder(xs: seq<SupplierPrice>)
    ensures InOrder(SortBy(xs, ForDisplay))
  {
    if xs != [] {
      DisplayInOrder(xs[1..]);
      InsertKeepsOrder(xs[0], SortBy(xs[1..], ForDisplay));
    }
  }

  lemma {:induction false} PricedDistinct(rows: seq<PriceRow>, latest: seq<PriceRow>, best: Option<Uuid>)
    requires forall i, j :: 0 <= i < j < |latest| ==> latest[i].supplier != latest[j].supplier
    ensures DistinctSuppliers(PricedAll(rows, latest, best))
  {
    if latest != [] {
      PricedDistinct(rows, latest[1..], best);
      assert PricedAll(rows, latest, best)[1..] == PricedAll(rows, latest[1..], best);
    }
  }

  /** The report lists every supplier with a priced line exactly once, with its latest line and the
      totals over all its lines, and nobody else. */
  lemma {:induction false} ReportIsExact(rows: seq<PriceRow>)
    ensures DistinctSuppliers(Report(rows))
    ensures forall x :: x in Report(rows) <==> x in PricedAll(rows, LatestRows(rows, |rows|), Best(rows))
    ensures |Report(rows)| == |LatestRows(rows, |rows|)|
  {
    var priced := PricedAll(rows, LatestRows(rows, |rows|), Best(rows));
    LatestFacts(rows, |rows|);
    PricedDistinct(rows, LatestRows(rows, |rows|), Best(rows));
    SortTwice(priced);
  }

  lemma {:induction false} SortTwice(priced: seq<SupplierPrice>)
    ensures var r := SortBy(SortBy(priced, ByPrice), ForDisplay);
            && (forall x :: x in r <==> x in priced) && |r| == |priced|
            && (DistinctSuppliers(priced) ==> DistinctSuppliers(r))
  {
    SortMembers(priced, ByPrice);
    SortMembers(SortBy(priced, ByPrice), ForDisplay);
  }

  /** Every supplier with a priced line is in the report. */
  lemma ReportIsComplete(rows: seq<PriceRow>, k: nat) returns (x: SupplierPrice)
    requires k < |rows| && rows[k].landing.Some?
    ensures x in Report(rows) && x.supplier == rows[k].supplier
    ensures exists i :: 0 <= i < |LatestRows(rows, |rows|)| && x == Priced(rows, LatestRows(rows, |rows|)[i], Best(rows))
  {
    var latest, best := LatestRows(rows, |rows|), Best(rows);
    LatestFacts(rows, |rows|);
    ReportIsExact(rows);
    var i :| 0 <= i < |latest| && latest[i].supplier == rows[k].supplier;
    x := PricedAll(rows, latest, best)[i];
  }

  /** As soon as one row has a price, the report has exactly one best supplier, listed first, and the others
      follow by price. */
  lemma {:induction false} BestIsListedFirst(rows: seq<PriceRow>, k: nat)
    requires k < |rows| && rows[k].landing.Some?
    ensures Report(rows) != [] && Report(rows)[0].isBest && Best(rows) == Some(Report(rows)[0].supplier)
    ensures forall x :: x in Report(rows)[1..] ==> !x.isBest
    ensures InOrder(Report(rows))
  {
    LatestFacts(rows, |rows|);
    BestHeadsReport(rows);
  }

  lemma {:induction false} BestHeadsReport(rows: seq<PriceRow>)
    requires LatestRows(rows, |rows|) != []
    ensures Report(rows) != [] && Report(rows)[0].isBest && Best(rows) == Some(Report(rows)[0].supplier)
    ensures forall x :: x in Report(rows)[1..] ==> !x.isBest
    ensures InOrder(Report(rows))
  {
    var latest, best := LatestRows(rows, |rows|), Best(rows);
    var priced := PricedAll(rows, latest, best);
    ReportIsExact(rows);
    DisplayInOrder(SortBy(priced, ByPrice));
    BestIsListed(rows);
    var b :| 0 <= b < |latest| && latest[b].supplier == best.value;
    assert priced[b] in Report(rows);
    OnlyOneBest(Report(rows), best, priced[b]);
  }

  lemma {:induction false} OnlyOneBest(report: seq<SupplierPrice>, best: Option<Uuid>, x: SupplierPrice)
    requires DistinctSuppliers(report) && InOrder(report) && x in report && x.isBest
    requires forall y :: y in report ==> (y.isBest <==> best == Some(y.supplier))
    ensures report[0].isBest && forall y :: y in report[1..] ==> !y.isBest
  {
    assert report == [report[0]] + report[1..];
    assert report[0] in report;
    assert report[0].isBest by {
      assert x in report[1..] ==> NoDearer(report[0], x);
    }
  }

  ghost predicate UnitPriceWithin(r: PriceRow, lo: real, hi: real) {
    r.qty > 0.0 && lo <= r.amount / r.qty <= hi
  }

  /** With positive quantities, a volume-weighted price lies between the supplier's smallest and
      largest amounts per unit. */
  lemma {:induction false} VwapBetweenUnitPrices(rows: seq<PriceRow>, s: Uuid, lo: real, hi: real)
    requires forall i :: 0 <= i < |rows| && CountsFor(rows[i], s) ==> UnitPriceWithin(rows[i], lo, hi)
    ensures VwapOf(rows, s).Some? ==> lo <= VwapOf(rows, s).value <= hi
  {
    AmountBetween(rows, s, lo, hi, |rows|);
    var amount, qty := AmountOf(rows, s, |rows|), QtyOf(rows, s, |rows|);
    if qty > EPSILON {
      QuotientBetween(amount, qty, lo, hi);
    }
  }

  lemma QuotientBetween(amount: real, qty: real, lo: real, hi: real)
    requires qty > 0.0 && Within(amount, qty, lo, hi)
    ensures lo <= amount / qty <= hi
  {
  }

  ghost predicate Within(amount: real, qty: real, lo: real, hi: real) {
    lo * qty <= amount <= hi * qty
  }

  lemma {:induction false} AmountBetween(rows: seq<PriceRow>, s: Uuid, lo: real, hi: real, n: nat)
    requires n <= |rows|
    requires forall i :: 0 <= i < n && CountsFor(rows[i], s) ==> UnitPriceWithin(rows[i], lo, hi)
    ensures Within(AmountOf(rows, s, n), QtyOf(rows, s, n), lo, hi)
  {
    if n > 0 {
      AmountBetween(rows, s, lo, hi, n - 1);
      if CountsFor(rows[n - 1], s) {
        UnitPriceBounds(rows[n - 1], lo, hi);
        WithinAdds(AmountOf(rows, s, n - 1), QtyOf(rows, s, n - 1), rows[n - 1].amount, rows[n - 1].qty, lo, hi);
      }
    }
  }

  lemma WithinAdds(a: real, q: real, a': real, q': real, lo: real, hi: real)
    requires Within(a, q, lo, hi) && Within(a', q', lo, hi)
    ensures Within(a + a', q + q', lo, hi)
  {
  }

  lemma UnitPriceBounds(r: PriceRow, lo: real, hi: real)
    requires UnitPriceWithin(r, lo, hi)
    ensures Within(r.amount, r.qty, lo, hi)
  {
    var q := r.amount / r.qty;
    assert q * r.qty == r.amount;
    assert (q - lo) * r.qty >= 0.0 && (hi - q) * r.qty >= 0.0;
  }
}
