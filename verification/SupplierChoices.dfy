/** What the price report says in terms of the rows it was made from: the choice of the best supplier, the entry
    of each supplier, the last prices, and the order. */
module SupplierChoices {
  import opened Lists
  import opened Numerals
  import opened Options
  import opened SupplierPrices

  // ----- deals -----

  /** The k-th row is a priced line of the supplier. */
  ghost predicate IsPricedLine(rows: seq<PriceRow>, s: Uuid, k: int) {
    0 <= k < |rows| && rows[k].supplier == s && rows[k].landing.Some?
  }

  lemma {:induction false} DealsMembers(rows: seq<PriceRow>, s: Uuid, n: nat, p: Uuid)
    requires n <= |rows|
    ensures p in DealsOf(rows, s, n) <==> exists k :: 0 <= k < n && IsPricedLine(rows, s, k) && rows[k].purchase == p
  {
    if n > 0 {
      DealsMembers(rows, s, n - 1, p);
      assert CountsFor(rows[n - 1], s) <==> IsPricedLine(rows, s, n - 1);
    }
  }

  lemma TwoMembers(s: set<Uuid>)
    ensures |s| >= 2 <==> exists x, y :: x in s && y in s && x != y
  {
    if |s| >= 2 {
      var x :| x in s;
      var rest := s - {x};
      assert |rest| >= 1;
      var y :| y in rest;
      assert x in s && y in s && x != y;
    }
    if x, y :| x in s && y in s && x != y {
      assert |s - {x}| >= 1 by {
        assert y in s - {x};
      }
    }
  }

  /** Two priced lines of the supplier come from different purchases. */
  ghost predicate TwoDeals(rows: seq<PriceRow>, s: Uuid) {
    exists i, j :: IsPricedLine(rows, s, i) && IsPricedLine(rows, s, j) && rows[i].purchase != rows[j].purchase
  }

  /** The number of deals of a supplier is at least two exactly when two of its lines come from different
      purchases. */
  lemma {:induction false} DealsAreTwoIff(rows: seq<PriceRow>, s: Uuid)
    ensures |DealsOf(rows, s, |rows|)| >= 2 <==> TwoDeals(rows, s)
  {
    var deals := DealsOf(rows, s, |rows|);
    TwoMembers(deals);
    if x, y :| x in deals && y in deals && x != y {
      DealsMembers(rows, s, |rows|, x);
      DealsMembers(rows, s, |rows|, y);
      var i :| IsPricedLine(rows, s, i) && rows[i].purchase == x;
      var j :| IsPricedLine(rows, s, j) && rows[j].purchase == y;
      assert TwoDeals(rows, s);
    }
    if TwoDeals(rows, s) {
      var i, j :| IsPricedLine(rows, s, i) && IsPricedLine(rows, s, j) && rows[i].purchase != rows[j].purchase;
      DealsMembers(rows, s, |rows|, rows[i].purchase);
      DealsMembers(rows, s, |rows|, rows[j].purchase);
    }
  }

  // ----- the best supplier -----

  ghost function Bought(rows: seq<PriceRow>, s: Uuid): real {
    QtyOf(rows, s, |rows|)
  }

  ghost function Paid(rows: seq<PriceRow>, s: Uuid): real {
    AmountOf(rows, s, |rows|)
  }

  /** A supplier with two deals and a quantity to divide by. */
  ghost predicate Seasoned(rows: seq<PriceRow>, s: Uuid) {
    TwoDeals(rows, s) && Bought(rows, s) > 0.000000000001
  }

  /** a/q <= a'/q' without a quotient. */
  ghost predicate NoMorePerUnit(a: real, q: real, a': real, q': real) {
    a * q' <= a' * q
  }

  lemma QuotientsCompare(a: real, q: real, a': real, q': real)
    requires q > 0.0 && q' > 0.0
    ensures a / q <= a' / q' <==> NoMorePerUnit(a, q, a', q')
  {
    var x, y := a / q, a' / q';
    assert x * q == a && y * q' == a';
    assert a * q' == x * (q * q') by { assert x * q * q' == x * (q * q'); }
    assert a' * q == y * (q * q') by { assert y * q' * q == y * (q * q'); }
    var z := q * q';
    assert z > 0.0;
    ProductsCompare(x, y, z);
  }

  lemma ProductsCompare(x: real, y: real, z: real)
    requires z > 0.0
    ensures x <= y <==> x * z <= y * z
  {
    if x <= y {
      assert (y - x) * z >= 0.0;
    } else {
      assert (x - y) * z > 0.0;
    }
  }

  lemma NotCheaper(a: real, q: real, best: Uuid, a': real, q': real, s: Uuid)
    requires q > 0.0 && q' > 0.0 && !Cheaper((a' / q', s), (a / q, best))
    ensures NoMorePerUnit(a, q, a', q') && (NoMorePerUnit(a', q', a, q) ==> best <= s)
  {
    QuotientsCompare(a, q, a', q');
    QuotientsCompare(a', q', a, q);
  }

  lemma {:induction false} SeasonedQuotesIff(rows: seq<PriceRow>, s: Uuid)
    ensures SeasonedQuote(rows, s).Some? <==> Seasoned(rows, s)
    ensures Seasoned(rows, s) ==> SeasonedQuote(rows, s).value == (Paid(rows, s) / Bought(rows, s), s)
  {
    DealsAreTwoIff(rows, s);
  }

  /** A supplier with a priced line is listed. */
  lemma {:induction false} PricedIsListed(rows: seq<PriceRow>, s: Uuid, k: int) returns (i: nat)
    requires IsPricedLine(rows, s, k)
    ensures i < |LatestRows(rows, |rows|)| && LatestRows(rows, |rows|)[i].supplier == s
  {
    LatestFacts(rows, |rows|);
    assert Mentions(LatestRows(rows, |rows|), rows[k].supplier);
    i :| 0 <= i < |LatestRows(rows, |rows|)| && LatestRows(rows, |rows|)[i].supplier == s;
  }

  /** If any supplier is seasoned, the best one is, and none of them has a lower price per unit over everything
      bought; of equal ones it is the one with the smallest identifier. */
  lemma {:induction false} BestOfSeasoned(rows: seq<PriceRow>, some: Uuid)
    requires Seasoned(rows, some)
    ensures Best(rows).Some? && Seasoned(rows, Best(rows).value)
    ensures forall s: Uuid :: Seasoned(rows, s) ==>
              var best := Best(rows).value;
              && NoMorePerUnit(Paid(rows, best), Bought(rows, best), Paid(rows, s), Bought(rows, s))
              && (NoMorePerUnit(Paid(rows, s), Bought(rows, s), Paid(rows, best), Bought(rows, best)) ==> best <= s)
  {
    var latest := LatestRows(rows, |rows|);
    var quotes := SeasonedQuotes(rows, latest);
    BestIsCheapest(rows);
    var at := SeasonedIsListed(rows, some);
    assert quotes[at].Some? && SomeMade(quotes);
    var b :| 0 <= b < |quotes| && quotes[b].Some? && quotes[b].value.1 == Best(rows).value
             && forall i :: 0 <= i < |quotes| && quotes[i].Some? ==> !Cheaper(quotes[i].value, quotes[b].value);
    SeasonedQuotesIff(rows, latest[b].supplier);
    forall s: Uuid | Seasoned(rows, s)
      ensures var best := Best(rows).value;
              && NoMorePerUnit(Paid(rows, best), Bought(rows, best), Paid(rows, s), Bought(rows, s))
              && (NoMorePerUnit(Paid(rows, s), Bought(rows, s), Paid(rows, best), Bought(rows, best)) ==> best <= s)
    {
      var best := Best(rows).value;
      var i := SeasonedIsListed(rows, s);
      assert !Cheaper(quotes[i].value, quotes[b].value);
      NotCheaper(Paid(rows, best), Bought(rows, best), best, Paid(rows, s), Bought(rows, s), s);
    }
  }

  lemma {:induction false} SeasonedIsListed(rows: seq<PriceRow>, s: Uuid) returns (i: nat)
    requires Seasoned(rows, s)
    ensures i < |LatestRows(rows, |rows|)| && LatestRows(rows, |rows|)[i].supplier == s
    ensures SeasonedQuotes(rows, LatestRows(rows, |rows|))[i] == Some((Paid(rows, s) / Bought(rows, s), s))
  {
    var k, j :| IsPricedLine(rows, s, k) && IsPricedLine(rows, s, j) && rows[k].purchase != rows[j].purchase;
    i := PricedIsListed(rows, s, k);
    SeasonedQuotesIff(rows, s);
  }

  /** The k-th row is the first priced one of its supplier. */
  ghost predicate IsFirstPriced(rows: seq<PriceRow>, k: int) {
    && 0 <= k < |rows| && rows[k].landing.Some?
    && forall j :: 0 <= j < k ==> !IsPricedLine(rows, rows[k].supplier, j)
  }

  lemma {:induction false} LatestAreFirst(rows: seq<PriceRow>, i: nat) returns (k: nat)
    requires i < |LatestRows(rows, |rows|)|
    ensures IsFirstPriced(rows, k) && rows[k] == LatestRows(rows, |rows|)[i]
  {
    k := LatestIsFirst(rows, |rows|, i);
    LatestFacts(rows, |rows|);
    forall j | 0 <= j < k
      ensures !IsPricedLine(rows, rows[k].supplier, j)
    {
      assert !CountsFor(rows[j], rows[k].supplier);
    }
  }

  lemma {:induction false} FirstAreLatest(rows: seq<PriceRow>, k: int) returns (i: nat)
    requires IsFirstPriced(rows, k)
    ensures i < |LatestRows(rows, |rows|)| && LatestRows(rows, |rows|)[i] == rows[k]
  {
    i := PricedIsListed(rows, rows[k].supplier, k);
    var j := LatestAreFirst(rows, i);
    assert IsPricedLine(rows, rows[k].supplier, j) && IsPricedLine(rows, rows[j].supplier, k);
  }

  /** The k-th row is a supplier's first priced one, and no supplier has a cheaper one. */
  ghost predicate IsCheapestFirst(rows: seq<PriceRow>, k: int) {
    IsFirstPriced(rows, k)
    && forall j :: IsFirstPriced(rows, j) ==>
         || rows[k].landing.value < rows[j].landing.value
         || (rows[k].landing.value == rows[j].landing.value && rows[k].supplier <= rows[j].supplier)
  }

  lemma {:induction false} CheapestIsFirst(rows: seq<PriceRow>, s: Uuid) returns (k: nat)
    requires CheapestAmong(LatestQuotes(LatestRows(rows, |rows|)), s)
    ensures IsCheapestFirst(rows, k) && rows[k].supplier == s
  {
    var quotes := LatestQuotes(LatestRows(rows, |rows|));
    var b :| 0 <= b < |quotes| && quotes[b].Some? && quotes[b].value.1 == s
             && forall i :: 0 <= i < |quotes| && quotes[i].Some? ==> !Cheaper(quotes[i].value, quotes[b].value);
    k := LatestAreFirst(rows, b);
    forall j | IsFirstPriced(rows, j)
      ensures || rows[k].landing.value < rows[j].landing.value
              || (rows[k].landing.value == rows[j].landing.value && rows[k].supplier <= rows[j].supplier)
    {
      var i := FirstAreLatest(rows, j);
      assert !Cheaper(quotes[i].value, quotes[b].value);
    }
  }

  lemma {:induction false} NoneIsSeasoned(rows: seq<PriceRow>)
    requires forall s: Uuid :: !Seasoned(rows, s)
    ensures !SomeMade(SeasonedQuotes(rows, LatestRows(rows, |rows|)))
  {
    var latest := LatestRows(rows, |rows|);
    forall i | 0 <= i < |latest|
      ensures SeasonedQuotes(rows, latest)[i].None?
    {
      SeasonedQuotesIff(rows, latest[i].supplier);
    }
  }

  /** If none is, the best supplier is the one whose first priced row has the lowest price, of equal ones the one
      with the smallest identifier; without a priced row there is none. */
  lemma {:induction false} BestOfLatest(rows: seq<PriceRow>)
    requires forall s: Uuid :: !Seasoned(rows, s)
    ensures Best(rows).Some? <==> exists k :: IsFirstPriced(rows, k)
    ensures Best(rows).Some? ==> exists k :: IsCheapestFirst(rows, k) && rows[k].supplier == Best(rows).value
  {
    NoneIsSeasoned(rows);
    BestIsCheapest(rows);
    if k :| IsFirstPriced(rows, k) {
      var i := FirstAreLatest(rows, k);
    }
    if LatestRows(rows, |rows|) != [] {
      var k := CheapestIsFirst(rows, Best(rows).value);
      assert IsFirstPriced(rows, k);
    }
  }

  // ----- the entries -----

  /** The quantity bought from a supplier and the amount paid grow by its priced lines and by nothing else. */
  lemma {:induction false} TotalsGrow(rows: seq<PriceRow>, r: PriceRow, s: Uuid)
    ensures Bought([], s) == 0.0 && Paid([], s) == 0.0
    ensures Bought(rows + [r], s) == Bought(rows, s) + if r.supplier == s && r.landing.Some? then r.qty else 0.0
    ensures Paid(rows + [r], s) == Paid(rows, s) + if r.supplier == s && r.landing.Some? then r.amount else 0.0
  {
    TotalsPrefix(rows, [r], s, |rows|);
  }

  lemma {:induction false} TotalsPrefix(rows: seq<PriceRow>, more: seq<PriceRow>, s: Uuid, n: nat)
    requires n <= |rows|
    ensures QtyOf(rows + more, s, n) == QtyOf(rows, s, n) && AmountOf(rows + more, s, n) == AmountOf(rows, s, n)
  {
    if n > 0 {
      TotalsPrefix(rows, more, s, n - 1);
    }
  }

  /** The entry of a supplier shows its first priced row, how many purchases its priced lines come from, the price
      per unit over everything bought, if there is a quantity to divide by, and whether it is the best. */
  ghost predicate IsEntry(x: SupplierPrice, rows: seq<PriceRow>, k: int)
    requires IsFirstPriced(rows, k)
  {
    && x.supplier == rows[k].supplier && x.name == rows[k].name && x.landing == rows[k].landing.value
    && x.unit == rows[k].unit && x.date == rows[k].date
    && x.deals == |set j | 0 <= j < |rows| && IsPricedLine(rows, x.supplier, j) :: rows[j].purchase|
    && IsUnitPrice(x.vwap, Paid(rows, x.supplier), Bought(rows, x.supplier))
    && (x.isBest <==> Best(rows) == Some(x.supplier))
  }

  lemma {:induction false} DealsAre(rows: seq<PriceRow>, s: Uuid)
    ensures DealsOf(rows, s, |rows|) == set j | 0 <= j < |rows| && IsPricedLine(rows, s, j) :: rows[j].purchase
  {
    forall p: Uuid
      ensures p in DealsOf(rows, s, |rows|) <==> p in (set j | 0 <= j < |rows| && IsPricedLine(rows, s, j) :: rows[j].purchase)
    {
      DealsMembers(rows, s, |rows|, p);
    }
  }

  ghost predicate IsUnitPrice(price: Option<real>, paid: real, bought: real) {
    (price.Some? <==> bought > 0.000000000001) && (price.Some? ==> price.value * bought == paid)
  }

  lemma VwapIsUnitPrice(paid: real, bought: real)
    ensures IsUnitPrice(Vwap(paid, bought), paid, bought)
  {
    if bought > EPSILON {
      Quotient(paid, bought);
    }
  }

  lemma {:induction false} PricedIsEntry(rows: seq<PriceRow>, k: int)
    requires IsFirstPriced(rows, k)
    ensures IsEntry(Priced(rows, rows[k], Best(rows)), rows, k)
  {
    DealsAre(rows, rows[k].supplier);
    VwapIsUnitPrice(Paid(rows, rows[k].supplier), Bought(rows, rows[k].supplier));
  }

  lemma {:induction false} EntryFrom(rows: seq<PriceRow>, x: SupplierPrice) returns (i: nat)
    requires x in Report(rows)
    ensures i < |LatestRows(rows, |rows|)| && x == Priced(rows, LatestRows(rows, |rows|)[i], Best(rows))
  {
    ReportIsExact(rows);
    var priced := PricedAll(rows, LatestRows(rows, |rows|), Best(rows));
    assert x in priced;
    i :| 0 <= i < |priced| && priced[i] == x;
  }

  /** Every row of the report is such an entry. */
  lemma {:induction false} EntriesMean(rows: seq<PriceRow>, x: SupplierPrice) returns (k: nat)
    requires x in Report(rows)
    ensures IsFirstPriced(rows, k) && IsEntry(x, rows, k)
  {
    var i := EntryFrom(rows, x);
    k := LatestAreFirst(rows, i);
    PricedIsEntry(rows, k);
  }

  lemma Quotient(a: real, q: real)
    requires q > 0.0
    ensures a / q * q == a
  {
  }

  // ----- the last prices -----

  /** `at` are the places of the priced ones among the first n rows, in order, and `prices` their prices. */
  ghost predicate ArePrices(rows: seq<PriceRow>, prices: seq<real>, at: seq<nat>, n: nat)
    requires n <= |rows|
  {
    && |at| == |prices| && Increasing(at)
    && (forall i :: 0 <= i < |at| ==> at[i] < n && rows[at[i]].landing == Some(prices[i]))
    && (forall k :: 0 <= k < n && rows[k].landing.Some? ==> k in at)
  }

  lemma OneMorePrice(rows: seq<PriceRow>, prices: seq<real>, at: seq<nat>, n: nat)
    requires n < |rows| && ArePrices(rows, prices, at, n)
    ensures rows[n].landing.None? ==> ArePrices(rows, prices, at, n + 1)
    ensures rows[n].landing.Some? ==> ArePrices(rows, prices + [rows[n].landing.value], at + [n], n + 1)
  {
    if rows[n].landing.Some? {
      IncreasingAppend(at, n);
    }
  }

  /** The prices are those of the priced rows, each once and in order. */
  lemma {:induction false} LandingsAre(rows: seq<PriceRow>, n: nat) returns (at: seq<nat>)
    requires n <= |rows|
    ensures ArePrices(rows, Landings(rows, n), at, n)
  {
    if n == 0 {
      at := [];
    } else {
      at := LandingsAre(rows, n - 1);
      PricesStep(rows, n, at);
      if rows[n - 1].landing.Some? {
        at := at + [n - 1];
      }
    }
  }

  lemma {:induction false} PricesStep(rows: seq<PriceRow>, n: nat, at: seq<nat>)
    requires 0 < n <= |rows| && ArePrices(rows, Landings(rows, n - 1), at, n - 1)
    ensures ArePrices(rows, Landings(rows, n), if rows[n - 1].landing.Some? then at + [n - 1] else at, n)
  {
    var earlier := Landings(rows, n - 1);
    OneMorePrice(rows, earlier, at, n - 1);
    assert Landings(rows, n) == if rows[n - 1].landing.Some? then earlier + [rows[n - 1].landing.value] else earlier + [];
    assert earlier + [] == earlier;
  }

  /** At most five of them are shown, the first ones. */
  lemma FirstFiveAre(xs: seq<real>)
    ensures FirstFive(xs) <= xs && (|xs| <= 5 ==> FirstFive(xs) == xs) && (|xs| > 5 ==> |FirstFive(xs)| == 5)
  {
  }

  lemma {:induction false} SumAppends(a: seq<real>, b: seq<real>)
    ensures Sum(a + b) == Sum(a) + Sum(b)
  {
    if a == [] {
      assert a + b == b;
    } else {
      assert (a + b)[1..] == a[1..] + b;
      SumAppends(a[1..], b);
    }
  }

  /** The average price lies between any bounds of the prices, and equal prices have themselves as average. */
  lemma {:induction false} AverageBetween(xs: seq<real>, lo: real, hi: real)
    requires xs != [] && forall i :: 0 <= i < |xs| ==> lo <= xs[i] <= hi
    ensures lo <= Sum(xs) / |xs| as real <= hi
  {
    SumBetween(xs, lo, hi);
    var n := |xs| as real;
    assert Sum(xs) / n * n == Sum(xs);
    ProductsCompare(lo, Sum(xs) / n, n);
    ProductsCompare(Sum(xs) / n, hi, n);
  }

  lemma {:induction false} SumBetween(xs: seq<real>, lo: real, hi: real)
    requires forall i :: 0 <= i < |xs| ==> lo <= xs[i] <= hi
    ensures lo * |xs| as real <= Sum(xs) <= hi * |xs| as real
  {
    if xs != [] {
      SumBetween(xs[1..], lo, hi);
      assert lo <= xs[0] <= hi;
      OneMore(lo, |xs|);
      OneMore(hi, |xs|);
    }
  }

  lemma OneMore(x: real, n: nat)
    requires n > 0
    ensures x * n as real == x + x * (n - 1) as real
  {
  }

  // ----- the order -----

  /** The texts differ first at place k, where the first has the smaller character. */
  ghost predicate SmallerAt(a: string, b: string, k: int) {
    0 <= k < |a| && k < |b| && a[..k] == b[..k] && a[k] < b[k]
  }

  lemma SmallerLater(a: string, b: string, k: nat)
    requires a != "" && b != "" && a[0] == b[0]
    ensures SmallerAt(a[1..], b[1..], k) <==> SmallerAt(a, b, k + 1)
  {
    if k + 1 <= |a| && k + 1 <= |b| {
      assert a[..k + 1] == [a[0]] + a[1..][..k] && b[..k + 1] == [b[0]] + b[1..][..k];
      assert a[..k + 1][1..] == a[1..][..k] && b[..k + 1][1..] == b[1..][..k];
    }
  }

  lemma SmallerAtStart(a: string, b: string, k: int)
    requires SmallerAt(a, b, k) && k > 0
    ensures a != "" && b != "" && a[0] == b[0]
  {
    assert a[0] == a[..k][0] && b[0] == b[..k][0];
  }

  lemma {:induction false} BeforeIsSmaller(a: string, b: string)
    requires TextBefore(a, b)
    ensures (a != b && a <= b) || exists k :: SmallerAt(a, b, k)
  {
    if a != "" && a[0] == b[0] {
      BeforeIsSmaller(a[1..], b[1..]);
      if k :| SmallerAt(a[1..], b[1..], k) {
        SmallerLater(a, b, k);
      } else {
        assert a == [a[0]] + a[1..] && b == [b[0]] + b[1..];
      }
    } else if a != "" {
      assert a[..0] == b[..0] && SmallerAt(a, b, 0);
    }
  }

  lemma {:induction false} SmallerIsBefore(a: string, b: string, k: int)
    requires (a != b && a <= b) || SmallerAt(a, b, k)
    ensures TextBefore(a, b)
  {
    if a != "" && (a != b && a <= b) {
      assert a == [a[0]] + a[1..] && b == [b[0]] + b[1..];
      SmallerIsBefore(a[1..], b[1..], -1);
    } else if a != "" && k > 0 {
      SmallerAtStart(a, b, k);
      SmallerLater(a, b, k - 1);
      SmallerIsBefore(a[1..], b[1..], k - 1);
    }
  }

  /** One text comes before another exactly when it is a proper beginning of it, or has the smaller character at
      the first place where they differ. */
  lemma {:induction false} TextBeforeIff(a: string, b: string)
    ensures TextBefore(a, b) <==> (a != b && a <= b) || exists k :: SmallerAt(a, b, k)
  {
    if TextBefore(a, b) {
      BeforeIsSmaller(a, b);
    } else if a != b && a <= b {
      SmallerIsBefore(a, b, -1);
    } else if k :| SmallerAt(a, b, k) {
      SmallerIsBefore(a, b, k);
    }
  }

  lemma {:induction false} TextBetween(a: string, b: string, c: string)
    requires TextBefore(a, c)
    ensures TextBefore(a, b) || TextBefore(b, c)
    ensures !TextBefore(c, a)
  {
    if a != "" && b != "" && a[0] == b[0] && TextBefore(a[1..], c[1..]) && a[0] == c[0] {
      TextBetween(a[1..], b[1..], c[1..]);
    } else if a != "" && a[0] == c[0] {
      TextBetween(a[1..], "", c[1..]);
    }
  }

  lemma DisplayBetween(a: SupplierPrice, b: SupplierPrice, c: SupplierPrice)
    requires ForDisplay(a, c)
    ensures ForDisplay(a, b) || ForDisplay(b, c)
    ensures !ForDisplay(c, a)
  {
    if a.isBest == c.isBest && a.landing == c.landing {
      TextBetween(a.name, b.name, c.name);
    }
  }

  /** The order of the report: the best first, then by price, then by name, then by identifier. */
  ghost predicate Precedes(a: SupplierPrice, b: SupplierPrice) {
    if a.isBest != b.isBest then a.isBest
    else if a.landing != b.landing then a.landing < b.landing
    else TextBefore(a.name, b.name) || (!TextBefore(b.name, a.name) && a.supplier < b.supplier)
  }

  ghost predicate InReportOrder(xs: seq<SupplierPrice>) {
    xs == [] || ((forall y :: y in xs[1..] ==> Precedes(xs[0], y)) && InReportOrder(xs[1..]))
  }

  ghost predicate InPriceOrder(xs: seq<SupplierPrice>) {
    xs == [] || ((forall y :: y in xs[1..] ==> ByPrice(xs[0], y)) && InPriceOrder(xs[1..]))
  }

  lemma {:induction false} InsertByPrice(x: SupplierPrice, xs: seq<SupplierPrice>)
    requires InPriceOrder(xs) && forall y :: y in xs ==> y.supplier != x.supplier
    ensures InPriceOrder(InsertBy(x, xs, ByPrice))
  {
    if xs == [] || !ByPrice(xs[0], x) {
      assert ([x] + xs)[1..] == xs;
      assert xs != [] ==> xs == [xs[0]] + xs[1..];
    } else {
      InsertByPrice(x, xs[1..]);
      InsertMembers(x, xs[1..], ByPrice);
      assert InsertBy(x, xs, ByPrice)[1..] == InsertBy(x, xs[1..], ByPrice);
    }
  }

  lemma {:induction false} SortedByPrice(xs: seq<SupplierPrice>)
    requires DistinctSuppliers(xs)
    ensures InPriceOrder(SortBy(xs, ByPrice))
  {
    if xs != [] {
      SortedByPrice(xs[1..]);
      SortMembers(xs[1..], ByPrice);
      InsertByPrice(xs[0], SortBy(xs[1..], ByPrice));
    }
  }

  /** A row that comes earlier by price goes before those that the display order does not tell from it. */
  lemma {:induction false} InsertForDisplay(x: SupplierPrice, xs: seq<SupplierPrice>)
    requires InReportOrder(xs) && forall y :: y in xs ==> ByPrice(x, y)
    ensures InReportOrder(InsertBy(x, xs, ForDisplay))
  {
    if xs == [] || !ForDisplay(xs[0], x) {
      assert ([x] + xs)[1..] == xs;
      forall y | y in xs
        ensures Precedes(x, y)
      {
        assert xs == [xs[0]] + xs[1..];
        if ForDisplay(y, x) {
          DisplayBetween(y, xs[0], x);
          DisplayBetween(y, y, xs[0]);
        }
      }
    } else {
      InsertForDisplay(x, xs[1..]);
      InsertMembers(x, xs[1..], ForDisplay);
      assert InsertBy(x, xs, ForDisplay)[1..] == InsertBy(x, xs[1..], ForDisplay);
    }
  }

  lemma {:induction false} SortedForDisplay(xs: seq<SupplierPrice>)
    requires InPriceOrder(xs)
    ensures InReportOrder(SortBy(xs, ForDisplay))
  {
    if xs != [] {
      SortedForDisplay(xs[1..]);
      SortMembers(xs[1..], ForDisplay);
      InsertForDisplay(xs[0], SortBy(xs[1..], ForDisplay));
    }
  }

  /** The report is in that order: two sorts, the second of which keeps what the first has decided. */
  lemma {:induction false} ReportIsOrdered(rows: seq<PriceRow>)
    ensures InReportOrder(Report(rows))
  {
    var latest := LatestRows(rows, |rows|);
    LatestFacts(rows, |rows|);
    PricedDistinct(rows, latest, Best(rows));
    SortedByPrice(PricedAll(rows, latest, Best(rows)));
    SortedForDisplay(SortBy(PricedAll(rows, latest, Best(rows)), ByPrice));
  }
}
