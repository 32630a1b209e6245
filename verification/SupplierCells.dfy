/** What the supplier import makes of the cells of a row, and which rows it takes for duplicates, in terms of the
    texts. */
module SupplierCells {
  import opened Numerals
  import opened Options
  import opened SupplierImport
  import opened SupplierImportTheorems
  import opened Texts

  // ----- phones -----

  lemma Reassociated(x: string, y: string, z: string)
    ensures x + (y + z) == (x + y) + z
  {
  }

  lemma {:induction false} DigitsAppend(a: string, b: string)
    ensures Digits(a + b) == Digits(a) + Digits(b)
  {
    if a == "" {
      assert a + b == b;
    } else {
      assert (a + b)[1..] == a[1..] + b && (a + b)[0] == a[0];
      DigitsAppend(a[1..], b);
      Reassociated(if IsDecimalDigit(a[0]) then [a[0]] else "", Digits(a[1..]), Digits(b));
    }
  }

  /** A text of digits is all digits, and any other character counts for nothing. */
  lemma {:induction false} DigitsKept(s: string, c: char)
    requires forall i :: 0 <= i < |s| ==> '0' <= s[i] <= '9'
    ensures Digits(s) == s
    ensures !('0' <= c <= '9') ==> Digits([c]) == ""
  {
    if s != "" {
      DigitsKept(s[1..], c);
    }
    assert [c][1..] == "";
  }

  /** The last ten digits decide: whatever stands before a full number, a country code say, is ignored. */
  lemma {:induction false} TailIgnoresPrefix(before: string, s: string)
    requires |Digits(s)| >= 10
    ensures DigitsTail10(before + s) == DigitsTail10(s) && |DigitsTail10(s)| == 10
  {
    DigitsAppend(before, s);
    var d, e := Digits(before + s), Digits(s);
    assert d == Digits(before) + e;
    assert d[|d| - 10..] == e[|e| - 10..];
  }

  /** Ten digits are kept as they are, and so are fewer. */
  lemma {:induction false} TailOfFew(s: string)
    requires |s| <= 10 && forall i :: 0 <= i < |s| ==> '0' <= s[i] <= '9'
    ensures DigitsTail10(s) == s
  {
    DigitsKept(s, 'x');
    assert s[|s| - |s|..] == s;
  }

  /** A cell without a dialable part is kept, squeezed, unless nothing would be left of it. */
  lemma {:induction false} OtherPhonesAreKept(raw: string)
    requires FirstDialable(raw, "").None?
    ensures Squeeze(raw) == "" ==> FirstPhone(raw).None?
    ensures Squeeze(raw) != "" ==> FirstPhone(raw) == Some(Squeeze(raw))
  {
  }

  // ----- what is stored -----

  /** `stored` is the text, cut to the width of its column. */
  ghost predicate FitsColumn(stored: string, text: string, width: nat) {
    stored <= text && |stored| == if |text| < width then |text| else width
  }

  /** The row that a record becomes: its stripped name and its phone, each cut to its column, and its tax number
      in capitals if that has fifteen characters. */
  lemma {:induction false} StoredRow(business: Uuid, rec: Record)
    ensures var row, gst := RowOf(business, CandidateOf(rec)), Upper(Strip(rec.gstin));
            && row.business == business && FitsColumn(row.name, Strip(rec.name), 255)
            && (row.phone.Some? <==> FirstPhone(rec.phones).Some?)
            && (row.phone.Some? ==> FitsColumn(row.phone.value, FirstPhone(rec.phones).value, 32))
            && row.gst == (if |gst| == 15 then Some(gst) else None)
  {
  }

  // ----- repetitions in the file -----

  lemma {:induction false} SeenGrows(p: Progress, business: Uuid, cs: seq<Candidate>, m: nat, n: nat)
    requires m <= n <= |cs| && AfterCandidates(p, business, cs, n).Some?
    ensures AfterCandidates(p, business, cs, m).Some?
    ensures AfterCandidates(p, business, cs, m).value.seen <= AfterCandidates(p, business, cs, n).value.seen
  {
    if m < n {
      SeenGrows(p, business, cs, m, n - 1);
    }
  }

  lemma {:induction false} SameKeyIsSkipped(p: Progress, business: Uuid, cs: seq<Candidate>, i: nat, j: nat)
    requires i < j < |cs| && cs[i].named && cs[j].named && cs[i].fileKey == cs[j].fileKey
    requires AfterCandidates(p, business, cs, j).Some?
    ensures var before, after := AfterCandidates(p, business, cs, j), AfterCandidates(p, business, cs, j + 1);
            after.Some? && after.value.rows == before.value.rows && after.value.stats.skipped == before.value.stats.skipped + 1
  {
    SeenGrows(p, business, cs, i + 1, j);
    SeenGrows(p, business, cs, i, j);
    var earlier := AfterCandidates(p, business, cs, i).value;
    var m := i + 1;
    assert AfterCandidates(p, business, cs, m) == AfterCandidate(earlier, business, cs[i]);
    assert cs[i].fileKey in AfterCandidates(p, business, cs, m).value.seen;
  }

  lemma {:induction false} SameKey(a: Record, b: Record)
    requires Strip(a.name) != "" && Lower(Strip(a.name)) == Lower(Strip(b.name))
    requires PhoneKey(FirstPhone(a.phones)) == PhoneKey(FirstPhone(b.phones))
    ensures CandidateOf(a).named && CandidateOf(b).named && CandidateOf(a).fileKey == CandidateOf(b).fileKey
  {
    assert |Lower(Strip(b.name))| == |Strip(b.name)| && |Lower(Strip(a.name))| == |Strip(a.name)|;
  }

  /** A row that repeats the name of an earlier row of the file, letter case and outer white space aside, with the
      same last ten digits of its phone, is skipped whatever the table holds. */
  lemma {:induction false} RepeatedIsSkipped(rows: seq<Supplier>, business: Uuid, recs: seq<Record>, i: nat, j: nat)
    requires i < j < |recs| && Strip(recs[i].name) != ""
    requires Lower(Strip(recs[i].name)) == Lower(Strip(recs[j].name))
    requires PhoneKey(FirstPhone(recs[i].phones)) == PhoneKey(FirstPhone(recs[j].phones))
    requires AfterCandidates(Start(rows), business, Candidates(recs), j).Some?
    ensures var before, after := AfterCandidates(Start(rows), business, Candidates(recs), j), AfterCandidates(Start(rows), business, Candidates(recs), j + 1);
            after.Some? && after.value.rows == before.value.rows && after.value.stats.skipped == before.value.stats.skipped + 1
  {
    SameKey(recs[i], recs[j]);
    SameKeyIsSkipped(Start(rows), business, Candidates(recs), i, j);
  }

  /** A row without a name is bad and does nothing else; a named row that is new to the file and to the table is
      added at the end and counted as inserted. */
  lemma NewRowIsInserted(p: Progress, business: Uuid, rec: Record)
    ensures var c := CandidateOf(rec); var after := AfterCandidate(p, business, c);
            && (Strip(rec.name) == "" ==> after == Some(p.(stats := p.stats.(bad := p.stats.bad + 1))))
            && (Strip(rec.name) != "" && (Lower(Strip(rec.name)), PhoneKey(FirstPhone(rec.phones))) !in p.seen && Judge(p.rows, business, c).Fresh? ==>
                  after.Some? && after.value.rows == p.rows + [RowOf(business, c)] && after.value.stats == p.stats.(inserted := p.stats.inserted + 1))
  {
  }

  // ----- duplicates in the table -----

  /** The rows of one business. */
  ghost function Own(rows: seq<Supplier>, business: Uuid): seq<Supplier> {
    if rows == [] then []
    else Own(rows[..|rows| - 1], business) + if rows[|rows| - 1].business == business then [rows[|rows| - 1]] else []
  }

  lemma {:induction false} OwnMembers(rows: seq<Supplier>, business: Uuid)
    ensures forall r :: r in Own(rows, business) <==> r in rows && r.business == business
  {
    if rows != [] {
      OwnMembers(rows[..|rows| - 1], business);
      assert rows == rows[..|rows| - 1] + [rows[|rows| - 1]];
    }
  }

  lemma {:induction false} OwnGst(rows: seq<Supplier>, business: Uuid, gst: string)
    ensures GstCount(Own(rows, business), business, gst, |Own(rows, business)|) == GstCount(rows, business, gst, |rows|)
  {
    if rows != [] {
      var last, own := rows[|rows| - 1], Own(rows[..|rows| - 1], business);
      OwnGst(rows[..|rows| - 1], business, gst);
      assert rows == rows[..|rows| - 1] + [last];
      GstCountAppend(rows[..|rows| - 1], last, business, gst);
      if last.business == business {
        GstCountAppend(own, last, business, gst);
        assert Own(rows, business) == own + [last];
      } else {
        assert Own(rows, business) == own + [] == own;
      }
    }
  }

  /** Rows of other businesses have no say. */
  lemma {:induction false} OthersHaveNoSay(rows: seq<Supplier>, business: Uuid, c: Candidate)
    ensures Judge(Own(rows, business), business, c) == Judge(rows, business, c)
  {
    if c.gst.Some? {
      OwnGst(rows, business, c.gst.value);
    }
    OwnMembers(rows, business);
    if Matched(rows, business, c) {
      var k :| 0 <= k < |rows| && Matches(rows[k], business, c);
      assert rows[k] in Own(rows, business);
      var j :| 0 <= j < |Own(rows, business)| && Own(rows, business)[j] == rows[k];
      assert Matches(Own(rows, business)[j], business, c);
    }
    if Matched(Own(rows, business), business, c) {
      var k :| 0 <= k < |Own(rows, business)| && Matches(Own(rows, business)[k], business, c);
      assert Own(rows, business)[k] in rows;
      var j :| 0 <= j < |rows| && rows[j] == Own(rows, business)[k];
      assert Matches(rows[j], business, c);
    }
  }

  lemma {:induction false} GstIsThere(rows: seq<Supplier>, business: Uuid, gst: string, n: nat)
    requires n <= |rows|
    ensures GstCount(rows, business, gst, n) > 0 <==> exists k :: 0 <= k < n && rows[k].business == business && rows[k].gst == Some(gst)
  {
    if n > 0 {
      GstIsThere(rows, business, gst, n - 1);
    }
  }

  /** The same name, white space and letter case aside, and the same last ten digits. */
  ghost predicate SameSupplier(row: Supplier, business: Uuid, name: string, phone: Option<string>) {
    && row.business == business && Lower(row.name) == Squeeze(Lower(Strip(name)))
    && (if row.phone.Some? then DigitsTail10(row.phone.value) else "") == if phone.Some? then DigitsTail10(phone.value) else ""
  }

  /** On a table that holds no tax number twice a record is a duplicate if and only if some row of the business
      has its tax number, or has its name and phone. */
  lemma {:induction false} DuplicateIff(rows: seq<Supplier>, business: Uuid, rec: Record)
    requires GstUnique(rows, business) && Squeeze(Lower(Strip(Strip(rec.name)))) != ""
    ensures var c := CandidateOf(rec);
            Judge(rows, business, c).Duplicate?
            <==> || (c.gst.Some? && exists k :: 0 <= k < |rows| && rows[k].business == business && rows[k].gst == c.gst)
                 || exists k :: 0 <= k < |rows| && SameSupplier(rows[k], business, Strip(rec.name), FirstPhone(rec.phones))
  {
    var c := CandidateOf(rec);
    if c.gst.Some? {
      GstIsThere(rows, business, c.gst.value, |rows|);
      assert GstCount(rows, business, c.gst.value, |rows|) <= 1;
    }
    forall k | 0 <= k < |rows|
      ensures Matches(rows[k], business, c) <==> SameSupplier(rows[k], business, Strip(rec.name), FirstPhone(rec.phones))
    {
    }
  }
}
