/** What the supplier import keeps, and when importing a file again inserts nothing. */
module SupplierImportTheorems {
  import opened Numerals
  import opened Options
  import opened SupplierImport
  import opened Texts

  // ----- cells -----

  /** The phone of a cell is its first separated part with at least ten digits: such a part wins over
      everything behind it, and a part with fewer digits is passed over. */
  lemma {:induction false} FirstDialablePart(part: string, separator: char, rest: string, before: string)
    requires separator in ",;/\n" && forall i :: 0 <= i < |part| ==> part[i] !in ",;/\n"
    ensures FirstDialable(part + [separator] + rest, before)
            == if |DigitsTail10(Squeeze(before + part))| >= 10 then Some(Squeeze(before + part)) else FirstDialable(rest, "")
    decreases |part|
  {
    var all := part + [separator] + rest;
    if part == "" {
      assert before + part == before && all[0] == separator && all[1..] == rest;
    } else {
      assert all[0] == part[0] && all[1..] == part[1..] + [separator] + rest;
      assert before + [part[0]] + part[1..] == before + part;
      FirstDialablePart(part[1..], separator, rest, before + [part[0]]);
    }
  }

  // ----- one import -----

  /** Every row of the file is counted once, and the table grows by the inserted rows at its end. */
  lemma {:induction false} StatsAddUp(p: Progress, business: Uuid, cs: seq<Candidate>, n: nat)
    requires n <= |cs| && AfterCandidates(p, business, cs, n).Some?
    ensures var q := AfterCandidates(p, business, cs, n).value;
            && q.stats.inserted + q.stats.skipped + q.stats.bad == p.stats.inserted + p.stats.skipped + p.stats.bad + n
            && p.rows <= q.rows && |q.rows| == |p.rows| + q.stats.inserted - p.stats.inserted
  {
    if n > 0 {
      StatsAddUp(p, business, cs, n - 1);
      StepStats(AfterCandidates(p, business, cs, n - 1).value, business, cs[n - 1]);
    }
  }

  lemma StepStats(p: Progress, business: Uuid, c: Candidate)
    requires AfterCandidate(p, business, c).Some?
    ensures var q := AfterCandidate(p, business, c).value;
            && q.stats.inserted + q.stats.skipped + q.stats.bad == p.stats.inserted + p.stats.skipped + p.stats.bad + 1
            && p.rows <= q.rows && |q.rows| == |p.rows| + q.stats.inserted - p.stats.inserted
  {
  }

  // ----- GST numbers -----

  /** No GST number occurs twice in the business. */
  ghost predicate GstUnique(rows: seq<Supplier>, business: Uuid) {
    forall gst: string :: GstCount(rows, business, gst, |rows|) <= 1
  }

  lemma {:induction false} GstCountPrefix(rows: seq<Supplier>, more: seq<Supplier>, business: Uuid, gst: string, n: nat)
    requires n <= |rows|
    ensures GstCount(rows + more, business, gst, n) == GstCount(rows, business, gst, n)
  {
    if n > 0 {
      GstCountPrefix(rows, more, business, gst, n - 1);
    }
  }

  lemma {:induction false} GstCountAppend(rows: seq<Supplier>, row: Supplier, business: Uuid, gst: string)
    ensures GstCount(rows + [row], business, gst, |rows| + 1)
         == GstCount(rows, business, gst, |rows|) + if HasGst(row, business, gst) then 1 else 0
  {
    GstCountPrefix(rows, [row], business, gst, |rows|);
  }

  /** On a table where no GST number occurs twice no lookup fails, and the import keeps it so. */
  lemma {:induction false} ImportKeepsGstUnique(p: Progress, business: Uuid, cs: seq<Candidate>, n: nat)
    requires n <= |cs| && GstUnique(p.rows, business)
    ensures AfterCandidates(p, business, cs, n).Some? && GstUnique(AfterCandidates(p, business, cs, n).value.rows, business)
  {
    if n > 0 {
      ImportKeepsGstUnique(p, business, cs, n - 1);
      StepKeepsGstUnique(AfterCandidates(p, business, cs, n - 1).value, business, cs[n - 1]);
    }
  }

  lemma StepKeepsGstUnique(p: Progress, business: Uuid, c: Candidate)
    requires GstUnique(p.rows, business)
    ensures AfterCandidate(p, business, c).Some? && GstUnique(AfterCandidate(p, business, c).value.rows, business)
  {
    assert c.gst.Some? ==> GstCount(p.rows, business, c.gst.value, |p.rows|) <= 1;
    var q := AfterCandidate(p, business, c).value;
    if q.rows != p.rows {
      forall gst: string
        ensures GstCount(q.rows, business, gst, |q.rows|) <= 1
      {
        GstCountAppend(p.rows, RowOf(business, c), business, gst);
      }
    }
  }

  // ----- importing again -----

  lemma {:induction false} GstCountGrows(rows: seq<Supplier>, longer: seq<Supplier>, business: Uuid, gst: string, n: nat)
    requires rows <= longer && |rows| <= n <= |longer|
    ensures GstCount(longer, business, gst, n) >= GstCount(rows, business, gst, |rows|)
  {
    if n > |rows| {
      GstCountGrows(rows, longer, business, gst, n - 1);
    } else {
      assert longer == rows + longer[|rows|..];
      GstCountPrefix(rows, longer[|rows|..], business, gst, |rows|);
    }
  }

  /** A duplicate stays a duplicate when the table grows. */
  lemma JudgeMonotone(rows: seq<Supplier>, longer: seq<Supplier>, business: Uuid, c: Candidate)
    requires rows <= longer && GstUnique(longer, business) && Judge(rows, business, c).Duplicate?
    ensures Judge(longer, business, c).Duplicate?
  {
    if c.gst.Some? {
      GstCountGrows(rows, longer, business, c.gst.value, |longer|);
      assert GstCount(longer, business, c.gst.value, |longer|) <= 1;
    }
    if Matched(rows, business, c) {
      var k :| 0 <= k < |rows| && Matches(rows[k], business, c);
      assert Matches(longer[k], business, c);
    }
  }

  /** The row that a candidate becomes is found again by its lookup. */
  predicate SelfDetecting(business: Uuid, c: Candidate) {
    c.gst.Some? || Matches(RowOf(business, c), business, c)
  }

  lemma {:induction false} GstPresent(rows: seq<Supplier>, business: Uuid, gst: string, n: nat, k: nat)
    requires k < n <= |rows| && HasGst(rows[k], business, gst)
    ensures GstCount(rows, business, gst, n) >= 1
  {
    if k < n - 1 {
      GstPresent(rows, business, gst, n - 1, k);
    }
  }

  lemma InsertedIsFound(rows: seq<Supplier>, business: Uuid, c: Candidate, k: nat)
    requires GstUnique(rows, business) && k < |rows| && rows[k] == RowOf(business, c) && SelfDetecting(business, c)
    ensures Judge(rows, business, c).Duplicate?
  {
    if c.gst.Some? {
      GstPresent(rows, business, c.gst.value, |rows|, k);
      assert GstCount(rows, business, c.gst.value, |rows|) <= 1;
    } else {
      assert Matches(rows[k], business, c);
    }
  }

  lemma {:induction false} RowsGrow(p: Progress, business: Uuid, cs: seq<Candidate>, n: nat, m: nat)
    requires n <= m <= |cs| && AfterCandidates(p, business, cs, m).Some?
    ensures AfterCandidates(p, business, cs, n).Some?
    ensures AfterCandidates(p, business, cs, n).value.rows <= AfterCandidates(p, business, cs, m).value.rows
  {
    if n < m {
      RowsGrow(p, business, cs, n, m - 1);
      StepStats(AfterCandidates(p, business, cs, m - 1).value, business, cs[m - 1]);
    }
  }

  /** The candidate adds a row to the table. */
  predicate Inserts(p: Progress, business: Uuid, c: Candidate) {
    c.named && c.fileKey !in p.seen && Judge(p.rows, business, c).Fresh?
  }

  /** Every row that the first n candidates added is found by the lookup of its candidate in the table that
      the whole import has left. */
  ghost predicate AddedAreFound(rows: seq<Supplier>, business: Uuid, cs: seq<Candidate>, final: seq<Supplier>, n: nat)
    requires n <= |cs|
  {
    n == 0 || (AddedAreFound(rows, business, cs, final, n - 1) && AddedIsFound(rows, business, cs, final, n - 1))
  }

  ghost predicate AddedIsFound(rows: seq<Supplier>, business: Uuid, cs: seq<Candidate>, final: seq<Supplier>, k: nat)
    requires k < |cs|
  {
    var p := AfterCandidates(Start(rows), business, cs, k);
    p.Some? && Inserts(p.value, business, cs[k]) ==> Judge(final, business, cs[k]).Duplicate?
  }

  /** The second run inserts nothing as long as the added rows are found, and then marks the same keys. */
  lemma {:induction false} SecondRun(rows: seq<Supplier>, business: Uuid, cs: seq<Candidate>, final: seq<Supplier>, n: nat)
    requires n <= |cs| && GstUnique(rows, business) && GstUnique(final, business)
    requires AfterCandidates(Start(rows), business, cs, |cs|).Some? && AfterCandidates(Start(rows), business, cs, |cs|).value.rows == final
    ensures var first, second := AfterCandidates(Start(rows), business, cs, n), AfterCandidates(Start(final), business, cs, n);
            && first.Some? && second.Some?
            && (second.value.stats.inserted == 0 <==> AddedAreFound(rows, business, cs, final, n))
            && (second.value.stats.inserted == 0 ==> second.value.rows == final && second.value.seen == first.value.seen)
  {
    if n > 0 {
      SecondRun(rows, business, cs, final, n - 1);
      SecondSetting(rows, business, cs, final, n - 1);
      SecondStep(AfterCandidates(Start(rows), business, cs, n - 1).value, AfterCandidates(Start(final), business, cs, n - 1).value,
                 final, business, cs[n - 1]);
    }
  }

  lemma {:induction false} SecondSetting(rows: seq<Supplier>, business: Uuid, cs: seq<Candidate>, final: seq<Supplier>, n: nat)
    requires n < |cs| && GstUnique(final, business)
    requires AfterCandidates(Start(rows), business, cs, |cs|).Some? && AfterCandidates(Start(rows), business, cs, |cs|).value.rows == final
    ensures var first, second := AfterCandidates(Start(rows), business, cs, n), AfterCandidates(Start(final), business, cs, n);
            && first.Some? && second.Some? && first.value.rows <= final && GstUnique(second.value.rows, business)
            && AfterCandidate(second.value, business, cs[n]).Some?
            && AfterCandidate(first.value, business, cs[n]).Some? && AfterCandidate(first.value, business, cs[n]).value.rows <= final
  {
    var m := n + 1;
    RowsGrow(Start(rows), business, cs, n, |cs|);
    RowsGrow(Start(rows), business, cs, m, |cs|);
    assert AfterCandidates(Start(rows), business, cs, m) == AfterCandidate(AfterCandidates(Start(rows), business, cs, n).value, business, cs[n]);
    ImportKeepsGstUnique(Start(final), business, cs, n);
    StepKeepsGstUnique(AfterCandidates(Start(final), business, cs, n).value, business, cs[n]);
  }

  lemma SecondStep(p: Progress, q: Progress, final: seq<Supplier>, business: Uuid, c: Candidate)
    requires GstUnique(final, business) && GstUnique(q.rows, business)
    requires AfterCandidate(p, business, c).Some? && AfterCandidate(q, business, c).Some?
    requires AfterCandidate(p, business, c).value.rows <= final && p.rows <= final
    requires q.stats.inserted == 0 ==> q.rows == final && q.seen == p.seen
    ensures var q' := AfterCandidate(q, business, c).value;
            && (q'.stats.inserted == 0 <==> q.stats.inserted == 0 && (Inserts(p, business, c) ==> Judge(final, business, c).Duplicate?))
            && (q'.stats.inserted == 0 ==> q'.rows == final && q'.seen == AfterCandidate(p, business, c).value.seen)
  {
    if q.stats.inserted == 0 && Judge(p.rows, business, c).Duplicate? {
      JudgeMonotone(p.rows, final, business, c);
    }
  }

  /** Where no GST number occurs twice, importing the same file again inserts nothing if and only if the
      lookup of every row that was added finds some row of the table that the first import has left. */
  lemma {:induction false} ReimportInsertsNothingIff(rows: seq<Supplier>, business: Uuid, recs: seq<Record>)
    requires GstUnique(rows, business)
    ensures Imported(rows, business, recs).Some?
    ensures var once := Imported(rows, business, recs).value.rows;
            var again := Imported(once, business, recs);
            && again.Some?
            && (again.value.stats.inserted == 0 <==> AddedAreFound(rows, business, Candidates(recs), once, |recs|))
            && (again.value.stats.inserted == 0 ==> again.value.rows == once)
  {
    var cs := Candidates(recs);
    ImportKeepsGstUnique(Start(rows), business, cs, |cs|);
    SecondRun(rows, business, cs, Imported(rows, business, recs).value.rows, |cs|);
  }

  ghost predicate AllSelfDetecting(business: Uuid, cs: seq<Candidate>) {
    forall k :: 0 <= k < |cs| && cs[k].named ==> SelfDetecting(business, cs[k])
  }

  /** In particular when every named row of the file finds the table row that it would become. */
  lemma ReimportInsertsNothing(rows: seq<Supplier>, business: Uuid, recs: seq<Record>)
    requires GstUnique(rows, business) && AllSelfDetecting(business, Candidates(recs))
    ensures Imported(rows, business, recs).Some?
    ensures var once := Imported(rows, business, recs).value.rows;
            var again := Imported(once, business, recs);
            again.Some? && again.value.rows == once && again.value.stats.inserted == 0
  {
    var cs := Candidates(recs);
    ReimportInsertsNothingIff(rows, business, recs);
    ImportKeepsGstUnique(Start(rows), business, cs, |cs|);
    SelfDetectingFound(rows, business, cs, Imported(rows, business, recs).value.rows, |cs|);
  }

  lemma {:induction false} SelfDetectingFound(rows: seq<Supplier>, business: Uuid, cs: seq<Candidate>, final: seq<Supplier>, n: nat)
    requires n <= |cs| && GstUnique(final, business) && AllSelfDetecting(business, cs)
    requires AfterCandidates(Start(rows), business, cs, |cs|).Some? && AfterCandidates(Start(rows), business, cs, |cs|).value.rows == final
    ensures AddedAreFound(rows, business, cs, final, n)
  {
    if n > 0 {
      SelfDetectingFound(rows, business, cs, final, n - 1);
      SecondSetting(rows, business, cs, final, n - 1);
      AddedFindsItself(AfterCandidates(Start(rows), business, cs, n - 1).value, final, business, cs[n - 1]);
    }
  }

  lemma AddedFindsItself(p: Progress, final: seq<Supplier>, business: Uuid, c: Candidate)
    requires GstUnique(final, business) && (c.named ==> SelfDetecting(business, c))
    requires AfterCandidate(p, business, c).Some? && AfterCandidate(p, business, c).value.rows <= final
    ensures Inserts(p, business, c) ==> Judge(final, business, c).Duplicate?
  {
    if Inserts(p, business, c) {
      assert final[|p.rows|] == AfterCandidate(p, business, c).value.rows[|p.rows|];
      InsertedIsFound(final, business, c, |p.rows|);
    }
  }

  /** For a single row that is added, finding its own table row is also necessary. */
  lemma ReimportOfOneRowIff(rows: seq<Supplier>, business: Uuid, c: Candidate)
    requires GstUnique(rows, business) && Inserts(Start(rows), business, c)
    ensures Judge(rows + [RowOf(business, c)], business, c).Duplicate? <==> SelfDetecting(business, c)
  {
    StepKeepsGstUnique(Start(rows), business, c);
    if SelfDetecting(business, c) {
      InsertedIsFound(rows + [RowOf(business, c)], business, c, |rows|);
    } else {
      MatchedAppend(rows, RowOf(business, c), business, c);
    }
  }

  lemma {:induction false} MatchedAppend(rows: seq<Supplier>, row: Supplier, business: Uuid, c: Candidate)
    ensures Matched(rows + [row], business, c) ==> Matched(rows, business, c) || Matches(row, business, c)
  {
    var after := rows + [row];
    if Matched(after, business, c) {
      var k :| 0 <= k < |after| && Matches(after[k], business, c);
      assert k < |rows| ==> Matches(rows[k], business, c);
    }
  }

  // ----- which rows find themselves -----

  lemma {:induction false} SqueezedEnds(s: string)
    ensures Squeeze(s) != "" ==> !IsSpace(Squeeze(s)[0]) && !IsSpace(Squeeze(s)[|Squeeze(s)| - 1])
  {
    if s != "" {
      SqueezedEnds(s[1..]);
    }
  }

  /** A name that is single-spaced and fits its column, with a phone that fits its column, finds itself. */
  lemma {:induction false} TidyFindsItself(business: Uuid, name: string, phone: Option<string>, gst: Option<string>)
    requires Squeeze(name) == name && |name| <= 255 && (phone.Some? ==> |phone.value| <= 32)
    ensures SelfDetecting(business, Prepared(name, phone, gst))
  {
    TidyName(name);
  }

  lemma {:induction false} TidyName(name: string)
    requires Squeeze(name) == name
    ensures NormName(name) == Lower(name)
  {
    SqueezedEnds(name);
    assert Strip(name) == name;
    SqueezeLower(name);
  }

  /** A row of the file that the script's documentation has in mind: a GST number, or a single-spaced name
      and a phone that both fit their columns. */
  predicate Tidy(rec: Record) {
    || |Upper(Strip(rec.gstin))| == 15
    || (Squeeze(Strip(rec.name)) == Strip(rec.name) && |Strip(rec.name)| <= 255
        && (FirstPhone(rec.phones).Some? ==> |FirstPhone(rec.phones).value| <= 32))
  }

  /** Importing a file of such rows again inserts nothing. */
  lemma TidyFileIsImportedOnce(rows: seq<Supplier>, business: Uuid, recs: seq<Record>)
    requires GstUnique(rows, business) && forall k :: 0 <= k < |recs| ==> Tidy(recs[k])
    ensures Imported(rows, business, recs).Some?
    ensures var once := Imported(rows, business, recs).value.rows;
            var again := Imported(once, business, recs);
            again.Some? && again.value.rows == once && again.value.stats.inserted == 0
  {
    forall k | 0 <= k < |recs|
      ensures SelfDetecting(business, Candidates(recs)[k])
    {
      TidyRecord(business, recs[k]);
    }
    ReimportInsertsNothing(rows, business, recs);
  }

  lemma TidyRecord(business: Uuid, rec: Record)
    requires Tidy(rec)
    ensures SelfDetecting(business, CandidateOf(rec))
  {
    var gst := Upper(Strip(rec.gstin));
    if |gst| != 15 {
      TidyFindsItself(business, Strip(rec.name), FirstPhone(rec.phones), None);
    }
  }

  /** A name that is not single-spaced, with no GST number, never does: the table keeps its white space, the
      lookup looks for single spaces. */
  lemma {:induction false} UntidyNameIsNotFound(business: Uuid, name: string, phone: Option<string>)
    requires Strip(name) == name && Squeeze(name) != name && |name| <= 255
    ensures !SelfDetecting(business, Prepared(name, phone, None))
  {
    if Lower(name) == NormName(name) {
      SqueezeLower(name);
      SqueezedUpToCase(name);
    }
  }

  /** Such a row is inserted by every import: if the first import of the row inserts it, so does the second,
      although the script promises that it will not. */
  lemma {:induction false} UntidyRowIsInsertedAgain(rows: seq<Supplier>, business: Uuid, rec: Record)
    requires Squeeze(Strip(rec.name)) != Strip(rec.name) && |Strip(rec.name)| <= 255 && |Upper(Strip(rec.gstin))| != 15
    requires Imported(rows, business, [rec]).Some? && Imported(rows, business, [rec]).value.stats.inserted == 1
    ensures var once := Imported(rows, business, [rec]).value.rows;
            var again := Imported(once, business, [rec]);
            && again.Some? && again.value.stats.inserted == 1
            && once == rows + [RowOf(business, CandidateOf(rec))] && again.value.rows == once + [RowOf(business, CandidateOf(rec))]
  {
    var c := CandidateOf(rec);
    StripTwice(rec.name);
    UntidyNameIsNotFound(business, Strip(rec.name), FirstPhone(rec.phones));
    OneRecord(rows, business, rec);
    var once := Imported(rows, business, [rec]).value.rows;
    OneRecord(once, business, rec);
    NotFoundAgain(rows, business, c);
  }

  lemma {:induction false} OneRecord(rows: seq<Supplier>, business: Uuid, rec: Record)
    ensures Imported(rows, business, [rec]) == AfterCandidate(Start(rows), business, CandidateOf(rec))
  {
    var cs := Candidates([rec]);
    assert AfterCandidates(Start(rows), business, cs, 0) == Some(Start(rows));
  }

  lemma {:induction false} NotFoundAgain(rows: seq<Supplier>, business: Uuid, c: Candidate)
    requires c.gst.None? && !SelfDetecting(business, c) && Judge(rows, business, c).Fresh?
    ensures Judge(rows + [RowOf(business, c)], business, c).Fresh?
  {
    MatchedAppend(rows, RowOf(business, c), business, c);
  }

  /** The smallest such name. */
  lemma {:induction false} DoubleSpaceIsInsertedAgain(business: Uuid)
    ensures var c := Prepared("A  B", None, None);
            !SelfDetecting(business, c) && Judge([], business, c).Fresh? && Judge([RowOf(business, c)], business, c).Fresh?
  {
  }
}
