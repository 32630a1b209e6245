/** Re-runnable import of suppliers from a CSV file, with duplicate detection in the file and in the
    table.  Texts are ASCII; the address columns are left out. */
module SupplierImport {
  import opened Numerals
  import opened Options
  import opened Texts

  datatype Supplier = Supplier(business: Uuid, name: string, phone: Option<string>, gst: Option<string>)

  /** The cells of a CSV row; an absent cell is empty. */
  datatype Record = Record(name: string, gstin: string, phones: string)

  /** What the import makes of a row: whether it has a name, its key within the file, what its lookup
      compares, and what the table would hold. */
  datatype Candidate = Candidate(named: bool, fileKey: (string, string), nameKey: string, phoneKey: string,
                                 name: string, phone: Option<string>, gst: Option<string>)

  // ----- cells -----

  function NormName(s: string): string {
    Squeeze(Lower(Strip(s)))
  }

  function Digits(s: string): string {
    if s == "" then "" else (if IsDecimalDigit(s[0]) then [s[0]] else "") + Digits(s[1..])
  }

  function DigitsTail10(s: string): string {
    var d := Digits(s);
    if |d| >= 10 then d[|d| - 10..] else d
  }

  predicate SeparatesPhones(c: char) {
    c == ',' || c == ';' || c == '/' || c == '\n'
  }

  /** The first of the separated parts that has at least ten digits; `part` is what was read of the first. */
  function FirstDialable(rest: string, part: string): Option<string>
    decreases |rest|
  {
    if rest != "" && !SeparatesPhones(rest[0]) then FirstDialable(rest[1..], part + [rest[0]])
    else if |DigitsTail10(Squeeze(part))| >= 10 then Some(Squeeze(part))
    else if rest == "" then None
    else FirstDialable(rest[1..], "")
  }

  function FirstPhone(raw: string): Option<string> {
    var dialable := FirstDialable(raw, "");
    if dialable.Some? then dialable
    else if Squeeze(raw) == "" then None
    else Some(Squeeze(raw))
  }

  function Prefix(s: string, n: nat): string {
    if |s| <= n then s else s[..n]
  }

  function PhoneKey(phone: Option<string>): string {
    if phone.Some? then DigitsTail10(phone.value) else ""
  }

  /** The columns hold 255 and 32 characters. */
  function Prepared(name: string, phone: Option<string>, gst: Option<string>): Candidate {
    Candidate(name != "", (Lower(name), PhoneKey(phone)), NormName(name), PhoneKey(phone),
              Prefix(name, 255), if phone.Some? then Some(Prefix(phone.value, 32)) else None, gst)
  }

  function CandidateOf(rec: Record): Candidate {
    var gst := Upper(Strip(rec.gstin));
    Prepared(Strip(rec.name), FirstPhone(rec.phones), if |gst| == 15 then Some(gst) else None)
  }

  function RowOf(business: Uuid, c: Candidate): Supplier {
    Supplier(business, c.name, c.phone, c.gst)
  }

  // ----- duplicates -----

  datatype Verdict = Fresh | Duplicate | Ambiguous

  predicate HasGst(row: Supplier, business: Uuid, gst: string) {
    row.business == business && row.gst == Some(gst)
  }

  function GstCount(rows: seq<Supplier>, business: Uuid, gst: string, n: nat): nat
    requires n <= |rows|
  {
    if n == 0 then 0 else GstCount(rows, business, gst, n - 1) + (if HasGst(rows[n - 1], business, gst) then 1 else 0)
  }

  predicate SameName(row: Supplier, business: Uuid, c: Candidate) {
    row.business == business && Lower(row.name) == c.nameKey
  }

  /** Same name, and the same last ten digits or no digits on either side. */
  predicate Matches(row: Supplier, business: Uuid, c: Candidate) {
    SameName(row, business, c) && PhoneKey(row.phone) == c.phoneKey
  }

  predicate Matched(rows: seq<Supplier>, business: Uuid, c: Candidate) {
    exists k :: 0 <= k < |rows| && Matches(rows[k], business, c)
  }

  /** A GST number decides alone; the query for it fails when two rows have it. */
  function Judge(rows: seq<Supplier>, business: Uuid, c: Candidate): Verdict {
    if c.gst.Some? && GstCount(rows, business, c.gst.value, |rows|) > 1 then Ambiguous
    else if c.gst.Some? && GstCount(rows, business, c.gst.value, |rows|) == 1 then Duplicate
    else if c.nameKey == "" || Matched(rows, business, c) then Duplicate
    else Fresh
  }

  // ----- the import -----

  datatype Stats = Stats(inserted: nat, skipped: nat, bad: nat)

  datatype Progress = Progress(rows: seq<Supplier>, seen: set<(string, string)>, stats: Stats)

  /** One candidate; nothing when the table is ambiguous about it. */
  function AfterCandidate(p: Progress, business: Uuid, c: Candidate): Option<Progress> {
    if !c.named then Some(p.(stats := p.stats.(bad := p.stats.bad + 1)))
    else if c.fileKey in p.seen then Some(p.(stats := p.stats.(skipped := p.stats.skipped + 1)))
    else
      match Judge(p.rows, business, c)
      case Ambiguous => None
      case Duplicate => Some(Progress(p.rows, p.seen + {c.fileKey}, p.stats.(skipped := p.stats.skipped + 1)))
      case Fresh => Some(Progress(p.rows + [RowOf(business, c)], p.seen + {c.fileKey}, p.stats.(inserted := p.stats.inserted + 1)))
  }

  /** The progress after the first n candidates. */
  function AfterCandidates(p: Progress, business: Uuid, cs: seq<Candidate>, n: nat): Option<Progress>
    requires n <= |cs|
  {
    if n == 0 then Some(p)
    else
      var earlier := AfterCandidates(p, business, cs, n - 1);
      if earlier.None? then None else AfterCandidate(earlier.value, business, cs[n - 1])
  }

  function Candidates(recs: seq<Record>): (cs: seq<Candidate>)
    ensures |cs| == |recs| && forall i :: 0 <= i < |recs| ==> cs[i] == CandidateOf(recs[i])
  {
    seq(|recs|, i requires 0 <= i < |recs| => CandidateOf(recs[i]))
  }

  /** The outcome of importing a file into a table. */
  function Imported(rows: seq<Supplier>, business: Uuid, recs: seq<Record>): Option<Progress> {
    AfterCandidates(Start(rows), business, Candidates(recs), |recs|)
  }

  function Start(rows: seq<Supplier>): Progress {
    Progress(rows, {}, Stats(0, 0, 0))
  }

  class SupplierTable {
    var rows: seq<Supplier>

    constructor ()
      ensures rows == []
    {
      rows := [];
    }

    /** Looks the candidate up by GST number, then by name and phone. */
    method ExistsDuplicate(rows: seq<Supplier>, business: Uuid, c: Candidate) returns (verdict: Verdict)
      ensures verdict == Judge(rows, business, c)
    {
      if c.gst.Some? {
        var found := 0;
        for k := 0 to |rows|
          invariant found == GstCount(rows, business, c.gst.value, k)
        {
          if HasGst(rows[k], business, c.gst.value) {
            found := found + 1;
          }
        }
        if found > 1 {
          return Ambiguous;
        }
        if found == 1 {
          return Duplicate;
        }
      }
      if c.nameKey == "" {
        return Duplicate;
      }
      var wanted := c.phoneKey;
      for k := 0 to |rows|
        invariant forall j :: 0 <= j < k && SameName(rows[j], business, c) ==> !(wanted != "" && PhoneKey(rows[j].phone) == wanted)
      {
        if SameName(rows[k], business, c) && wanted != "" && PhoneKey(rows[k].phone) != "" && wanted == PhoneKey(rows[k].phone) {
          return Duplicate;
        }
      }
      if wanted == "" {
        for k := 0 to |rows|
          invariant forall j :: 0 <= j < k && SameName(rows[j], business, c) ==> PhoneKey(rows[j].phone) != ""
        {
          if SameName(rows[k], business, c) && PhoneKey(rows[k].phone) == "" {
            return Duplicate;
          }
        }
      }
      return Fresh;
    }

    /** One row of the file. */
    method ImportOne(p: Progress, business: Uuid, c: Candidate) returns (p': Option<Progress>)
      ensures p' == AfterCandidate(p, business, c)
    {
      if !c.named {
        return Some(p.(stats := p.stats.(bad := p.stats.bad + 1)));
      }
      if c.fileKey in p.seen {
        return Some(p.(stats := p.stats.(skipped := p.stats.skipped + 1)));
      }
      var seen := p.seen + {c.fileKey};
      var verdict := ExistsDuplicate(p.rows, business, c);
      match verdict {
        case Ambiguous =>
          return None;
        case Duplicate =>
          return Some(Progress(p.rows, seen, p.stats.(skipped := p.stats.skipped + 1)));
        case Fresh =>
          return Some(Progress(p.rows + [RowOf(business, c)], seen, p.stats.(inserted := p.stats.inserted + 1)));
      }
    }

    /** Imports the file; the rows are committed only when no lookup failed. */
    method RunSeedCsv(business: Uuid, recs: seq<Record>) returns (stats: Option<Stats>)
      modifies this
      ensures match Imported(old(rows), business, recs)
              case Some(p) => rows == p.rows && stats == Some(p.stats)
              case None => rows == old(rows) && stats == None
    {
      var p := ImportAll(Start(rows), business, Candidates(recs));
      if p.None? {
        return None;
      }
      rows := p.value.rows;
      return Some(p.value.stats);
    }

    method ImportAll(start: Progress, business: Uuid, cs: seq<Candidate>) returns (p: Option<Progress>)
      ensures p == AfterCandidates(start, business, cs, |cs|)
    {
      p := Some(start);
      for n := 0 to |cs|
        invariant p.Some? && p == AfterCandidates(start, business, cs, n)
      {
        p := ImportOne(p.value, business, cs[n]);
        if p.None? {
          FailedStays(start, business, cs, n + 1, |cs|);
          return;
        }
      }
    }
  }

  lemma {:induction false} FailedStays(p: Progress, business: Uuid, cs: seq<Candidate>, n: nat, m: nat)
    requires n <= m <= |cs| && AfterCandidates(p, business, cs, n).None?
    ensures AfterCandidates(p, business, cs, m).None?
  {
    if n < m {
      FailedStays(p, business, cs, n, m - 1);
    }
  }
}
