/**
 The balance fetcher: per-document collection of (date, amount) pairs, tagging with
 the source file name, the single-file and batch entry points, and the three-column
 result.

 The file system is a parameter: a `Folder` maps the names of the PDF directory's
 files to the text of their pages, and the batch entry point receives the directory
 listing as a sequence in whatever order the listing produced it.
 */
module DailyBalanceFetcher {
  import opened Wrappers
  import opened BalancePattern
  import opened PageMatcher

  /** One result row: a recovered pair followed by the name of the file it came from. */
  datatype Record = Record(date: string, balance: string, sourceFile: string)

  /**
   The readable files of the PDF directory, by name, each with the text of its pages
   in page order. A name without an entry is a file that cannot be opened or read.
   */
  type Folder = map<string, seq<string>>

  /** Opening and reading one file: its pages' text, or `None` when that fails anywhere. */
  function ReadDocument(folder: Folder, name: string): (doc: Option<seq<string>>)
    ensures doc.Some? <==> name in folder
  {
    if name in folder then Some(folder[name]) else None
  }

  /** The pairs of a sequence of pages: each page's matches, page after page. */
  function PageBalances(pages: seq<string>): (pairs: seq<Pair>)
    ensures forall k :: 0 <= k < |pairs| ==> IsDate(pairs[k].date) && IsAmount(pairs[k].balance)
  {
    if pages == [] then [] else FindAll(pages[0]) + PageBalances(pages[1..])
  }

  /** The pairs of one document; a document that could not be read has none. */
  function DocumentBalances(doc: Option<seq<string>>): (pairs: seq<Pair>)
    ensures doc.None? ==> pairs == []
    ensures forall k :: 0 <= k < |pairs| ==> IsDate(pairs[k].date) && IsAmount(pairs[k].balance)
  {
    match doc
    case None => []
    case Some(pages) => PageBalances(pages)
  }

  /**
   The per-document collector as the fetcher runs it: page by page, each page's
   matches appended to the list; a failure to open or read gives the empty list.
   */
  method ExtractDailyBalances(doc: Option<seq<string>>) returns (balances: seq<Pair>)
    ensures balances == DocumentBalances(doc)
    ensures doc.None? ==> balances == []
  {
    match doc
    case None =>
      balances := [];
    case Some(pages) =>
      balances := [];
      for i := 0 to |pages|
        invariant balances == PageBalances(pages[.. i])
      {
        var matches := FindAll(pages[i]);
        PageBalancesAppend(pages[.. i], [pages[i]]);
        assert pages[.. i + 1] == pages[.. i] + [pages[i]];
        balances := balances + matches;
      }
      assert pages[.. |pages|] == pages;
  }

  /** Collecting pages is a homomorphism: the pairs of two runs of pages are the pairs of each, in order. */
  lemma {:induction false} PageBalancesAppend(p: seq<string>, q: seq<string>)
    ensures PageBalances(p + q) == PageBalances(p) + PageBalances(q)
    decreases |p|
  {
    if p == [] {
      assert p + q == q;
    } else {
      assert (p + q)[1..] == p[1..] + q;
      PageBalancesAppend(p[1..], q);
    }
  }

  /** A document of one page yields exactly that page's matches. */
  lemma OnePage(page: string)
    ensures DocumentBalances(Some([page])) == FindAll(page)
  {
    assert [page][1..] == [];
    assert PageBalances([page]) == FindAll(page) + PageBalances([]);
    assert FindAll(page) + [] == FindAll(page);
  }

  /** A page without a match contributes nothing, wherever it stands among the pages. */
  lemma PageWithoutMatch(p: seq<string>, page: string, q: seq<string>)
    requires FindAll(page) == []
    ensures PageBalances(p + [page] + q) == PageBalances(p + q)
  {
    OnePage(page);
    PageBalancesAppend(p + [page], q);
    PageBalancesAppend(p, [page]);
    PageBalancesAppend(p, q);
    calc {
      PageBalances(p + [page] + q);
      PageBalances(p + [page]) + PageBalances(q);
      PageBalances(p) + PageBalances([page]) + PageBalances(q);
      { assert PageBalances(p) + [] == PageBalances(p); }
      PageBalances(p) + PageBalances(q);
      PageBalances(p + q);
    }
  }

  /** Every pair, followed by the file name: `(*balance, file_name)` for each pair. */
  function Tag(pairs: seq<Pair>, fileName: string): (rows: seq<Record>)
    ensures |rows| == |pairs|
    ensures forall k :: 0 <= k < |rows| ==>
      && rows[k].date == pairs[k].date
      && rows[k].balance == pairs[k].balance
      && rows[k].sourceFile == fileName
  {
    if pairs == [] then [] else [Record(pairs[0].date, pairs[0].balance, fileName)] + Tag(pairs[1..], fileName)
  }

  /** The pairs a sequence of rows carries, without their file names. */
  function Untag(rows: seq<Record>): (pairs: seq<Pair>)
    ensures |pairs| == |rows|
  {
    if rows == [] then [] else [Pair(rows[0].date, rows[0].balance)] + Untag(rows[1..])
  }

  /**
   Tagging loses nothing and invents nothing: dropping the tag gives back the pairs,
   and rows that all carry one file name are the tagging of their own pairs.
   */
  lemma {:induction false} TagRoundTrip(pairs: seq<Pair>, rows: seq<Record>, fileName: string)
    ensures Untag(Tag(pairs, fileName)) == pairs
    ensures (forall k :: 0 <= k < |rows| ==> rows[k].sourceFile == fileName) ==> Tag(Untag(rows), fileName) == rows
    decreases |pairs| + |rows|
  {
    if pairs != [] {
      TagRoundTrip(pairs[1..], rows, fileName);
    }
    if rows != [] {
      TagRoundTrip(pairs, rows[1..], fileName);
    }
  }

  /** The rows one file contributes: its pairs, each tagged with its name. */
  function FileRecords(folder: Folder, name: string): (rows: seq<Record>)
    ensures |rows| == |DocumentBalances(ReadDocument(folder, name))|
    ensures name !in folder ==> rows == []
    ensures forall k :: 0 <= k < |rows| ==> rows[k].sourceFile == name
  {
    Tag(DocumentBalances(ReadDocument(folder, name)), name)
  }

  /** `str.endswith('.pdf')`: the name's last four characters are `.pdf`, case-sensitively. */
  predicate IsPdfName(name: string) {
    |name| >= 4 && name[|name| - 4 ..] == ".pdf"
  }

  /** The rows of a batch: the qualifying entries' rows, in listing order. */
  function BatchRecords(listing: seq<string>, folder: Folder): (rows: seq<Record>)
    ensures forall k :: 0 <= k < |rows| ==> IsPdfName(rows[k].sourceFile) && rows[k].sourceFile in listing
  {
    if listing == [] then []
    else
      var name := listing[0];
      (if IsPdfName(name) then FileRecords(folder, name) else []) + BatchRecords(listing[1..], folder)
  }

  /** Batching is a homomorphism over the listing: two parts of a listing give their rows in order. */
  lemma {:induction false} BatchAppend(p: seq<string>, q: seq<string>, folder: Folder)
    ensures BatchRecords(p + q, folder) == BatchRecords(p, folder) + BatchRecords(q, folder)
    decreases |p|
  {
    if p == [] {
      assert p + q == q;
    } else {
      assert (p + q)[1..] == p[1..] + q;
      BatchAppend(p[1..], q, folder);
    }
  }

  /** The qualifying entries of a listing, in order. */
  function PdfEntries(listing: seq<string>): (names: seq<string>)
    ensures forall k :: 0 <= k < |names| ==> IsPdfName(names[k]) && names[k] in listing
    ensures forall n :: n in listing && IsPdfName(n) ==> n in names
  {
    if listing == [] then []
    else (if IsPdfName(listing[0]) then [listing[0]] else []) + PdfEntries(listing[1..])
  }

  /** Filtering is a homomorphism over the listing: two parts of a listing keep their names in order. */
  lemma {:induction false} PdfEntriesAppend(p: seq<string>, q: seq<string>)
    ensures PdfEntries(p + q) == PdfEntries(p) + PdfEntries(q)
    decreases |p|
  {
    if p == [] {
      assert p + q == q;
    } else {
      assert (p + q)[1..] == p[1..] + q;
      PdfEntriesAppend(p[1..], q);
    }
  }

  /** A one-entry listing keeps its entry exactly when the name ends in `.pdf`. */
  lemma PdfEntriesOfOne(name: string)
    ensures PdfEntries([name]) == if IsPdfName(name) then [name] else []
  {
  }

  /** The rows of single-file extraction of each named file, one file after another. */
  function SingleRecordsOf(names: seq<string>, folder: Folder): seq<Record> {
    if names == [] then [] else FileRecords(folder, names[0]) + SingleRecordsOf(names[1..], folder)
  }

  /**
   A batch is the single-file extraction of every qualifying entry, in listing order,
   concatenated: first filter the listing, then extract each file.
   */
  lemma {:induction false} BatchIsFilterThenExtract(listing: seq<string>, folder: Folder)
    ensures BatchRecords(listing, folder) == SingleRecordsOf(PdfEntries(listing), folder)
    decreases |listing|
  {
    if listing != [] {
      BatchIsFilterThenExtract(listing[1..], folder);
      var rest := PdfEntries(listing[1..]);
      if IsPdfName(listing[0]) {
        var names := [listing[0]] + rest;
        assert PdfEntries(listing) == names;
        assert names[0] == listing[0] && names[1..] == rest;
      } else {
        assert PdfEntries(listing) == [] + rest == rest;
      }
    }
  }

  /**
   Non-qualifying entries are never read: two folders that agree on every `.pdf`
   entry of the listing give the same batch.
   */
  lemma {:induction false} BatchReadsOnlyPdfEntries(listing: seq<string>, f: Folder, g: Folder)
    requires forall n :: n in listing && IsPdfName(n) ==> ReadDocument(f, n) == ReadDocument(g, n)
    ensures BatchRecords(listing, f) == BatchRecords(listing, g)
    decreases |listing|
  {
    if listing != [] {
      BatchReadsOnlyPdfEntries(listing[1..], f, g);
    }
  }

  /** A listing of one entry gives that entry's rows when it qualifies and none otherwise. */
  lemma BatchOfOne(name: string, folder: Folder)
    ensures BatchRecords([name], folder) == if IsPdfName(name) then FileRecords(folder, name) else []
  {
    assert [name][1..] == [];
    assert BatchRecords([name], folder)
           == (if IsPdfName(name) then FileRecords(folder, name) else []) + BatchRecords([], folder);
  }

  /** A file that cannot be read contributes no rows and does not stop the files after it. */
  lemma BatchIsolatesFailure(p: seq<string>, name: string, q: seq<string>, folder: Folder)
    requires name !in folder
    ensures BatchRecords(p + [name] + q, folder) == BatchRecords(p, folder) + BatchRecords(q, folder)
  {
    BatchOfOne(name, folder);
    BatchAppend(p + [name], q, folder);
    BatchAppend(p, [name], folder);
    calc {
      BatchRecords(p + [name] + q, folder);
      BatchRecords(p + [name], folder) + BatchRecords(q, folder);
      BatchRecords(p, folder) + BatchRecords([name], folder) + BatchRecords(q, folder);
      { assert BatchRecords(p, folder) + [] == BatchRecords(p, folder); }
      BatchRecords(p, folder) + BatchRecords(q, folder);
    }
  }

  /** The column header of every result. */
  const Columns: seq<string> := ["Date", "Balance", "Source File"]

  /** The tabular result: a header and one row of fields per record. */
  datatype Frame = Frame(columns: seq<string>, rows: seq<seq<string>>)

  /** The fields of one record, in column order. */
  function Fields(r: Record): seq<string> {
    [r.date, r.balance, r.sourceFile]
  }

  /** The result table: the three columns Date, Balance, Source File and one row per record, in order. */
  function FormatResult(records: seq<Record>): (frame: Frame)
    ensures frame.columns == Columns
    ensures |frame.rows| == |records|
    ensures forall k :: 0 <= k < |frame.rows| ==> |frame.rows[k]| == |Columns|
  {
    Frame(Columns, seq(|records|, k requires 0 <= k < |records| => Fields(records[k])))
  }

  /** The record a three-field row holds. */
  function RecordOf(row: seq<string>): Record
    requires |row| == |Columns|
  {
    Record(row[0], row[1], row[2])
  }

  /** Reading the table back row by row gives the records it was made from, in order. */
  lemma FormatResultRoundTrip(records: seq<Record>)
    ensures forall k :: 0 <= k < |records| ==> RecordOf(FormatResult(records).rows[k]) == records[k]
  {
  }

  /**
   `single_extract`: the named file's pairs, each tagged with the name, as a table.
   The name is not checked; a file that cannot be read gives an empty table.
   */
  method SingleExtract(folder: Folder, fileName: string) returns (frame: Frame)
    ensures frame == FormatResult(FileRecords(folder, fileName))
    ensures frame.columns == Columns
    ensures var pairs := DocumentBalances(ReadDocument(folder, fileName));
      && |frame.rows| == |pairs|
      && forall k :: 0 <= k < |pairs| ==> frame.rows[k] == [pairs[k].date, pairs[k].balance, fileName]
    ensures fileName !in folder ==> frame.rows == []
  {
    var balances := ExtractDailyBalances(ReadDocument(folder, fileName));
    var result := Tag(balances, fileName);
    frame := FormatResult(result);
  }

  /**
   `batch_extract_daily_balances`: every entry of the listing whose name ends in
   `.pdf`, in listing order, each file's tagged rows appended to the result.
   */
  method BatchExtractDailyBalances(listing: seq<string>, folder: Folder) returns (frame: Frame)
    ensures frame == FormatResult(BatchRecords(listing, folder))
    ensures frame.columns == Columns
    ensures forall k :: 0 <= k < |frame.rows| ==> IsPdfName(frame.rows[k][2]) && frame.rows[k][2] in listing
  {
    var allBalances: seq<Record> := [];
    for i := 0 to |listing|
      invariant allBalances == BatchRecords(listing[.. i], folder)
    {
      var fileName := listing[i];
      if IsPdfName(fileName) {
        var balances := ExtractDailyBalances(ReadDocument(folder, fileName));
        var enriched := Tag(balances, fileName);
        allBalances := allBalances + enriched;
      }
      BatchAppend(listing[.. i], [fileName], folder);
      assert listing[.. i + 1] == listing[.. i] + [fileName];
      assert [fileName][1..] == [];
    }
    assert listing[.. |listing|] == listing;
    frame := FormatResult(allBalances);
  }
}
