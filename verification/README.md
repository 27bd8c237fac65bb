# Daily balance fetcher, modelled in Dafny

This project models the balance-extraction core of a bank-statement reader.
`DailyBalanceFetcher` takes the text of each page of a PDF statement and applies the pattern
`(\d{2}/\d{2}/\d{4})\s*([-]?\$?[\d,]+\.\d{2})` with `re.findall`. This recovers
(date, amount) pairs. It tags every pair with the name of the file it came from and returns a
three-column table (Date, Balance, Source File). There are two entry points:

- `single_extract` reads one named file.
- `batch_extract_daily_balances` reads every entry of the PDF directory whose name ends in `.pdf`, in listing order.

A file that cannot be opened or read contributes no rows. It does not stop the batch.

The model is split into these files:

- `wrappers.dfy` holds `Option`.
- `balance_pattern.dfy` (module `BalancePattern`) gives the pattern two readings and proves they agree:
  - a declarative one, `IsHit`: the text at a position is a date, optional white space, then an amount;
  - a deterministic scanner, `MatchAt`, that stands in for the regular-expression engine at one position.
- `page_matcher.dfy` (module `PageMatcher`) covers `re.findall`:
  - `Scan` searches left to right and resumes at the end of each match;
  - `IsFindAll` is its declarative meaning: leftmost occurrence first, no occurrence starting in a skipped gap;
  - `ScanIff` proves the two equal in both directions.
- `daily_balance_fetcher.dfy` (module `DailyBalanceFetcher`) covers the rest of the fetcher:
  - per-document collection, tagging and the `.pdf` filter;
  - batch aggregation and the table;
  - the two entry points as methods shaped like the fetcher's own loops.
- `scenarios.dfy` (module `Scenarios`) holds worked inputs. These include the statement page whose first date has no amount, a match with no white space between the tokens, and a batch with a skipped entry and an unreadable file.

The file system and the PDF library are parameters. A `Folder` maps the file names of the PDF
directory to the text of their pages in page order. A name without an entry is a file whose
opening or reading fails, at whatever point. The batch entry point receives the directory
listing as a sequence, in whatever order the listing produced it. The model does not sort it.

Assumptions about character classes:
- `\d` is taken as the ASCII digits `0`-`9`.
- `\s` is taken as the ASCII characters Python's `str.isspace` accepts: tab to carriage return, the separators 0x1C-0x1F, and space.

Three behaviours of the fetcher's code that the model keeps:
- `single_extract` does not validate the file name: there is no rejection of `..` or separators.
- A read failure in single-file mode gives an empty table, not an error.
- The directory listing is not guarded; the model takes it as an input.

## Model

| member | source | states |
|---|---|---|
| BalancePattern.MatchAt | src/core/ocr/daily_balance_fetcher.py:22 | a match reported at `i` starts at `i`, is at least 14 characters long and really is a date, white space and an amount occupying a contiguous stretch of the text |
| BalancePattern.AmountEnd | src/core/ocr/daily_balance_fetcher.py:22 | an amount reported at `w` ends inside the text, is at least four characters long and has the shape optional `-`, optional `$`, one or more digits or commas, `.`, two digits |
| BalancePattern.AmountStart | src/core/ocr/daily_balance_fetcher.py:22 | an amount is never empty and never begins with white space, so the greedy `\s*` before it never has to give characters back |
| BalancePattern.AmountPrefix | src/core/ocr/daily_balance_fetcher.py:22 | taking the `-` and the `$` whenever they are present lands exactly where the digit group of any amount-shaped text begins, so `[-]?` and `\$?` never have to give characters back |
| BalancePattern.AmountEndComplete | src/core/ocr/daily_balance_fetcher.py:22 | every amount-shaped stretch of text is found by the amount scanner with exactly its length; the greedy digit group never needs to give characters back |
| BalancePattern.MatchAtComplete | src/core/ocr/daily_balance_fetcher.py:22 | every occurrence of the pattern is found by the scanner at its start, with the same date, spaces and amount; the greedy `\s*` never needs to give characters back |
| BalancePattern.MatchAtIff | src/core/ocr/daily_balance_fetcher.py:22 | the scanner reports `h` at `i` if and only if `h` is an occurrence of the pattern starting at `i`, so at most one occurrence starts at any position |
| BalancePattern.HitBounds | src/core/ocr/daily_balance_fetcher.py:22 | an occurrence is at least 14 characters long, lies inside the text, and has slashes two and five places after its start |
| PageMatcher.Scan | src/core/ocr/daily_balance_fetcher.py:23 | every match found is a real occurrence at or after the search start, and the matches are in left-to-right order without overlap |
| PageMatcher.FindAll | src/core/ocr/daily_balance_fetcher.py:22-23 | every recovered date is ten characters `dd/dd/dddd` without calendar validation; every recovered amount has the amount shape |
| PageMatcher.ScanSkips | src/core/ocr/daily_balance_fetcher.py:23 | positions where no occurrence starts are passed over without changing the result |
| PageMatcher.ScanIsFindAll | src/core/ocr/daily_balance_fetcher.py:23 | the matches found are the leftmost occurrence, then what searching from its end finds; when none is reported, no occurrence starts at or after the search start, so no match is dropped |
| PageMatcher.FindAllIsScan | src/core/ocr/daily_balance_fetcher.py:23 | any sequence of matches meeting that declarative meaning is exactly what the scan finds |
| PageMatcher.ScanIff | src/core/ocr/daily_balance_fetcher.py:23 | a sequence of matches is the declarative `findall` result if and only if it is what the scan finds |
| DailyBalanceFetcher.PageBalances | src/core/ocr/daily_balance_fetcher.py:20-24 | every pair collected from pages has a well-formed date and amount |
| DailyBalanceFetcher.DocumentBalances | src/core/ocr/daily_balance_fetcher.py:14-29 | a document that cannot be opened or read yields the empty list, not an error; every pair has a well-formed date and amount |
| DailyBalanceFetcher.ExtractDailyBalances | src/core/ocr/daily_balance_fetcher.py:14-29 | the page loop that extends the list with each page's matches computes the document's pairs, and the empty list on a read failure |
| DailyBalanceFetcher.PageBalancesAppend | src/core/ocr/daily_balance_fetcher.py:20-24 | the pairs of two runs of pages are the first run's pairs followed by the second's: page order is kept |
| DailyBalanceFetcher.OnePage | src/core/ocr/daily_balance_fetcher.py:20-24 | a one-page document yields exactly that page's matches |
| DailyBalanceFetcher.PageWithoutMatch | src/core/ocr/daily_balance_fetcher.py:20-24 | a page with no match contributes nothing, wherever it stands |
| DailyBalanceFetcher.Tag | src/core/ocr/daily_balance_fetcher.py:35-37 | tagging keeps the number and order of pairs; row `k` holds pair `k`'s date and amount followed by the file name |
| DailyBalanceFetcher.TagRoundTrip | src/core/ocr/daily_balance_fetcher.py:35-37 | dropping the tag gives back the pairs; rows that all carry one file name are the tagging of their own pairs |
| DailyBalanceFetcher.FileRecords | src/core/ocr/daily_balance_fetcher.py:34-37 | a file contributes exactly as many rows as it has pairs, each carrying its name; an unreadable file contributes none |
| DailyBalanceFetcher.BatchRecords | src/core/ocr/daily_balance_fetcher.py:43-50 | every batch row comes from a listed entry whose name ends in `.pdf` |
| DailyBalanceFetcher.BatchAppend | src/core/ocr/daily_balance_fetcher.py:43-50 | the rows of a listing split in two are the first part's rows followed by the second's: listing order is kept |
| DailyBalanceFetcher.PdfEntries | src/core/ocr/daily_balance_fetcher.py:43-44 | every kept name is a listed name ending in `.pdf`, and every listed name ending in `.pdf` is kept; order and multiplicity are stated by the next two rows |
| DailyBalanceFetcher.PdfEntriesAppend | src/core/ocr/daily_balance_fetcher.py:43-44 | filtering two parts of a listing gives the first part's kept names followed by the second's: listing order and multiplicity are kept |
| DailyBalanceFetcher.PdfEntriesOfOne | src/core/ocr/daily_balance_fetcher.py:43-44 | a single listed name is kept, once, exactly when it ends in `.pdf`; with the previous row this fixes the filter's result on every listing |
| DailyBalanceFetcher.BatchIsFilterThenExtract | src/core/ocr/daily_balance_fetcher.py:43-50 | a batch equals single-file extraction of each qualifying entry, in listing order, concatenated |
| DailyBalanceFetcher.BatchReadsOnlyPdfEntries | src/core/ocr/daily_balance_fetcher.py:43-46 | entries not ending in `.pdf` are never read: folders that agree on the `.pdf` entries give the same batch |
| DailyBalanceFetcher.BatchOfOne | src/core/ocr/daily_balance_fetcher.py:44-50 | a one-entry listing gives that file's rows if its name ends in `.pdf`, and nothing otherwise |
| DailyBalanceFetcher.BatchIsolatesFailure | src/core/ocr/daily_balance_fetcher.py:43-50 | an unreadable file contributes no rows and the files before and after it are processed as if it were absent |
| DailyBalanceFetcher.FormatResult | src/core/ocr/daily_balance_fetcher.py:55-58 | the table has the columns Date, Balance, Source File and one three-field row per record |
| DailyBalanceFetcher.FormatResultRoundTrip | src/core/ocr/daily_balance_fetcher.py:55-58 | reading each row back gives the record it was made from, in order |
| DailyBalanceFetcher.SingleExtract | src/core/ocr/daily_balance_fetcher.py:31-38 | single-file mode returns one row per recovered pair, in order, each the pair followed by the requested name; an unreadable file gives an empty table |
| DailyBalanceFetcher.BatchExtractDailyBalances | src/core/ocr/daily_balance_fetcher.py:40-52 | the listing loop that filters on `.pdf` and extends the result computes the batch rows; every row's source is a listed `.pdf` entry |
| Scenarios.LeadingMatch | src/core/ocr/daily_balance_fetcher.py:22-23 | a page that opens with an occurrence and has fewer than 14 characters after it yields exactly that date and amount |
| Scenarios.NoSpaceNeeded | src/core/ocr/daily_balance_fetcher.py:22 | `03/01/2024-$50.00` yields `03/01/2024` and `-$50.00`: white space between the tokens is optional |
| Scenarios.ExtraDecimalLeftBehind | src/core/ocr/daily_balance_fetcher.py:22 | `12/31/2023 1234.567` yields the amount `1234.56`: characters after the two decimals are not consumed |
| Scenarios.NothingValidated | src/core/ocr/daily_balance_fetcher.py:22 | `99/99/9999` followed by a tab and `1,2,3.45` is recovered: no calendar or thousands-separator check |
| Scenarios.StatementExample | src/core/ocr/daily_balance_fetcher.py:22-23 | on a statement page whose first date is followed by a word, only the second date and its amount `$1,234.56` are recovered |
| Scenarios.PdfSuffix | src/core/ocr/daily_balance_fetcher.py:44 | the suffix test is literal and case-sensitive: `.PDF` and `.pdf.txt` do not qualify, `.pdf` alone does |
| Scenarios.BatchExample | src/core/ocr/daily_balance_fetcher.py:43-50 | a listing of another entry, statement A with one pair, an unreadable statement and statement B with two pairs yields A's row then B's two rows |

## Left out

- PDF text extraction with PyPDF2 is a foreign library. The model takes each document's page texts as given, and models any failure to open or read as the document's absence from the `Folder`.
- `os.listdir` and `os.path.join` are file-system calls. The listing is an input sequence, and files are looked up by their name in the PDF directory. The fixed directory `./pdf_files` and path joining are not modelled.
- The pandas DataFrame is reduced to a header and rows of strings. The CSV export to `./results/` named after the current time is left out as an output side channel, and so are the `print` calls.
- Unicode digits and white space, which Python's `\d` and `\s` also match, are left out. Only the ASCII members of each class are modelled.
- An exception part-way through a document discards the pairs of the pages already read. The model's single "unreadable" outcome covers this, because the result is the empty list either way.
- The ORM repository, database sessions, FastAPI routes, exception handlers, middleware, settings and the service layer are out of scope. They are persistence and web plumbing around the fetcher.
