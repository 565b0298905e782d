# Miami-Dade court docket monitor, modelled in Dafny

`deuker-monitor.py` watches one defendant's cases on the Miami-Dade clerk's
criminal portal. Each cycle it works through these steps:

1. It reads the case list.
2. It optionally keeps only the case the command line names.
3. It opens every case and reads its CHARGES and DOCKETS tables.
4. It downloads the documents attached to docket entries and listed on the
   Extra Documents tab.
5. It reports the charges and docket entries it has not seen before.
6. It builds a short alert text for them.

This project models the bookkeeping under the browser automation, and
proves what that bookkeeping promises.

The modules follow the program's pieces:

- `Text` holds ASCII character classes, upper/lower case, trimming, joining
  and decimal rendering.
- `Records` holds the records the monitor keeps (`Charge`, `DocketEntry`,
  `CaseSummary`, `CaseInfo`) and rows of cell texts.
- `CaseNumbers` is `_normalize_case_number`.
- `Rows` maps table rows to records: the case list, CHARGES, DOCKETS and
  Extra Documents. It also picks each table by its header text.
- `Fingerprints` holds the identity strings of charges and docket entries.
- `Changes` is the seen-set classification, proved generically over any
  record type and key function.
- `Filenames` sanitises a description into a file stem, and chooses the
  first free name `case-stem.pdf`, `case-stem-1.pdf`, ….
- `Documents` holds document ids, the skip-if-seen rule, and
  record-only-on-success for both download loops.
- `Cycle` is `check_all_cases` as functions over the monitor's state.
- `Alert` is the message text of `_send_notification`.
- `Monitor` holds the class `CourtMonitor`. Its fields are the seen-sets, the
  case map and the files of the documents directory, and its methods update
  them in place.
  - The loops of these methods are `while` loops over these fields, and the
    docket download loop marks entries of an `array<DocketEntry>` in place.
    The loops of the other modules are recursive functions over sequences.
  - Each method is proved to leave exactly the state that the matching
    `Cycle`/`Documents` function describes.
  - The lemmas about those functions state the promises: at-most-once
    reporting, the seen-sets after a cycle, consistent totals, no repeated
    download and fresh file names.

The portal and the PDF viewer are parameters:

- `page: string -> CasePage` says, per case number, whether the case list
  could be brought back and whether the case page opened. It also gives
  the tables shown.
- `fetch: string -> bool` says, per document id, whether opening the viewer
  and saving the PDF succeeded.

The case list arrives as the tables of the popup.

The plain-text case-number search follows the code's regular expression
`F-\d{2}-\d+` (a literal `F`), not a pattern for any letter.

## Model

| member | source | states |
|---|---|---|
| CaseNumbers.DropSeparators | deuker-monitor.py:155 | removing `-` and ` ` leaves no `-` or ` ` and never lengthens the input |
| CaseNumbers.Normalize | deuker-monitor.py:141-166 | "" stays ""; a letter plus 8 digits (after dropping separators, upper-cased) gives `L-DD-DDDDDD` with the same letter and digits; anything else is the input upper-cased |
| CaseNumbers.DropSeparatorsUpper | deuker-monitor.py:155 | dropping separators commutes with upper-casing |
| CaseNumbers.DropSeparatorsDashed | deuker-monitor.py:155 | the dashed spelling `X-P1-P2` loses exactly its two dashes |
| CaseNumbers.CompactOfDashed | deuker-monitor.py:159-160 | the reformatted number has the portal's form and cleans back to the compact input |
| CaseNumbers.NormalizeIdempotent | deuker-monitor.py:141-166 | normalising twice equals normalising once |
| CaseNumbers.NormalFormIsFixed | deuker-monitor.py:141-166 | a number already in `L-DD-DDDDDD` form is returned unchanged |
| CaseNumbers.NormalizeCompact | deuker-monitor.py:155-162 | an upper-case letter with 8 digits and no separators gets dashes after its 1st and 3rd characters |
| CaseNumbers.BothSpellings | deuker-monitor.py:141-166 | any case number spelled with or without its two dashes normalises to the dashed spelling |
| CaseNumbers.SecondCaseSpellings | deuker-monitor.py:141-166 | `F25000002` and `F-25-000002` both normalise to `F-25-000002` |
| CaseNumbers.CommandLineForms | deuker-monitor.py:1870-1871 | `F25024652` and `F-25-024652` both normalise to `F-25-024652` |
| CaseNumbers.MalformedExample | deuker-monitor.py:163-166 | a malformed `f-25-0246` comes back as `F-25-0246` |
| Rows.FilterMapMembers | deuker-monitor.py:433-489 | a row-mapping loop keeps every accepted row's record and holds no record that some row did not give; never more records than rows, and none when every row is rejected |
| Rows.ParseRows | deuker-monitor.py:433-489 | the append loop collects exactly the accepted rows' records, in row order |
| Rows.DigitRun | deuker-monitor.py:452 | the greedy `\d+`: a run of digits that ends at the end or before a non-digit |
| Rows.FirstPatternAt | deuker-monitor.py:452 | the leftmost position from which `F-\d{2}-\d` matches, or none when it matches nowhere |
| Rows.CaseNumberOf | deuker-monitor.py:438-460 | the case number of a case-list row: the trimmed link text when the first cell has a link, else the first `F-NN-digits` match in the cell text, else the cell's trimmed first line; `PlainCaseNumber`, `FirstLineCaseNumber` and `CaseRowRoundTrip` state its three branches |
| Rows.CaseOfRow | deuker-monitor.py:433-489 | a case row is read if and only if it has at least 4 cells and a non-empty case number, and it carries that case number |
| Rows.CaseRowRoundTrip | deuker-monitor.py:443-489 | the row the portal shows for a case, with its number as a link, reads back as that case |
| Rows.CasesOf | deuker-monitor.py:424-466 | the case list is every row of the popup's first table with at least four cells and a non-empty case number, in table order (no table gives no cases); `CaseOfRow` and `FilterMapMembers` state which rows are kept, `CaseRowRoundTrip` that a displayed case reads back as itself |
| Rows.PlainCaseNumber | deuker-monitor.py:449-454 | without a link, the case number is the text of the leftmost `F-\d{2}-\d+` match, digits taken greedily |
| Rows.FirstLineCaseNumber | deuker-monitor.py:455-459 | without a link or a match, the case number is the stripped first line |
| Rows.IsKind | deuker-monitor.py:603-605 | how a table is recognised by its headers joined with blanks and lower-cased: `seq no` and `charge` for CHARGES (603-605); `din` and `docket` for DOCKETS (674-676); at least two headers, `view` or `image`, and `document`, and neither `din` nor `book` for EXTRA DOCUMENTS (1123-1130); `FindTable` states that the chosen table is the first of its kind |
| Rows.FindTable | deuker-monitor.py:601-605 | the chosen table is the first whose headers identify the kind, and no earlier table does; none is chosen only when no table qualifies |
| Rows.FindTableAfter | deuker-monitor.py:601-605 | tables of other kinds before the wanted one are passed over |
| Rows.ChargeOfRow | deuker-monitor.py:609-626 | a CHARGES row is read if and only if it has at least 3 cells, and the result carries the case number |
| Rows.ChargeFields | deuker-monitor.py:613-616 | seq no, description and type are cells 0-2; disposition is cell 3 if present, else "" |
| Rows.ChargeRows | deuker-monitor.py:609-616 | the CHARGES rows shown for a list of charges, one per charge in order |
| Rows.ChargeRowsRead | deuker-monitor.py:609-626 | reading the rows of a case's charges gives back those charges |
| Rows.ChargesRoundTrip | deuker-monitor.py:601-630 | a CHARGES table after tables of other kinds reads back as the charges it shows, whatever the header row holds |
| Rows.ChargesOf | deuker-monitor.py:601-626 | the charges of a case are read from the body rows (header row skipped) of the first CHARGES table, one per row with at least three cells, in order; `ChargeFields`, `ChargeRowsRead` and `ChargesRoundTrip` state which rows give a charge and that displayed charges read back unchanged |
| Rows.DocketOfRow | deuker-monitor.py:680-712 | a DOCKETS row is read if and only if it has at least 4 cells; it carries the case number, `has_document` from the first cell's image, link, svg or button, and is not yet downloaded |
| Rows.DocketFields | deuker-monitor.py:698-701 | DIN, date and book/page are cells 1-3; the description is cell 4 if present, else "" |
| Rows.DocketRowRoundTrip | deuker-monitor.py:680-712 | the DOCKETS row shown for a not yet downloaded entry reads back as that entry |
| Rows.DocketRows | deuker-monitor.py:680-712 | the inverse row builder the table round trip uses, one DOCKETS row per entry in order |
| Rows.DocketRowsRead | deuker-monitor.py:680-712 | reading those rows gives back the entries of one case not yet downloaded |
| Rows.DocketsRoundTrip | deuker-monitor.py:676-712 | reading back a DOCKETS table gives the entries: the header row is skipped whatever it holds, and tables of other kinds before it are passed over |
| Rows.DocketsOf | deuker-monitor.py:672-712 | the docket entries of a case are read from the body rows (header row skipped) of the first DOCKETS table, one per row with at least four cells, in order, each tagged with whether its row offers a document; `DocketFields`, `DocketRowsRead` and `DocketsRoundTrip` state which rows give an entry and that displayed entries read back unchanged |
| Rows.FirstLongCell | deuker-monitor.py:1159-1163 | the position of the first cell, from the given one on, whose text is longer than 3 characters (every cell before it is at most 3 long), or none when every such text is at most 3 long |
| Rows.ExtraDescription | deuker-monitor.py:1153-1166 | never empty; the last cell when there are at least 3 cells and it has at least 3 characters; otherwise the first cell after the first one that is longer than 3 characters; when there is none, the short last cell if there are at least 3 cells and it is not empty, else `extra-doc-<row>` |
| Rows.ExtraDescriptionExample | deuker-monitor.py:1153-1166 | an empty first cell, a short second cell, a long third and a one-letter last cell give the third cell's text |
| Rows.ExtraDescriptionsOne | deuker-monitor.py:1142-1150 | a body row gives a description exactly when it has at least two cells and a view control in its first cell |
| Rows.ExtraDescriptionsAppend | deuker-monitor.py:1142-1166 | rows are read one by one, in order, each with its own number |
| Rows.ExtraDescriptionsAt | deuker-monitor.py:1142-1166 | one description per offering row, in table order; row j, numbered from the first row's number on, gives `ExtraDescription` of its cells and its number, after those of the offering rows before it |
| Rows.ExtraDocumentsTableRead | deuker-monitor.py:1139-1142 | the header row of the EXTRA DOCUMENTS table is skipped whatever it holds, and the body rows are numbered from 1 |
| Rows.ExtraDocumentsOf | deuker-monitor.py:1121-1170 | the extra documents a case offers: none when the tab cannot be opened, else the descriptions of the body rows of the first EXTRA DOCUMENTS table (recognised by the header test at 1123-1130) that have at least two cells and a view control, numbered from 1; `ExtraDocumentsTableRead` and `ExtraDescriptionsAt` state which rows, in what order, with what descriptions |
| Fingerprints.SplitAtBar | deuker-monitor.py:360 | a key with one bar after a bar-free part splits back uniquely |
| Fingerprints.Join4Injective | deuker-monitor.py:357-367 | distinct field tuples give distinct bar-joined keys when none of the first three fields holds a bar |
| Fingerprints.ChargeKey | deuker-monitor.py:357-361 | a charge's identity is its case number, seq no, description and type joined with bars, leaving the disposition out; `ChargeKeyIdentity` states that two charges share a key exactly when those four fields agree, provided none of the first three contains a bar |
| Fingerprints.ChargeKeyIdentity | deuker-monitor.py:357-361 | two charges share a key if and only if case, seq no, description and type agree; the disposition plays no part |
| Fingerprints.DocketKeyIdentity | deuker-monitor.py:363-367 | two docket entries share a key if and only if case, DIN, date and description agree; book/page and download state play no part |
| Fingerprints.DocketKey | deuker-monitor.py:363-367 | a docket entry's identity is its case number, DIN, date and description joined with bars, leaving book/page and the download outcome out; `DocketKeyIdentity` states that two entries share a key exactly when those four fields agree, provided none of the first three contains a bar |
| Changes.Keys | deuker-monitor.py:1391-1421 | the keys a pass adds to the seen-set: the key of every record read, new or not; `KeysAppend` states it distributes over concatenation and `SeenAfterPass` that adding them gives the same seen-set as adding the keys of the records reported |
| Changes.Unseen | deuker-monitor.py:1393-1420 | the records a pass reports as new, scanning in order and adding each key at once; `ReportedIff`, `UnseenKeys` and `UnseenAppend` state that a record is reported exactly when its key was neither seen before nor carried by an earlier record of the pass, once per key, in order, and `AtMostOnce` that a later pass against the grown set never reports it again |
| Changes.KeysAppend | deuker-monitor.py:1393-1404 | the keys of a concatenation are the union of the keys |
| Changes.UnseenAppend | deuker-monitor.py:1393-1404 | classifying `a` then `b` reports what `a` reports, then what `b` reports against the keys `a` added |
| Changes.ReportedIff | deuker-monitor.py:1401-1404 | the record at position i is reported if and only if its key is neither in the seen-set nor the key of an earlier record |
| Changes.UnseenKeys | deuker-monitor.py:1393-1420 | reported records have unseen keys, pairwise distinct, and their keys are exactly the pass's keys minus the seen-set |
| Changes.SeenAfterPass | deuker-monitor.py:1401-1404 | the seen-set after a pass gains exactly the keys of the records reported |
| Changes.UnseenNone | deuker-monitor.py:1393-1420 | a pass over records whose keys are all seen reports nothing |
| Changes.AtMostOnce | deuker-monitor.py:1393-1420 | a record reported once is never reported by a later pass |
| Changes.KeysPointwise | deuker-monitor.py:1410-1415 | lists with the same key at each position have the same key set |
| Changes.FreshSinceStep | deuker-monitor.py:1391-1421 | one more pass keeps a run's reports unknown at the start, without repeats, and equal to the keys gained |
| Changes.FreshSinceSuffix | deuker-monitor.py:1391-1421 | the same for the reports appended after a prefix of the results list |
| Filenames.KeepSafe | deuker-monitor.py:790 | `re.sub(r'[^\w\s-]', '', s)`: only word, space and dash characters remain, no more than were given |
| Filenames.KeepSafeAppend | deuker-monitor.py:790 | deletion works character by character: cleaning a concatenation is the concatenation of the cleaned parts, in order |
| Filenames.KeepSafeMembers | deuker-monitor.py:790 | a character is in the result exactly when it is in the input and is a word, space or dash character |
| Filenames.KeepSafeFrom | deuker-monitor.py:790 | deleting characters adds none |
| Filenames.KeepSafeFixed | deuker-monitor.py:790 | a string of safe characters is left alone |
| Filenames.LeadingSeps | deuker-monitor.py:791 | the length of a maximal leading run of dashes and whitespace |
| Filenames.Collapse | deuker-monitor.py:791 | `re.sub(r'[-\s]+', '-', s)`: no whitespace, no double dash, a first non-separator kept, never longer |
| Filenames.CollapseFrom | deuker-monitor.py:791 | collapsing adds no character but the dash |
| Filenames.CollapseFixed | deuker-monitor.py:791 | a string with no whitespace and no double dash is left alone |
| Filenames.CollapseKeeps | deuker-monitor.py:791 | the characters other than dashes and whitespace are those of the input, in the same order |
| Filenames.CollapseRun | deuker-monitor.py:791 | a maximal run of dashes and whitespace becomes exactly one dash |
| Filenames.CollapseWord | deuker-monitor.py:791 | a stretch with no dash and no whitespace is copied unchanged |
| Filenames.CollapseExample | deuker-monitor.py:791 | `a - b` becomes `a-b` |
| Filenames.Sanitize | deuker-monitor.py:790-792 | the stem has at most 100 characters, only word characters and `-`, and no two consecutive `-` |
| Filenames.SanitizeFrom | deuker-monitor.py:790-792 | every character of the stem is a dash or comes from the description |
| Filenames.SanitizeIdempotent | deuker-monitor.py:790-792 | sanitising a stem gives the same stem |
| Filenames.SanitizeWord | deuker-monitor.py:790-792 | a description of word characters is kept, cut to 100 characters |
| Filenames.CandidateInjective | deuker-monitor.py:793-802 | different counters give different names |
| Filenames.CandidatesSize | deuker-monitor.py:797-802 | the first n names tried are n different names |
| Filenames.TakenBound | deuker-monitor.py:799-802 | no more names can be taken than there are existing files, so the counter loop ends |
| Filenames.FirstFree | deuker-monitor.py:797-802 | the counter reached names no existing file, and every name tried before it does |
| Filenames.ChooseFilename | deuker-monitor.py:793-802 | the counter loop returns the first of `case-stem.pdf`, `case-stem-1.pdf`, … that is not an existing file |
| Documents.DocId | deuker-monitor.py:780-780 | a docket document's id is `case_din_description`; `DocketPassKeys` and `DownloadedIff` state how a pass uses it to skip documents already downloaded |
| Documents.ExtraId | deuker-monitor.py:1169-1169 | an extra document's id is `case_extra_description`; `ExtraPassSeen` states that it is recorded exactly when it was recorded before or its fetch succeeds |
| Documents.NameFor | deuker-monitor.py:790-802 | the name chosen is a candidate for the case and sanitised description, and not an existing file |
| Documents.TryJob | deuker-monitor.py:776-949 | a file is written if and only if the job has a document whose id is unseen and whose fetch succeeds; then the id and a fresh file are recorded, otherwise nothing changes |
| Documents.Downloads | deuker-monitor.py:775-949 | the download jobs run in order, each against the store the earlier ones left, a job writing a file only for an id not yet seen whose fetch succeeds; `DownloadedIff`, `DownloadsSeen`, `DownloadsFiles`, `AllKnownNoop` and `RetryAfterFailure` state which jobs write files, the final seen-set and the new file names |
| Documents.DownloadsSeen | deuker-monitor.py:943-949 | after a pass the seen ids are the old ones plus exactly the ids whose fetch succeeded; a failed download is not recorded |
| Documents.DownloadsFiles | deuker-monitor.py:793-947 | the files written are new and pairwise different, and the files after the pass are the old ones plus those |
| Documents.DownloadsPrefix | deuker-monitor.py:775 | a pass over a prefix of the jobs is the beginning of the whole pass |
| Documents.DownloadedIff | deuker-monitor.py:775-949 | job i writes a file if and only if it has a document not downloaded before or earlier in the pass and its fetch succeeds; the file is named after the case and description |
| Documents.AllKnownNoop | deuker-monitor.py:783-785 | a pass whose fetchable documents were all downloaded before changes nothing |
| Documents.SecondPassNoop | deuker-monitor.py:783-785 | repeating a pass with the same outcomes downloads nothing again |
| Documents.RetryAfterFailure | deuker-monitor.py:943-949 | a document whose download failed is not recorded, is tried again next pass, and is recorded once a fetch succeeds |
| Documents.Marked | deuker-monitor.py:945-947 | an entry whose download succeeded is marked downloaded with its file name; every other entry is unchanged |
| Documents.DocketPass | deuker-monitor.py:775-949 | the download pass over a case's docket entries: one job per entry that offers a document, each entry marked with the file written for it; `DocketPassKeys` states that entries keep their keys and that a marked entry names a file written now, `NoDocumentsNoop` that a case with no documents changes nothing |
| Documents.DocketPassKeys | deuker-monitor.py:739-975 | downloading keeps every entry's key; an entry that changed has a document, is marked downloaded, and names a file written by this pass |
| Documents.NoDocumentsNoop | deuker-monitor.py:775-777 | entries without documents cause no download and no change |
| Documents.ExtraPass | deuker-monitor.py:1142-1263 | the download pass over a case's extra documents, one job per description; `ExtraPassSeen` states which ids end up recorded |
| Documents.ExtraPassSeen | deuker-monitor.py:1169-1263 | an extra document's id is recorded after the pass if and only if it was recorded before or its fetch succeeded |
| Cycle.FilterCases | deuker-monitor.py:1308 | the cases kept are exactly those numbered as the filter, and never more than were given |
| Cycle.FilterAppend | deuker-monitor.py:1308 | filtering distributes over concatenation, so the original order is kept |
| Cycle.FilterAllMatch | deuker-monitor.py:1308 | a list in which every case matches is kept whole |
| Cycle.FilterExample | deuker-monitor.py:1306-1308 | of `F-25-000001` and `F-25-000002`, the filter `F25000002` or `F-25-000002` keeps only the second |
| Cycle.CaseDetails | deuker-monitor.py:504-737 | the visit of one case: nothing when its detail page is not shown, else its charges and docket entries read off the page and, when downloads are on, the docket pass (only if some entry offers a document) and then the extra-documents pass; `CaseDetailsRead` states that the records returned are those read off the page |
| Cycle.CaseDetailsRead | deuker-monitor.py:504-737 | a visit returns the charges read, and docket entries with the number and keys read; without downloads nothing else changes |
| Cycle.RecordCase | deuker-monitor.py:1376-1431 | what a visit records once the records are read: the keys of its records added to the seen-sets, its case entry with its counts, its totals, its new records and its tally; `VisitCaseRecords`, `VisitSeen` and `VisitTally` state these effects |
| Cycle.VisitCase | deuker-monitor.py:1321-1431 | one iteration of the case loop: a case after the first whose list cannot be brought back is skipped, otherwise it is visited and recorded; `VisitCaseRecords`, `VisitTally` and `VisitSeen` state the effects of a visit |
| Cycle.VisitCaseRecords | deuker-monitor.py:1374-1421 | a visited case adds its records' keys to the seen-sets and appends its unseen records to the reports |
| Cycle.CheckAllCases | deuker-monitor.py:1285-1445 | one monitoring cycle: the case list, restricted to the filtered case when a filter is set (a filter no case matches gives zero results), counted and run through the case loop; `CheckAllCasesFilter`, `CheckAllCasesFresh`, `CheckAllCasesCounts` and `SecondCheckReportsNothing` state its results |
| Cycle.CheckAllCasesFilter | deuker-monitor.py:1305-1312 | with a filter, exactly the cases with that number are checked; a filter no case matches returns the zero results and leaves the state alone |
| Cycle.RunCases | deuker-monitor.py:1316-1431 | the case loop over the whole list, visiting the cases in order; `RunCasesSeen`, `RunCasesTallies`, `RunCasesInfo` and `RunCasesCounts` state what the loop leaves |
| Cycle.VisitSeen | deuker-monitor.py:1321-1421 | a visit adds to the seen-sets the keys of the records it reads; a case the list cannot be brought back for adds none |
| Cycle.RunCasesSeen | deuker-monitor.py:1321-1421 | after the loop the seen-sets are the old ones plus the keys of every record read by visited cases |
| Cycle.VisitFreshCharges | deuker-monitor.py:1391-1404 | one visit keeps the charges reported since the start unknown at the start, without repeats, and equal to the keys gained |
| Cycle.VisitFreshDockets | deuker-monitor.py:1407-1420 | the same for docket entries |
| Cycle.RunCasesFreshCharges | deuker-monitor.py:1321-1404 | the loop only appends to the reported charges, and what it appends is fresh in that sense |
| Cycle.RunCasesFreshDockets | deuker-monitor.py:1321-1420 | the same for docket entries |
| Cycle.VisitNoNew | deuker-monitor.py:1401-1417 | a visit whose records all have seen keys reports no new charge and no new docket entry |
| Cycle.RunCasesNoNew | deuker-monitor.py:1401-1417 | a loop over records whose keys are all seen reports nothing new |
| Cycle.SecondCheckReportsNothing | deuker-monitor.py:1285-1445 | checking again against the state the first check left reports no new charge and no new docket entry |
| Cycle.CheckAllCasesFresh | deuker-monitor.py:1285-1445 | every reported key was unknown before the check, none is reported twice, and the reported keys are exactly the keys the seen-sets gained |
| Cycle.CheckAllCasesCounts | deuker-monitor.py:1292-1431 | totals equal the sums of the per-case counts, there are no more per-case entries than cases to check, and `total_cases` is the number of cases checked (0 when the filter matches none) |
| Cycle.RunCasesInfo | deuker-monitor.py:1377-1386 | every visited case has a case-map entry whose counts are the numbers of charges and docket entries read for it |
| Cycle.RunCasesCounts | deuker-monitor.py:1388-1431 | the totals stay the sums of the per-case entries' counts, `total_cases` is untouched, and the loop adds no more entries than cases |
| Cycle.VisitTally | deuker-monitor.py:1321-1431 | a visited case appends exactly one entry: its number, the numbers of charges and entries read, the numbers of them reported as new, and its first charge; a skipped case changes nothing |
| Cycle.RunCasesTallies | deuker-monitor.py:1321-1431 | the loop keeps the earlier entries and appends exactly one per visited case, in the order of the visits; each records its own case number, first charge, and numbers of charges and docket entries read |
| Alert.Shorten | deuker-monitor.py:1472 | a description of at most 50 characters is kept; a longer one becomes its first 50 characters plus `...` |
| Alert.Section | deuker-monitor.py:1462-1475 | a heading, the first three items as bullet lines, and `...and N more` when there are more than three |
| Alert.AlertLines | deuker-monitor.py:1458-1476 | the alert's lines: the heading naming the defendant, then a section for the new charges and one for the new docket entries, each only when non-empty; `AlertShape`, `AlertListsCharges`, `AlertListsDockets` and `AlertCountsTheRest` state its shape and contents |
| Alert.AlertText | deuker-monitor.py:1458-1477 | the alert text is its lines joined with newlines; its lines are stated by the `AlertLines` lemmas |
| Alert.AlertShape | deuker-monitor.py:1458-1477 | the heading comes first, then at most 5 lines per non-empty section (11 at most); with nothing new the text is the heading alone, and the text always starts with it |
| Alert.AlertListsCharges | deuker-monitor.py:1462-1465 | the lines after the charges heading list the first three new charges in order |
| Alert.AlertListsDockets | deuker-monitor.py:1469-1473 | the lines after the docket heading list the first three new entries in order, with DIN and shortened description |
| Alert.DocketSectionLast | deuker-monitor.py:1474-1475 | a docket section of more than three entries ends with the count of the rest |
| Alert.AlertCountsTheRest | deuker-monitor.py:1474-1477 | with more than three new docket entries the alert's last line is `...and N more` |
| Text.Upper | deuker-monitor.py:155 | upper-casing keeps the length |
| Text.UpperIdempotent | deuker-monitor.py:155-166 | upper-casing twice equals upper-casing once |
| Text.TrimStart | deuker-monitor.py:439 | the result is a suffix that starts with no whitespace, and only whitespace was removed |
| Text.TrimEnd | deuker-monitor.py:439 | the result is a prefix that ends with no whitespace, and only whitespace was removed |
| Text.FirstLine | deuker-monitor.py:457 | `split('\n')[0]`: a newline-free prefix that ends at the first newline |
| Text.NatToString | deuker-monitor.py:800 | a non-empty string of decimal digits |
| Text.NatToStringInjective | deuker-monitor.py:800 | different numbers have different decimal spellings |
| Text.NatToStringValue | deuker-monitor.py:800 | the digits read back as a decimal numeral give the number |
| Text.NatToStringLeading | deuker-monitor.py:800 | a positive number's spelling has no leading zero |
| Monitor.CourtMonitor.constructor | deuker-monitor.py:127-139 | the options as given, the filter normalised ("" for none), and the saved state loaded |
| Monitor.CourtMonitor.ClassifyCharges | deuker-monitor.py:1391-1405 | the loop reports exactly the charges unseen in order, and the seen-set gains every charge's key |
| Monitor.CourtMonitor.ClassifyDockets | deuker-monitor.py:1407-1421 | the same for docket entries |
| Monitor.CourtMonitor.TryDownload | deuker-monitor.py:780-949 | skips a seen id, otherwise chooses a fresh name and records the id and file only on success, as `TryJob` says |
| Monitor.CourtMonitor.DownloadEntry | deuker-monitor.py:776-949 | one docket entry of the download loop: the store as `TryJob` leaves it, and the entry marked only on success |
| Monitor.CourtMonitor.DownloadCaseDocuments | deuker-monitor.py:739-975 | the store and the array of entries, marked in place, end as the docket pass describes |
| Monitor.CourtMonitor.CheckExtraDocuments | deuker-monitor.py:1119-1280 | the store ends as the extra-documents pass over the table's descriptions describes |
| Monitor.CourtMonitor.FetchCaseDetails | deuker-monitor.py:504-737 | reads the charges and entries off a shown page, downloads only when that option is on (the docket pass only when an entry has a document), and ends as `CaseDetails` says |
| Monitor.CourtMonitor.RecordCase | deuker-monitor.py:1376-1431 | case map entry, totals, classification and per-case tally as `Cycle.RecordCase` says |
| Monitor.CourtMonitor.VisitCase | deuker-monitor.py:1321-1431 | a case after the first is skipped when the list cannot be brought back; otherwise it ends as `Cycle.VisitCase` says |
| Monitor.CourtMonitor.CheckAllCases | deuker-monitor.py:1285-1445 | the whole cycle (case list, filter with early return, case loop) ends as `Cycle.CheckAllCases` says |

## Left out

- The Playwright automation is left out: browser start-up, the defendant
  search, selector cascades, clicks, waits, the React PDF viewer and popup
  cleanup. It is a foreign library driving a live site. Its outcomes are the
  parameters `page` (case list reachable, case page shown, tables shown) and
  `fetch` (download succeeded).
- Locating the view button of an extra document is part of the automation,
  so it is left out. Its locator is hard-coded to the row holding "Arrest
  Form Summary" (deuker-monitor.py:1201-1213).
- `page` and `fetch` are functions of the case number and the document id.
  So a document id tried twice, or a case listed twice, meets the same
  outcome each time; a portal that answers differently on a retry is not
  modelled, and the case-map entries that `Cycle.RunCasesInfo` states rely
  partly on this.
- A viewer that cannot be opened is folded into `fetch` returning false. Like
  a failed save, it records nothing.
- BeautifulSoup parsing and `page.content()` are left out. Rows arrive as
  sequences of stripped cell texts. The first cell's contents arrive as
  `Marks`: link text, img, svg, and the labels of `span[role=button]`.
- SHA-256 is left out. The model uses the key string itself as the
  fingerprint, which tells records apart exactly as a collision-free hash
  would.
- JSON state loading and saving are left out: `_load_state`, `_save_state`
  and `_save_new_entries_to_file`. The constructor takes the loaded state as
  an argument.
- The early return when the filter matches no case skips `_save_state`.
  Nothing in the model writes state to disk, so that difference is not
  modelled.
- Logging, `time.sleep` and `datetime.now()` are left out, so
  `timestamp_found` and `last_checked` are not modelled.
- `urljoin` and the case URL are left out; they only serve navigation.
- `Path.exists` and the documents directory are modelled as the set of file
  names present.
- Exceptions are left out, both the per-case ones and those in
  `check_all_cases`. A failure that returns partial records mid-page is not
  modelled. A case page that does not open gives no records.
- SMS and email delivery through Twilio and smtplib are left out
  (deuker-monitor.py:1479-1641). So are `on_new_entries`, `print_summary`
  and all printing. Only the message text is modelled.
- `main`, argparse, `load_monitor_config` and the continuous `run` loop are
  left out. They are command-line and scheduling plumbing.
- fix_indentation.py is not part of this model. It is a one-off rewrite
  script.
- notification_examples.py and test_email.py are not part of this model.
  They are stand-alone delivery examples and an SMTP check.
- Python's Unicode semantics are left out. `isalpha`, `isdigit`, `\w`, `\s`,
  `strip` and `upper`/`lower` are modelled on ASCII.
- The alert's pictograms are kept as the characters the source file spells.
  That is UTF-8 emoji bytes read back as Latin-1/Windows-1252 characters.
