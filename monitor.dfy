/** The monitor object: the seen-sets, the case map and the files of the
    documents directory, updated in place by the case loop, the two
    classification loops, the docket download loop (which marks docket
    entries in place) and the extra-documents loop. Each method is proved
    to leave the state the matching function of the model describes. */
module Monitor {
  import opened Records
  import opened CaseNumbers
  import opened Rows
  import opened Fingerprints
  import opened Changes
  import opened Filenames
  import opened Documents
  import opened Cycle

  class CourtMonitor {
    var seenCharges: set<string>
    var seenDockets: set<string>
    var seenDocuments: set<string>
    var savedFiles: set<string>
    var caseInfo: map<string, CaseInfo>
    var downloadDocuments: bool
    var filterCaseNumber: string

    /** The state kept between cycles. */
    function State(): MonitorState
      reads this
    {
      MonitorState(seenCharges, seenDockets, DocStore(seenDocuments, savedFiles), caseInfo)
    }

    function Store(): DocStore
      reads this
    {
      DocStore(seenDocuments, savedFiles)
    }

    function Options(): Config
      reads this
    {
      Config(filterCaseNumber, downloadDocuments)
    }

    /** A monitor set up with its options and the state saved by an
        earlier run; the case filter is kept in normalised form. */
    constructor(downloadDocuments: bool, filterCaseNumber: string, saved: MonitorState)
      ensures this.downloadDocuments == downloadDocuments
      ensures this.filterCaseNumber == (if filterCaseNumber != "" then Normalize(filterCaseNumber) else "")
      ensures State() == saved
    {
      this.downloadDocuments := downloadDocuments;
      this.filterCaseNumber := if filterCaseNumber != "" then Normalize(filterCaseNumber) else "";
      seenCharges := saved.seenCharges;
      seenDockets := saved.seenDockets;
      seenDocuments := saved.docs.seen;
      savedFiles := saved.docs.files;
      caseInfo := saved.caseInfo;
    }

    /** The new-charge loop: a charge is new when its key is not yet seen,
        and its key is added at once. */
    method ClassifyCharges(charges: seq<Charge>) returns (reported: seq<Charge>)
      modifies this`seenCharges
      ensures reported == Unseen(old(seenCharges), charges, ChargeKey)
      ensures seenCharges == old(seenCharges) + Keys(charges, ChargeKey)
    {
      reported := [];
      var i := 0;
      while i < |charges|
        invariant 0 <= i <= |charges|
        invariant reported == Unseen(old(seenCharges), charges[..i], ChargeKey)
        invariant seenCharges == old(seenCharges) + Keys(charges[..i], ChargeKey)
      {
        ReportedIff(old(seenCharges), charges, i, ChargeKey);
        assert charges[..i + 1] == charges[..i] + [charges[i]];
        KeysAppend(charges[..i], [charges[i]], ChargeKey);
        var key := ChargeKey(charges[i]);
        if key !in seenCharges {
          reported := reported + [charges[i]];
          seenCharges := seenCharges + {key};
        }
        i := i + 1;
      }
      assert charges[..i] == charges;
    }

    /** The new-docket loop, in the same way. */
    method ClassifyDockets(dockets: seq<DocketEntry>) returns (reported: seq<DocketEntry>)
      modifies this`seenDockets
      ensures reported == Unseen(old(seenDockets), dockets, DocketKey)
      ensures seenDockets == old(seenDockets) + Keys(dockets, DocketKey)
    {
      reported := [];
      var i := 0;
      while i < |dockets|
        invariant 0 <= i <= |dockets|
        invariant reported == Unseen(old(seenDockets), dockets[..i], DocketKey)
        invariant seenDockets == old(seenDockets) + Keys(dockets[..i], DocketKey)
      {
        ReportedIff(old(seenDockets), dockets, i, DocketKey);
        assert dockets[..i + 1] == dockets[..i] + [dockets[i]];
        KeysAppend(dockets[..i], [dockets[i]], DocketKey);
        var key := DocketKey(dockets[i]);
        if key !in seenDockets {
          reported := reported + [dockets[i]];
          seenDockets := seenDockets + {key};
        }
        i := i + 1;
      }
      assert dockets[..i] == dockets;
    }

    /** The body the two download loops share: skip a document whose id
        was downloaded before, otherwise choose a fresh file name and fetch
        it; only a success records the id and the file. */
    method TryDownload(caseNumber: string, id: string, desc: string, fetch: string -> bool)
      returns (name: Option<string>)
      modifies this`seenDocuments, this`savedFiles
      ensures (Store(), name) == TryJob(old(Store()), caseNumber, Try(id, desc), fetch)
    {
      name := None;
      if id !in seenDocuments {
        var file := ChooseFilename(savedFiles, caseNumber, Sanitize(desc));
        if fetch(id) {
          seenDocuments := seenDocuments + {id};
          savedFiles := savedFiles + {file};
          name := Some(file);
        }
      }
    }

    /** One docket entry of _download_case_documents: an entry with a
        document is tried, and marked when the download succeeds. */
    method DownloadEntry(caseNumber: string, d: DocketEntry, fetch: string -> bool)
      returns (e: DocketEntry, name: Option<string>)
      modifies this`seenDocuments, this`savedFiles
      ensures (Store(), name) == TryJob(old(Store()), caseNumber, DocketJob(caseNumber, d), fetch)
      ensures e == MarkEntry(d, name)
    {
      e, name := d, None;
      if d.hasDocument {
        name := TryDownload(caseNumber, caseNumber + "_" + d.din + "_" + d.description, d.description, fetch);
        if name.Some? {
          e := d.(downloaded := true, filename := name.value);
        }
      }
    }

    /** _download_case_documents: every entry with a document whose id is
        not yet downloaded gets a fresh file name and is fetched; a success
        records the id and the file and marks the entry in place. */
    method DownloadCaseDocuments(caseNumber: string, a: array<DocketEntry>, fetch: string -> bool)
      modifies this`seenDocuments, this`savedFiles, a
      ensures (Store(), a[..]) == DocketPass(old(Store()), caseNumber, old(a[..]), fetch)
    {
      ghost var st0 := Store();
      ghost var ds := a[..];
      ghost var jobs := DocketJobs(caseNumber, ds);
      var i := 0;
      while i < a.Length
        invariant 0 <= i <= a.Length
        invariant Store() == Downloads(st0, caseNumber, jobs[..i], fetch).store
        invariant a[..i] == Marked(ds[..i], Downloads(st0, caseNumber, jobs[..i], fetch).names)
        invariant a[i..] == ds[i..]
      {
        ghost var p := Downloads(st0, caseNumber, jobs[..i], fetch);
        ghost var done := a[..i];
        DownloadsStep(st0, caseNumber, jobs, i, fetch);
        MarkedStep(ds, p.names, i, TryJob(p.store, caseNumber, jobs[i], fetch).1);
        assert a[i] == ds[i];
        var e, name := DownloadEntry(caseNumber, a[i], fetch);
        a[i] := e;
        assert a[..i + 1] == done + [e];
        assert a[i + 1..] == ds[i + 1..];
        i := i + 1;
      }
      assert jobs[..i] == jobs;
      assert a[..i] == a[..];
      assert ds[..i] == ds;
    }

    /** _check_extra_documents_tab: each extra document of the table whose
        id is not yet downloaded gets a fresh file name and is fetched; a
        success records the id and the file. */
    method CheckExtraDocuments(caseNumber: string, view: Option<seq<Table>>, fetch: string -> bool)
      modifies this`seenDocuments, this`savedFiles
      ensures Store() == ExtraPass(old(Store()), caseNumber, ExtraDocumentsOf(view), fetch)
    {
      ghost var st0 := Store();
      var descs := ExtraDocumentsOf(view);
      ghost var jobs := ExtraJobs(caseNumber, descs);
      var i := 0;
      while i < |descs|
        invariant 0 <= i <= |descs|
        invariant Store() == Downloads(st0, caseNumber, jobs[..i], fetch).store
      {
        DownloadsStep(st0, caseNumber, jobs, i, fetch);
        var desc := descs[i];
        var _ := TryDownload(caseNumber, caseNumber + "_extra_" + desc, desc, fetch);
        i := i + 1;
      }
      assert jobs[..i] == jobs;
    }

    /** _fetch_case_details: read the charges and the docket entries off
        the case page, then download documents when that option is on. */
    method FetchCaseDetails(caseNumber: string, pg: CasePage, fetch: string -> bool)
      returns (charges: seq<Charge>, dockets: seq<DocketEntry>)
      modifies this`seenDocuments, this`savedFiles
      ensures (Store(), charges, dockets) == CaseDetails(old(Store()), downloadDocuments, caseNumber, pg, fetch)
    {
      charges, dockets := [], [];
      if pg.shown {
        charges := ParseRows(BodyOf(pg.chargeView, ChargesTable), ChargeParser(caseNumber));
        dockets := ParseRows(BodyOf(pg.docketView, DocketsTable), DocketParser(caseNumber));
        if downloadDocuments && AnyDocument(dockets) {
          var a := new DocketEntry[|dockets|](i requires 0 <= i < |dockets| => dockets[i]);
          assert a[..] == dockets;
          DownloadCaseDocuments(caseNumber, a, fetch);
          dockets := a[..];
        }
        if downloadDocuments {
          CheckExtraDocuments(caseNumber, pg.extraView, fetch);
        }
      }
    }

    /** The bookkeeping of a visit once the case's records are read: the
        case map entry is overwritten with the counts, the totals grow, and
        the new charges and docket entries are classified and reported. */
    method RecordCase(c: CaseSummary, charges: seq<Charge>, dockets: seq<DocketEntry>, results: Results)
      returns (results': Results)
      modifies this`seenCharges, this`seenDockets, this`caseInfo
      ensures (State(), results') == Cycle.RecordCase(old(State()), results, c, charges, dockets)
    {
      caseInfo := caseInfo[c.caseNumber := CaseInfo(c.caseNumber, c.filedDate, c.closedDate,
                                                    c.firstCharge, c.balanceDue, |charges|, |dockets|)];
      results' := results.(totalCharges := results.totalCharges + |charges|,
                           totalDockets := results.totalDockets + |dockets|);
      var newCharges := ClassifyCharges(charges);
      var newDockets := ClassifyDockets(dockets);
      results' := results'.(newCharges := results'.newCharges + newCharges,
                            newDockets := results'.newDockets + newDockets,
                            summaries := results'.summaries +
                              [CaseTally(c.caseNumber, |charges|, |dockets|, |newCharges|, |newDockets|, c.firstCharge)]);
    }

    /** One iteration of the case loop: a case after the first is visited
        only if the case list can be brought back; a visit fetches the
        case's records and records them. */
    method VisitCase(c: CaseSummary, index: nat, page: string -> CasePage, fetch: string -> bool, results: Results)
      returns (results': Results)
      modifies this`seenCharges, this`seenDockets, this`seenDocuments, this`savedFiles, this`caseInfo
      ensures (State(), results') == Cycle.VisitCase(old(State()), results, Options(), c, index, page, fetch)
    {
      results' := results;
      var pg := page(c.caseNumber);
      if index == 0 || pg.reachable {
        ghost var st0 := State();
        var charges, dockets := FetchCaseDetails(c.caseNumber, pg, fetch);
        ghost var d := CaseDetails(st0.docs, downloadDocuments, c.caseNumber, pg, fetch);
        assert State() == st0.(docs := d.0);
        results' := RecordCase(c, charges, dockets, results);
      }
    }

    /** check_all_cases: read the case list, apply the filter, and visit
        the cases in order, updating the state and the results. */
    method CheckAllCases(popup: seq<Table>, page: string -> CasePage, fetch: string -> bool)
      returns (results: Results)
      modifies this`seenCharges, this`seenDockets, this`seenDocuments, this`savedFiles, this`caseInfo
      ensures (State(), results) == Cycle.CheckAllCases(old(State()), Options(), popup, page, fetch)
    {
      results := NoResults;
      ghost var st0 := State();
      ghost var cfg := Options();
      var cases: seq<CaseSummary> := [];
      if |popup| > 0 {
        cases := ParseRows(popup[0].rows, CaseOfRow);
      }
      assert cases == CasesOf(popup);
      if filterCaseNumber != "" {
        cases := FilterCases(cases, filterCaseNumber);
        if cases == [] {
          return;
        }
      }
      assert cases == CasesToCheck(cfg, popup);
      results := results.(totalCases := |cases|);
      ghost var r0 := results;
      var i := 0;
      while i < |cases|
        invariant 0 <= i <= |cases|
        invariant Options() == cfg
        invariant (State(), results) == RunCases(st0, r0, cfg, cases[..i], page, fetch)
      {
        RunCasesStep(st0, r0, cfg, cases, i, page, fetch);
        results := VisitCase(cases[i], i, page, fetch, results);
        i := i + 1;
      }
      assert cases[..i] == cases;
    }
  }
}
