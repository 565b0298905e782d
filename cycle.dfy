/** One monitoring cycle (check_all_cases): the case list is read and
    optionally filtered to one case, then every case is visited in order.
    A visit reads the case's charges and docket entries, downloads their
    documents when that option is on, records the case's counts, and
    reports the charges and docket entries whose keys were not seen
    before. The portal is the parameter `page`, a function from case
    number to what the case's page shows. */
module Cycle {
  import opened Records
  import opened Rows
  import opened Fingerprints
  import opened Changes
  import opened Documents
  import opened CaseNumbers

  /** What the monitor keeps between cycles. */
  datatype MonitorState = MonitorState(
    seenCharges: set<string>,
    seenDockets: set<string>,
    docs: DocStore,
    caseInfo: map<string, CaseInfo>)

  /** What the portal shows for a case: whether the case list could be
      brought back with a new search (needed for every case but the first),
      whether the case page could be shown, the tables shown with the CHARGES and
      the DOCKETS section expanded, and the tables of the Extra Documents
      tab (None when there is no such tab or it does not open). */
  datatype CasePage = CasePage(
    reachable: bool,
    shown: bool,
    chargeView: seq<Table>,
    docketView: seq<Table>,
    extraView: Option<seq<Table>>)

  /** The per-case entry of a cycle's results. */
  datatype CaseTally = CaseTally(
    caseNumber: string,
    chargeCount: nat,
    docketCount: nat,
    newChargesCount: nat,
    newDocketsCount: nat,
    firstCharge: string)

  datatype Results = Results(
    totalCases: nat,
    totalCharges: nat,
    totalDockets: nat,
    newCharges: seq<Charge>,
    newDockets: seq<DocketEntry>,
    summaries: seq<CaseTally>)

  const NoResults := Results(0, 0, 0, [], [], [])

  /** The options of a run: the normalised case-number filter ("" for none)
      and whether documents are downloaded. */
  datatype Config = Config(filter: string, downloadDocuments: bool)

  /** The cases whose number equals the filter, in their original order. */
  function FilterCases(cases: seq<CaseSummary>, filter: string): (r: seq<CaseSummary>)
    ensures |r| <= |cases|
    ensures forall c :: c in r <==> c in cases && c.caseNumber == filter
  {
    if |cases| == 0 then []
    else (if cases[0].caseNumber == filter then [cases[0]] else []) + FilterCases(cases[1..], filter)
  }

  /** Filtering distributes over concatenation, so it keeps the order. */
  lemma {:induction false} FilterAppend(a: seq<CaseSummary>, b: seq<CaseSummary>, filter: string)
    ensures FilterCases(a + b, filter) == FilterCases(a, filter) + FilterCases(b, filter)
  {
    if |a| == 0 {
      assert a + b == b;
    } else {
      assert (a + b)[0] == a[0];
      assert (a + b)[1..] == a[1..] + b;
      FilterAppend(a[1..], b, filter);
    }
  }

  /** A list in which every case matches is kept whole. */
  lemma {:induction false} FilterAllMatch(cases: seq<CaseSummary>, filter: string)
    requires forall c :: c in cases ==> c.caseNumber == filter
    ensures FilterCases(cases, filter) == cases
  {
    if |cases| > 0 {
      FilterAllMatch(cases[1..], filter);
    }
  }

  /** Of the cases F-25-000001 and F-25-000002, a filter given as
      F25000002 or as F-25-000002 keeps the second alone. */
  lemma FilterExample(c1: CaseSummary, c2: CaseSummary)
    requires c1.caseNumber == "F-25-000001" && c2.caseNumber == "F-25-000002"
    ensures FilterCases([c1, c2], Normalize("F25000002")) == [c2]
    ensures FilterCases([c1, c2], Normalize("F-25-000002")) == [c2]
  {
    SecondCaseSpellings();
    FilterSecond(c1, c2, "F-25-000002");
  }

  lemma FilterSecond(c1: CaseSummary, c2: CaseSummary, filter: string)
    requires c1.caseNumber != filter && c2.caseNumber == filter
    ensures FilterCases([c1, c2], filter) == [c2]
  {
    assert [c1, c2][1..] == [c2];
  }

  /** The charges a visit reads: none when the case page does not open. */
  function ChargesRead(caseNumber: string, pg: CasePage): seq<Charge>
  {
    if pg.shown then ChargesOf(caseNumber, pg.chargeView) else []
  }

  /** The docket entries a visit reads, before any download marks them. */
  function DocketsRead(caseNumber: string, pg: CasePage): seq<DocketEntry>
  {
    if pg.shown then DocketsOf(caseNumber, pg.docketView) else []
  }

  predicate AnyDocument(ds: seq<DocketEntry>)
  {
    exists i :: 0 <= i < |ds| && ds[i].hasDocument
  }

  /** _fetch_case_details: the store after the downloads, the charges and
      the docket entries (marked by the downloads). */
  function CaseDetails(docs: DocStore, download: bool, caseNumber: string, pg: CasePage,
                       fetch: string -> bool): (DocStore, seq<Charge>, seq<DocketEntry>)
  {
    if !pg.shown then (docs, [], [])
    else
      var charges := ChargesOf(caseNumber, pg.chargeView);
      var dockets := DocketsOf(caseNumber, pg.docketView);
      if !download then (docs, charges, dockets)
      else
        var p := if AnyDocument(dockets) then DocketPass(docs, caseNumber, dockets, fetch) else (docs, dockets);
        (ExtraPass(p.0, caseNumber, ExtraDocumentsOf(pg.extraView), fetch), charges, p.1)
  }

  /** The records a visit returns are those read off the page: the charges
      as read, and docket entries with the keys and the number read. */
  lemma CaseDetailsRead(docs: DocStore, download: bool, caseNumber: string, pg: CasePage, fetch: string -> bool)
    ensures var d := CaseDetails(docs, download, caseNumber, pg, fetch);
      d.1 == ChargesRead(caseNumber, pg) &&
      |d.2| == |DocketsRead(caseNumber, pg)| &&
      Keys(d.2, DocketKey) == Keys(DocketsRead(caseNumber, pg), DocketKey) &&
      (!download ==> d == (docs, ChargesRead(caseNumber, pg), DocketsRead(caseNumber, pg)))
  {
    if pg.shown && download {
      var dockets := DocketsOf(caseNumber, pg.docketView);
      if AnyDocument(dockets) {
        DocketPassKeys(docs, caseNumber, dockets, fetch);
        KeysPointwise(DocketPass(docs, caseNumber, dockets, fetch).1, dockets, DocketKey);
      }
    }
  }

  /** Whether the i-th case of the list is visited: the first always, any
      later one only if the case list can be brought back. */
  predicate Visited(cases: seq<CaseSummary>, page: string -> CasePage, i: nat)
    requires i < |cases|
  {
    i == 0 || page(cases[i].caseNumber).reachable
  }

  /** What a visit records once the case's records are read: the case's
      entry in the case map with its counts, the keys of its records, and
      its counts and new records in the results. */
  function RecordCase(st: MonitorState, r: Results, c: CaseSummary,
                      charges: seq<Charge>, dockets: seq<DocketEntry>): (MonitorState, Results)
  {
    var cn := c.caseNumber;
    var newCharges := Unseen(st.seenCharges, charges, ChargeKey);
    var newDockets := Unseen(st.seenDockets, dockets, DocketKey);
    var info := CaseInfo(cn, c.filedDate, c.closedDate, c.firstCharge, c.balanceDue, |charges|, |dockets|);
    var tally := CaseTally(cn, |charges|, |dockets|, |newCharges|, |newDockets|, c.firstCharge);
    (MonitorState(st.seenCharges + Keys(charges, ChargeKey), st.seenDockets + Keys(dockets, DocketKey),
                  st.docs, st.caseInfo[cn := info]),
     r.(totalCharges := r.totalCharges + |charges|,
        totalDockets := r.totalDockets + |dockets|,
        newCharges := r.newCharges + newCharges,
        newDockets := r.newDockets + newDockets,
        summaries := r.summaries + [tally]))
  }

  /** One iteration of the case loop. */
  function VisitCase(st: MonitorState, r: Results, cfg: Config, c: CaseSummary, index: nat,
                     page: string -> CasePage, fetch: string -> bool): (MonitorState, Results)
  {
    var pg := page(c.caseNumber);
    if index > 0 && !pg.reachable then (st, r)
    else
      var d := CaseDetails(st.docs, cfg.downloadDocuments, c.caseNumber, pg, fetch);
      RecordCase(st.(docs := d.0), r, c, d.1, d.2)
  }

  /** What a visit does to the seen-sets and the reports. */
  lemma VisitCaseRecords(st: MonitorState, r: Results, cfg: Config, c: CaseSummary, index: nat,
                         page: string -> CasePage, fetch: string -> bool)
    requires index == 0 || page(c.caseNumber).reachable
    ensures var d := CaseDetails(st.docs, cfg.downloadDocuments, c.caseNumber, page(c.caseNumber), fetch);
      var (st', r') := VisitCase(st, r, cfg, c, index, page, fetch);
      st'.seenCharges == st.seenCharges + Keys(d.1, ChargeKey) &&
      st'.seenDockets == st.seenDockets + Keys(d.2, DocketKey) &&
      r'.newCharges == r.newCharges + Unseen(st.seenCharges, d.1, ChargeKey) &&
      r'.newDockets == r.newDockets + Unseen(st.seenDockets, d.2, DocketKey)
  {
  }

  /** The case loop over the whole list. */
  function RunCases(st: MonitorState, r: Results, cfg: Config, cases: seq<CaseSummary>,
                    page: string -> CasePage, fetch: string -> bool): (MonitorState, Results)
    decreases |cases|
  {
    if |cases| == 0 then (st, r)
    else
      var p := RunCases(st, r, cfg, cases[..|cases| - 1], page, fetch);
      VisitCase(p.0, p.1, cfg, cases[|cases| - 1], |cases| - 1, page, fetch)
  }

  /** The case loop over a prefix one longer visits one more case. */
  lemma RunCasesStep(st: MonitorState, r: Results, cfg: Config, cases: seq<CaseSummary>, i: nat,
                     page: string -> CasePage, fetch: string -> bool)
    requires i < |cases|
    ensures var p := RunCases(st, r, cfg, cases[..i], page, fetch);
      RunCases(st, r, cfg, cases[..i + 1], page, fetch) == VisitCase(p.0, p.1, cfg, cases[i], i, page, fetch)
  {
    assert cases[..i + 1][..i] == cases[..i];
  }

  /** The cases a cycle works on. */
  function CasesToCheck(cfg: Config, popup: seq<Table>): seq<CaseSummary>
  {
    if cfg.filter != "" then FilterCases(CasesOf(popup), cfg.filter) else CasesOf(popup)
  }

  /** check_all_cases: with a filter that matches no case the results stay
      zero; otherwise every case to check is counted and visited. */
  function CheckAllCases(st: MonitorState, cfg: Config, popup: seq<Table>,
                         page: string -> CasePage, fetch: string -> bool): (MonitorState, Results)
  {
    var cases := CasesToCheck(cfg, popup);
    if cfg.filter != "" && cases == [] then (st, NoResults)
    else RunCases(st, NoResults.(totalCases := |cases|), cfg, cases, page, fetch)
  }

  /** With a filter, exactly the cases with that number are checked, in
      their order on the case list; a filter no case matches leaves state
      and results as they were. */
  lemma CheckAllCasesFilter(st: MonitorState, cfg: Config, popup: seq<Table>,
                            page: string -> CasePage, fetch: string -> bool)
    requires cfg.filter != ""
    ensures forall c :: c in CasesToCheck(cfg, popup) <==> c in CasesOf(popup) && c.caseNumber == cfg.filter
    ensures (forall c :: c in CasesOf(popup) ==> c.caseNumber != cfg.filter) ==>
      CheckAllCases(st, cfg, popup, page, fetch) == (st, NoResults)
  {
    if forall c :: c in CasesOf(popup) ==> c.caseNumber != cfg.filter {
      var cases := CasesToCheck(cfg, popup);
      assert cases == [] || cases[0] in cases;
    }
  }

  // What a run of the case loop reads

  /** The keys of the charges read by the visited cases. */
  function ChargeKeysRead(cases: seq<CaseSummary>, page: string -> CasePage): set<string>
    decreases |cases|
  {
    if |cases| == 0 then {}
    else
      var i := |cases| - 1;
      var cn := cases[i].caseNumber;
      ChargeKeysRead(cases[..i], page) +
      (if Visited(cases, page, i) then Keys(ChargesRead(cn, page(cn)), ChargeKey) else {})
  }

  /** The keys of the docket entries read by the visited cases. */
  function DocketKeysRead(cases: seq<CaseSummary>, page: string -> CasePage): set<string>
    decreases |cases|
  {
    if |cases| == 0 then {}
    else
      var i := |cases| - 1;
      var cn := cases[i].caseNumber;
      DocketKeysRead(cases[..i], page) +
      (if Visited(cases, page, i) then Keys(DocketsRead(cn, page(cn)), DocketKey) else {})
  }

  /** A visit adds to the seen-sets the keys of the records it reads. */
  lemma VisitSeen(st: MonitorState, r: Results, cfg: Config, c: CaseSummary, index: nat,
                  page: string -> CasePage, fetch: string -> bool)
    ensures var st' := VisitCase(st, r, cfg, c, index, page, fetch).0;
      var pg := page(c.caseNumber);
      var visited := index == 0 || pg.reachable;
      st'.seenCharges == st.seenCharges + (if visited then Keys(ChargesRead(c.caseNumber, pg), ChargeKey) else {}) &&
      st'.seenDockets == st.seenDockets + (if visited then Keys(DocketsRead(c.caseNumber, pg), DocketKey) else {})
  {
    if index == 0 || page(c.caseNumber).reachable {
      CaseDetailsRead(st.docs, cfg.downloadDocuments, c.caseNumber, page(c.caseNumber), fetch);
      VisitCaseRecords(st, r, cfg, c, index, page, fetch);
    }
  }

  /** After the case loop the seen-sets are the old ones plus the keys of
      every record read. */
  lemma {:induction false} RunCasesSeen(st: MonitorState, r: Results, cfg: Config, cases: seq<CaseSummary>,
                                        page: string -> CasePage, fetch: string -> bool)
    ensures var st' := RunCases(st, r, cfg, cases, page, fetch).0;
      st'.seenCharges == st.seenCharges + ChargeKeysRead(cases, page) &&
      st'.seenDockets == st.seenDockets + DocketKeysRead(cases, page)
    decreases |cases|
  {
    if |cases| > 0 {
      var i := |cases| - 1;
      var (st1, r1) := RunCases(st, r, cfg, cases[..i], page, fetch);
      RunCasesSeen(st, r, cfg, cases[..i], page, fetch);
      VisitSeen(st1, r1, cfg, cases[i], i, page, fetch);
    }
  }

  /** A visit keeps the reports fresh: what it adds to the charges reported
      since s0 is fresh since s0 as well. */
  lemma VisitFreshCharges(s0: set<string>, before: seq<Charge>, st: MonitorState, r: Results, cfg: Config,
                          c: CaseSummary, index: nat, page: string -> CasePage, fetch: string -> bool)
    requires before <= r.newCharges
    requires FreshSince(s0, st.seenCharges, r.newCharges[|before|..], ChargeKey)
    ensures var (st', r') := VisitCase(st, r, cfg, c, index, page, fetch);
      before <= r'.newCharges &&
      FreshSince(s0, st'.seenCharges, r'.newCharges[|before|..], ChargeKey)
  {
    if index == 0 || page(c.caseNumber).reachable {
      var d := CaseDetails(st.docs, cfg.downloadDocuments, c.caseNumber, page(c.caseNumber), fetch);
      VisitCaseRecords(st, r, cfg, c, index, page, fetch);
      FreshSinceSuffix(s0, st.seenCharges, before, r.newCharges, d.1, ChargeKey);
    }
  }


  /** A visit keeps the reported docket entries fresh in the same way. */
  lemma VisitFreshDockets(s0: set<string>, before: seq<DocketEntry>, st: MonitorState, r: Results, cfg: Config,
                          c: CaseSummary, index: nat, page: string -> CasePage, fetch: string -> bool)
    requires before <= r.newDockets
    requires FreshSince(s0, st.seenDockets, r.newDockets[|before|..], DocketKey)
    ensures var (st', r') := VisitCase(st, r, cfg, c, index, page, fetch);
      before <= r'.newDockets &&
      FreshSince(s0, st'.seenDockets, r'.newDockets[|before|..], DocketKey)
  {
    if index == 0 || page(c.caseNumber).reachable {
      var d := CaseDetails(st.docs, cfg.downloadDocuments, c.caseNumber, page(c.caseNumber), fetch);
      VisitCaseRecords(st, r, cfg, c, index, page, fetch);
      FreshSinceSuffix(s0, st.seenDockets, before, r.newDockets, d.2, DocketKey);
    }
  }

  /** The charges the case loop reports are fresh: each reported key was
      unknown before the loop, none is reported twice, and together they
      are exactly the keys the seen-set gained. */
  lemma {:induction false} RunCasesFreshCharges(st: MonitorState, r: Results, cfg: Config, cases: seq<CaseSummary>,
                                                page: string -> CasePage, fetch: string -> bool)
    ensures var (st', r') := RunCases(st, r, cfg, cases, page, fetch);
      r.newCharges <= r'.newCharges &&
      FreshSince(st.seenCharges, st'.seenCharges, r'.newCharges[|r.newCharges|..], ChargeKey)
    decreases |cases|
  {
    if |cases| == 0 {
      assert r.newCharges[|r.newCharges|..] == [];
    } else {
      var i := |cases| - 1;
      var (st1, r1) := RunCases(st, r, cfg, cases[..i], page, fetch);
      RunCasesFreshCharges(st, r, cfg, cases[..i], page, fetch);
      VisitFreshCharges(st.seenCharges, r.newCharges, st1, r1, cfg, cases[i], i, page, fetch);
    }
  }

  /** The docket entries the case loop reports are fresh in the same sense. */
  lemma {:induction false} RunCasesFreshDockets(st: MonitorState, r: Results, cfg: Config, cases: seq<CaseSummary>,
                                                page: string -> CasePage, fetch: string -> bool)
    ensures var (st', r') := RunCases(st, r, cfg, cases, page, fetch);
      r.newDockets <= r'.newDockets &&
      FreshSince(st.seenDockets, st'.seenDockets, r'.newDockets[|r.newDockets|..], DocketKey)
    decreases |cases|
  {
    if |cases| == 0 {
      assert r.newDockets[|r.newDockets|..] == [];
    } else {
      var i := |cases| - 1;
      var (st1, r1) := RunCases(st, r, cfg, cases[..i], page, fetch);
      RunCasesFreshDockets(st, r, cfg, cases[..i], page, fetch);
      VisitFreshDockets(st.seenDockets, r.newDockets, st1, r1, cfg, cases[i], i, page, fetch);
    }
  }

  /** A case loop over records whose keys are all known reports nothing new. */
  lemma {:induction false} RunCasesNoNew(st: MonitorState, r: Results, cfg: Config, cases: seq<CaseSummary>,
                                         page: string -> CasePage, fetch: string -> bool)
    requires ChargeKeysRead(cases, page) <= st.seenCharges
    requires DocketKeysRead(cases, page) <= st.seenDockets
    ensures RunCases(st, r, cfg, cases, page, fetch).1.newCharges == r.newCharges
    ensures RunCases(st, r, cfg, cases, page, fetch).1.newDockets == r.newDockets
    decreases |cases|
  {
    if |cases| > 0 {
      var i := |cases| - 1;
      var init := cases[..i];
      var c := cases[i];
      var (st1, r1) := RunCases(st, r, cfg, init, page, fetch);
      RunCasesNoNew(st, r, cfg, init, page, fetch);
      RunCasesSeen(st, r, cfg, init, page, fetch);
      VisitNoNew(st1, r1, cfg, c, i, page, fetch);
    }
  }

  /** A visit whose records are all seen already reports nothing new. */
  lemma VisitNoNew(st: MonitorState, r: Results, cfg: Config, c: CaseSummary, index: nat,
                   page: string -> CasePage, fetch: string -> bool)
    requires index == 0 || page(c.caseNumber).reachable ==>
      Keys(ChargesRead(c.caseNumber, page(c.caseNumber)), ChargeKey) <= st.seenCharges &&
      Keys(DocketsRead(c.caseNumber, page(c.caseNumber)), DocketKey) <= st.seenDockets
    ensures VisitCase(st, r, cfg, c, index, page, fetch).1.newCharges == r.newCharges
    ensures VisitCase(st, r, cfg, c, index, page, fetch).1.newDockets == r.newDockets
  {
    if index == 0 || page(c.caseNumber).reachable {
      var d := CaseDetails(st.docs, cfg.downloadDocuments, c.caseNumber, page(c.caseNumber), fetch);
      CaseDetailsRead(st.docs, cfg.downloadDocuments, c.caseNumber, page(c.caseNumber), fetch);
      VisitCaseRecords(st, r, cfg, c, index, page, fetch);
      UnseenNone(st.seenCharges, d.1, ChargeKey);
      UnseenNone(st.seenDockets, d.2, DocketKey);
    }
  }

  /** Checking again, against the state the first check left and with the
      same portal, reports no new charge and no new docket entry. */
  lemma SecondCheckReportsNothing(st: MonitorState, cfg: Config, popup: seq<Table>,
                                  page: string -> CasePage, fetch: string -> bool, fetch2: string -> bool)
    ensures var st1 := CheckAllCases(st, cfg, popup, page, fetch).0;
      CheckAllCases(st1, cfg, popup, page, fetch2).1.newCharges == [] &&
      CheckAllCases(st1, cfg, popup, page, fetch2).1.newDockets == []
  {
    var cases := CasesToCheck(cfg, popup);
    if !(cfg.filter != "" && cases == []) {
      var r0 := NoResults.(totalCases := |cases|);
      var st1 := RunCases(st, r0, cfg, cases, page, fetch).0;
      RunCasesSeen(st, r0, cfg, cases, page, fetch);
      RunCasesNoNew(st1, r0, cfg, cases, page, fetch2);
    }
  }

  /** The reports of a check are new and without repeats: every reported
      key was unknown before, no key is reported twice, and the keys
      reported are exactly the keys the seen-sets gained. */
  lemma CheckAllCasesFresh(st: MonitorState, cfg: Config, popup: seq<Table>,
                           page: string -> CasePage, fetch: string -> bool)
    ensures var (st', r') := CheckAllCases(st, cfg, popup, page, fetch);
      FreshSince(st.seenCharges, st'.seenCharges, r'.newCharges, ChargeKey) &&
      FreshSince(st.seenDockets, st'.seenDockets, r'.newDockets, DocketKey)
  {
    var cases := CasesToCheck(cfg, popup);
    if !(cfg.filter != "" && cases == []) {
      var r0 := NoResults.(totalCases := |cases|);
      RunCasesFreshCharges(st, r0, cfg, cases, page, fetch);
      RunCasesFreshDockets(st, r0, cfg, cases, page, fetch);
      var r' := RunCases(st, r0, cfg, cases, page, fetch).1;
      assert r'.newCharges[0..] == r'.newCharges;
      assert r'.newDockets[0..] == r'.newDockets;
    } else {
      var noCharges: seq<Charge> := [];
      var noDockets: seq<DocketEntry> := [];
      assert Keys(noCharges, ChargeKey) == {};
      assert Keys(noDockets, DocketKey) == {};
    }
  }

  // Counts

  /** The sum of one count over the per-case entries. */
  function Sum(ts: seq<CaseTally>, f: CaseTally -> nat): nat
    decreases |ts|
  {
    if |ts| == 0 then 0 else Sum(ts[..|ts| - 1], f) + f(ts[|ts| - 1])
  }

  /** The totals of a result agree with its per-case entries. */
  predicate Consistent(r: Results)
  {
    r.totalCharges == Sum(r.summaries, (t: CaseTally) => t.chargeCount) &&
    r.totalDockets == Sum(r.summaries, (t: CaseTally) => t.docketCount) &&
    |r.newCharges| == Sum(r.summaries, (t: CaseTally) => t.newChargesCount) &&
    |r.newDockets| == Sum(r.summaries, (t: CaseTally) => t.newDocketsCount) &&
    |r.summaries| <= r.totalCases
  }

  /** Each visited case adds one entry whose counts are those the totals
      grow by; the number of cases is not changed by the loop. */
  lemma {:induction false} RunCasesCounts(st: MonitorState, r: Results, cfg: Config, cases: seq<CaseSummary>,
                                          page: string -> CasePage, fetch: string -> bool)
    requires Consistent(r) && |r.summaries| + |cases| <= r.totalCases
    ensures var r' := RunCases(st, r, cfg, cases, page, fetch).1;
      Consistent(r') && r'.totalCases == r.totalCases && |r'.summaries| <= |r.summaries| + |cases|
    decreases |cases|
  {
    if |cases| > 0 {
      var i := |cases| - 1;
      RunCasesCounts(st, r, cfg, cases[..i], page, fetch);
      var r1 := RunCases(st, r, cfg, cases[..i], page, fetch).1;
      var r2 := RunCases(st, r, cfg, cases, page, fetch).1;
      if |r2.summaries| > |r1.summaries| {
        assert r2.summaries[..|r2.summaries| - 1] == r1.summaries;
      }
    }
  }

  /** A visited case appends one entry: its number, the numbers of charges
      and docket entries read, the numbers of those reported as new, and its
      first charge. A case skipped because the list could not be brought
      back changes nothing. */
  lemma VisitTally(st: MonitorState, r: Results, cfg: Config, c: CaseSummary, index: nat,
                   page: string -> CasePage, fetch: string -> bool)
    ensures index > 0 && !page(c.caseNumber).reachable ==>
      VisitCase(st, r, cfg, c, index, page, fetch) == (st, r)
    ensures index == 0 || page(c.caseNumber).reachable ==>
      var d := CaseDetails(st.docs, cfg.downloadDocuments, c.caseNumber, page(c.caseNumber), fetch);
      VisitCase(st, r, cfg, c, index, page, fetch).1.summaries == r.summaries +
        [CaseTally(c.caseNumber, |d.1|, |d.2|, |Unseen(st.seenCharges, d.1, ChargeKey)|,
                   |Unseen(st.seenDockets, d.2, DocketKey)|, c.firstCharge)]
  {
  }

  /** What an entry records of its case: the case number, the first
      charge, and the numbers of charges and docket entries. */
  function TallyView(t: CaseTally): (string, string, nat, nat)
  {
    (t.caseNumber, t.firstCharge, t.chargeCount, t.docketCount)
  }

  function TallyViews(ts: seq<CaseTally>): (vs: seq<(string, string, nat, nat)>)
    ensures |vs| == |ts|
    decreases |ts|
  {
    if |ts| == 0 then [] else TallyViews(ts[..|ts| - 1]) + [TallyView(ts[|ts| - 1])]
  }

  /** What the entries of the visited cases record, in the order of the
      visits: each case's number and first charge, and the numbers of
      charges and docket entries its page shows. */
  function ExpectedTallies(cases: seq<CaseSummary>, page: string -> CasePage): seq<(string, string, nat, nat)>
    decreases |cases|
  {
    if |cases| == 0 then []
    else
      var i := |cases| - 1;
      var c := cases[i];
      var pg := page(c.caseNumber);
      ExpectedTallies(cases[..i], page) +
      (if Visited(cases, page, i)
       then [(c.caseNumber, c.firstCharge, |ChargesRead(c.caseNumber, pg)|, |DocketsRead(c.caseNumber, pg)|)]
       else [])
  }

  lemma VisitTallyView(st: MonitorState, r: Results, cfg: Config, c: CaseSummary, index: nat,
                       page: string -> CasePage, fetch: string -> bool)
    ensures var s := VisitCase(st, r, cfg, c, index, page, fetch).1.summaries;
      var pg := page(c.caseNumber);
      if index == 0 || pg.reachable
      then |s| == |r.summaries| + 1 && s == r.summaries + [s[|r.summaries|]] &&
        TallyView(s[|r.summaries|]) == (c.caseNumber, c.firstCharge, |ChargesRead(c.caseNumber, pg)|, |DocketsRead(c.caseNumber, pg)|)
      else s == r.summaries
  {
    VisitTally(st, r, cfg, c, index, page, fetch);
    CaseDetailsRead(st.docs, cfg.downloadDocuments, c.caseNumber, page(c.caseNumber), fetch);
  }

  /** The loop keeps the entries it starts with and appends exactly one per
      visited case, in the order of the visits, each recording its own case. */
  lemma {:induction false} RunCasesTallies(st: MonitorState, r: Results, cfg: Config, cases: seq<CaseSummary>,
                                           page: string -> CasePage, fetch: string -> bool)
    ensures var s := RunCases(st, r, cfg, cases, page, fetch).1.summaries;
      |r.summaries| <= |s| && s[..|r.summaries|] == r.summaries &&
      TallyViews(s[|r.summaries|..]) == ExpectedTallies(cases, page)
    decreases |cases|
  {
    var m := |r.summaries|;
    if |cases| == 0 {
      assert r.summaries[m..] == [];
    } else {
      var i := |cases| - 1;
      var c := cases[i];
      var p := RunCases(st, r, cfg, cases[..i], page, fetch);
      RunCasesTallies(st, r, cfg, cases[..i], page, fetch);
      VisitTallyView(p.0, p.1, cfg, c, i, page, fetch);
      var s1 := p.1.summaries;
      var s := VisitCase(p.0, p.1, cfg, c, i, page, fetch).1.summaries;
      if Visited(cases, page, i) {
        TallyViewsSnoc(s1, m, s[|s1|]);
      }
    }
  }

  lemma TallyViewsSnoc(s1: seq<CaseTally>, m: nat, t: CaseTally)
    requires m <= |s1|
    ensures (s1 + [t])[..m] == s1[..m]
    ensures TallyViews((s1 + [t])[m..]) == TallyViews(s1[m..]) + [TallyView(t)]
  {
    var a := s1[m..];
    assert (s1 + [t])[m..] == a + [t];
    assert (a + [t])[..|a|] == a;
  }

  /** The results of a check are consistent: the totals are the sums of
      the per-case counts, and there is at most one entry per case. */
  lemma CheckAllCasesCounts(st: MonitorState, cfg: Config, popup: seq<Table>,
                            page: string -> CasePage, fetch: string -> bool)
    ensures var r := CheckAllCases(st, cfg, popup, page, fetch).1;
      Consistent(r) && r.totalCases == (if cfg.filter != "" && CasesToCheck(cfg, popup) == [] then 0 else |CasesToCheck(cfg, popup)|)
  {
    var cases := CasesToCheck(cfg, popup);
    if !(cfg.filter != "" && cases == []) {
      RunCasesCounts(st, NoResults.(totalCases := |cases|), cfg, cases, page, fetch);
    }
  }

  /** Every visited case has an entry in the case map whose counts are the
      numbers of charges and docket entries read for it. */
  lemma {:induction false} RunCasesInfo(st: MonitorState, r: Results, cfg: Config, cases: seq<CaseSummary>,
                                        page: string -> CasePage, fetch: string -> bool)
    ensures var st' := RunCases(st, r, cfg, cases, page, fetch).0;
      forall i :: 0 <= i < |cases| && Visited(cases, page, i) ==>
        var cn := cases[i].caseNumber;
        cn in st'.caseInfo &&
        st'.caseInfo[cn].chargeCount == |ChargesRead(cn, page(cn))| &&
        st'.caseInfo[cn].docketCount == |DocketsRead(cn, page(cn))|
    decreases |cases|
  {
    if |cases| > 0 {
      var n := |cases| - 1;
      var init := cases[..n];
      RunCasesInfo(st, r, cfg, init, page, fetch);
      var st1 := RunCases(st, r, cfg, init, page, fetch).0;
      var st2 := RunCases(st, r, cfg, cases, page, fetch).0;
      var c := cases[n];
      VisitInfo(st1, RunCases(st, r, cfg, init, page, fetch).1, cfg, c, n, page, fetch);
      forall i | 0 <= i < |cases| && Visited(cases, page, i)
        ensures cases[i].caseNumber in st2.caseInfo &&
          st2.caseInfo[cases[i].caseNumber].chargeCount == |ChargesRead(cases[i].caseNumber, page(cases[i].caseNumber))| &&
          st2.caseInfo[cases[i].caseNumber].docketCount == |DocketsRead(cases[i].caseNumber, page(cases[i].caseNumber))|
      {
        if i < n {
          assert cases[i] == init[i];
          assert Visited(init, page, i);
        }
      }
    }
  }

  /** A visit enters its case in the case map with the counts read, and
      leaves the other entries alone; a skipped case changes nothing. */
  lemma VisitInfo(st: MonitorState, r: Results, cfg: Config, c: CaseSummary, index: nat,
                  page: string -> CasePage, fetch: string -> bool)
    ensures var ci := VisitCase(st, r, cfg, c, index, page, fetch).0.caseInfo;
      var cn := c.caseNumber;
      if index == 0 || page(cn).reachable
      then cn in ci && ci == st.caseInfo[cn := ci[cn]] &&
        ci[cn].chargeCount == |ChargesRead(cn, page(cn))| &&
        ci[cn].docketCount == |DocketsRead(cn, page(cn))|
      else ci == st.caseInfo
  {
    CaseDetailsRead(st.docs, cfg.downloadDocuments, c.caseNumber, page(c.caseNumber), fetch);
  }
}
