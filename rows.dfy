/** Mapping the case list, the CHARGES table, the DOCKETS table and the
    EXTRA DOCUMENTS table of the portal, given as rows of cell texts, to
    records. */
module Rows {
  import opened Text
  import opened Records

  /** Every row after the first (`rows[1:]`): the header row is skipped. */
  function Body<T>(rows: seq<T>): seq<T>
  {
    if |rows| == 0 then [] else rows[1..]
  }

  /** The values f gives, in the order of `xs`, dropping the rows it rejects. */
  function FilterMap<T, U>(xs: seq<T>, f: T -> Option<U>): seq<U>
  {
    if |xs| == 0 then []
    else (if f(xs[0]).Some? then [f(xs[0]).value] else []) + FilterMap(xs[1..], f)
  }

  lemma {:induction false} FilterMapAppend<T, U>(a: seq<T>, b: seq<T>, f: T -> Option<U>)
    ensures FilterMap(a + b, f) == FilterMap(a, f) + FilterMap(b, f)
  {
    if |a| == 0 {
      assert a + b == b;
    } else {
      assert (a + b)[0] == a[0];
      assert (a + b)[1..] == a[1..] + b;
      FilterMapAppend(a[1..], b, f);
    }
  }

  /** What a row-mapping loop collects: exactly the accepted rows, in order. */
  lemma {:induction false} FilterMapMembers<T, U>(xs: seq<T>, f: T -> Option<U>)
    ensures |FilterMap(xs, f)| <= |xs|
    ensures forall x :: x in xs && f(x).Some? ==> f(x).value in FilterMap(xs, f)
    ensures (forall x :: x in xs ==> f(x).None?) ==> FilterMap(xs, f) == []
    ensures forall y :: y in FilterMap(xs, f) ==> exists x :: x in xs && f(x) == Some(y)
  {
    if |xs| > 0 {
      FilterMapMembers(xs[1..], f);
      assert forall x :: x in xs ==> x == xs[0] || x in xs[1..];
      forall y | y in FilterMap(xs, f) ensures exists x :: x in xs && f(x) == Some(y) {
        if f(xs[0]).Some? && y == f(xs[0]).value {
          assert xs[0] in xs;
        } else {
          var x :| x in xs[1..] && f(x) == Some(y);
          assert x in xs;
        }
      }
    }
  }

  /** The elements `keep` accepts, each mapped by `g` together with its
      number, the first of `xs` being numbered `index`. */
  function FilterNumbered<T, U>(xs: seq<T>, index: nat, keep: T -> bool, g: (T, nat) -> U): seq<U>
    decreases |xs|
  {
    if |xs| == 0 then []
    else (if keep(xs[0]) then [g(xs[0], index)] else []) + FilterNumbered(xs[1..], index + 1, keep, g)
  }

  /** The number of elements `keep` accepts. */
  function CountKept<T>(xs: seq<T>, keep: T -> bool): nat
    decreases |xs|
  {
    if |xs| == 0 then 0
    else CountKept(xs[..|xs| - 1], keep) + (if keep(xs[|xs| - 1]) then 1 else 0)
  }

  lemma {:induction false} FilterNumberedAppend<T, U>(a: seq<T>, b: seq<T>, index: nat, keep: T -> bool, g: (T, nat) -> U)
    ensures FilterNumbered(a + b, index, keep, g) == FilterNumbered(a, index, keep, g) + FilterNumbered(b, index + |a|, keep, g)
  {
    if |a| == 0 {
      assert a + b == b;
    } else {
      assert (a + b)[0] == a[0] && (a + b)[1..] == a[1..] + b;
      FilterNumberedAppend(a[1..], b, index + 1, keep, g);
    }
  }

  /** One entry per accepted element, in order: element j, when accepted,
      gives the entry after those of the accepted elements before it. */
  lemma {:induction false} FilterNumberedAt<T, U>(xs: seq<T>, index: nat, keep: T -> bool, g: (T, nat) -> U)
    ensures |FilterNumbered(xs, index, keep, g)| == CountKept(xs, keep)
    ensures forall j :: 0 <= j < |xs| && keep(xs[j]) ==>
      CountKept(xs[..j], keep) < CountKept(xs, keep) &&
      FilterNumbered(xs, index, keep, g)[CountKept(xs[..j], keep)] == g(xs[j], index + j)
    decreases |xs|
  {
    if |xs| > 0 {
      var n := |xs| - 1;
      var init := xs[..n];
      assert xs == init + [xs[n]];
      FilterNumberedAt(init, index, keep, g);
      FilterNumberedAppend(init, [xs[n]], index, keep, g);
      assert [xs[n]][1..] == [];
      var r := FilterNumbered(xs, index, keep, g);
      forall j | 0 <= j < |xs| && keep(xs[j])
        ensures CountKept(xs[..j], keep) < CountKept(xs, keep)
        ensures r[CountKept(xs[..j], keep)] == g(xs[j], index + j)
      {
        if j < n {
          assert xs[..j] == init[..j] && xs[j] == init[j];
        } else {
          assert xs[..j] == init;
        }
      }
    }
  }

  /** The loop `for row in rows: ... if len(cells) >= N: out.append(...)`. */
  method ParseRows<U>(rows: seq<Row>, f: Row -> Option<U>) returns (out: seq<U>)
    ensures out == FilterMap(rows, f)
  {
    out := [];
    var i := 0;
    while i < |rows|
      invariant 0 <= i <= |rows|
      invariant out == FilterMap(rows[..i], f)
    {
      assert rows[..i + 1] == rows[..i] + [rows[i]];
      FilterMapAppend(rows[..i], [rows[i]], f);
      var v := f(rows[i]);
      if v.Some? {
        out := out + [v.value];
      }
      i := i + 1;
    }
    assert rows[..i] == rows;
  }

  // ---------------------------------------------------------------- case list

  /** The regular expression F-\d{2}-\d+ matches its fixed part at `i`. */
  predicate PatternAt(s: string, i: int)
  {
    0 <= i && i + 6 <= |s| && s[i] == 'F' && s[i + 1] == '-' &&
    IsDigit(s[i + 2]) && IsDigit(s[i + 3]) && s[i + 4] == '-' && IsDigit(s[i + 5])
  }

  /** The number of consecutive digits in `s` from position `j` on. */
  function DigitRun(s: string, j: nat): (n: nat)
    requires j <= |s|
    ensures j + n <= |s|
    ensures forall k :: j <= k < j + n ==> IsDigit(s[k])
    ensures j + n < |s| ==> !IsDigit(s[j + n])
    decreases |s| - j
  {
    if j < |s| && IsDigit(s[j]) then 1 + DigitRun(s, j + 1) else 0
  }

  /** Where `re.search(r'(F-\d{2}-\d+)', s)` finds its leftmost match, at
      or after `from`. */
  function FirstPatternAt(s: string, from: nat): (r: Option<nat>)
    requires from <= |s|
    ensures r.Some? ==> (from <= r.value < |s| && PatternAt(s, r.value) &&
      forall k :: from <= k < r.value ==> !PatternAt(s, k))
    ensures r.None? ==> forall k :: from <= k < |s| ==> !PatternAt(s, k)
    decreases |s| - from
  {
    if from == |s| then None
    else if PatternAt(s, from) then Some(from)
    else FirstPatternAt(s, from + 1)
  }

  /** The text of that match; the trailing digit run is taken greedily. */
  function SearchCaseNumber(s: string): Option<string>
  {
    match FirstPatternAt(s, 0)
    case None => None
    case Some(i) => Some(s[i .. i + 5 + DigitRun(s, i + 5)])
  }

  /** The case number of a case-list row: the link text if the first cell has
      a link, else the first F-NN-digits in the cell text, else its first line. */
  function CaseNumberOf(text: string, link: Option<string>): string
  {
    match link
    case Some(t) => Trim(t)
    case None =>
      match SearchCaseNumber(text)
      case Some(m) => m
      case None => Trim(FirstLine(text))
  }

  /** A case-list row: at least four cells and a non-empty case number. */
  function CaseOfRow(row: Row): (r: Option<CaseSummary>)
    ensures r.Some? <==> |row.cells| >= 4 && CaseNumberOf(row.cells[0], row.marks.link) != ""
    ensures r.Some? ==> r.value.caseNumber == CaseNumberOf(row.cells[0], row.marks.link)
  {
    if |row.cells| < 4 then None
    else
      var n := CaseNumberOf(row.cells[0], row.marks.link);
      if n == "" then None
      else Some(CaseSummary(n, row.cells[1], row.cells[2], row.cells[3],
                            if |row.cells| > 4 then row.cells[4] else ""))
  }

  /** The case list: every row of the first table of the popup. */
  function CasesOf(popup: seq<Table>): seq<CaseSummary>
  {
    if |popup| == 0 then [] else FilterMap(popup[0].rows, CaseOfRow)
  }

  /** The row the portal shows for a case, with the case number as a link. */
  function CaseRow(c: CaseSummary): Row
  {
    Row([c.caseNumber, c.filedDate, c.closedDate, c.firstCharge, c.balanceDue],
        Marks(Some(c.caseNumber), false, false, []))
  }

  lemma CaseRowRoundTrip(c: CaseSummary)
    requires c.caseNumber != "" && Trim(c.caseNumber) == c.caseNumber
    ensures CaseOfRow(CaseRow(c)) == Some(c)
  {
  }

  lemma {:induction false} FirstPatternFound(s: string, from: nat, i: nat)
    requires from <= i && PatternAt(s, i)
    requires forall k :: from <= k < i ==> !PatternAt(s, k)
    ensures FirstPatternAt(s, from) == Some(i)
    decreases i - from
  {
    if from < i {
      FirstPatternFound(s, from + 1, i);
    }
  }

  /** Without a link, a plain-text cell yields the first F-NN-digits it
      holds, with all the digits that follow; a cell without one yields its
      first line. */
  lemma PlainCaseNumber(text: string, i: nat)
    requires PatternAt(text, i) && forall k :: 0 <= k < i ==> !PatternAt(text, k)
    ensures CaseNumberOf(text, None) == text[i .. i + 5 + DigitRun(text, i + 5)]
    ensures i + 5 + DigitRun(text, i + 5) == |text| || !IsDigit(text[i + 5 + DigitRun(text, i + 5)])
  {
    FirstPatternFound(text, 0, i);
  }

  lemma FirstLineCaseNumber(text: string)
    requires forall k :: 0 <= k < |text| ==> !PatternAt(text, k)
    ensures CaseNumberOf(text, None) == Trim(FirstLine(text))
  {
    NoPatternNone(text);
  }

  lemma NoPatternNone(text: string)
    requires forall k :: 0 <= k < |text| ==> !PatternAt(text, k)
    ensures FirstPatternAt(text, 0) == None
  {
  }

  // --------------------------------------------------------- tables by header

  datatype TableKind = ChargesTable | DocketsTable | ExtraDocumentsTable

  /** The lower-cased, blank-joined header texts. */
  function HeaderText(headers: seq<string>): string
  {
    Lower(Join(headers, " "))
  }

  /** How each table is recognised by its headers. */
  predicate IsKind(kind: TableKind, headers: seq<string>)
  {
    var h := HeaderText(headers);
    match kind
    case ChargesTable => |headers| > 0 && Contains(h, "seq no") && Contains(h, "charge")
    case DocketsTable => |headers| > 0 && Contains(h, "din") && Contains(h, "docket")
    case ExtraDocumentsTable =>
      |headers| >= 2 && (Contains(h, "view") || Contains(h, "image")) &&
      Contains(h, "document") && !Contains(h, "din") && !Contains(h, "book")
  }

  /** The index of the first table of the kind, at or after `from`. */
  function FindTable(tables: seq<Table>, kind: TableKind, from: nat): (r: Option<nat>)
    requires from <= |tables|
    ensures r.Some? ==> (from <= r.value < |tables| && IsKind(kind, tables[r.value].headers) &&
      forall j :: from <= j < r.value ==> !IsKind(kind, tables[j].headers))
    ensures r.None? ==> forall j :: from <= j < |tables| ==> !IsKind(kind, tables[j].headers)
    decreases |tables| - from
  {
    if from == |tables| then None
    else if IsKind(kind, tables[from].headers) then Some(from)
    else FindTable(tables, kind, from + 1)
  }

  /** Tables of other kinds before a table of the kind are passed over. */
  lemma {:induction false} FindTableAfter(others: seq<Table>, t: Table, kind: TableKind, from: nat)
    requires from <= |others|
    requires forall u :: u in others ==> !IsKind(kind, u.headers)
    requires IsKind(kind, t.headers)
    ensures FindTable(others + [t], kind, from) == Some(|others|)
    decreases |others| - from
  {
    var tables := others + [t];
    if from < |others| {
      assert tables[from] == others[from] && others[from] in others;
      FindTableAfter(others, t, kind, from + 1);
    } else {
      assert tables[from] == t;
    }
  }

  /** The rows of the first table of the kind without its header row, or
      none when no table is of that kind. */
  function BodyOf(tables: seq<Table>, kind: TableKind): seq<Row>
  {
    match FindTable(tables, kind, 0)
    case None => []
    case Some(i) => Body(tables[i].rows)
  }

  // ---------------------------------------------------------------- charges

  /** A CHARGES row: Seq No, Charge, Type and, if present, Disposition. */
  function ChargeOfRow(caseNumber: string, row: Row): (r: Option<Charge>)
    ensures r.Some? <==> |row.cells| >= 3
    ensures r.Some? ==> r.value.caseNumber == caseNumber
  {
    if |row.cells| < 3 then None
    else Some(Charge(caseNumber, row.cells[0], row.cells[1], row.cells[2],
                     if |row.cells| > 3 then row.cells[3] else ""))
  }

  /** The row mapping of a case's charges, as a function value. */
  function ChargeParser(caseNumber: string): Row -> Option<Charge>
  {
    (row: Row) => ChargeOfRow(caseNumber, row)
  }

  function ChargesOf(caseNumber: string, tables: seq<Table>): seq<Charge>
  {
    FilterMap(BodyOf(tables, ChargesTable), ChargeParser(caseNumber))
  }

  lemma ChargeFields(caseNumber: string, row: Row)
    requires |row.cells| >= 3
    ensures ChargeOfRow(caseNumber, row).Some?
    ensures var c := ChargeOfRow(caseNumber, row).value;
      c.sequenceNumber == row.cells[0] && c.description == row.cells[1] &&
      c.chargeType == row.cells[2] &&
      c.disposition == (if |row.cells| > 3 then row.cells[3] else "")
  {
  }

  /** The CHARGES row the portal shows for a charge. */
  function ChargeRow(c: Charge): Row
  {
    Row([c.sequenceNumber, c.description, c.chargeType, c.disposition], NoMarks)
  }

  function ChargeRows(cs: seq<Charge>): (rows: seq<Row>)
    ensures |rows| == |cs|
    ensures forall i :: 0 <= i < |cs| ==> rows[i] == ChargeRow(cs[i])
  {
    if |cs| == 0 then [] else [ChargeRow(cs[0])] + ChargeRows(cs[1..])
  }

  /** Reading back a CHARGES table that lists the charges of one case gives
      those charges, whatever the header row holds and whatever tables of
      other kinds come before it. */
  lemma {:induction false} ChargesRoundTrip(caseNumber: string, others: seq<Table>, headers: seq<string>, header: Row, cs: seq<Charge>)
    requires forall t :: t in others ==> !IsKind(ChargesTable, t.headers)
    requires IsKind(ChargesTable, headers)
    requires forall c :: c in cs ==> c.caseNumber == caseNumber
    ensures ChargesOf(caseNumber, others + [Table(headers, [header] + ChargeRows(cs))]) == cs
  {
    var t := Table(headers, [header] + ChargeRows(cs));
    FindTableAfter(others, t, ChargesTable, 0);
    assert BodyOf(others + [t], ChargesTable) == ChargeRows(cs);
    ChargeRowsRead(caseNumber, cs);
  }

  lemma {:induction false} ChargeRowsRead(caseNumber: string, cs: seq<Charge>)
    requires forall c :: c in cs ==> c.caseNumber == caseNumber
    ensures FilterMap(ChargeRows(cs), ChargeParser(caseNumber)) == cs
  {
    if |cs| > 0 {
      assert ChargeRows(cs)[1..] == ChargeRows(cs[1..]);
      assert cs[0] in cs;
      ChargeRowsRead(caseNumber, cs[1..]);
      assert cs == [cs[0]] + cs[1..];
    }
  }

  // ---------------------------------------------------------------- dockets

  /** A DOCKETS row has a document when its first cell holds an image, a
      link, an SVG icon or a button labelled "View Docket Image". */
  predicate HasDocketImage(m: Marks)
  {
    m.link.Some? || m.image || m.svg || Some("View Docket Image") in m.buttons
  }

  /** A DOCKETS row: View Image, Din, Date, Book/Page and, if present, Docket. */
  function DocketOfRow(caseNumber: string, row: Row): (r: Option<DocketEntry>)
    ensures r.Some? <==> |row.cells| >= 4
    ensures r.Some? ==> (r.value.caseNumber == caseNumber &&
      r.value.hasDocument == HasDocketImage(row.marks) &&
      !r.value.downloaded && r.value.filename == "")
  {
    if |row.cells| < 4 then None
    else Some(DocketEntry(caseNumber, row.cells[1], row.cells[2],
                          if |row.cells| > 4 then row.cells[4] else "",
                          row.cells[3], HasDocketImage(row.marks), false, ""))
  }

  /** The row mapping of a case's docket entries, as a function value. */
  function DocketParser(caseNumber: string): Row -> Option<DocketEntry>
  {
    (row: Row) => DocketOfRow(caseNumber, row)
  }

  function DocketsOf(caseNumber: string, tables: seq<Table>): seq<DocketEntry>
  {
    FilterMap(BodyOf(tables, DocketsTable), DocketParser(caseNumber))
  }

  lemma DocketFields(caseNumber: string, row: Row)
    requires |row.cells| >= 4
    ensures DocketOfRow(caseNumber, row).Some?
    ensures var d := DocketOfRow(caseNumber, row).value;
      d.din == row.cells[1] && d.date == row.cells[2] && d.bookPage == row.cells[3] &&
      d.description == (if |row.cells| > 4 then row.cells[4] else "")
  {
  }

  /** The DOCKETS row the portal shows for a docket entry not yet downloaded. */
  function DocketRow(d: DocketEntry): Row
  {
    Row(["", d.din, d.date, d.bookPage, d.description],
        Marks(None, d.hasDocument, false, []))
  }

  lemma DocketRowRoundTrip(d: DocketEntry)
    requires !d.downloaded && d.filename == ""
    ensures DocketOfRow(d.caseNumber, DocketRow(d)) == Some(d)
  {
  }

  function DocketRows(ds: seq<DocketEntry>): (rows: seq<Row>)
    ensures |rows| == |ds|
    ensures forall i :: 0 <= i < |ds| ==> rows[i] == DocketRow(ds[i])
  {
    if |ds| == 0 then [] else [DocketRow(ds[0])] + DocketRows(ds[1..])
  }

  lemma {:induction false} DocketRowsRead(caseNumber: string, ds: seq<DocketEntry>)
    requires forall d :: d in ds ==> d.caseNumber == caseNumber && !d.downloaded && d.filename == ""
    ensures FilterMap(DocketRows(ds), DocketParser(caseNumber)) == ds
  {
    if |ds| > 0 {
      assert DocketRows(ds)[1..] == DocketRows(ds[1..]);
      assert ds[0] in ds;
      DocketRowRoundTrip(ds[0]);
      DocketRowsRead(caseNumber, ds[1..]);
      assert ds == [ds[0]] + ds[1..];
    }
  }

  /** Reading back a DOCKETS table that lists entries of one case, not yet
      downloaded, gives those entries: the header row is skipped, whatever
      it holds, and tables of other kinds before it are passed over. */
  lemma DocketsRoundTrip(caseNumber: string, others: seq<Table>, headers: seq<string>, header: Row, ds: seq<DocketEntry>)
    requires forall t :: t in others ==> !IsKind(DocketsTable, t.headers)
    requires IsKind(DocketsTable, headers)
    requires forall d :: d in ds ==> d.caseNumber == caseNumber && !d.downloaded && d.filename == ""
    ensures DocketsOf(caseNumber, others + [Table(headers, [header] + DocketRows(ds))]) == ds
  {
    var t := Table(headers, [header] + DocketRows(ds));
    FindTableAfter(others, t, DocketsTable, 0);
    assert BodyOf(others + [t], DocketsTable) == DocketRows(ds);
    DocketRowsRead(caseNumber, ds);
  }

  // -------------------------------------------------------- extra documents

  /** An EXTRA DOCUMENTS row offers a document when its first cell holds an
      image, a link, an SVG icon or any button span. */
  predicate HasViewControl(m: Marks)
  {
    m.link.Some? || m.image || m.svg || |m.buttons| > 0
  }

  /** The position of the first cell, at or after `from`, whose text is
      longer than three characters. */
  function FirstLongCell(cells: seq<string>, from: nat): (r: Option<nat>)
    requires from <= |cells|
    ensures r.Some? ==> (from <= r.value < |cells| && |cells[r.value]| > 3 &&
      forall j :: from <= j < r.value ==> |cells[j]| <= 3)
    ensures r.None? ==> forall j :: from <= j < |cells| ==> |cells[j]| <= 3
    decreases |cells| - from
  {
    if from == |cells| then None
    else if |cells[from]| > 3 then Some(from)
    else FirstLongCell(cells, from + 1)
  }

  /** The description of an EXTRA DOCUMENTS row: the last cell when the row
      has three or more cells and that text has at least three characters;
      otherwise the first cell after the view cell longer than three
      characters, falling back to the (short) last cell and then to
      "extra-doc-<row>". */
  function ExtraDescription(cells: seq<string>, rowIndex: nat): (r: string)
    requires |cells| >= 2
    ensures r != ""
    ensures r in cells[1..] || r == "extra-doc-" + NatToString(rowIndex)
    ensures |cells| >= 3 && |cells[|cells| - 1]| >= 3 ==> r == cells[|cells| - 1]
    ensures !(|cells| >= 3 && |cells[|cells| - 1]| >= 3) ==>
      forall i :: 1 <= i < |cells| && |cells[i]| > 3 && (forall j :: 1 <= j < i ==> |cells[j]| <= 3) ==>
        r == cells[i]
    ensures !(|cells| >= 3 && |cells[|cells| - 1]| >= 3) && (forall j :: 1 <= j < |cells| ==> |cells[j]| <= 3) ==>
      r == if |cells| >= 3 && cells[|cells| - 1] != "" then cells[|cells| - 1] else "extra-doc-" + NatToString(rowIndex)
  {
    var last := if |cells| >= 3 then cells[|cells| - 1] else "";
    if |last| >= 3 then last
    else
      match FirstLongCell(cells, 1)
      case Some(i) => cells[i]
      case None => if last == "" then "extra-doc-" + NatToString(rowIndex) else last
  }

  /** A row whose last cell is short takes the first long cell after the
      view cell. */
  lemma ExtraDescriptionExample()
    ensures ExtraDescription(["", "ab", "Long text", "x"], 1) == "Long text"
  {
    var cells := ["", "ab", "Long text", "x"];
    assert |cells[1]| <= 3 && |cells[2]| > 3;
  }

  /** A row of at least two cells whose first cell has a view control. */
  predicate OffersDocument(row: Row)
  {
    |row.cells| >= 2 && HasViewControl(row.marks)
  }

  /** The description of a row numbered `index`; a row of fewer than two
      cells offers no document and is never described. */
  function DescribeRow(row: Row, index: nat): string
  {
    if |row.cells| >= 2 then ExtraDescription(row.cells, index) else ""
  }

  /** The descriptions of the rows that offer a document, `index` being the
      number of the first of `rows` among the table's body rows. */
  function ExtraDescriptions(rows: seq<Row>, index: nat): seq<string>
  {
    FilterNumbered(rows, index, OffersDocument, DescribeRow)
  }

  /** The number of rows that offer a document. */
  function CountOffering(rows: seq<Row>): nat
  {
    CountKept(rows, OffersDocument)
  }

  /** The descriptions listed are those of exactly the rows that offer a
      document, in table order: there is one per such row, and the row j,
      numbered index + j, gives the entry after those of the offering rows
      before it. */
  lemma ExtraDescriptionsAt(rows: seq<Row>, index: nat)
    ensures |ExtraDescriptions(rows, index)| == CountOffering(rows)
    ensures forall j :: 0 <= j < |rows| && OffersDocument(rows[j]) ==>
      CountOffering(rows[..j]) < CountOffering(rows) &&
      ExtraDescriptions(rows, index)[CountOffering(rows[..j])] == ExtraDescription(rows[j].cells, index + j)
  {
    FilterNumberedAt(rows, index, OffersDocument, DescribeRow);
  }

  /** Rows are read one by one, in order, each with its own number. */
  lemma ExtraDescriptionsAppend(a: seq<Row>, b: seq<Row>, index: nat)
    ensures ExtraDescriptions(a + b, index) == ExtraDescriptions(a, index) + ExtraDescriptions(b, index + |a|)
  {
    FilterNumberedAppend(a, b, index, OffersDocument, DescribeRow);
  }

  /** One row gives its description exactly when it offers a document. */
  lemma ExtraDescriptionsOne(row: Row, index: nat)
    ensures ExtraDescriptions([row], index) ==
      if OffersDocument(row) then [ExtraDescription(row.cells, index)] else []
  {
    var one := [row];
    assert one[0] == row && one[1..] == [];
    assert FilterNumbered(one[1..], index + 1, OffersDocument, DescribeRow) == [];
  }

  /** The extra documents a case offers, when its tab could be opened. */
  function ExtraDocumentsOf(view: Option<seq<Table>>): seq<string>
  {
    match view
    case None => []
    case Some(tables) => ExtraDescriptions(BodyOf(tables, ExtraDocumentsTable), 1)
  }

  /** The header row of the EXTRA DOCUMENTS table is skipped, whatever it
      holds, and its body rows are numbered from 1. */
  lemma ExtraDocumentsTableRead(others: seq<Table>, headers: seq<string>, header: Row, rows: seq<Row>)
    requires forall t :: t in others ==> !IsKind(ExtraDocumentsTable, t.headers)
    requires IsKind(ExtraDocumentsTable, headers)
    ensures ExtraDocumentsOf(Some(others + [Table(headers, [header] + rows)])) == ExtraDescriptions(rows, 1)
  {
    var t := Table(headers, [header] + rows);
    FindTableAfter(others, t, ExtraDocumentsTable, 0);
    assert ([header] + rows)[1..] == rows;
  }
}
