/** The records the monitor reads off the portal and keeps between runs. */
module Records {

  datatype Option<T> = None | Some(value: T)

  /** One row of a case's CHARGES table. */
  datatype Charge = Charge(
    caseNumber: string,
    sequenceNumber: string,
    description: string,
    chargeType: string,
    disposition: string)

  /** One row of a case's DOCKETS table, with the outcome of its download. */
  datatype DocketEntry = DocketEntry(
    caseNumber: string,
    din: string,
    date: string,
    description: string,
    bookPage: string,
    hasDocument: bool,
    downloaded: bool,
    filename: string)

  /** One row of the defendant's case list. */
  datatype CaseSummary = CaseSummary(
    caseNumber: string,
    filedDate: string,
    closedDate: string,
    firstCharge: string,
    balanceDue: string)

  /** What the monitor remembers about a case; the counts are those of the
      latest read, not running totals. */
  datatype CaseInfo = CaseInfo(
    caseNumber: string,
    filedDate: string,
    closedDate: string,
    firstCharge: string,
    balanceDue: string,
    chargeCount: nat,
    docketCount: nat)

  /** What the first cell of a row holds besides its text: the text of its
      first link (if any), whether it holds an image or an SVG icon, and the
      aria-label of each span with role="button" in it (None for a button
      span without a label). */
  datatype Marks = Marks(
    link: Option<string>,
    image: bool,
    svg: bool,
    buttons: seq<Option<string>>)

  const NoMarks := Marks(None, false, false, [])

  /** A table row: the trimmed texts of its data cells, and the marks of the
      first cell. A header row has no data cells. */
  datatype Row = Row(cells: seq<string>, marks: Marks)

  /** A table: the texts of its header cells and all its rows, the header
      row included. */
  datatype Table = Table(headers: seq<string>, rows: seq<Row>)
}
