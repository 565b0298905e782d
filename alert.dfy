/** The text of a new-entries alert, built line by line and joined with
    newlines. The pictograms are kept exactly as the program spells them:
    UTF-8 bytes of emoji read back one byte per character, so each one is
    a short run of Latin-1 and Windows-1252 characters. */
module Alert {
  import opened Records
  import opened Text

  /** Spelled-out pictograms: police light, scales, page, bullet. */
  const Siren: string := "\U{F0}\U{178}\U{161}\U{A8}"
  const Scales: string := "\U{E2}\U{161}\U{2013}\U{EF}\U{B8}"
  const PageMark: string := "\U{F0}\U{178}\U{201C}\U{201E}"
  const Bullet: string := "\U{E2}\U{20AC}\U{A2}"

  /** At most this many records are listed per section. */
  const MaxListed: nat := 3

  /** Docket descriptions longer than this are cut. */
  const MaxDescription: nat := 50

  function Min(a: nat, b: nat): nat { if a <= b then a else b }

  /** A docket description as listed: at most 50 characters, with "..."
      appended when it was cut. */
  function Shorten(desc: string): (r: string)
    ensures |r| <= MaxDescription + 3
    ensures desc[..Min(|desc|, MaxDescription)] <= r
    ensures |desc| <= MaxDescription ==> r == desc
    ensures |desc| > MaxDescription ==> |r| == MaxDescription + 3 && r[MaxDescription..] == "..."
  {
    if |desc| > MaxDescription then desc[..MaxDescription] + "..." else desc
  }

  function ListedLine(text: string): string
  {
    "  " + Bullet + " " + text
  }

  /** The line counting the records not listed. */
  function MoreLine(rest: nat): string
  {
    ListedLine("...and " + NatToString(rest) + " more")
  }

  /** A section: its heading, the first three items, and a line counting
      the rest when there are more than three. */
  function Section(heading: string, items: seq<string>): (lines: seq<string>)
    ensures |lines| == 1 + Min(|items|, MaxListed) + (if |items| > MaxListed then 1 else 0)
    ensures lines[0] == heading
    ensures forall i :: 0 <= i < Min(|items|, MaxListed) ==> lines[1 + i] == ListedLine(items[i])
    ensures |items| > MaxListed ==>
      lines[|lines| - 1] == MoreLine(|items| - MaxListed)
  {
    var listed := seq(Min(|items|, MaxListed), i requires 0 <= i < Min(|items|, MaxListed) => ListedLine(items[i]));
    [heading] + listed +
    (if |items| > MaxListed then [MoreLine(|items| - MaxListed)] else [])
  }

  function ChargeItem(c: Charge): string { c.description }

  function DocketItem(d: DocketEntry): string { "Din " + d.din + ": " + Shorten(d.description) }

  function ChargeItems(cs: seq<Charge>): seq<string>
  {
    seq(|cs|, i requires 0 <= i < |cs| => ChargeItem(cs[i]))
  }

  function DocketItems(ds: seq<DocketEntry>): seq<string>
  {
    seq(|ds|, i requires 0 <= i < |ds| => DocketItem(ds[i]))
  }

  function Heading(firstName: string, lastName: string): string
  {
    Siren + " Court Alert: " + firstName + " " + lastName
  }

  function ChargeSection(charges: seq<Charge>): seq<string>
  {
    if |charges| > 0
    then Section("\n" + Scales + "  " + NatToString(|charges|) + " NEW CHARGE(S):", ChargeItems(charges))
    else []
  }

  function DocketSection(dockets: seq<DocketEntry>): seq<string>
  {
    if |dockets| > 0
    then Section("\n" + PageMark + " " + NatToString(|dockets|) + " NEW DOCKET(S):", DocketItems(dockets))
    else []
  }

  /** The lines of the alert: the heading naming the defendant, then a
      section for the new charges and one for the new docket entries, each
      only when there is something to report. */
  function AlertLines(firstName: string, lastName: string, charges: seq<Charge>, dockets: seq<DocketEntry>): seq<string>
  {
    [Heading(firstName, lastName)] + ChargeSection(charges) + DocketSection(dockets)
  }

  /** The alert text. */
  function AlertText(firstName: string, lastName: string, charges: seq<Charge>, dockets: seq<DocketEntry>): string
  {
    Join(AlertLines(firstName, lastName, charges, dockets), "\n")
  }

  /** The number of lines a section of n items takes (none for no items). */
  function SectionSize(n: nat): nat
  {
    if n == 0 then 0 else 1 + Min(n, MaxListed) + (if n > MaxListed then 1 else 0)
  }

  /** The alert has the heading plus one section per kind of news, each of
      at most five lines; with nothing new it is the heading alone. */
  lemma AlertShape(firstName: string, lastName: string, charges: seq<Charge>, dockets: seq<DocketEntry>)
    ensures var lines := AlertLines(firstName, lastName, charges, dockets);
      |lines| == 1 + SectionSize(|charges|) + SectionSize(|dockets|) &&
      |lines| <= 11 &&
      lines[0] == Heading(firstName, lastName)
    ensures |charges| == 0 && |dockets| == 0 ==>
      AlertText(firstName, lastName, charges, dockets) == Heading(firstName, lastName)
    ensures Heading(firstName, lastName) <= AlertText(firstName, lastName, charges, dockets)
  {
  }

  lemma {:induction false} InMiddle(a: seq<string>, b: seq<string>, c: seq<string>, k: nat)
    requires k < |b|
    ensures (a + b + c)[|a| + k] == b[k]
  {
  }

  /** The charges listed are the first three new ones, by description. */
  lemma AlertListsCharges(firstName: string, lastName: string, charges: seq<Charge>, dockets: seq<DocketEntry>)
    ensures var lines := AlertLines(firstName, lastName, charges, dockets);
      forall i :: 0 <= i < Min(|charges|, MaxListed) ==> lines[2 + i] == ListedLine(charges[i].description)
  {
    var head := [Heading(firstName, lastName)];
    var cs := ChargeSection(charges);
    var ds := DocketSection(dockets);
    forall i | 0 <= i < Min(|charges|, MaxListed) ensures (head + cs + ds)[2 + i] == ListedLine(charges[i].description) {
      InMiddle(head, cs, ds, 1 + i);
    }
  }

  /** The docket entries listed are the first three new ones, by DIN and
      shortened description, right after the charges' section. */
  lemma AlertListsDockets(firstName: string, lastName: string, charges: seq<Charge>, dockets: seq<DocketEntry>)
    ensures var lines := AlertLines(firstName, lastName, charges, dockets);
      var c := SectionSize(|charges|);
      forall i :: 0 <= i < Min(|dockets|, MaxListed) ==>
        lines[2 + c + i] == ListedLine("Din " + dockets[i].din + ": " + Shorten(dockets[i].description))
  {
    var front := [Heading(firstName, lastName)] + ChargeSection(charges);
    var ds := DocketSection(dockets);
    var none: seq<string> := [];
    assert |front| == 1 + SectionSize(|charges|);
    assert AlertLines(firstName, lastName, charges, dockets) == front + ds + none;
    forall i | 0 <= i < Min(|dockets|, MaxListed)
      ensures (front + ds + none)[|front| + 1 + i] == ListedLine("Din " + dockets[i].din + ": " + Shorten(dockets[i].description))
    {
      DocketSectionListed(dockets, i);
      InMiddle(front, ds, none, 1 + i);
    }
  }

  lemma DocketSectionListed(dockets: seq<DocketEntry>, i: nat)
    requires i < Min(|dockets|, MaxListed)
    ensures 1 + i < |DocketSection(dockets)|
    ensures DocketSection(dockets)[1 + i] == ListedLine("Din " + dockets[i].din + ": " + Shorten(dockets[i].description))
  {
    assert DocketItems(dockets)[i] == DocketItem(dockets[i]);
  }

  lemma DocketSectionLast(dockets: seq<DocketEntry>)
    requires |dockets| > MaxListed
    ensures var ds := DocketSection(dockets);
      |ds| > 0 && ds[|ds| - 1] == MoreLine(|dockets| - MaxListed)
  {
    var items := DocketItems(dockets);
    var ds := Section("\n" + PageMark + " " + NatToString(|dockets|) + " NEW DOCKET(S):", items);
    assert DocketSection(dockets) == ds;
    assert |ds| > 0 && ds[|ds| - 1] == MoreLine(|items| - MaxListed);
  }

  /** A section of more than three records ends with a count of the rest. */
  lemma AlertCountsTheRest(firstName: string, lastName: string, charges: seq<Charge>, dockets: seq<DocketEntry>)
    requires |dockets| > MaxListed
    ensures var lines := AlertLines(firstName, lastName, charges, dockets);
      lines[|lines| - 1] == MoreLine(|dockets| - MaxListed)
  {
    var front := [Heading(firstName, lastName)] + ChargeSection(charges);
    var ds := DocketSection(dockets);
    var none: seq<string> := [];
    DocketSectionLast(dockets);
    assert AlertLines(firstName, lastName, charges, dockets) == front + ds + none;
    InMiddle(front, ds, none, |ds| - 1);
  }
}
