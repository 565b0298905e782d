/** The identity of a charge and of a docket entry. The monitor stores the
    SHA-256 digest of these strings; the model stores the strings
    themselves, so two records are told apart exactly when their key
    strings differ. */
module Fingerprints {
  import opened Records

  function Join4(a: string, b: string, c: string, d: string): string
  {
    a + "|" + b + "|" + c + "|" + d
  }

  /** case|seq|desc|type: the disposition is not part of a charge's identity. */
  function ChargeKey(c: Charge): string
  {
    Join4(c.caseNumber, c.sequenceNumber, c.description, c.chargeType)
  }

  /** case|din|date|desc: book/page and the download outcome are not part of
      a docket entry's identity. */
  function DocketKey(d: DocketEntry): string
  {
    Join4(d.caseNumber, d.din, d.date, d.description)
  }

  predicate NoBar(s: string) { '|' !in s }

  /** The position of the first '|' (the length when there is none). */
  function BarIndex(s: string): nat
  {
    if |s| == 0 || s[0] == '|' then 0 else 1 + BarIndex(s[1..])
  }

  lemma {:induction false} BarIndexJoin(x: string, y: string)
    requires NoBar(x)
    ensures BarIndex(x + "|" + y) == |x|
  {
    if |x| > 0 {
      assert (x + "|" + y)[1..] == x[1..] + "|" + y;
      assert x[0] in x;
      BarIndexJoin(x[1..], y);
    }
  }

  /** A string with one '|' after a bar-free part splits back uniquely. */
  lemma SplitAtBar(x: string, y: string, x': string, y': string)
    requires NoBar(x) && NoBar(x')
    requires x + "|" + y == x' + "|" + y'
    ensures x == x' && y == y'
  {
    var s := x + "|" + y;
    BarIndexJoin(x, y);
    BarIndexJoin(x', y');
    assert x == s[..|x|] == x';
    assert y == s[|x| + 1..] == y';
  }

  /** Distinct field tuples give distinct keys, provided none of the first
      three fields holds a '|'. */
  lemma Join4Injective(a: string, b: string, c: string, d: string,
                       a': string, b': string, c': string, d': string)
    requires NoBar(a) && NoBar(b) && NoBar(c) && NoBar(a') && NoBar(b') && NoBar(c')
    requires Join4(a, b, c, d) == Join4(a', b', c', d')
    ensures a == a' && b == b' && c == c' && d == d'
  {
    assert Join4(a, b, c, d) == a + "|" + (b + "|" + (c + "|" + d));
    assert Join4(a', b', c', d') == a' + "|" + (b' + "|" + (c' + "|" + d'));
    SplitAtBar(a, b + "|" + (c + "|" + d), a', b' + "|" + (c' + "|" + d'));
    SplitAtBar(b, c + "|" + d, b', c' + "|" + d');
    SplitAtBar(c, d, c', d');
  }

  /** Two charges share a key exactly when their case number, sequence
      number, description and type agree; the disposition plays no part. */
  lemma ChargeKeyIdentity(c1: Charge, c2: Charge)
    requires NoBar(c1.caseNumber) && NoBar(c1.sequenceNumber) && NoBar(c1.description)
    requires NoBar(c2.caseNumber) && NoBar(c2.sequenceNumber) && NoBar(c2.description)
    ensures ChargeKey(c1) == ChargeKey(c2) <==>
      (c1.caseNumber == c2.caseNumber && c1.sequenceNumber == c2.sequenceNumber &&
       c1.description == c2.description && c1.chargeType == c2.chargeType)
  {
    if ChargeKey(c1) == ChargeKey(c2) {
      Join4Injective(c1.caseNumber, c1.sequenceNumber, c1.description, c1.chargeType,
                     c2.caseNumber, c2.sequenceNumber, c2.description, c2.chargeType);
    }
  }

  /** Two docket entries share a key exactly when their case number, DIN,
      date and description agree. */
  lemma DocketKeyIdentity(d1: DocketEntry, d2: DocketEntry)
    requires NoBar(d1.caseNumber) && NoBar(d1.din) && NoBar(d1.date)
    requires NoBar(d2.caseNumber) && NoBar(d2.din) && NoBar(d2.date)
    ensures DocketKey(d1) == DocketKey(d2) <==>
      (d1.caseNumber == d2.caseNumber && d1.din == d2.din &&
       d1.date == d2.date && d1.description == d2.description)
  {
    if DocketKey(d1) == DocketKey(d2) {
      Join4Injective(d1.caseNumber, d1.din, d1.date, d1.description,
                     d2.caseNumber, d2.din, d2.date, d2.description);
    }
  }
}
