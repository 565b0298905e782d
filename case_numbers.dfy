/** Case-number normalisation: the filter given on the command line
    ("F25024652" or "F-25-024652") is brought to the portal's form
    LETTER-YY-NNNNNN before it is compared with the case numbers read
    from the case list. */
module CaseNumbers {
  import opened Text

  /** The input with every '-' and ' ' removed (two str.replace calls). */
  function DropSeparators(s: string): (r: string)
    ensures |r| <= |s|
    ensures forall i :: 0 <= i < |r| ==> r[i] != '-' && r[i] != ' '
  {
    if |s| == 0 then ""
    else (if s[0] == '-' || s[0] == ' ' then "" else [s[0]]) + DropSeparators(s[1..])
  }

  /** The "clean" string the normaliser inspects: separators dropped, upper-cased. */
  function Compact(s: string): string
  {
    Upper(DropSeparators(s))
  }

  /** One letter followed by eight digits, e.g. F25024652. */
  predicate IsCompact(c: string)
  {
    |c| == 9 && IsLetter(c[0]) && forall i :: 1 <= i < 9 ==> IsDigit(c[i])
  }

  /** The portal's form, e.g. F-25-024652. */
  predicate IsNormalForm(r: string)
  {
    |r| == 11 && 'A' <= r[0] <= 'Z' && r[1] == '-' && r[4] == '-' &&
    IsDigit(r[2]) && IsDigit(r[3]) && forall i :: 5 <= i < 11 ==> IsDigit(r[i])
  }

  /** Normalise a case number: a letter plus eight digits (after dropping
      dashes and blanks) becomes LETTER-DD-DDDDDD; anything else non-empty
      is returned upper-cased as it was given; the empty string stays empty. */
  function Normalize(s: string): (r: string)
    ensures s == "" ==> r == ""
    ensures IsCompact(Compact(s)) ==> IsNormalForm(r) && Compact(r) == Compact(s)
    ensures !IsCompact(Compact(s)) ==> r == Upper(s)
  {
    if s == "" then ""
    else
      var c := Compact(s);
      if IsCompact(c) then
        var r := [c[0]] + "-" + c[1..3] + "-" + c[3..];
        CompactOfDashed(c, r);
        r
      else Upper(s)
  }

  lemma DropSeparatorsCons(x: char, s: string)
    ensures DropSeparators([x] + s) == (if x == '-' || x == ' ' then "" else [x]) + DropSeparators(s)
  {
    assert ([x] + s)[0] == x;
    assert ([x] + s)[1..] == s;
  }

  lemma {:induction false} DropSeparatorsAppend(a: string, b: string)
    ensures DropSeparators(a + b) == DropSeparators(a) + DropSeparators(b)
  {
    if |a| > 0 {
      assert a + b == [a[0]] + (a[1..] + b);
      DropSeparatorsCons(a[0], a[1..] + b);
      assert a == [a[0]] + a[1..];
      DropSeparatorsCons(a[0], a[1..]);
      DropSeparatorsAppend(a[1..], b);
    } else {
      assert a + b == b;
    }
  }

  lemma {:induction false} DropSeparatorsNone(s: string)
    requires '-' !in s && ' ' !in s
    ensures DropSeparators(s) == s
  {
    if |s| > 0 {
      assert s == [s[0]] + s[1..];
      DropSeparatorsCons(s[0], s[1..]);
      DropSeparatorsNone(s[1..]);
    }
  }

  /** Dropping separators commutes with upper-casing: neither '-' nor ' '
      is a lower-case letter. */
  lemma {:induction false} DropSeparatorsUpper(s: string)
    ensures DropSeparators(Upper(s)) == Upper(DropSeparators(s))
  {
    if |s| > 0 {
      assert Upper(s) == [UpperChar(s[0])] + Upper(s[1..]);
      DropSeparatorsCons(UpperChar(s[0]), Upper(s[1..]));
      DropSeparatorsCons(s[0], s[1..]);
      assert s == [s[0]] + s[1..];
      DropSeparatorsUpper(s[1..]);
      UpperAppend(if s[0] == '-' || s[0] == ' ' then "" else [s[0]], DropSeparators(s[1..]));
    }
  }

  /** A dash between two parts is dropped and the parts are cleaned apart. */
  lemma DropSeparatorsDash(a: string, b: string)
    ensures DropSeparators(a + "-" + b) == DropSeparators(a) + DropSeparators(b)
  {
    var dash := "-";
    assert DropSeparators(dash) == "" by { assert dash[1..] == ""; }
    DropSeparatorsAppend(a + dash, b);
    DropSeparatorsAppend(a, dash);
  }

  /** The dashed spelling loses exactly its two dashes. */
  lemma DropSeparatorsDashed(x: char, p1: string, p2: string)
    requires x != '-' && x != ' '
    requires '-' !in p1 && ' ' !in p1 && '-' !in p2 && ' ' !in p2
    ensures DropSeparators([x] + "-" + p1 + "-" + p2) == [x] + p1 + p2
  {
    DropSeparatorsNone([x]);
    DropSeparatorsNone(p1);
    DropSeparatorsNone(p2);
    DropSeparatorsDash([x], p1);
    DropSeparatorsDash([x] + "-" + p1, p2);
  }

  lemma CompactOfDashed(c: string, r: string)
    requires IsCompact(c) && c == Upper(c)
    requires r == [c[0]] + "-" + c[1..3] + "-" + c[3..]
    ensures IsNormalForm(r) && Compact(r) == c
  {
    assert 'A' <= c[0] <= 'Z' by { assert c[0] == UpperChar(c[0]); }
    DropSeparatorsDashed(c[0], c[1..3], c[3..]);
    assert [c[0]] + c[1..3] + c[3..] == c;
  }

  /** Normalising twice gives the same result as normalising once. */
  lemma NormalizeIdempotent(s: string)
    ensures Normalize(Normalize(s)) == Normalize(s)
  {
    var r := Normalize(s);
    if s != "" && !IsCompact(Compact(s)) {
      assert r == Upper(s);
      DropSeparatorsUpper(s);
      UpperIdempotent(DropSeparators(s));
      assert Compact(r) == Compact(s);
      UpperIdempotent(s);
    }
  }

  /** A number already in the portal's form is returned unchanged. */
  lemma NormalFormIsFixed(r: string)
    requires IsNormalForm(r)
    ensures Normalize(r) == r
  {
    assert r == [r[0]] + "-" + r[2..4] + "-" + r[5..];
    DropSeparatorsDashed(r[0], r[2..4], r[5..]);
    var d := [r[0]] + r[2..4] + r[5..];
    UpperOfUpperCase(d);
    assert Compact(r) == d;
    assert d[1..3] == r[2..4] && d[3..] == r[5..];
  }

  /** A compact number without separators or lower-case letters is dashed. */
  lemma NormalizeCompact(s: string)
    requires IsCompact(s) && '-' !in s && ' ' !in s
    requires forall i :: 0 <= i < |s| ==> !('a' <= s[i] <= 'z')
    ensures Normalize(s) == [s[0]] + "-" + s[1..3] + "-" + s[3..]
  {
    DropSeparatorsNone(s);
    UpperOfUpperCase(s);
  }

  /** Both spellings the command line accepts name the same case. */
  lemma CommandLineForms(s: string)
    requires s == "F25024652" || s == "F-25-024652"
    ensures Normalize(s) == "F-25-024652"
  {
    if s == "F25024652" {
      NormalizeCompact(s);
      assert [s[0]] + "-" + s[1..3] + "-" + s[3..] == "F-25-024652";
    } else {
      NormalFormIsFixed(s);
    }
  }

  /** Any upper-case letter with eight digits names the same case with or
      without the two dashes. */
  lemma BothSpellings(x: char, yy: string, n: string)
    requires 'A' <= x <= 'Z'
    requires |yy| == 2 && IsDigit(yy[0]) && IsDigit(yy[1])
    requires |n| == 6 && forall i :: 0 <= i < 6 ==> IsDigit(n[i])
    ensures Normalize([x] + yy + n) == [x] + "-" + yy + "-" + n
    ensures Normalize([x] + "-" + yy + "-" + n) == [x] + "-" + yy + "-" + n
  {
    var s := [x] + yy + n;
    assert forall i :: 1 <= i < 9 ==> IsDigit(s[i]) by {
      forall i | 1 <= i < 9 ensures IsDigit(s[i]) {
        if i < 3 { assert s[i] == yy[i - 1]; } else { assert s[i] == n[i - 3]; }
      }
    }
    assert s[1..3] == yy && s[3..] == n;
    NormalizeCompact(s);
    NormalFormIsFixed([x] + "-" + yy + "-" + n);
  }

  /** F25000002 and F-25-000002 both normalise to F-25-000002, which
      differs from F-25-000001. */
  lemma SecondCaseSpellings()
    ensures Normalize("F25000002") == "F-25-000002"
    ensures Normalize("F-25-000002") == "F-25-000002"
    ensures "F-25-000001" != "F-25-000002"
  {
    BothSpellings('F', "25", "000002");
    assert ['F'] + "25" + "000002" == "F25000002";
    assert ['F'] + "-" + "25" + "-" + "000002" == "F-25-000002";
    assert "F-25-000001"[10] != "F-25-000002"[10];
  }

  /** A malformed number comes back upper-cased as it was given. */
  lemma MalformedExample(s: string)
    requires s == "f-25-0246"
    ensures Normalize(s) == "F-25-0246"
  {
    DropSeparatorsDashed('f', "25", "0246");
    assert ['f'] + "-" + "25" + "-" + "0246" == s;
    assert |Compact(s)| == 7;
  }
}
