/** File names for downloaded documents: a description is cleaned into a
    file-system-safe stem, and the name "<case>-<stem>.pdf" gets a counter
    "-1", "-2", ... appended until it names no existing file. */
module Filenames {
  import opened Text

  /** The characters `[\w\s-]` keeps. */
  predicate IsSafe(c: char) { IsWordChar(c) || IsSpace(c) || c == '-' }

  /** The characters a run of which `[-\s]+` collapses. */
  predicate IsSep(c: char) { c == '-' || IsSpace(c) }

  /** No two dashes in a row. */
  predicate NoDoubleDash(s: string)
  {
    forall i :: 0 <= i < |s| - 1 ==> !(s[i] == '-' && s[i + 1] == '-')
  }

  /** re.sub(r'[^\w\s-]', '', s): every other character is deleted. */
  function KeepSafe(s: string): (r: string)
    ensures |r| <= |s|
    ensures forall i :: 0 <= i < |r| ==> IsSafe(r[i])
  {
    if |s| == 0 then ""
    else if IsSafe(s[0]) then [s[0]] + KeepSafe(s[1..])
    else KeepSafe(s[1..])
  }

  /** Deleting characters adds none. */
  lemma {:induction false} KeepSafeFrom(s: string)
    ensures forall i :: 0 <= i < |KeepSafe(s)| ==> KeepSafe(s)[i] in s
  {
    if |s| > 0 {
      KeepSafeFrom(s[1..]);
      assert forall c :: c in s[1..] ==> c in s;
    }
  }

  lemma {:induction false} KeepSafeFixed(s: string)
    requires forall i :: 0 <= i < |s| ==> IsSafe(s[i])
    ensures KeepSafe(s) == s
  {
    if |s| > 0 {
      KeepSafeFixed(s[1..]);
    }
  }

  /** Deleting distributes over concatenation: each character is kept or
      dropped on its own, in order. */
  lemma {:induction false} KeepSafeAppend(a: string, b: string)
    ensures KeepSafe(a + b) == KeepSafe(a) + KeepSafe(b)
  {
    if |a| > 0 {
      assert (a + b)[0] == a[0] && (a + b)[1..] == a[1..] + b;
      KeepSafeAppend(a[1..], b);
    } else {
      assert a + b == b;
    }
  }

  /** The characters kept are exactly the safe characters of the input. */
  lemma {:induction false} KeepSafeMembers(s: string)
    ensures forall c :: c in KeepSafe(s) <==> c in s && IsSafe(c)
  {
    if |s| > 0 {
      KeepSafeMembers(s[1..]);
      assert forall c :: c in s <==> c == s[0] || c in s[1..];
    }
  }

  /** The number of separators the input starts with. */
  function LeadingSeps(s: string): (n: nat)
    ensures n <= |s|
    ensures forall i :: 0 <= i < n ==> IsSep(s[i])
    ensures n < |s| ==> !IsSep(s[n])
  {
    if |s| > 0 && IsSep(s[0]) then 1 + LeadingSeps(s[1..]) else 0
  }

  /** re.sub(r'[-\s]+', '-', s): each maximal run of dashes and whitespace
      becomes one dash. */
  function Collapse(s: string): (r: string)
    ensures |r| <= |s|
    ensures |s| > 0 && !IsSep(s[0]) ==> |r| > 0 && r[0] == s[0]
    ensures forall i :: 0 <= i < |r| ==> !IsSpace(r[i])
    ensures NoDoubleDash(r)
    decreases |s|
  {
    if |s| == 0 then ""
    else if IsSep(s[0]) then "-" + Collapse(s[LeadingSeps(s)..])
    else [s[0]] + Collapse(s[1..])
  }

  /** Collapsing adds no character but the dash. */
  lemma {:induction false} CollapseFrom(s: string)
    ensures forall i :: 0 <= i < |Collapse(s)| ==> Collapse(s)[i] == '-' || Collapse(s)[i] in s
    decreases |s|
  {
    if |s| > 0 {
      var t := if IsSep(s[0]) then s[LeadingSeps(s)..] else s[1..];
      CollapseFrom(t);
      assert forall c :: c in t ==> c in s;
    }
  }

  /** The characters other than dashes and whitespace, in order. */
  function NonSeps(s: string): string
  {
    if |s| == 0 then "" else (if IsSep(s[0]) then "" else [s[0]]) + NonSeps(s[1..])
  }

  lemma {:induction false} NonSepsSkip(s: string, n: nat)
    requires n <= |s| && forall i :: 0 <= i < n ==> IsSep(s[i])
    ensures NonSeps(s[n..]) == NonSeps(s)
  {
    if n > 0 {
      NonSepsSkip(s[1..], n - 1);
      assert s[1..][n - 1..] == s[n..];
    }
  }

  /** Collapsing keeps every character that is neither a dash nor
      whitespace, in order, and adds none. */
  lemma {:induction false} CollapseKeeps(s: string)
    ensures NonSeps(Collapse(s)) == NonSeps(s)
    decreases |s|
  {
    if |s| > 0 {
      var r := Collapse(s);
      if IsSep(s[0]) {
        var n := LeadingSeps(s);
        CollapseKeeps(s[n..]);
        NonSepsSkip(s, n);
        assert r[0] == '-' && r[1..] == Collapse(s[n..]);
      } else {
        CollapseKeeps(s[1..]);
        assert r[0] == s[0] && r[1..] == Collapse(s[1..]);
      }
    }
  }

  lemma {:induction false} LeadingSepsRun(run: string, t: string)
    requires forall i :: 0 <= i < |run| ==> IsSep(run[i])
    requires t == "" || !IsSep(t[0])
    ensures LeadingSeps(run + t) == |run|
  {
    if |run| > 0 {
      assert (run + t)[1..] == run[1..] + t;
      LeadingSepsRun(run[1..], t);
    }
  }

  /** A maximal run of dashes and whitespace becomes exactly one dash. */
  lemma CollapseRun(run: string, t: string)
    requires |run| > 0 && forall i :: 0 <= i < |run| ==> IsSep(run[i])
    requires t == "" || !IsSep(t[0])
    ensures Collapse(run + t) == "-" + Collapse(t)
  {
    LeadingSepsRun(run, t);
    assert (run + t)[|run|..] == t;
  }

  /** A stretch without dashes or whitespace is copied as it is. */
  lemma {:induction false} CollapseWord(w: string, t: string)
    requires forall i :: 0 <= i < |w| ==> !IsSep(w[i])
    ensures Collapse(w + t) == w + Collapse(t)
  {
    if |w| > 0 {
      assert (w + t)[1..] == w[1..] + t;
      CollapseWord(w[1..], t);
    } else {
      assert w + t == t;
    }
  }

  /** Collapsing leaves alone a string with no whitespace and no doubled dash. */
  lemma {:induction false} CollapseFixed(s: string)
    requires forall i :: 0 <= i < |s| ==> !IsSpace(s[i])
    requires NoDoubleDash(s)
    ensures Collapse(s) == s
    decreases |s|
  {
    if |s| > 0 {
      assert NoDoubleDash(s[1..]);
      if s[0] == '-' {
        assert |s| == 1 || !IsSep(s[1]);
        assert LeadingSeps(s) == 1;
      }
      CollapseFixed(s[1..]);
    }
  }

  const MaxStem := 100

  /** The stem of a document's file name: unsafe characters dropped, runs of
      dashes and whitespace collapsed, cut to 100 characters. */
  function Sanitize(desc: string): (r: string)
    ensures |r| <= MaxStem
    ensures forall i :: 0 <= i < |r| ==> IsWordChar(r[i]) || r[i] == '-'
    ensures NoDoubleDash(r)
  {
    var k := KeepSafe(desc);
    var c := Collapse(k);
    CollapseFrom(k);
    assert forall i :: 0 <= i < |c| ==> IsWordChar(c[i]) || c[i] == '-' by {
      forall i | 0 <= i < |c| && c[i] != '-' ensures IsWordChar(c[i]) {
        var j :| 0 <= j < |k| && k[j] == c[i];
      }
    }
    if |c| <= MaxStem then c else c[..MaxStem]
  }

  /** A stem holds no character the description does not, but the dash. */
  lemma SanitizeFrom(desc: string)
    ensures forall i :: 0 <= i < |Sanitize(desc)| ==> Sanitize(desc)[i] == '-' || Sanitize(desc)[i] in desc
  {
    var k := KeepSafe(desc);
    KeepSafeFrom(desc);
    CollapseFrom(k);
    var c := Collapse(k);
    assert forall i :: 0 <= i < |Sanitize(desc)| ==> Sanitize(desc)[i] == c[i];
    assert forall ch :: ch in k ==> ch in desc;
  }

  /** A stem is its own stem. */
  lemma SanitizeIdempotent(desc: string)
    ensures Sanitize(Sanitize(desc)) == Sanitize(desc)
  {
    var r := Sanitize(desc);
    KeepSafeFixed(r);
    CollapseFixed(r);
  }

  /** A description made of word characters only is kept as it is, up to
      the first 100 characters. */
  lemma SanitizeWord(desc: string)
    requires forall i :: 0 <= i < |desc| ==> IsWordChar(desc[i])
    ensures Sanitize(desc) == if |desc| <= MaxStem then desc else desc[..MaxStem]
  {
    KeepSafeFixed(desc);
    CollapseFixed(desc);
  }

  /** A run of blanks and dashes between two words becomes one dash. */
  lemma CollapseExample()
    ensures Collapse("a - b") == "a-b"
  {
    CollapseRun(" - ", "b");
    assert " - " + "b" == " - b";
    CollapseWord("a", " - b");
    assert "a" + " - b" == "a - b";
  }

  /** The k-th name tried: k = 0 is the plain name, k >= 1 carries counter k. */
  function Candidate(caseNumber: string, stem: string, k: nat): string
  {
    if k == 0 then caseNumber + "-" + stem + ".pdf"
    else caseNumber + "-" + stem + "-" + NatToString(k) + ".pdf"
  }

  /** Different counters give different names. */
  lemma CandidateInjective(caseNumber: string, stem: string, j: nat, k: nat)
    requires Candidate(caseNumber, stem, j) == Candidate(caseNumber, stem, k)
    ensures j == k
  {
    var p := caseNumber + "-" + stem;
    assert |Candidate(caseNumber, stem, j)| == |p| + 4 <==> j == 0;
    assert |Candidate(caseNumber, stem, k)| == |p| + 4 <==> k == 0;
    if j > 0 && k > 0 {
      var a := Candidate(caseNumber, stem, j);
      var n := |p| + 1;
      assert a == p + "-" + NatToString(j) + ".pdf";
      assert a[n .. |a| - 4] == NatToString(j);
      assert Candidate(caseNumber, stem, k) == p + "-" + NatToString(k) + ".pdf";
      assert |NatToString(j)| == |NatToString(k)|;
      assert a[n .. |a| - 4] == NatToString(k);
      NatToStringInjective(j, k);
    }
  }

  /** The first n names tried. */
  function Candidates(caseNumber: string, stem: string, n: nat): set<string>
  {
    if n == 0 then {} else Candidates(caseNumber, stem, n - 1) + {Candidate(caseNumber, stem, n - 1)}
  }

  lemma {:induction false} CandidatesMembers(caseNumber: string, stem: string, n: nat, x: string)
    ensures x in Candidates(caseNumber, stem, n) <==> exists j :: 0 <= j < n && Candidate(caseNumber, stem, j) == x
  {
    if n > 0 {
      CandidatesMembers(caseNumber, stem, n - 1, x);
    }
  }

  /** The first n names tried are n different names. */
  lemma {:induction false} CandidatesSize(caseNumber: string, stem: string, n: nat)
    ensures |Candidates(caseNumber, stem, n)| == n
  {
    if n > 0 {
      CandidatesSize(caseNumber, stem, n - 1);
      var c := Candidate(caseNumber, stem, n - 1);
      CandidatesMembers(caseNumber, stem, n - 1, c);
      if c in Candidates(caseNumber, stem, n - 1) {
        var j :| 0 <= j < n - 1 && Candidate(caseNumber, stem, j) == c;
        CandidateInjective(caseNumber, stem, j, n - 1);
      }
    }
  }

  /** Of finitely many existing files, at most that many are names tried. */
  lemma TakenBound(existing: set<string>, caseNumber: string, stem: string, n: nat)
    requires forall j :: 0 <= j < n ==> Candidate(caseNumber, stem, j) in existing
    ensures n <= |existing|
  {
    CandidatesSize(caseNumber, stem, n);
    forall x | x in Candidates(caseNumber, stem, n) ensures x in existing {
      CandidatesMembers(caseNumber, stem, n, x);
    }
    SubsetSize(Candidates(caseNumber, stem, n), existing);
  }

  lemma {:induction false} SubsetSize(a: set<string>, b: set<string>)
    requires a <= b
    ensures |a| <= |b|
  {
    if a != {} {
      var x :| x in a;
      SubsetSize(a - {x}, b - {x});
    }
  }

  /** The counter the search stops at, starting from k: the first name from
      the k-th on that names no existing file. */
  function FirstFree(existing: set<string>, caseNumber: string, stem: string, k: nat): (r: nat)
    requires forall j :: 0 <= j < k ==> Candidate(caseNumber, stem, j) in existing
    ensures k <= r
    ensures Candidate(caseNumber, stem, r) !in existing
    ensures forall j :: 0 <= j < r ==> Candidate(caseNumber, stem, j) in existing
    decreases |existing| - k
  {
    if Candidate(caseNumber, stem, k) !in existing then k
    else
      TakenBound(existing, caseNumber, stem, k + 1);
      FirstFree(existing, caseNumber, stem, k + 1)
  }

  /** The name chosen for a new file: the plain name, or the first counter
      for which no file exists. */
  method ChooseFilename(existing: set<string>, caseNumber: string, stem: string) returns (name: string)
    ensures name !in existing
    ensures name == Candidate(caseNumber, stem, FirstFree(existing, caseNumber, stem, 0))
    ensures forall j :: 0 <= j < FirstFree(existing, caseNumber, stem, 0) ==>
      Candidate(caseNumber, stem, j) in existing
  {
    name := caseNumber + "-" + stem + ".pdf";
    var counter := 1;
    while name in existing
      invariant 1 <= counter && counter - 1 <= |existing|
      invariant name == Candidate(caseNumber, stem, counter - 1)
      invariant forall j :: 0 <= j < counter - 1 ==> Candidate(caseNumber, stem, j) in existing
      invariant FirstFree(existing, caseNumber, stem, counter - 1) == FirstFree(existing, caseNumber, stem, 0)
      decreases |existing| - (counter - 1)
    {
      TakenBound(existing, caseNumber, stem, counter);
      name := caseNumber + "-" + stem + "-" + NatToString(counter) + ".pdf";
      counter := counter + 1;
    }
  }
}
