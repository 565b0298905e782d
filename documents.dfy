/** Document downloads. Each docket entry that has a document, and each row
    of the Extra Documents table, is one download job identified by a
    document id. A job whose id was downloaded before is skipped; otherwise
    a fresh file name is chosen and the document fetched, and only a
    successful fetch records the id and the file. Whether a fetch succeeds
    (viewer opened, PDF saved) is the parameter `fetch`, a function of the
    document id. */
module Documents {
  import opened Records
  import opened Text
  import opened Filenames
  import opened Fingerprints

  /** The ids of the documents downloaded so far, and the files present in
      the documents directory. */
  datatype DocStore = DocStore(seen: set<string>, files: set<string>)

  /** case_docket-DIN_description. */
  function DocId(caseNumber: string, d: DocketEntry): string
  {
    caseNumber + "_" + d.din + "_" + d.description
  }

  /** case_extra_description. */
  function ExtraId(caseNumber: string, desc: string): string
  {
    caseNumber + "_extra_" + desc
  }

  /** One step of a pass: nothing to fetch, or a document with its id and
      the description its file is named after. */
  datatype Job = Skip | Try(id: string, desc: string)

  /** The file name a new document of the case gets. */
  function NameFor(files: set<string>, caseNumber: string, desc: string): (name: string)
    ensures name !in files
    ensures exists k: nat :: name == Candidate(caseNumber, Sanitize(desc), k)
  {
    var k := FirstFree(files, caseNumber, Sanitize(desc), 0);
    Candidate(caseNumber, Sanitize(desc), k)
  }

  /** One job against the store: the new store and the file written, if any. */
  function TryJob(st: DocStore, caseNumber: string, job: Job, fetch: string -> bool): (r: (DocStore, Option<string>))
    ensures r.1.Some? <==> job.Try? && job.id !in st.seen && fetch(job.id)
    ensures r.1.None? ==> r.0 == st
    ensures r.1.Some? ==> r.0 == DocStore(st.seen + {job.id}, st.files + {r.1.value})
    ensures r.1.Some? ==> r.1.value !in st.files
  {
    match job
    case Skip => (st, None)
    case Try(id, desc) =>
      if id in st.seen then (st, None)
      else
        var name := NameFor(st.files, caseNumber, desc);
        if fetch(id) then (DocStore(st.seen + {id}, st.files + {name}), Some(name))
        else (st, None)
  }

  /** The outcome of a pass: the final store and, per job, the file written. */
  datatype Pass = Pass(store: DocStore, names: seq<Option<string>>)

  /** The jobs run in order, each against the store the earlier ones left. */
  function Downloads(st: DocStore, caseNumber: string, jobs: seq<Job>, fetch: string -> bool): (p: Pass)
    ensures |p.names| == |jobs|
    decreases |jobs|
  {
    if |jobs| == 0 then Pass(st, [])
    else
      var p := Downloads(st, caseNumber, jobs[..|jobs| - 1], fetch);
      var r := TryJob(p.store, caseNumber, jobs[|jobs| - 1], fetch);
      Pass(r.0, p.names + [r.1])
  }

  /** The pass over one more job is the pass so far followed by that job. */
  lemma DownloadsStep(st: DocStore, caseNumber: string, jobs: seq<Job>, i: nat, fetch: string -> bool)
    requires i < |jobs|
    ensures var p := Downloads(st, caseNumber, jobs[..i], fetch);
      var r := TryJob(p.store, caseNumber, jobs[i], fetch);
      Downloads(st, caseNumber, jobs[..i + 1], fetch) == Pass(r.0, p.names + [r.1])
  {
    assert jobs[..i + 1][..i] == jobs[..i];
  }

  /** The ids of the jobs whose fetch succeeds. */
  function TriedIds(jobs: seq<Job>, fetch: string -> bool): set<string>
  {
    set i | 0 <= i < |jobs| && jobs[i].Try? && fetch(jobs[i].id) :: jobs[i].id
  }

  /** The files written. */
  function NameSet(names: seq<Option<string>>): set<string>
  {
    set i | 0 <= i < |names| && names[i].Some? :: names[i].value
  }

  function NoNames(n: nat): (r: seq<Option<string>>)
    ensures |r| == n && forall i :: 0 <= i < n ==> r[i].None?
  {
    seq(n, i => None)
  }

  lemma TriedIdsSnoc(jobs: seq<Job>, job: Job, fetch: string -> bool)
    ensures TriedIds(jobs + [job], fetch) ==
      TriedIds(jobs, fetch) + (if job.Try? && fetch(job.id) then {job.id} else {})
  {
    var all := jobs + [job];
    forall x | x in TriedIds(all, fetch)
      ensures x in TriedIds(jobs, fetch) + (if job.Try? && fetch(job.id) then {job.id} else {})
    {
      var i :| 0 <= i < |all| && all[i].Try? && fetch(all[i].id) && all[i].id == x;
      if i < |jobs| {
        assert all[i] == jobs[i];
      }
    }
    forall x | x in TriedIds(jobs, fetch) ensures x in TriedIds(all, fetch) {
      var i :| 0 <= i < |jobs| && jobs[i].Try? && fetch(jobs[i].id) && jobs[i].id == x;
      assert all[i] == jobs[i];
    }
    if job.Try? && fetch(job.id) {
      assert all[|jobs|] == job;
    }
  }

  lemma NameSetSnoc(names: seq<Option<string>>, r: Option<string>)
    ensures NameSet(names + [r]) == NameSet(names) + (if r.Some? then {r.value} else {})
  {
    var all := names + [r];
    forall x | x in NameSet(all) ensures x in NameSet(names) + (if r.Some? then {r.value} else {}) {
      var i :| 0 <= i < |all| && all[i].Some? && all[i].value == x;
      if i < |names| {
        assert all[i] == names[i];
      }
    }
    forall x | x in NameSet(names) ensures x in NameSet(all) {
      var i :| 0 <= i < |names| && names[i].Some? && names[i].value == x;
      assert all[i] == names[i];
    }
    if r.Some? {
      assert all[|names|] == r;
    }
  }

  /** After a pass the downloaded ids are the old ones plus the id of every
      job whose fetch succeeded: an id is recorded if and only if its
      document was fetched, so a failed download is not recorded. */
  lemma {:induction false} DownloadsSeen(st: DocStore, caseNumber: string, jobs: seq<Job>, fetch: string -> bool)
    ensures Downloads(st, caseNumber, jobs, fetch).store.seen == st.seen + TriedIds(jobs, fetch)
    decreases |jobs|
  {
    if |jobs| > 0 {
      var init := jobs[..|jobs| - 1];
      var job := jobs[|jobs| - 1];
      DownloadsSeen(st, caseNumber, init, fetch);
      assert jobs == init + [job];
      TriedIdsSnoc(init, job, fetch);
    }
  }

  /** The files written in a pass are new, pairwise different, and together
      with the old files make up the files after the pass. */
  lemma {:induction false} DownloadsFiles(st: DocStore, caseNumber: string, jobs: seq<Job>, fetch: string -> bool)
    ensures var p := Downloads(st, caseNumber, jobs, fetch);
      p.store.files == st.files + NameSet(p.names) &&
      (forall i :: 0 <= i < |p.names| && p.names[i].Some? ==> p.names[i].value !in st.files) &&
      (forall i, j :: 0 <= i < j < |p.names| && p.names[i].Some? && p.names[j].Some? ==>
         p.names[i].value != p.names[j].value)
    decreases |jobs|
  {
    if |jobs| > 0 {
      var init := jobs[..|jobs| - 1];
      var job := jobs[|jobs| - 1];
      var q := Downloads(st, caseNumber, init, fetch);
      DownloadsFiles(st, caseNumber, init, fetch);
      var r := TryJob(q.store, caseNumber, job, fetch);
      var names := q.names + [r.1];
      NameSetSnoc(q.names, r.1);
      forall i | 0 <= i < |q.names| && q.names[i].Some?
        ensures q.names[i].value in q.store.files
      {
        assert q.names[i].value in NameSet(q.names);
      }
      forall i | 0 <= i < |names| && names[i].Some? ensures names[i].value !in st.files {
        if i < |q.names| {
          assert names[i] == q.names[i];
        }
      }
      forall i, j | 0 <= i < j < |names| && names[i].Some? && names[j].Some?
        ensures names[i].value != names[j].value
      {
        assert names[i] == q.names[i];
        if j < |q.names| {
          assert names[j] == q.names[j];
        }
      }
    }
  }

  /** A pass over a prefix of the jobs is the beginning of the whole pass. */
  lemma {:induction false} DownloadsPrefix(st: DocStore, caseNumber: string, jobs: seq<Job>, k: nat, fetch: string -> bool)
    requires k <= |jobs|
    ensures Downloads(st, caseNumber, jobs[..k], fetch).names == Downloads(st, caseNumber, jobs, fetch).names[..k]
    decreases |jobs|
  {
    if k < |jobs| {
      var init := jobs[..|jobs| - 1];
      DownloadsPrefix(st, caseNumber, init, k, fetch);
      assert init[..k] == jobs[..k];
    } else {
      assert jobs[..k] == jobs;
    }
  }

  /** Job i writes a file exactly when it has a document whose id was
      neither downloaded before nor fetched by an earlier job of the pass,
      and the fetch succeeds; the file is named after the case and the
      job's description. */
  lemma DownloadedIff(st: DocStore, caseNumber: string, jobs: seq<Job>, i: nat, fetch: string -> bool)
    requires i < |jobs|
    ensures var p := Downloads(st, caseNumber, jobs, fetch);
      (p.names[i].Some? <==>
        jobs[i].Try? && fetch(jobs[i].id) && jobs[i].id !in st.seen + TriedIds(jobs[..i], fetch)) &&
      (p.names[i].Some? ==> exists k: nat :: p.names[i].value == Candidate(caseNumber, Sanitize(jobs[i].desc), k))
  {
    var pre := jobs[..i + 1];
    DownloadsPrefix(st, caseNumber, jobs, i + 1, fetch);
    assert pre[..i] == jobs[..i];
    DownloadsSeen(st, caseNumber, jobs[..i], fetch);
    var q := Downloads(st, caseNumber, pre, fetch);
    assert q.names[i] == Downloads(st, caseNumber, jobs, fetch).names[i];
  }

  /** A pass in which every document that could be fetched was downloaded
      before changes nothing and writes no file. */
  lemma {:induction false} AllKnownNoop(st: DocStore, caseNumber: string, jobs: seq<Job>, fetch: string -> bool)
    requires forall i :: 0 <= i < |jobs| && jobs[i].Try? && fetch(jobs[i].id) ==> jobs[i].id in st.seen
    ensures Downloads(st, caseNumber, jobs, fetch) == Pass(st, NoNames(|jobs|))
    decreases |jobs|
  {
    if |jobs| > 0 {
      var init := jobs[..|jobs| - 1];
      AllKnownNoop(st, caseNumber, init, fetch);
      assert NoNames(|init|) + [None] == NoNames(|jobs|);
    }
  }

  /** Running the same pass again, with the same outcome of every fetch,
      downloads nothing a second time. */
  lemma SecondPassNoop(st: DocStore, caseNumber: string, jobs: seq<Job>, fetch: string -> bool)
    ensures var p := Downloads(st, caseNumber, jobs, fetch);
      Downloads(p.store, caseNumber, jobs, fetch) == Pass(p.store, NoNames(|jobs|))
  {
    var p := Downloads(st, caseNumber, jobs, fetch);
    DownloadsSeen(st, caseNumber, jobs, fetch);
    forall i | 0 <= i < |jobs| && jobs[i].Try? && fetch(jobs[i].id) ensures jobs[i].id in p.store.seen {
      assert jobs[i].id in TriedIds(jobs, fetch);
    }
    AllKnownNoop(p.store, caseNumber, jobs, fetch);
  }

  /** A document whose download failed is tried again on the next pass and
      recorded once a fetch of it succeeds. */
  lemma RetryAfterFailure(st: DocStore, caseNumber: string, jobs: seq<Job>, i: nat,
                          first: string -> bool, second: string -> bool)
    requires i < |jobs| && jobs[i].Try?
    requires jobs[i].id !in st.seen && !first(jobs[i].id) && second(jobs[i].id)
    ensures jobs[i].id !in Downloads(st, caseNumber, jobs, first).store.seen
    ensures jobs[i].id in Downloads(Downloads(st, caseNumber, jobs, first).store, caseNumber, jobs, second).store.seen
  {
    var p := Downloads(st, caseNumber, jobs, first);
    DownloadsSeen(st, caseNumber, jobs, first);
    DownloadsSeen(p.store, caseNumber, jobs, second);
    assert jobs[i].id in TriedIds(jobs, second);
  }

  // Dockets

  /** A docket entry is a job when it has a document. */
  function DocketJob(caseNumber: string, d: DocketEntry): Job
  {
    if d.hasDocument then Try(DocId(caseNumber, d), d.description) else Skip
  }

  function DocketJobs(caseNumber: string, ds: seq<DocketEntry>): seq<Job>
  {
    seq(|ds|, i requires 0 <= i < |ds| => DocketJob(caseNumber, ds[i]))
  }

  /** An entry after its download: marked, with the name of its file, when
      the download succeeded. */
  function MarkEntry(d: DocketEntry, name: Option<string>): DocketEntry
  {
    if name.Some? then d.(downloaded := true, filename := name.value) else d
  }

  /** The docket entries after a pass: a downloaded entry is marked, with
      the name of its file. */
  function Marked(ds: seq<DocketEntry>, names: seq<Option<string>>): (r: seq<DocketEntry>)
    requires |names| == |ds|
    ensures |r| == |ds|
    ensures forall i :: 0 <= i < |ds| && names[i].None? ==> r[i] == ds[i]
    ensures forall i :: 0 <= i < |ds| && names[i].Some? ==>
      r[i] == ds[i].(downloaded := true, filename := names[i].value)
  {
    seq(|ds|, i requires 0 <= i < |ds| => MarkEntry(ds[i], names[i]))
  }

  lemma MarkedStep(ds: seq<DocketEntry>, names: seq<Option<string>>, i: nat, name: Option<string>)
    requires i < |ds| && |names| == i
    ensures Marked(ds[..i + 1], names + [name]) == Marked(ds[..i], names) + [MarkEntry(ds[i], name)]
  {
  }

  /** The document pass over a case's docket entries. */
  function DocketPass(st: DocStore, caseNumber: string, ds: seq<DocketEntry>, fetch: string -> bool): (DocStore, seq<DocketEntry>)
  {
    var p := Downloads(st, caseNumber, DocketJobs(caseNumber, ds), fetch);
    (p.store, Marked(ds, p.names))
  }

  /** Downloading marks entries but leaves their identity alone: every
      entry keeps its key, and a marked entry names a file written now. */
  lemma DocketPassKeys(st: DocStore, caseNumber: string, ds: seq<DocketEntry>, fetch: string -> bool)
    ensures var (st', ds') := DocketPass(st, caseNumber, ds, fetch);
      |ds'| == |ds| &&
      (forall i :: 0 <= i < |ds| ==> DocketKey(ds'[i]) == DocketKey(ds[i])) &&
      (forall i :: 0 <= i < |ds| && ds'[i] != ds[i] ==>
         ds'[i].hasDocument && ds'[i].downloaded && ds'[i].filename in st'.files - st.files)
  {
    var p := Downloads(st, caseNumber, DocketJobs(caseNumber, ds), fetch);
    DownloadsFiles(st, caseNumber, DocketJobs(caseNumber, ds), fetch);
    forall i | 0 <= i < |ds| && p.names[i].Some? ensures p.names[i].value in p.store.files && ds[i].hasDocument {
      assert p.names[i].value in NameSet(p.names);
      DownloadedIff(st, caseNumber, DocketJobs(caseNumber, ds), i, fetch);
    }
  }

  /** Without the download option, or without any entry that has a
      document, the pass changes nothing. */
  lemma NoDocumentsNoop(st: DocStore, caseNumber: string, ds: seq<DocketEntry>, fetch: string -> bool)
    requires forall d :: d in ds ==> !d.hasDocument
    ensures DocketPass(st, caseNumber, ds, fetch) == (st, ds)
  {
    var jobs := DocketJobs(caseNumber, ds);
    assert forall i :: 0 <= i < |jobs| ==> jobs[i] == Skip by {
      forall i | 0 <= i < |jobs| ensures jobs[i] == Skip {
        assert ds[i] in ds;
      }
    }
    AllKnownNoop(st, caseNumber, jobs, fetch);
    assert Marked(ds, NoNames(|ds|)) == ds;
  }

  // Extra documents

  function ExtraJobs(caseNumber: string, descs: seq<string>): seq<Job>
  {
    seq(|descs|, i requires 0 <= i < |descs| => Try(ExtraId(caseNumber, descs[i]), descs[i]))
  }

  /** The document pass over the descriptions read off the Extra Documents table. */
  function ExtraPass(st: DocStore, caseNumber: string, descs: seq<string>, fetch: string -> bool): DocStore
  {
    Downloads(st, caseNumber, ExtraJobs(caseNumber, descs), fetch).store
  }

  /** An extra document is recorded exactly when it was recorded before or
      its fetch succeeds. */
  lemma ExtraPassSeen(st: DocStore, caseNumber: string, descs: seq<string>, fetch: string -> bool)
    ensures forall desc :: desc in descs ==>
      (ExtraId(caseNumber, desc) in ExtraPass(st, caseNumber, descs, fetch).seen <==>
       ExtraId(caseNumber, desc) in st.seen || fetch(ExtraId(caseNumber, desc)))
  {
    var jobs := ExtraJobs(caseNumber, descs);
    DownloadsSeen(st, caseNumber, jobs, fetch);
    forall desc | desc in descs && fetch(ExtraId(caseNumber, desc))
      ensures ExtraId(caseNumber, desc) in TriedIds(jobs, fetch)
    {
      var i :| 0 <= i < |descs| && descs[i] == desc;
      assert jobs[i].id == ExtraId(caseNumber, desc);
    }
  }
}
