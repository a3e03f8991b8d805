/** Stage-out of a finished job: every output file of the job report and the
    log tarball are uploaded one after the other. The XML file catalogue
    gets one entry per upload that produced a summary, and the job is
    reported 'finished' with that catalogue only when every upload did. */
module DataStageOut {
  import opened Outcomes
  import opened PyStr
  import opened DataCall

  /** The upload summary rucio writes: per `scope:name`, its fields. */
  type Summary = map<string, map<string, string>>

  /** An output file of the job report (its first sub-file). */
  datatype ReportFile = ReportFile(name: string, guid: string, size: nat)

  /** The job fields stage-out reads. */
  datatype Job = Job(
    pandaId: string,
    workingDir: string,
    inFiles: string,
    outFiles: string,
    scopeIn: string,
    scopeOut: string,
    scopeLog: string,
    logFile: string,
    logGUID: string,
    ddmEndPointIn: string,
    ddmEndPointOut: string,
    reportFiles: seq<ReportFile>)

  /** A file to upload. */
  datatype OutFile = OutFile(scope: string, name: string, guid: string, bytes: nat)

  /** The exceptions that escape stage-out: the summary file cannot be read,
      or it lacks the entry or a field of an uploaded file. */
  datatype Crash = SummaryUnreadable | NoSummaryEntry(key: string) | NoSummaryField(key: string, field: string)

  /** One upload as observed: the spawn and wait, and what reading
      `rucio_upload.json` afterwards yields (None: it cannot be read). */
  datatype Upload = Upload(run: Run, summaryFile: Option<Summary>)

  /** What `_stage_out` gives back. */
  datatype Uploaded = NoSummary | Got(summary: Summary) | Unreadable

  /** The `send_state` call that ends stage-out. */
  datatype Report = Report(state: string, xml: Option<string>)

  const FORCE_EXCLUDE: set<string> := {"geomDB", "sqlite200"}

  const CATALOG_HEADER := "<?xml version=\"1.0\" encoding=\"UTF-8\" standalone=\"no\" ?>\n"
                          + "<!DOCTYPE POOLFILECATALOG SYSTEM \"InMemory\">\n"
                          + "<POOLFILECATALOG>"
  const CATALOG_FOOTER := "</POOLFILECATALOG>"

  // ---------------------------------------------------------------------
  // _stage_out

  /** `_stage_out`: None when the spawn fails or the wait is cancelled;
      otherwise the summary, whatever the exit code was. */
  function UploadResult(u: Upload): (r: Uploaded)
    requires Settles(u.run)
    ensures r.NoSummary? <==> !u.run.spawned || Watch(u.run.rounds) == Cancelled
    ensures r.Got? ==> u.summaryFile == Some(r.summary) && Watch(u.run.rounds).Exited?
  {
    if !u.run.spawned then NoSummary
    else if Watch(u.run.rounds) == Cancelled then NoSummary
    else if u.summaryFile.None? then Unreadable
    else Got(u.summaryFile.value)
  }

  method StageOut(u: Upload) returns (r: Uploaded, signals: seq<Signal>)
    requires Settles(u.run)
    ensures r == UploadResult(u)
    ensures signals == [Terminate, Kill] <==> u.run.spawned && Watch(u.run.rounds) == Cancelled
  {
    if !u.run.spawned {
      return NoSummary, [];
    }
    var exitCode;
    exitCode, signals := Supervise(u.run.rounds);
    if exitCode.None? {
      return NoSummary, signals;
    }
    r := if u.summaryFile.None? then Unreadable else Got(u.summaryFile.value);
  }

  /** A non-zero exit code does not make the upload fail: the summary is
      returned all the same. */
  lemma NonZeroExitKeepsSummary(u: Upload, s: Summary)
    requires u.run.spawned && Watch(u.run.rounds).Exited? && Watch(u.run.rounds).code != 0
    requires u.summaryFile == Some(s)
    ensures UploadResult(u) == Got(s)
  {
  }

  // ---------------------------------------------------------------------
  // The outputs dict, in insertion order

  type Entries = seq<(string, OutFile)>

  function Keys(es: Entries): set<string>
    decreases |es|
  {
    if es == [] then {} else {es[0].0} + Keys(es[1..])
  }

  predicate DistinctKeys(es: Entries)
    decreases |es|
  {
    es == [] || (es[0].0 !in Keys(es[1..]) && DistinctKeys(es[1..]))
  }

  /** `d.get(k)` on the dict the entries stand for. */
  function Get(es: Entries, k: string): (r: Option<OutFile>)
    ensures r.Some? <==> k in Keys(es)
    decreases |es|
  {
    if es == [] then None
    else if es[0].0 == k then Some(es[0].1)
    else Get(es[1..], k)
  }

  /** `d[k] = v` on an insertion-ordered dict: an existing key keeps its
      place and takes the new value, a new key goes at the end. */
  function Put(es: Entries, k: string, v: OutFile): (r: Entries)
    ensures Keys(r) == Keys(es) + {k}
    ensures DistinctKeys(es) ==> DistinctKeys(r)
    ensures Get(r, k) == Some(v)
    ensures forall k' :: k' != k ==> Get(r, k') == Get(es, k')
    ensures |r| == if k in Keys(es) then |es| else |es| + 1
    decreases |es|
  {
    if es == [] then
      [(k, v)]
    else if es[0].0 == k then
      var r := [(k, v)] + es[1..];
      assert r[1..] == es[1..];
      r
    else
      var r := [es[0]] + Put(es[1..], k, v);
      assert r[1..] == Put(es[1..], k, v);
      r
  }

  function Entry(scope: string, f: ReportFile): OutFile
  {
    OutFile(scope, f.name, f.guid, f.size)
  }

  /** The outputs dict after the loop over the job report's output files,
      each keyed by its name. */
  function Collect(files: seq<ReportFile>, scope: string): (es: Entries)
    ensures DistinctKeys(es)
    decreases |files|
  {
    if files == [] then []
    else
      var last := files[|files| - 1];
      Put(Collect(files[..|files| - 1], scope), last.name, Entry(scope, last))
  }

  function LogKey(job: Job): string
  {
    job.scopeLog + ":" + job.logFile
  }

  function TarballName(job: Job, queue: string): string
  {
    "tarball_PandaJob_" + job.pandaId + "_" + queue
  }

  /** The outputs dict `_stage_out_all` uploads: the report's outputs, then
      the log under `scopeLog:logFile`. */
  function Outputs(job: Job, logSize: nat): Entries
  {
    Put(Collect(job.reportFiles, job.scopeOut), LogKey(job), LogEntry(job, logSize))
  }

  function Names(files: seq<ReportFile>): set<string>
  {
    set i | 0 <= i < |files| :: files[i].name
  }

  lemma NamesSnoc(files: seq<ReportFile>)
    requires files != []
    ensures Names(files) == Names(files[..|files| - 1]) + {files[|files| - 1].name}
  {
    var front := files[..|files| - 1];
    forall x | x in Names(files) ensures x in Names(front) + {files[|files| - 1].name} {
      var i :| 0 <= i < |files| && files[i].name == x;
      if i < |front| { assert front[i].name == x; }
    }
    forall x | x in Names(front) ensures x in Names(files) {
      var i :| 0 <= i < |front| && front[i].name == x;
      assert files[i].name == x;
    }
  }

  /** The keys of the collected dict are the output names. */
  lemma {:induction false} CollectKeys(files: seq<ReportFile>, scope: string)
    ensures Keys(Collect(files, scope)) == Names(files)
    decreases |files|
  {
    if files != [] {
      CollectKeys(files[..|files| - 1], scope);
      NamesSnoc(files);
    }
  }

  /** Each output name maps to the entry of the last report file with that
      name. */
  lemma {:induction false} CollectLast(files: seq<ReportFile>, scope: string, n: string)
    requires n in Names(files)
    ensures exists i :: 0 <= i < |files| && files[i].name == n
              && (forall j :: i < j < |files| ==> files[j].name != n)
              && Get(Collect(files, scope), n) == Some(Entry(scope, files[i]))
    decreases |files|
  {
    var m := |files| - 1;
    if files[m].name == n {
      assert Get(Collect(files, scope), n) == Some(Entry(scope, files[m]));
    } else {
      var front := files[..m];
      NamesSnoc(files);
      CollectLast(front, scope, n);
      var i :| 0 <= i < |front| && front[i].name == n
               && (forall j :: i < j < |front| ==> front[j].name != n)
               && Get(Collect(front, scope), n) == Some(Entry(scope, front[i]));
      assert files[i] == front[i];
      forall j | i < j < |files| ensures files[j].name != n {
        if j < m { assert files[j] == front[j]; }
      }
      assert Get(Collect(files, scope), n) == Get(Collect(front, scope), n);
    }
  }

  /** The keys of the outputs dict: one per distinct output name and the
      log key, none twice; the log key maps to the log entry. */
  lemma OutputsKeys(job: Job, logSize: nat)
    ensures DistinctKeys(Outputs(job, logSize))
    ensures Keys(Outputs(job, logSize)) == Names(job.reportFiles) + {LogKey(job)}
    ensures Get(Outputs(job, logSize), LogKey(job)) == Some(LogEntry(job, logSize))
  {
    CollectKeys(job.reportFiles, job.scopeOut);
  }

  // ---------------------------------------------------------------------
  // prepare_log

  /** The entry `prepare_log` returns for the log tarball; its size is that
      of the written tarball. */
  function LogEntry(job: Job, logSize: nat): OutFile
  {
    OutFile(job.scopeLog, job.logFile, job.logGUID, logSize)
  }

  /** The files of the working directory that are offered to the tarball:
      the listing less the job's input files, its output files and the
      forced exclusions. */
  function LogFiles(job: Job, listing: set<string>): (fs: set<string>)
    ensures forall f :: f in fs <==>
              f in listing && f !in Split(job.inFiles, ',') && f !in Split(job.outFiles, ',') && f !in FORCE_EXCLUDE
  {
    listing - (set x | x in Split(job.inFiles, ',')) - (set x | x in Split(job.outFiles, ',')) - FORCE_EXCLUDE
  }

  /** The tarball members: (path on disk, name in the archive). The tarball
      is created in the working directory before it is listed, so its own
      name is in the listing; the archive skips the file it is writing. */
  function LogMembers(job: Job, tarball: string, listing: set<string>): set<(string, string)>
  {
    set f | f in LogFiles(job, listing) && f != job.logFile :: (PathJoin(job.workingDir, f), PathJoin(tarball, f))
  }

  /** A directory entry is a plain file name. */
  predicate PlainName(f: string)
  {
    |f| > 0 && '/' !in f
  }

  /** Every selected file but the tarball itself is archived under
      `tarball/<file>`, nothing else is archived, and no two members share
      an archive name. */
  lemma LogMembersExact(job: Job, tarball: string, listing: set<string>)
    requires forall f :: f in listing ==> PlainName(f)
    ensures forall f :: f in LogFiles(job, listing) && f != job.logFile ==>
              (PathJoin(job.workingDir, f), PathJoin(tarball, f)) in LogMembers(job, tarball, listing)
    ensures forall m :: m in LogMembers(job, tarball, listing) ==>
              exists f :: f in LogFiles(job, listing) && f != job.logFile
                          && m == (PathJoin(job.workingDir, f), PathJoin(tarball, f))
    ensures forall m1, m2 :: (m1 in LogMembers(job, tarball, listing) && m2 in LogMembers(job, tarball, listing)
                              && m1.1 == m2.1) ==> m1 == m2
    ensures PlainName(job.logFile) ==> forall m :: m in LogMembers(job, tarball, listing) ==>
              m.0 != PathJoin(job.workingDir, job.logFile)
  {
    var ms := LogMembers(job, tarball, listing);
    forall m1, m2 | m1 in ms && m2 in ms && m1.1 == m2.1 ensures m1 == m2 {
      var f1 :| f1 in LogFiles(job, listing) && f1 != job.logFile && m1 == (PathJoin(job.workingDir, f1), PathJoin(tarball, f1));
      var f2 :| f2 in LogFiles(job, listing) && f2 != job.logFile && m2 == (PathJoin(job.workingDir, f2), PathJoin(tarball, f2));
      assert f1[0] != '/' && f2[0] != '/';
      PathJoinInjective(tarball, f1, f2);
    }
    if PlainName(job.logFile) {
      forall m | m in ms ensures m.0 != PathJoin(job.workingDir, job.logFile) {
        var f :| f in LogFiles(job, listing) && f != job.logFile && m == (PathJoin(job.workingDir, f), PathJoin(tarball, f));
        if m.0 == PathJoin(job.workingDir, job.logFile) {
          assert f[0] != '/' && job.logFile[0] != '/';
          PathJoinInjective(job.workingDir, f, job.logFile);
        }
      }
    }
  }

  // ---------------------------------------------------------------------
  // The catalogue

  /** What the catalogue records of one uploaded file. */
  datatype CatalogEntry = CatalogEntry(guid: string, name: string, pfn: string, bytes: nat, adler32: string)

  /** One `File` entry of the catalogue, as XML text. */
  function FileBlock(c: CatalogEntry): string
  {
    FileHead(c.guid) + Logical(c.name) + Metadata("surl", c.pfn) + Metadata("fsize", NatToString(c.bytes))
    + Metadata("adler32", c.adler32) + " </File>\n"
  }

  function FileHead(guid: string): string
  {
    "\n <File ID=\"" + guid + "\">\n"
  }

  function Logical(name: string): string
  {
    "  <logical>\n   <lfn name=\"" + name + "\"/>\n  </logical>\n"
  }

  function Metadata(att: string, value: string): string
  {
    "  <metadata att_name=\"" + att + "\" att_value=\"" + value + "\"/>\n"
  }

  /** A catalogue entry opens with the file's guid, closes the `File`
      element, and holds its logical name and one metadata line each for
      its surl, its size and its checksum. */
  lemma FileBlockFields(c: CatalogEntry)
    ensures FileHead(c.guid) <= FileBlock(c)
    ensures Contains(FileBlock(c), Logical(c.name))
    ensures Contains(FileBlock(c), Metadata("surl", c.pfn))
    ensures Contains(FileBlock(c), Metadata("fsize", NatToString(c.bytes)))
    ensures Contains(FileBlock(c), Metadata("adler32", c.adler32))
    ensures FileBlock(c)[|FileBlock(c)| - 9..] == " </File>\n"
  {
    FileBlockFront(c);
    FileBlockBack(c);
  }

  lemma FileBlockFront(c: CatalogEntry)
    ensures FileHead(c.guid) <= FileBlock(c)
    ensures Contains(FileBlock(c), Logical(c.name))
    ensures Contains(FileBlock(c), Metadata("surl", c.pfn))
  {
    var b := FileBlock(c);
    var h, l, s := FileHead(c.guid), Logical(c.name), Metadata("surl", c.pfn);
    var front := h + l + s;
    assert b[..|front|] == front;
    assert b[|h|..|h| + |l|] == front[|h|..|h| + |l|] == l;
    ContainsAt(b, l, |h|);
    assert b[|h + l|..|front|] == front[|h + l|..] == s;
    ContainsAt(b, s, |h + l|);
  }

  lemma FileBlockBack(c: CatalogEntry)
    ensures Contains(FileBlock(c), Metadata("fsize", NatToString(c.bytes)))
    ensures Contains(FileBlock(c), Metadata("adler32", c.adler32))
    ensures FileBlock(c)[|FileBlock(c)| - 9..] == " </File>\n"
  {
    var b := FileBlock(c);
    var f, z, a, t := FileHead(c.guid) + Logical(c.name) + Metadata("surl", c.pfn),
                      Metadata("fsize", NatToString(c.bytes)), Metadata("adler32", c.adler32), " </File>\n";
    assert b == f + z + a + t;
    ContainsInfix(b, f, z, a + t);
    ContainsInfix(b, f + z, a, t);
    assert b[|f + z + a|..] == t;
  }

  /** The summary lacks the entry of `f`, or its `pfn` or `adler32`. */
  predicate BlockMissing(f: OutFile, s: Summary)
  {
    var key := f.scope + ":" + f.name;
    key !in s || "pfn" !in s[key] || "adler32" !in s[key]
  }

  /** The catalogue entry of an uploaded file, read from its summary entry. */
  function Block(f: OutFile, s: Summary): (r: Result<CatalogEntry, Crash>)
    ensures r.Err? <==> BlockMissing(f, s)
  {
    var key := f.scope + ":" + f.name;
    if key !in s then Err(NoSummaryEntry(key))
    else if "pfn" !in s[key] then Err(NoSummaryField(key, "pfn"))
    else if "adler32" !in s[key] then Err(NoSummaryField(key, "adler32"))
    else Ok(CatalogEntry(f.guid, f.name, s[key]["pfn"], f.bytes, s[key]["adler32"]))
  }

  /** An upload that crashes stage-out. */
  predicate Crashes(f: OutFile, u: Upload)
    requires Settles(u.run)
  {
    UploadResult(u).Unreadable? || (UploadResult(u).Got? && BlockMissing(f, UploadResult(u).summary))
  }

  /** The catalogue entries of the uploads, in order, or the first crash. */
  function Staged(es: Entries, us: seq<Upload>): (r: Result<seq<CatalogEntry>, Crash>)
    requires |es| == |us|
    requires forall i :: 0 <= i < |us| ==> Settles(us[i].run)
    decreases |es|
  {
    if es == [] then Ok([])
    else
      var n := |es| - 1;
      match Staged(es[..n], us[..n])
      case Err(e) => Err(e)
      case Ok(blocks) =>
        match UploadResult(us[n])
        case NoSummary => Ok(blocks)
        case Unreadable => Err(SummaryUnreadable)
        case Got(s) =>
          match Block(es[n].1, s)
          case Err(e) => Err(e)
          case Ok(b) => Ok(blocks + [b])
  }

  /** The XML entries of `blocks`, in order. */
  function Concat(blocks: seq<CatalogEntry>): string
    decreases |blocks|
  {
    if blocks == [] then "" else Concat(blocks[..|blocks| - 1]) + FileBlock(blocks[|blocks| - 1])
  }

  function Catalog(blocks: seq<CatalogEntry>): string
  {
    CATALOG_HEADER + Concat(blocks) + CATALOG_FOOTER
  }

  /** Counts the uploads that yield a summary. */
  function Successes(us: seq<Upload>): (n: nat)
    requires forall i :: 0 <= i < |us| ==> Settles(us[i].run)
    ensures n <= |us|
    decreases |us|
  {
    if us == [] then 0
    else Successes(us[..|us| - 1]) + (if UploadResult(us[|us| - 1]).Got? then 1 else 0)
  }

  lemma {:induction false} SuccessesAll(us: seq<Upload>)
    requires forall i :: 0 <= i < |us| ==> Settles(us[i].run) && UploadResult(us[i]).Got?
    ensures Successes(us) == |us|
    decreases |us|
  {
    if us != [] {
      var front := us[..|us| - 1];
      assert forall i :: 0 <= i < |front| ==> front[i] == us[i];
      SuccessesAll(front);
    }
  }

  /** Some upload gave no summary. */
  predicate AnyFailed(us: seq<Upload>)
    requires forall i :: 0 <= i < |us| ==> Settles(us[i].run)
    decreases |us|
  {
    us != [] && (AnyFailed(us[..|us| - 1]) || UploadResult(us[|us| - 1]).NoSummary?)
  }

  lemma {:induction false} AnyFailedIff(us: seq<Upload>)
    requires forall i :: 0 <= i < |us| ==> Settles(us[i].run)
    ensures AnyFailed(us) <==> exists i :: 0 <= i < |us| && UploadResult(us[i]).NoSummary?
    decreases |us|
  {
    if us != [] {
      var front := us[..|us| - 1];
      assert forall i :: 0 <= i < |front| ==> front[i] == us[i];
      AnyFailedIff(front);
    }
  }

  /** Stage-out crashes exactly when some upload crashes. */
  lemma {:induction false} StagedErrIff(es: Entries, us: seq<Upload>)
    requires |es| == |us|
    requires forall i :: 0 <= i < |us| ==> Settles(us[i].run)
    ensures Staged(es, us).Err? <==> exists i :: 0 <= i < |us| && Crashes(es[i].1, us[i])
    decreases |es|
  {
    if es != [] {
      var n := |es| - 1;
      var front, ufront := es[..n], us[..n];
      assert forall i :: 0 <= i < n ==> front[i] == es[i] && ufront[i] == us[i];
      StagedErrIff(front, ufront);
      StagedErrStep(es, us);
    }
  }

  /** The last upload crashes the run, or the crash comes from before it. */
  lemma StagedErrStep(es: Entries, us: seq<Upload>)
    requires |es| == |us| > 0
    requires forall i :: 0 <= i < |us| ==> Settles(us[i].run)
    ensures Staged(es, us).Err? <==> Staged(es[..|es| - 1], us[..|us| - 1]).Err? || Crashes(es[|es| - 1].1, us[|us| - 1])
  {
  }

  /** Without a crash, the catalogue holds exactly one entry per upload that
      produced a summary. */
  lemma {:induction false} StagedCount(es: Entries, us: seq<Upload>)
    requires |es| == |us|
    requires forall i :: 0 <= i < |us| ==> Settles(us[i].run)
    requires Staged(es, us).Ok?
    ensures |Staged(es, us).value| == Successes(us)
    decreases |es|
  {
    if es != [] {
      var n := |es| - 1;
      assert forall i :: 0 <= i < n ==> us[..n][i] == us[i];
      StagedCount(es[..n], us[..n]);
    }
  }

  /** When every upload produced a summary and nothing crashed, the i-th
      catalogue entry is the entry of the i-th file. */
  lemma {:induction false} StagedAllGot(es: Entries, us: seq<Upload>, i: nat)
    requires |es| == |us| && i < |us|
    requires forall j :: 0 <= j < |us| ==> Settles(us[j].run) && UploadResult(us[j]).Got?
    requires Staged(es, us).Ok?
    ensures |Staged(es, us).value| == |us|
    ensures Block(es[i].1, UploadResult(us[i]).summary) == Ok(Staged(es, us).value[i])
    decreases |es|
  {
    StagedCount(es, us);
    SuccessesAll(us);
    var n := |es| - 1;
    var front, ufront := es[..n], us[..n];
    assert forall j :: 0 <= j < n ==> ufront[j] == us[j];
    StagedCount(front, ufront);
    SuccessesAll(ufront);
    if i < n {
      StagedAllGot(front, ufront, i);
      assert front[i] == es[i];
    }
  }

  // ---------------------------------------------------------------------
  // _stage_out_all

  /** What `_stage_out_all` returns, or the crash that escapes it. */
  function StageOutAllResult(job: Job, logSize: nat, us: seq<Upload>): Result<bool, Crash>
    requires |us| == |Outputs(job, logSize)|
    requires forall i :: 0 <= i < |us| ==> Settles(us[i].run)
  {
    match Staged(Outputs(job, logSize), us)
    case Err(e) => Err(e)
    case Ok(_) => Ok(!AnyFailed(us))
  }

  /** The state `_stage_out_all` sends with `send_state` when nothing
      crashes: 'finished' with the whole catalogue, or 'failed' without one. */
  function StageOutAllReport(job: Job, logSize: nat, us: seq<Upload>): Report
    requires |us| == |Outputs(job, logSize)|
    requires forall i :: 0 <= i < |us| ==> Settles(us[i].run)
  {
    match Staged(Outputs(job, logSize), us)
    case Ok(blocks) => if AnyFailed(us) then Report("failed", None) else Report("finished", Some(Catalog(blocks)))
    case Err(_) => Report("failed", None)
  }

  /** The report is 'finished' exactly when `_stage_out_all` returns True,
      and then it carries the catalogue of every upload, in dict order. */
  lemma {:induction false} StageOutAllReportIs(job: Job, logSize: nat, us: seq<Upload>)
    requires |us| == |Outputs(job, logSize)|
    requires forall i :: 0 <= i < |us| ==> Settles(us[i].run)
    ensures StageOutAllReport(job, logSize, us).state == "finished" <==> StageOutAllResult(job, logSize, us) == Ok(true)
    ensures StageOutAllResult(job, logSize, us) == Ok(true) ==>
              StageOutAllReport(job, logSize, us) == Report("finished", Some(Catalog(Staged(Outputs(job, logSize), us).value)))
    ensures StageOutAllResult(job, logSize, us) != Ok(true) ==> StageOutAllReport(job, logSize, us) == Report("failed", None)
  {
  }

  /** One more report file puts one more entry. */
  lemma CollectStep(files: seq<ReportFile>, k: nat, scope: string)
    requires k < |files|
    ensures Collect(files[..k + 1], scope) == Put(Collect(files[..k], scope), files[k].name, Entry(scope, files[k]))
  {
    assert files[..k + 1][..k] == files[..k];
  }

  /** The loop over the job report's output files that fills the outputs
      dict, followed by the log entry. */
  method CollectOutputs(job: Job, logSize: nat) returns (outputs: Entries)
    ensures outputs == Outputs(job, logSize)
  {
    var files := job.reportFiles;
    outputs := [];
    var k := 0;
    while k < |files|
      invariant 0 <= k <= |files|
      invariant outputs == Collect(files[..k], job.scopeOut)
    {
      CollectStep(files, k, job.scopeOut);
      outputs := Put(outputs, files[k].name, Entry(job.scopeOut, files[k]));
      k := k + 1;
    }
    assert files[..k] == files;
    outputs := Put(outputs, LogKey(job), LogEntry(job, logSize));
  }

  /** The upload loop: every entry is uploaded, a failed upload only sets
      `failed`; the catalogue text grows by one entry per summary. A crash
      ends the loop. */
  method UploadAll(outputs: Entries, us: seq<Upload>)
    returns (r: Result<string, Crash>, failed: bool, attempted: nat)
    requires |us| == |outputs|
    requires forall i :: 0 <= i < |us| ==> Settles(us[i].run)
    ensures r.Err? <==> Staged(outputs, us).Err?
    ensures r.Err? ==> r.error == Staged(outputs, us).error && 1 <= attempted <= |us|
    ensures r.Err? ==> Crashes(outputs[attempted - 1].1, us[attempted - 1])
                       && forall j :: 0 <= j < attempted - 1 ==> !Crashes(outputs[j].1, us[j])
    ensures r.Ok? ==> r.value == CATALOG_HEADER + Concat(Staged(outputs, us).value) && attempted == |us|
    ensures r.Ok? ==> failed == AnyFailed(us)
  {
    var pfc := CATALOG_HEADER;
    var blocks: seq<CatalogEntry> := [];
    failed := false;
    attempted := 0;
    while attempted < |outputs|
      invariant 0 <= attempted <= |outputs|
      invariant Staged(outputs[..attempted], us[..attempted]) == Ok(blocks)
      invariant pfc == CATALOG_HEADER + Concat(blocks)
      invariant failed == AnyFailed(us[..attempted])
    {
      var i := attempted;
      StagedStep(outputs, us, i, blocks);
      var summary, _ := StageOut(us[i]);
      attempted := attempted + 1;
      if summary.NoSummary? {
        failed := true;
      } else if summary.Unreadable? {
        NoCrashBefore(outputs, us, i, blocks);
        StagedPrefixErr(outputs, us, attempted);
        return Err(SummaryUnreadable), failed, attempted;
      } else {
        var block := Block(outputs[i].1, summary.summary);
        if block.Err? {
          NoCrashBefore(outputs, us, i, blocks);
          StagedPrefixErr(outputs, us, attempted);
          return Err(block.error), failed, attempted;
        }
        ConcatSnoc(blocks, block.value);
        AppendAssoc(CATALOG_HEADER, Concat(blocks), FileBlock(block.value));
        blocks := blocks + [block.value];
        pfc := pfc + FileBlock(block.value);
      }
    }
    assert outputs[..attempted] == outputs && us[..attempted] == us;
    r := Ok(pfc);
  }

  /** `_stage_out_all`, given the directory listing for the log tarball, the
      tarball's size and one observed upload per entry of the outputs dict.
      Every entry is uploaded even after a failed one; the job is reported
      'failed' without a catalogue when some upload gave no summary, else
      'finished' with the catalogue. It also returns the tarball members and
      the number of uploads attempted. */
  method StageOutAll(job: Job, queue: string, listing: set<string>, logSize: nat, us: seq<Upload>)
    returns (r: Result<bool, Crash>, report: Report, members: set<(string, string)>, attempted: nat)
    requires |us| == |Outputs(job, logSize)|
    requires forall i :: 0 <= i < |us| ==> Settles(us[i].run)
    ensures r == StageOutAllResult(job, logSize, us)
    ensures members == LogMembers(job, TarballName(job, queue), listing)
    ensures r.Ok? ==> attempted == |us|
    ensures r.Err? ==> 1 <= attempted <= |us| && Crashes(Outputs(job, logSize)[attempted - 1].1, us[attempted - 1])
                       && forall j :: 0 <= j < attempted - 1 ==> !Crashes(Outputs(job, logSize)[j].1, us[j])
    ensures r.Ok? ==> report == StageOutAllReport(job, logSize, us)
  {
    var outputs := CollectOutputs(job, logSize);
    members := LogMembers(job, TarballName(job, queue), listing);
    var pfc, failed;
    pfc, failed, attempted := UploadAll(outputs, us);
    report := Report("failed", None);
    if pfc.Err? {
      return Err(pfc.error), report, members, attempted;
    }
    if failed {
      r := Ok(false);
    } else {
      report := Report("finished", Some(pfc.value + CATALOG_FOOTER));
      r := Ok(true);
    }
  }

  lemma AppendAssoc<T>(a: seq<T>, b: seq<T>, c: seq<T>)
    ensures (a + b) + c == a + (b + c)
  {
  }

  lemma ConcatSnoc(blocks: seq<CatalogEntry>, b: CatalogEntry)
    ensures Concat(blocks + [b]) == Concat(blocks) + FileBlock(b)
  {
    assert (blocks + [b])[..|blocks|] == blocks;
  }

  /** One more upload extends the staged prefix by at most one entry. */
  lemma StagedStep(es: Entries, us: seq<Upload>, i: nat, blocks: seq<CatalogEntry>)
    requires |es| == |us| && i < |us|
    requires forall j :: 0 <= j < |us| ==> Settles(us[j].run)
    requires Staged(es[..i], us[..i]) == Ok(blocks)
    ensures UploadResult(us[i]).NoSummary? ==> Staged(es[..i + 1], us[..i + 1]) == Ok(blocks)
    ensures UploadResult(us[i]).Unreadable? ==> Staged(es[..i + 1], us[..i + 1]) == Err(SummaryUnreadable)
    ensures UploadResult(us[i]).Got? && Block(es[i].1, UploadResult(us[i]).summary).Err? ==>
              Staged(es[..i + 1], us[..i + 1]) == Err(Block(es[i].1, UploadResult(us[i]).summary).error)
    ensures UploadResult(us[i]).Got? && Block(es[i].1, UploadResult(us[i]).summary).Ok? ==>
              Staged(es[..i + 1], us[..i + 1]) == Ok(blocks + [Block(es[i].1, UploadResult(us[i]).summary).value])
    ensures AnyFailed(us[..i + 1]) == (AnyFailed(us[..i]) || UploadResult(us[i]).NoSummary?)
  {
    assert es[..i + 1][..i] == es[..i] && us[..i + 1][..i] == us[..i];
    assert es[..i + 1][i] == es[i] && us[..i + 1][i] == us[i];
  }

  /** Uploads that staged without a crash include no crashing one. */
  lemma NoCrashBefore(es: Entries, us: seq<Upload>, i: nat, blocks: seq<CatalogEntry>)
    requires |es| == |us| && i <= |us|
    requires forall j :: 0 <= j < |us| ==> Settles(us[j].run)
    requires Staged(es[..i], us[..i]) == Ok(blocks)
    ensures forall j :: 0 <= j < i ==> !Crashes(es[j].1, us[j])
  {
    StagedErrIff(es[..i], us[..i]);
    forall j | 0 <= j < i
      ensures !Crashes(es[j].1, us[j])
    {
      assert es[..i][j] == es[j] && us[..i][j] == us[j];
    }
  }

  /** A crash among the first `n` uploads is the crash of the whole run. */
  lemma {:induction false} StagedPrefixErr(es: Entries, us: seq<Upload>, n: nat)
    requires |es| == |us| && n <= |us|
    requires forall i :: 0 <= i < |us| ==> Settles(us[i].run)
    requires Staged(es[..n], us[..n]).Err?
    ensures Staged(es, us) == Staged(es[..n], us[..n])
    decreases |us| - n
  {
    if n < |us| {
      assert es[..n + 1][..n] == es[..n] && us[..n + 1][..n] == us[..n];
      StagedPrefixErr(es, us, n + 1);
    } else {
      assert es[..n] == es && us[..n] == us;
    }
  }

  /** Stage-out fails (without crashing) exactly when some upload gave no
      summary; it crashes exactly when some upload crashes. */
  lemma StageOutAllFailsIff(job: Job, logSize: nat, us: seq<Upload>)
    requires |us| == |Outputs(job, logSize)|
    requires forall i :: 0 <= i < |us| ==> Settles(us[i].run)
    ensures StageOutAllResult(job, logSize, us).Err?
            <==> exists i :: 0 <= i < |us| && Crashes(Outputs(job, logSize)[i].1, us[i])
    ensures StageOutAllResult(job, logSize, us) == Ok(false)
            <==> (forall i :: 0 <= i < |us| ==> !Crashes(Outputs(job, logSize)[i].1, us[i]))
                 && exists i :: 0 <= i < |us| && UploadResult(us[i]).NoSummary?
  {
    StagedErrIff(Outputs(job, logSize), us);
    AnyFailedIff(us);
  }
}
