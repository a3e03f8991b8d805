/** The gfal copytool: the per-file time-out, the stage-in and stage-out
    loops that run one `gfal-copy` per file and stop at the first failure,
    and the older move helpers that retry only time-outs. Commands are not
    run: what each one exits with is given. */
module Gfal {
  import opened Outcomes
  import opened PyStr

  const ETIME := 62
  const ETIMEDOUT := 110
  const TIMEOUT_MIN := 300
  const TIMEOUT_MAX := 3 * 3600
  /** The assumed transfer rate, in bytes per second of time-out. */
  const RATE := 500000

  const NO_GFAL := "No GFAL2 tools found"
  const CP_TIMEOUT := "CP_TIMEOUT"
  const TRANSFERRED := "transferred"
  const REMOTE_IO := "remote_io"
  const FAILED := "failed"

  datatype Direction = StageIn | StageOut

  /** An error code: the two time-out codes of the pilot's error table, or
      a number the error resolver chose. */
  datatype ErrorCode = StageInTimeout | StageOutTimeout | Code(n: int)

  /** A file record as the copytool sees it; `status` and `statusCode` are
      what it updates. */
  datatype FileSpec = FileSpec(
    lfn: string,
    turl: string,
    surl: string,
    workdir: string,
    filesize: nat,
    checksum: Option<(string, string)>,
    directAccess: bool,
    status: string,
    statusCode: ErrorCode)

  /** What one command exits with. */
  datatype Exec = Exec(rcode: int, stdout: string, stderr: string)

  /** The dictionary the error resolver returns. */
  datatype TransferError = TransferError(rcode: ErrorCode, state: string, error: string)

  /** What `copy_in` and `copy_out` raise. */
  datatype Failure =
    | NoGfal(direction: Direction)
    | Pilot(message: string, code: ErrorCode, state: string)

  /** Python's `int(a / 500000.0)`: the quotient by the rate, rounded
      toward zero. */
  function TruncDiv(a: int): (q: int)
    ensures a >= 0 ==> q * RATE <= a < (q + 1) * RATE
    ensures a < 0 ==> (q - 1) * RATE < a <= q * RATE
  {
    if a >= 0 then a / RATE else -((-a) / RATE)
  }

  /** Rounding toward zero keeps the order of the dividends. */
  lemma TruncDivMonotone(a1: int, a2: int)
    requires a1 <= a2
    ensures TruncDiv(a1) <= TruncDiv(a2)
  {
    if 0 <= a1 {
      DivMonotone(a1, a2, RATE);
    } else if a2 < 0 {
      DivMonotone(-a2, -a1, RATE);
    }
  }

  lemma DivMonotone(x: int, y: int, b: int)
    requires 0 <= x <= y && b > 0
    ensures x / b <= y / b
  {
    var qx, qy := x / b, y / b;
    assert qx * b <= x;
    assert y < qy * b + b;
    if qy < qx {
      MulMonotone(qy + 1, qx, b);
      assert false;
    }
  }

  lemma MulMonotone(x: int, y: int, b: int)
    requires x <= y && b > 0
    ensures x * b <= y * b
  {
    assert y * b - x * b == (y - x) * b;
  }

  /** `get_timeout`: 300 s plus one second per 0.5 MB, at most three hours. */
  function GetTimeout(filesize: int): (t: int)
    ensures t <= TIMEOUT_MAX
    ensures filesize >= 0 ==> TIMEOUT_MIN <= t
  {
    Min(TIMEOUT_MIN + TruncDiv(filesize), TIMEOUT_MAX)
  }

  /** A larger file never gets a shorter time-out. */
  lemma TimeoutMonotone(s1: int, s2: int)
    requires s1 <= s2
    ensures GetTimeout(s1) <= GetTimeout(s2)
  {
    TruncDivMonotone(s1, s2);
  }

  /** Below the cap, the time-out is the minimum plus the whole number of
      0.5 MB blocks in the file. */
  lemma TimeoutRate(s: nat)
    requires GetTimeout(s) < TIMEOUT_MAX
    ensures (GetTimeout(s) - TIMEOUT_MIN) * RATE <= s < (GetTimeout(s) - TIMEOUT_MIN + 1) * RATE
  {
  }

  /** The cap is reached exactly from 5.25 GB on. */
  lemma TimeoutCapped(s: nat)
    ensures GetTimeout(s) == TIMEOUT_MAX <==> s >= 5250000000
  {
    var q := TruncDiv(s);
    if s >= 5250000000 {
      assert q * RATE > 5250000000 - RATE;
    } else {
      assert q * RATE < 5250000000;
    }
  }

  /** `check_for_gfal`: `which gfal-copy` exited with 0. */
  function CheckForGfal(whichExit: int): (found: bool)
    ensures found <==> whichExit == 0
  {
    whichExit == 0
  }

  /** `is_valid_for_copy_in` and `is_valid_for_copy_out` accept every list. */
  function IsValidForCopy(direction: Direction, files: seq<FileSpec>): (valid: bool)
    ensures valid
  {
    true
  }

  /** A nonzero exit code the copytool treats as a time-out. */
  predicate IsTimeout(rcode: int)
  {
    rcode == ETIMEDOUT || rcode == ETIME
  }

  /** `fspec.workdir or workdir or '.'`. */
  function WorkDir(f: FileSpec, workdir: string): (w: string)
    ensures w != ""
  {
    if f.workdir != "" then f.workdir else if workdir != "" then workdir else "."
  }

  /** The source and destination URLs of one transfer. */
  function Endpoints(direction: Direction, f: FileSpec, workdir: string): (string, string)
  {
    match direction
    case StageIn => (f.turl, "file://" + PathJoin(WorkDir(f, workdir), f.lfn))
    case StageOut =>
      ("file://" + (if f.surl != "" then f.surl else PathJoin(WorkDir(f, workdir), f.lfn)), f.turl)
  }

  function ChecksumArgs(checksum: Option<(string, string)>): seq<string>
  {
    match checksum
    case None => []
    case Some((kind, value)) => ["-K", kind + ":" + value]
  }

  /** One `gfal-copy` run: from where to where, with which time-out and
      which checksum to check. */
  datatype Transfer = Transfer(source: string, destination: string, timeout: nat, checksum: Option<(string, string)>)

  /** The transfer `copy_in` or `copy_out` runs for one file. */
  function TransferFor(direction: Direction, f: FileSpec, workdir: string): Transfer
  {
    var (source, destination) := Endpoints(direction, f, workdir);
    Transfer(source, destination, GetTimeout(f.filesize), f.checksum)
  }

  /** Where a transfer reads and writes. Stage-in fetches the remote `turl`
      into the file's own work directory, else the caller's, else the
      current directory; stage-out sends `surl` when it is set, else the
      file stage-in would have written, to `turl`. */
  lemma TransferPaths(f: FileSpec, workdir: string)
    ensures Endpoints(StageIn, f, workdir).0 == f.turl
    ensures Endpoints(StageOut, f, workdir).1 == f.turl
    ensures f.workdir != "" ==> Endpoints(StageIn, f, workdir).1 == "file://" + PathJoin(f.workdir, f.lfn)
    ensures f.workdir == "" && workdir != "" ==> Endpoints(StageIn, f, workdir).1 == "file://" + PathJoin(workdir, f.lfn)
    ensures f.workdir == "" && workdir == "" && f.lfn != "" && f.lfn[0] != '/' ==>
              Endpoints(StageIn, f, workdir).1 == "file://./" + f.lfn
    ensures f.surl != "" ==> Endpoints(StageOut, f, workdir).0 == "file://" + f.surl
    ensures f.surl == "" ==> Endpoints(StageOut, f, workdir).0 == Endpoints(StageIn, f, workdir).1
  {
  }

  /** The command line of a transfer, its pieces joined by single spaces. */
  function CopyCommand(t: Transfer): string
  {
    Join(["gfal-copy --verbose -f", " -t " + NatToString(t.timeout)]
         + ChecksumArgs(t.checksum) + [t.source, t.destination], ' ')
  }

  lemma JoinCons(a: string, rest: seq<string>, sep: char)
    requires |rest| >= 1
    ensures Join([a] + rest, sep) == a + [sep] + Join(rest, sep)
  {
    assert ([a] + rest)[1..] == rest;
  }

  /** The words of a transfer's command line: the fixed options, an
      empty word where two spaces meet, the time-out, the checksum option
      and the two URLs. */
  function CopyWords(t: Transfer): seq<string>
  {
    ["gfal-copy", "--verbose", "-f", "", "-t", NatToString(t.timeout)] + ChecksumArgs(t.checksum) + [t.source, t.destination]
  }

  lemma CopyCommandJoin(t: Transfer)
    ensures CopyCommand(t) == Join(CopyWords(t), ' ')
  {
    var n := NatToString(t.timeout);
    var rest := ChecksumArgs(t.checksum) + [t.source, t.destination];
    assert ["gfal-copy --verbose -f", " -t " + n] + ChecksumArgs(t.checksum) + [t.source, t.destination]
           == ["gfal-copy --verbose -f", " -t " + n] + rest;
    assert CopyWords(t) == ["gfal-copy", "--verbose", "-f", "", "-t", n] + rest;
    CopyWordsJoin(n, rest);
  }

  lemma CopyWordsNoSpace(t: Transfer)
    requires ' ' !in t.source && ' ' !in t.destination
    requires t.checksum.Some? ==> ' ' !in t.checksum.value.0 && ' ' !in t.checksum.value.1
    ensures forall j :: 0 <= j < |CopyWords(t)| ==> ' ' !in CopyWords(t)[j]
  {
    var n := NatToString(t.timeout);
    assert ' ' !in n by {
      assert forall i :: 0 <= i < |n| ==> '0' <= n[i] <= '9';
    }
  }

  /** Split at spaces, the copy command gives back its words. */
  lemma CopyCommandWords(t: Transfer)
    requires ' ' !in t.source && ' ' !in t.destination
    requires t.checksum.Some? ==> ' ' !in t.checksum.value.0 && ' ' !in t.checksum.value.1
    ensures Split(CopyCommand(t), ' ') == CopyWords(t)
  {
    CopyCommandJoin(t);
    CopyWordsNoSpace(t);
    SplitJoin(CopyWords(t), ' ');
  }

  lemma {:induction false} JoinTwo(a: string, b: string, rest: seq<string>, sep: char)
    requires |rest| >= 1
    ensures Join([a, b] + rest, sep) == a + [sep] + b + [sep] + Join(rest, sep)
  {
    JoinCons(b, rest, sep);
    JoinCons(a, [b] + rest, sep);
    assert [a, b] + rest == [a] + ([b] + rest);
  }

  lemma {:induction false} JoinSix(a: string, b: string, c: string, d: string, e: string, f: string,
                                   rest: seq<string>, sep: char)
    requires |rest| >= 1
    ensures Join([a, b, c, d, e, f] + rest, sep)
            == a + [sep] + b + [sep] + c + [sep] + d + [sep] + e + [sep] + f + [sep] + Join(rest, sep)
  {
    JoinTwo(e, f, rest, sep);
    JoinTwo(c, d, [e, f] + rest, sep);
    JoinTwo(a, b, [c, d] + ([e, f] + rest), sep);
    assert [a, b, c, d, e, f] + rest == [a, b] + ([c, d] + ([e, f] + rest));
  }

  /** Joining two pieces equals joining six words when the two pieces,
      joined, read as the six words joined. */
  lemma {:induction false} WordsJoin(p: string, q: string, a: string, b: string, c: string, d: string,
                                     e: string, f: string, rest: seq<string>, sep: char)
    requires |rest| >= 1
    requires p + [sep] + q == a + [sep] + b + [sep] + c + [sep] + d + [sep] + e + [sep] + f
    ensures Join([p, q] + rest, sep) == Join([a, b, c, d, e, f] + rest, sep)
  {
    JoinTwo(p, q, rest, sep);
    JoinSix(a, b, c, d, e, f, rest, sep);
  }

  lemma CopyPrefix(t: string)
    ensures "gfal-copy --verbose -f" + " " + (" -t " + t)
            == "gfal-copy" + " " + "--verbose" + " " + "-f" + " " + "" + " " + "-t" + " " + t
  {
  }

  /** The two leading pieces of the copy command are six words. */
  lemma CopyWordsJoin(t: string, rest: seq<string>)
    requires |rest| >= 1
    ensures Join(["gfal-copy --verbose -f", " -t " + t] + rest, ' ')
            == Join(["gfal-copy", "--verbose", "-f", "", "-t", t] + rest, ' ')
  {
    CopyPrefix(t);
    WordsJoin("gfal-copy --verbose -f", " -t " + t, "gfal-copy", "--verbose", "-f", "", "-t", t, rest, ' ');
  }

  /** A file that `copy_in` accesses directly instead of copying. */
  predicate Skipped(direction: Direction, f: FileSpec, allowDirect: bool)
  {
    direction == StageIn && f.directAccess && allowDirect
  }

  /** A file the loop is done with and did not fail on. */
  function Done(direction: Direction, f: FileSpec, allowDirect: bool): (g: FileSpec)
    ensures g.statusCode == Code(0) && g.status in {TRANSFERRED, REMOTE_IO}
    ensures g.status == REMOTE_IO <==> Skipped(direction, f, allowDirect)
    ensures g.(status := f.status, statusCode := f.statusCode) == f
  {
    if Skipped(direction, f, allowDirect) then f.(statusCode := Code(0), status := REMOTE_IO)
    else f.(statusCode := Code(0), status := TRANSFERRED)
  }

  /** The error a failed copy raises: time-outs get the direction's
      time-out code, anything else is resolved from the command's output. */
  function CopyError(direction: Direction, e: Exec, resolve: (string, bool) -> TransferError): (err: TransferError)
    ensures IsTimeout(e.rcode) ==>
              err.state == CP_TIMEOUT && err.rcode == (if direction == StageIn then StageInTimeout else StageOutTimeout)
    ensures IsTimeout(e.rcode) ==> err.error == "Copy command timed out: " + e.stderr
    ensures !IsTimeout(e.rcode) ==> err == resolve(e.stdout + e.stderr, direction == StageIn)
  {
    if IsTimeout(e.rcode) then
      TransferError(if direction == StageIn then StageInTimeout else StageOutTimeout, CP_TIMEOUT,
                    "Copy command timed out: " + e.stderr)
    else resolve(e.stdout + e.stderr, direction == StageIn)
  }

  /** A file whose copy is run and exits nonzero. */
  predicate Fails(direction: Direction, f: FileSpec, allowDirect: bool, e: Exec)
  {
    !Skipped(direction, f, allowDirect) && e.rcode != 0
  }

  /** The first file from `i` on that fails. */
  function FirstFail(direction: Direction, fs: seq<FileSpec>, allowDirect: bool, execs: seq<Exec>, i: nat): (r: Option<nat>)
    requires |fs| <= |execs|
    ensures r.Some? ==> i <= r.value < |fs| && Fails(direction, fs[r.value], allowDirect, execs[r.value])
    ensures r.Some? ==> forall j :: i <= j < r.value ==> !Fails(direction, fs[j], allowDirect, execs[j])
    ensures r.None? ==> forall j :: i <= j < |fs| ==> !Fails(direction, fs[j], allowDirect, execs[j])
    decreases |fs| - i
  {
    if i >= |fs| then None
    else if Fails(direction, fs[i], allowDirect, execs[i]) then Some(i)
    else FirstFail(direction, fs, allowDirect, execs, i + 1)
  }

  /** The transfers run for `fs`, in order: one per file not skipped. */
  function Transfers(direction: Direction, fs: seq<FileSpec>, allowDirect: bool, workdir: string): (ts: seq<Transfer>)
    ensures |ts| <= |fs|
    decreases |fs|
  {
    if fs == [] then []
    else
      var n := |fs| - 1;
      Transfers(direction, fs[..n], allowDirect, workdir)
      + (if Skipped(direction, fs[n], allowDirect) then [] else [TransferFor(direction, fs[n], workdir)])
  }

  lemma TransfersStep(direction: Direction, fs: seq<FileSpec>, i: nat, allowDirect: bool, workdir: string)
    requires i < |fs|
    ensures Transfers(direction, fs[..i + 1], allowDirect, workdir)
            == Transfers(direction, fs[..i], allowDirect, workdir)
               + (if Skipped(direction, fs[i], allowDirect) then [] else [TransferFor(direction, fs[i], workdir)])
  {
    assert fs[..i + 1][..i] == fs[..i];
  }

  /** What a copy run ends with: the outcome, the transfers run and the
      file records. */
  datatype CopyRun = CopyRun(outcome: Outcome<Failure>, transfers: seq<Transfer>, files: seq<FileSpec>)

  /** The copy loop from file `i` on, `fs` being the records so far and
      `ts` the transfers run so far. */
  function CopyFrom(direction: Direction, fs: seq<FileSpec>, i: nat, ts: seq<Transfer>, allowDirect: bool,
                    workdir: string, execs: seq<Exec>, resolve: (string, bool) -> TransferError): CopyRun
    requires |fs| <= |execs|
    decreases |fs| - i
  {
    if i >= |fs| then CopyRun(Pass, ts, fs)
    else if Skipped(direction, fs[i], allowDirect) then
      CopyFrom(direction, fs[i := Done(direction, fs[i], allowDirect)], i + 1, ts, allowDirect, workdir, execs, resolve)
    else
      var ts' := ts + [TransferFor(direction, fs[i], workdir)];
      if execs[i].rcode != 0 then
        var err := CopyError(direction, execs[i], resolve);
        CopyRun(Fail(Pilot(err.error, err.rcode, err.state)), ts', fs[i := fs[i].(status := FAILED, statusCode := err.rcode)])
      else
        CopyFrom(direction, fs[i := Done(direction, fs[i], allowDirect)], i + 1, ts', allowDirect, workdir, execs, resolve)
  }

  /** A whole run of `copy_in` or `copy_out`. */
  function CopyRunOf(direction: Direction, fs: seq<FileSpec>, allowDirect: bool, workdir: string, whichExit: int,
                     execs: seq<Exec>, resolve: (string, bool) -> TransferError): CopyRun
    requires |fs| <= |execs|
  {
    if !CheckForGfal(whichExit) then CopyRun(Fail(NoGfal(direction)), [], fs)
    else CopyFrom(direction, fs, 0, [], allowDirect, workdir, execs, resolve)
  }

  /** How a run over `fs` ends when `first` is its first failing file:
      everything before it done, it marked failed with its error's code and
      the rest untouched, one transfer per file copied up to it. */
  function CopyEnd(direction: Direction, fs: seq<FileSpec>, first: Option<nat>, allowDirect: bool, workdir: string,
                   execs: seq<Exec>, resolve: (string, bool) -> TransferError): CopyRun
    requires |fs| <= |execs|
    requires first.Some? ==> first.value < |fs|
  {
    match first
    case None => CopyRun(Pass, Transfers(direction, fs, allowDirect, workdir), Updated(direction, fs, |fs|, allowDirect))
    case Some(k) =>
      var err := CopyError(direction, execs[k], resolve);
      CopyRun(Fail(Pilot(err.error, err.rcode, err.state)), Transfers(direction, fs[..k + 1], allowDirect, workdir),
              Updated(direction, fs, k, allowDirect)[k := fs[k].(status := FAILED, statusCode := err.rcode)])
  }

  /** From any point of the loop, the run ends at the first failing file
      from there on. */
  lemma {:induction false} CopyFromAt(direction: Direction, fs: seq<FileSpec>, i: nat, allowDirect: bool,
                                      workdir: string, execs: seq<Exec>, resolve: (string, bool) -> TransferError)
    requires i <= |fs| <= |execs|
    ensures CopyFrom(direction, Updated(direction, fs, i, allowDirect), i, Transfers(direction, fs[..i], allowDirect, workdir),
                     allowDirect, workdir, execs, resolve)
            == CopyEnd(direction, fs, FirstFail(direction, fs, allowDirect, execs, i), allowDirect, workdir, execs, resolve)
    decreases |fs| - i
  {
    if i == |fs| {
      assert fs[..i] == fs;
    } else if Fails(direction, fs[i], allowDirect, execs[i]) {
      CopyStepFail(direction, fs, i, allowDirect, workdir, execs, resolve);
    } else {
      CopyStepOk(direction, fs, i, allowDirect, workdir, execs, resolve);
      CopyFromAt(direction, fs, i + 1, allowDirect, workdir, execs, resolve);
    }
  }

  /** A file that does not fail moves the loop on to the next one. */
  lemma CopyStepOk(direction: Direction, fs: seq<FileSpec>, i: nat, allowDirect: bool,
                   workdir: string, execs: seq<Exec>, resolve: (string, bool) -> TransferError)
    requires i < |fs| <= |execs| && !Fails(direction, fs[i], allowDirect, execs[i])
    ensures CopyFrom(direction, Updated(direction, fs, i, allowDirect), i, Transfers(direction, fs[..i], allowDirect, workdir),
                     allowDirect, workdir, execs, resolve)
            == CopyFrom(direction, Updated(direction, fs, i + 1, allowDirect), i + 1,
                        Transfers(direction, fs[..i + 1], allowDirect, workdir), allowDirect, workdir, execs, resolve)
    ensures FirstFail(direction, fs, allowDirect, execs, i) == FirstFail(direction, fs, allowDirect, execs, i + 1)
  {
    var u := Updated(direction, fs, i, allowDirect);
    assert u[i] == fs[i];
    assert u[i := Done(direction, fs[i], allowDirect)] == Updated(direction, fs, i + 1, allowDirect);
    TransfersStep(direction, fs, i, allowDirect, workdir);
    if Skipped(direction, fs[i], allowDirect) {
      assert Transfers(direction, fs[..i + 1], allowDirect, workdir) == Transfers(direction, fs[..i], allowDirect, workdir);
    }
  }

  /** A file that fails ends the run. */
  lemma CopyStepFail(direction: Direction, fs: seq<FileSpec>, i: nat, allowDirect: bool,
                     workdir: string, execs: seq<Exec>, resolve: (string, bool) -> TransferError)
    requires i < |fs| <= |execs| && Fails(direction, fs[i], allowDirect, execs[i])
    ensures CopyFrom(direction, Updated(direction, fs, i, allowDirect), i, Transfers(direction, fs[..i], allowDirect, workdir),
                     allowDirect, workdir, execs, resolve)
            == CopyEnd(direction, fs, Some(i), allowDirect, workdir, execs, resolve)
    ensures FirstFail(direction, fs, allowDirect, execs, i) == Some(i)
  {
    var u := Updated(direction, fs, i, allowDirect);
    assert u[i] == fs[i];
    TransfersStep(direction, fs, i, allowDirect, workdir);
  }

  /** `copy_in` and `copy_out` without gfal raise before touching a file;
      otherwise the run passes exactly when no copy fails, and then every
      file is done; else it raises the first failure's error, marks that
      file failed with the error's code, leaves the files after it as they
      were, and has run one transfer per copied file up to it. */
  lemma CopySpec(direction: Direction, fs: seq<FileSpec>, allowDirect: bool, workdir: string, whichExit: int,
                 execs: seq<Exec>, resolve: (string, bool) -> TransferError)
    requires |fs| <= |execs|
    ensures !CheckForGfal(whichExit) ==>
              CopyRunOf(direction, fs, allowDirect, workdir, whichExit, execs, resolve) == CopyRun(Fail(NoGfal(direction)), [], fs)
    ensures CheckForGfal(whichExit) ==>
              CopyRunOf(direction, fs, allowDirect, workdir, whichExit, execs, resolve)
              == CopyEnd(direction, fs, FirstFail(direction, fs, allowDirect, execs, 0), allowDirect, workdir, execs, resolve)
  {
    if CheckForGfal(whichExit) {
      assert Updated(direction, fs, 0, allowDirect) == fs;
      assert fs[..0] == [];
      CopyFromAt(direction, fs, 0, allowDirect, workdir, execs, resolve);
    }
  }

  /** `copy_in` (StageIn) and `copy_out` (StageOut) over the file records
      in place, given what `which gfal-copy` and each copy exit with. */
  method Copy(direction: Direction, files: array<FileSpec>, allowDirect: bool, workdir: string,
              whichExit: int, execs: seq<Exec>, resolve: (string, bool) -> TransferError)
    returns (r: Outcome<Failure>, transfers: seq<Transfer>)
    requires |execs| == files.Length
    modifies files
    ensures CopyRun(r, transfers, files[..])
            == CopyRunOf(direction, old(files[..]), allowDirect, workdir, whichExit, execs, resolve)
  {
    transfers := [];
    if !CheckForGfal(whichExit) {
      return Fail(NoGfal(direction)), transfers;
    }
    ghost var fs := files[..];
    var i := 0;
    while i < files.Length
      invariant 0 <= i <= files.Length
      invariant CopyFrom(direction, files[..], i, transfers, allowDirect, workdir, execs, resolve)
                == CopyFrom(direction, fs, 0, [], allowDirect, workdir, execs, resolve)
    {
      ghost var before, ts0 := files[..], transfers;
      label Step:
      var transfer, err := CopyFile(direction, files, i, files[i], allowDirect, workdir, execs[i], resolve);
      transfers := transfers + transfer;
      if err.Some? {
        assert CopyFrom(direction, before, i, ts0, allowDirect, workdir, execs, resolve)
               == CopyRun(Fail(Pilot(err.value.error, err.value.rcode, err.value.state)), transfers, files[..]);
        return Fail(Pilot(err.value.error, err.value.rcode, err.value.state)), transfers;
      }
      assert before[i] == old@Step(files[i]);
      assert files[..] == before[i := Done(direction, before[i], allowDirect)];
      if Skipped(direction, before[i], allowDirect) {
        assert transfers == ts0;
      } else {
        assert execs[i].rcode == 0;
        assert transfers == ts0 + [TransferFor(direction, before[i], workdir)];
      }
      assert CopyFrom(direction, before, i, ts0, allowDirect, workdir, execs, resolve)
             == CopyFrom(direction, files[..], i + 1, transfers, allowDirect, workdir, execs, resolve);
      i := i + 1;
    }
    r := Pass;
  }

  /** The files after the first `i` are done with. */
  function Updated(direction: Direction, fs: seq<FileSpec>, i: nat, allowDirect: bool): (us: seq<FileSpec>)
    requires i <= |fs|
    ensures |us| == |fs|
    ensures forall j :: 0 <= j < i ==> us[j] == Done(direction, fs[j], allowDirect)
    ensures forall j :: i <= j < |fs| ==> us[j] == fs[j]
  {
    seq(|fs|, j requires 0 <= j < |fs| => if j < i then Done(direction, fs[j], allowDirect) else fs[j])
  }

  /** One pass of the copy loop: a file accessed directly is marked
      `remote_io`; any other is copied and marked transferred, or failed
      with the error that is then raised. No other file changes. */
  method CopyFile(direction: Direction, files: array<FileSpec>, i: nat, ghost f: FileSpec, allowDirect: bool,
                  workdir: string, e: Exec, resolve: (string, bool) -> TransferError)
    returns (transfer: seq<Transfer>, err: Option<TransferError>)
    requires i < files.Length && files[i] == f
    modifies files
    ensures transfer == if Skipped(direction, f, allowDirect) then [] else [TransferFor(direction, f, workdir)]
    ensures err.Some? <==> Fails(direction, f, allowDirect, e)
    ensures err.None? ==> files[..] == old(files[..])[i := Done(direction, f, allowDirect)]
    ensures err.Some? ==> err.value == CopyError(direction, e, resolve)
                          && files[..] == old(files[..])[i := f.(status := FAILED, statusCode := err.value.rcode)]
  {
    var g := files[i];
    if direction == StageIn && g.directAccess && allowDirect {
      files[i] := g.(statusCode := Code(0), status := REMOTE_IO);
      return [], None;
    }
    transfer := [TransferFor(direction, g, workdir)];
    if e.rcode != 0 {
      var error := CopyError(direction, e, resolve);
      files[i] := g.(status := FAILED, statusCode := error.rcode);
      return transfer, Some(error);
    }
    files[i] := g.(statusCode := Code(0), status := TRANSFERRED);
    err := None;
  }

  /** `move`'s command line. */
  function MoveCommand(source: string, destination: string, recursive: bool): (cmd: string)
  {
    if recursive then "gfal-copy -r " + source + " " + destination
    else "gfal-copy " + source + " " + destination
  }

  /** Split at spaces, the command names the `-r` flag exactly when it is
      recursive, then the source and the destination. */
  lemma MoveCommandWords(source: string, destination: string, recursive: bool)
    requires ' ' !in source && ' ' !in destination
    ensures Split(MoveCommand(source, destination, recursive), ' ')
            == if recursive then ["gfal-copy", "-r", source, destination] else ["gfal-copy", source, destination]
  {
    var words := if recursive then ["gfal-copy", "-r", source, destination] else ["gfal-copy", source, destination];
    if recursive {
      JoinCons(source, [destination], ' ');
      JoinTwo("gfal-copy", "-r", [source, destination], ' ');
      assert words == ["gfal-copy", "-r"] + [source, destination];
      MovePrefixes();
      assert Join(words, ' ') == MoveCommand(source, destination, recursive);
    } else {
      JoinTwo("gfal-copy", source, [destination], ' ');
      assert words == ["gfal-copy", source] + [destination];
      MovePrefixes();
      assert Join(words, ' ') == MoveCommand(source, destination, recursive);
    }
    SplitJoin(words, ' ');
  }

  lemma MovePrefixes()
    ensures "gfal-copy -r " == "gfal-copy" + " " + "-r" + " "
    ensures "gfal-copy " == "gfal-copy" + " "
  {
  }

  /** One entry of the move helpers' file list. */
  datatype MoveEntry = MoveEntry(name: string, source: string, destination: string, recursive: bool)

  /** The move command for one entry: `move_all_files_in` copies from a
      plain path to a `file:///` URL and honours `recursive`;
      `move_all_files_out` copies the other way, never recursively. */
  function MoveFor(direction: Direction, e: MoveEntry): string
  {
    match direction
    case StageIn =>
      MoveCommand(e.source + "/" + e.name, "file:///" + PathJoin(e.destination, e.name), e.recursive)
    case StageOut =>
      MoveCommand("file:///" + PathJoin(e.source, e.name), e.destination + "/" + e.name, false)
  }

  /** Split at spaces, stage-in's command copies `source/name` to the
      `file:///` URL of `destination/name`, with `-r` when the entry is
      recursive; stage-out's copies the `file:///` URL of `source/name` to
      `destination/name`, never with `-r`. */
  lemma MoveForWords(direction: Direction, e: MoveEntry)
    requires ' ' !in e.name && ' ' !in e.source && ' ' !in e.destination
    ensures direction == StageIn ==>
              Split(MoveFor(direction, e), ' ')
              == ["gfal-copy"] + (if e.recursive then ["-r"] else [])
                 + [e.source + "/" + e.name, "file:///" + PathJoin(e.destination, e.name)]
    ensures direction == StageOut ==>
              Split(MoveFor(direction, e), ' ')
              == ["gfal-copy", "file:///" + PathJoin(e.source, e.name), e.destination + "/" + e.name]
  {
    match direction
    case StageIn =>
      MoveCommandWords(e.source + "/" + e.name, "file:///" + PathJoin(e.destination, e.name), e.recursive);
    case StageOut =>
      MoveCommandWords("file:///" + PathJoin(e.source, e.name), e.destination + "/" + e.name, false);
  }

  /** The retry loop for file `i` from attempt `retry` on: it ends at the
      first success, the first failure that is not a time-out, or the last
      attempt. Gives the last attempt's result and how many were made. */
  function FileOutcome(attempt: (nat, nat) -> Exec, i: nat, retry: nat, nretries: nat): (out: (Exec, nat))
    requires retry < nretries
    ensures retry < out.1 <= nretries && out.0 == attempt(i, out.1 - 1)
    ensures out.0.rcode != 0 ==> !IsTimeout(out.0.rcode) || out.1 == nretries
    ensures forall r :: retry <= r < out.1 - 1 ==> attempt(i, r).rcode != 0 && IsTimeout(attempt(i, r).rcode)
    decreases nretries - retry
  {
    var e := attempt(i, retry);
    if e.rcode == 0 || !IsTimeout(e.rcode) || retry + 1 == nretries then (e, retry + 1)
    else FileOutcome(attempt, i, retry + 1, nretries)
  }

  /** What the move helpers return after the files from `k` on, `last`
      being what the previous move returned. */
  function MoveFrom(attempt: (nat, nat) -> Exec, k: nat, n: nat, nretries: int, last: Exec): (r: Exec)
    decreases n - k
  {
    if k >= n || nretries <= 0 then last
    else
      var e := FileOutcome(attempt, k, 0, nretries).0;
      if e.rcode != 0 then e else MoveFrom(attempt, k + 1, n, nretries, e)
  }

  function MoveAll(attempt: (nat, nat) -> Exec, n: nat, nretries: int): Exec
  {
    MoveFrom(attempt, 0, n, nretries, Exec(0, "", ""))
  }

  /** `move_all_files_in` (StageIn) and `move_all_files_out` (StageOut),
      given what each attempt `r` at file `i` exits with. */
  method MoveAllFiles(direction: Direction, entries: seq<MoveEntry>, nretries: int, attempt: (nat, nat) -> Exec)
    returns (exitCode: int, stdout: string, stderr: string, moves: seq<string>)
    ensures Exec(exitCode, stdout, stderr) == MoveAll(attempt, |entries|, nretries)
    ensures nretries <= 0 ==> moves == []
    ensures nretries > 0 ==> |moves| <= |entries| * nretries
    ensures forall m :: m in moves ==> exists j :: 0 <= j < |entries| && m == MoveFor(direction, entries[j])
  {
    exitCode, stdout, stderr := 0, "", "";
    moves := [];
    var i := 0;
    while i < |entries|
      invariant 0 <= i <= |entries|
      invariant MoveFrom(attempt, i, |entries|, nretries, Exec(exitCode, stdout, stderr)) == MoveAll(attempt, |entries|, nretries)
      invariant nretries <= 0 ==> moves == []
      invariant nretries > 0 ==> |moves| <= i * nretries
      invariant forall m :: m in moves ==> exists j :: 0 <= j < |entries| && m == MoveFor(direction, entries[j])
    {
      if nretries > 0 {
        var command := MoveFor(direction, entries[i]);
        var e, tries := MoveRetrying(attempt, i, nretries);
        moves := moves + seq(tries, _ => command);
        exitCode, stdout, stderr := e.rcode, e.stdout, e.stderr;
        if e.rcode != 0 {
          MovesBound(i, |entries|, nretries);
          return;
        }
        MovesBound(i, i + 1, nretries);
      }
      i := i + 1;
    }
  }

  /** The retry loop for file `i`: `move` is called until it succeeds,
      fails other than by a time-out, or has been tried `nretries` times. */
  method MoveRetrying(attempt: (nat, nat) -> Exec, i: nat, nretries: nat) returns (e: Exec, tries: nat)
    requires nretries > 0
    ensures (e, tries) == FileOutcome(attempt, i, 0, nretries)
  {
    var retry := 0;
    while true
      invariant retry < nretries
      invariant FileOutcome(attempt, i, retry, nretries) == FileOutcome(attempt, i, 0, nretries)
      decreases nretries - retry
    {
      e := attempt(i, retry);
      if e.rcode != 0 {
        if !IsTimeout(e.rcode) || retry + 1 == nretries {
          return e, retry + 1;
        }
      } else {
        return e, retry + 1;
      }
      retry := retry + 1;
    }
  }

  lemma MovesBound(i: nat, n: nat, k: int)
    requires i < n && k > 0
    ensures i * k + k <= n * k
  {
    assert n * k == (i + 1) * k + (n - i - 1) * k;
  }

  /** The helpers return exit code 0 exactly when every file's retry loop
      ends in a success (a file may time out and then succeed), or when
      `nretries` leaves nothing to run. */
  lemma {:induction false} MoveAllSucceeds(attempt: (nat, nat) -> Exec, k: nat, n: nat, nretries: int, last: Exec)
    requires last.rcode == 0
    ensures MoveFrom(attempt, k, n, nretries, last).rcode == 0 <==>
              nretries <= 0 || forall i :: k <= i < n ==> FileOutcome(attempt, i, 0, nretries).0.rcode == 0
    decreases n - k
  {
    if k < n && nretries > 0 {
      var e := FileOutcome(attempt, k, 0, nretries).0;
      assert MoveFrom(attempt, k, n, nretries, last) == if e.rcode != 0 then e else MoveFrom(attempt, k + 1, n, nretries, e);
      if e.rcode == 0 {
        MoveAllSucceeds(attempt, k + 1, n, nretries, e);
        assert (forall i :: k <= i < n ==> FileOutcome(attempt, i, 0, nretries).0.rcode == 0) <==>
               (forall i :: k + 1 <= i < n ==> FileOutcome(attempt, i, 0, nretries).0.rcode == 0);
      } else {
        assert !(k <= k < n ==> FileOutcome(attempt, k, 0, nretries).0.rcode == 0);
      }
    }
  }

  /** A nonzero result is the attempt that ended the run: one that was not
      a time-out, or a time-out on the last retry. */
  lemma {:induction false} MoveAllStops(attempt: (nat, nat) -> Exec, k: nat, n: nat, nretries: int, last: Exec)
    requires last.rcode == 0
    requires MoveFrom(attempt, k, n, nretries, last).rcode != 0
    ensures exists i, r :: k <= i < n && 0 <= r < nretries
              && MoveFrom(attempt, k, n, nretries, last) == attempt(i, r)
              && (!IsTimeout(attempt(i, r).rcode) || r == nretries - 1)
    decreases n - k
  {
    var out := FileOutcome(attempt, k, 0, nretries);
    if out.0.rcode != 0 {
      assert attempt(k, out.1 - 1) == out.0;
    } else {
      MoveAllStops(attempt, k + 1, n, nretries, out.0);
    }
  }
}
