/** Automatic stage-in outside the pilot workflow: every file whose
    destination directory exists is downloaded with its own rucio call, and
    each file record is updated in place with a status, an error number and
    a message. */
module DataStageIn {
  import opened Outcomes
  import opened PyStr

  /** A file record as the caller passes it in and gets it back. */
  datatype AutoFile = AutoFile(
    scope: string,
    name: string,
    destination: string,
    status: string,
    errmsg: string,
    errno: int)

  /** The download of one file as observed: whether its process could be
      spawned at all, and then its exit code and stderr. */
  datatype Download = Download(spawned: bool, exitCode: int, stderr: string)

  const FAILED := "failed"
  const TRANSFERRING := "transferring"
  const DONE := "done"
  const DETAILS := "Details:"
  const NOT_YET := "File not yet successfully downloaded."
  const DOWNLOADED := "File successfully downloaded."
  const NO_DETAILS := "Could not find rucio error message details - please check stderr directly: list index out of range"

  function NoDestination(destination: string): string
  {
    "Destination directory does not exist: " + destination
  }

  /** The rucio command for one file. */
  function DownloadCommand(f: AutoFile): seq<string>
  {
    ["/usr/bin/env", "rucio", "-v", "download", "--no-subdir", "--dir", f.destination, f.scope + ":" + f.name]
  }

  /** Every file's command starts from the same five-word executable, never
      from a previous file's command, and it names exactly the file's
      destination directory and its `scope:name`. */
  lemma DownloadCommandTarget(f: AutoFile, g: AutoFile)
    ensures |DownloadCommand(f)| == 8 && DownloadCommand(f)[..5] == DownloadCommand(g)[..5]
    ensures DownloadCommand(f) == DownloadCommand(g) <==>
              f.destination == g.destination && f.scope + ":" + f.name == g.scope + ":" + g.name
  {
    if f.destination == g.destination && f.scope + ":" + f.name == g.scope + ":" + g.name {
      assert DownloadCommand(f) == DownloadCommand(g);
    }
  }

  /** Python's `line[9:-1]`: the line without its first nine characters
      and its last one. */
  function Trimmed(line: string): (r: string)
    ensures |line| >= 10 ==> |r| == |line| - 10 && line == line[..9] + r + [line[|line| - 1]]
    ensures |line| < 10 ==> r == ""
  {
    if |line| >= 10 then line[9..|line| - 1] else ""
  }

  /** The first line that starts with `Details:`. */
  function FirstDetails(lines: seq<string>): (r: Option<nat>)
    ensures r.Some? ==> r.value < |lines| && DETAILS <= lines[r.value]
                        && forall j :: 0 <= j < r.value ==> !(DETAILS <= lines[j])
    ensures r.None? ==> forall j :: 0 <= j < |lines| ==> !(DETAILS <= lines[j])
    decreases |lines|
  {
    if lines == [] then None
    else if DETAILS <= lines[0] then Some(0)
    else
      var r := FirstDetails(lines[1..]);
      assert forall j :: 1 <= j < |lines| ==> lines[j] == lines[1..][j - 1];
      if r.None? then None else Some(r.value + 1)
  }

  /** The error message of a failed download: the first `Details:` line of
      stderr cut as `[9:-1]`, or the fallback when there is none. */
  function DetailsMessage(stderr: string): string
  {
    var lines := Split(stderr, '\n');
    match FirstDetails(lines)
    case None => NO_DETAILS
    case Some(i) => Trimmed(lines[i])
  }

  lemma {:induction false} FirstDetailsAt(lines: seq<string>, k: nat)
    requires k < |lines| && DETAILS <= lines[k]
    requires forall j :: 0 <= j < k ==> !(DETAILS <= lines[j])
    ensures FirstDetails(lines) == Some(k)
    decreases k
  {
    if k > 0 {
      assert forall j :: 0 <= j < k - 1 ==> lines[1..][j] == lines[j + 1];
      FirstDetailsAt(lines[1..], k - 1);
    }
  }

  lemma SplitLines(before: seq<string>, line: string, after: seq<string>)
    requires forall j :: 0 <= j < |before| ==> '\n' !in before[j]
    requires forall j :: 0 <= j < |after| ==> '\n' !in after[j]
    requires '\n' !in line
    ensures Split(Join(before + [line] + after, '\n'), '\n') == before + [line] + after
  {
    NoNewlines(before, line, after);
    SplitJoin(before + [line] + after, '\n');
  }

  lemma NoNewlines(before: seq<string>, line: string, after: seq<string>)
    requires forall j :: 0 <= j < |before| ==> '\n' !in before[j]
    requires forall j :: 0 <= j < |after| ==> '\n' !in after[j]
    requires '\n' !in line
    ensures forall j :: 0 <= j < |before + [line] + after| ==> '\n' !in (before + [line] + after)[j]
  {
    var lines := before + [line] + after;
    forall j | 0 <= j < |lines| ensures '\n' !in lines[j] {
      if j < |before| {
        assert lines[j] == before[j];
      } else if j == |before| {
        assert lines[j] == line;
      } else {
        assert lines[j] == after[j - |before| - 1];
      }
    }
  }

  /** rucio's `Details: <message>` line, with one closing character, comes
      back as `<message>` when no earlier line starts with `Details:`. */
  lemma DetailsRoundTrip(before: seq<string>, message: string, close: char, after: seq<string>)
    requires forall j :: 0 <= j < |before| ==> '\n' !in before[j] && !(DETAILS <= before[j])
    requires forall j :: 0 <= j < |after| ==> '\n' !in after[j]
    requires '\n' !in message && close != '\n'
    ensures DetailsMessage(Join(before + ["Details: " + message + [close]] + after, '\n')) == message
  {
    var line := "Details: " + message + [close];
    SplitLines(before, line, after);
    DetailsLineFound(before, line, after);
    assert line[9..|line| - 1] == message;
  }

  lemma DetailsLineFound(before: seq<string>, line: string, after: seq<string>)
    requires forall j :: 0 <= j < |before| ==> !(DETAILS <= before[j])
    requires DETAILS <= line
    ensures FirstDetails(before + [line] + after) == Some(|before|)
  {
    var lines := before + [line] + after;
    assert lines[|before|] == line;
    assert forall j :: 0 <= j < |before| ==> lines[j] == before[j];
    FirstDetailsAt(lines, |before|);
  }

  /** A stderr without any `Details:` line gives the fallback message. */
  lemma NoDetailsFallback(stderr: string)
    requires forall j :: 0 <= j < |Split(stderr, '\n')| ==> !(DETAILS <= Split(stderr, '\n')[j])
    ensures DetailsMessage(stderr) == NO_DETAILS
  {
  }

  /** A file after the first pass: marked failed (errno 1) when its
      destination is missing, else transferring (errno 2). */
  function Marked(f: AutoFile, present: set<string>): (g: AutoFile)
    ensures g.scope == f.scope && g.name == f.name && g.destination == f.destination
    ensures g.errno == 1 <==> f.destination !in present
  {
    if f.destination !in present then
      f.(status := FAILED, errmsg := NoDestination(f.destination), errno := 1)
    else
      f.(status := TRANSFERRING, errmsg := NOT_YET, errno := 2)
  }

  /** A file as `stage_in_auto` leaves it once its download, if any, has
      run to its exit. */
  function Settled(f: AutoFile, present: set<string>, d: Download): AutoFile
  {
    var m := Marked(f, present);
    if m.errno == 1 then m else Completed(m, d)
  }

  /** The outcome table of a settled file: a missing destination is failed
      with errno 1; otherwise exit code 0 is done with errno 0, and any other
      exit code is failed with errno 3 and the message cut from stderr. A
      settled file is never left transferring. */
  lemma SettledCases(f: AutoFile, present: set<string>, d: Download)
    ensures var g := Settled(f, present, d);
      && g.scope == f.scope && g.name == f.name && g.destination == f.destination
      && (g.errno == 1 <==> f.destination !in present)
      && (g.errno == 1 ==> g.status == FAILED && g.errmsg == NoDestination(f.destination))
      && (g.status == DONE <==> f.destination in present && d.exitCode == 0)
      && (g.status == DONE ==> g.errno == 0 && g.errmsg == DOWNLOADED)
      && (f.destination in present && d.exitCode != 0 ==>
            g.status == FAILED && g.errno == 3 && g.errmsg == DetailsMessage(d.stderr))
      && g.status in {FAILED, DONE} && g.errno in {0, 1, 3}
  {
  }

  /** A record once its download process has exited. */
  function Completed(f: AutoFile, d: Download): AutoFile
  {
    if d.exitCode == 0 then f.(status := DONE, errno := 0, errmsg := DOWNLOADED)
    else f.(status := FAILED, errno := 3, errmsg := DetailsMessage(d.stderr))
  }

  /** The commands run, in file order: one per file whose destination
      exists, none for the others. */
  function Commands(fs: seq<AutoFile>, present: set<string>): (cs: seq<seq<string>>)
    ensures |cs| <= |fs|
    decreases |fs|
  {
    if fs == [] then []
    else
      var n := |fs| - 1;
      Commands(fs[..n], present) + (if fs[n].destination in present then [DownloadCommand(fs[n])] else [])
  }

  /** Every command run downloads a file whose destination exists. */
  lemma {:induction false} CommandsOnlyExisting(fs: seq<AutoFile>, present: set<string>, k: nat)
    requires k < |Commands(fs, present)|
    ensures exists i :: 0 <= i < |fs| && fs[i].destination in present && Commands(fs, present)[k] == DownloadCommand(fs[i])
    decreases |fs|
  {
    var n := |fs| - 1;
    if k < |Commands(fs[..n], present)| {
      CommandsOnlyExisting(fs[..n], present, k);
      var i :| 0 <= i < n && fs[..n][i].destination in present && Commands(fs[..n], present)[k] == DownloadCommand(fs[..n][i]);
      assert fs[i] == fs[..n][i];
    } else {
      assert Commands(fs, present)[k] == DownloadCommand(fs[n]);
    }
  }

  /** The first pass of `stage_in_auto`: every file is marked by whether
      its destination exists. */
  method MarkDestinations(files: array<AutoFile>, present: set<string>)
    modifies files
    ensures forall i :: 0 <= i < files.Length ==> files[i] == Marked(old(files[i]), present)
  {
    var i := 0;
    while i < files.Length
      invariant 0 <= i <= files.Length
      invariant forall j :: 0 <= j < i ==> files[j] == Marked(old(files[j]), present)
      invariant forall j :: i <= j < files.Length ==> files[j] == old(files[j])
    {
      var f := files[i];
      if f.destination !in present {
        files[i] := f.(status := FAILED, errmsg := NoDestination(f.destination), errno := 1);
      } else {
        files[i] := f.(status := TRANSFERRING, errmsg := NOT_YET, errno := 2);
      }
      i := i + 1;
    }
  }

  /** One more file adds at most its own download to the commands. */
  lemma CommandsStep(fs: seq<AutoFile>, i: nat, present: set<string>)
    requires i < |fs|
    ensures Commands(fs[..i + 1], present) ==
              Commands(fs[..i], present) + (if fs[i].destination in present then [DownloadCommand(fs[i])] else [])
  {
    assert fs[..i + 1][..i] == fs[..i];
  }

  /** A file whose download is due (its destination exists) but whose
      process cannot be spawned: the spawn raises out of `stage_in_auto`. */
  predicate Unspawned(f: AutoFile, present: set<string>, d: Download)
  {
    f.destination in present && !d.spawned
  }

  /** The first file whose download cannot be spawned, if any. */
  function FirstUnspawned(fs: seq<AutoFile>, present: set<string>, ds: seq<Download>): (r: Option<nat>)
    requires |ds| == |fs|
    ensures r.Some? ==> r.value < |fs| && Unspawned(fs[r.value], present, ds[r.value])
                        && forall j :: 0 <= j < r.value ==> !Unspawned(fs[j], present, ds[j])
    ensures r.None? ==> forall j :: 0 <= j < |fs| ==> !Unspawned(fs[j], present, ds[j])
    decreases |fs|
  {
    if fs == [] then None
    else if Unspawned(fs[0], present, ds[0]) then Some(0)
    else
      var r := FirstUnspawned(fs[1..], present, ds[1..]);
      assert forall j :: 1 <= j < |fs| ==> fs[j] == fs[1..][j - 1] && ds[j] == ds[1..][j - 1];
      if r.None? then None else Some(r.value + 1)
  }

  /** The file that cannot be spawned, with every earlier one spawned, is
      the first. */
  lemma {:induction false} FirstUnspawnedAt(fs: seq<AutoFile>, present: set<string>, ds: seq<Download>, k: nat)
    requires |ds| == |fs| && k < |fs| && Unspawned(fs[k], present, ds[k])
    requires forall j :: 0 <= j < k ==> !Unspawned(fs[j], present, ds[j])
    ensures FirstUnspawned(fs, present, ds) == Some(k)
  {
  }

  /** The second pass: one download per file not marked with errno 1, whose
      exit code settles the file. A download that cannot be spawned raises:
      the files before it are settled, it and the files after it keep their
      first-pass marks, and its command was the last one tried. */
  method DownloadMarked(files: array<AutoFile>, ghost original: seq<AutoFile>, present: set<string>,
                        downloads: seq<Download>)
    returns (r: Outcome<nat>, commands: seq<seq<string>>)
    requires |downloads| == files.Length == |original|
    requires forall i :: 0 <= i < files.Length ==> files[i] == Marked(original[i], present)
    modifies files
    ensures r.Pass? ==> FirstUnspawned(original, present, downloads).None?
    ensures r.Pass? ==> forall i :: 0 <= i < files.Length ==> files[i] == Settled(original[i], present, downloads[i])
    ensures r.Pass? ==> commands == Commands(original, present)
    ensures r.Fail? ==> FirstUnspawned(original, present, downloads) == Some(r.error) && r.error < files.Length
    ensures r.Fail? ==> forall i :: 0 <= i < r.error ==> files[i] == Settled(original[i], present, downloads[i])
    ensures r.Fail? ==> forall i :: r.error <= i < files.Length ==> files[i] == Marked(original[i], present)
    ensures r.Fail? ==> commands == Commands(original[..r.error + 1], present)
  {
    commands := [];
    var i := 0;
    while i < files.Length
      invariant 0 <= i <= files.Length
      invariant forall j :: 0 <= j < i ==>
                  !Unspawned(original[j], present, downloads[j]) && files[j] == Settled(original[j], present, downloads[j])
      invariant forall j :: i <= j < files.Length ==> files[j] == Marked(original[j], present)
      invariant commands == Commands(original[..i], present)
    {
      CommandsStep(original, i, present);
      ghost var settled := Settled(original[i], present, downloads[i]);
      var f := files[i];
      assert DownloadCommand(f) == DownloadCommand(original[i]);
      if f.errno != 1 {
        commands := commands + [DownloadCommand(f)];
        var d := downloads[i];
        if !d.spawned {
          FirstUnspawnedAt(original, present, downloads, i);
          return Fail(i), commands;
        }
        files[i] := Completed(f, d);
      }
      assert files[i] == settled;
      assert !Unspawned(original[i], present, downloads[i]);
      i := i + 1;
    }
    assert original[..i] == original;
    r := Pass;
  }

  /** `stage_in_auto`: first marks every file by whether its destination
      exists, then downloads the files not marked missing. The records are
      updated in place; the caller's list is what the source returns. A
      download whose process cannot be spawned raises out of the function. */
  method StageInAuto(files: array<AutoFile>, present: set<string>, downloads: seq<Download>)
    returns (r: Outcome<nat>, commands: seq<seq<string>>)
    requires |downloads| == files.Length
    modifies files
    ensures r.Pass? <==> FirstUnspawned(old(files[..]), present, downloads).None?
    ensures r.Pass? ==> forall i :: 0 <= i < files.Length ==> files[i] == Settled(old(files[i]), present, downloads[i])
    ensures r.Pass? ==> commands == Commands(old(files[..]), present)
    ensures r.Fail? ==> FirstUnspawned(old(files[..]), present, downloads) == Some(r.error) && r.error < files.Length
    ensures r.Fail? ==> forall i :: 0 <= i < r.error ==> files[i] == Settled(old(files[i]), present, downloads[i])
    ensures r.Fail? ==> forall i :: r.error <= i < files.Length ==> files[i] == Marked(old(files[i]), present)
    ensures r.Fail? ==> commands == Commands(old(files[..])[..r.error + 1], present)
  {
    ghost var original := files[..];
    MarkDestinations(files, present);
    r, commands := DownloadMarked(files, original, present, downloads);
  }
}
