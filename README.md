# PanDA pilot: event-service protocol, data staging and the gfal copytool

This project models three parts of the PanDA pilot in Dafny and proves what
they promise. Each part is sequential decision logic wrapped around external
commands.

- **The event-service process** (`ESProcess`) starts a message thread and a
  payload process. It answers the payload one message at a time:
  - a "Ready for events" message fetches event ranges from a hook and sends
    them, or sends the "No more events" sentinel;
  - any other line is parsed and the record goes to a result hook.

  The parser, `parse_out_message`, knows two grammars:
  - success lines: `/path,key:value,...`;
  - error lines: `ERR_<CODE> <id>:<detail>`, and the `ERR_ATHENAMP_PARSE`
    variant that carries the range id inside a dict descriptor.
- **Data staging** (`pilot/control/data.py`):
  - the supervision loop of `_call` and `_stage_out`: poll the process and
    watch the graceful-stop flag;
  - automatic stage-in (`stage_in_auto`): a per-file status machine, with the
    error message cut from rucio's stderr;
  - stage-out of a job (`_stage_out_all`): the outputs dict, the log tarball
    members, one upload per entry, and the XML file catalogue;
  - the two copytool workers, which route every job they take to a finished
    or a failed queue.
- **The gfal copytool**:
  - the size-dependent time-out;
  - the `copy_in`/`copy_out` loops, which stop at the first failed copy;
  - the older move helpers, which retry only time-outs;
  - the command lines, the gfal presence check and the validity checks.

Every external effect is an input of the model. These inputs are spawn
success, the successive stop-flag readings and poll results, exit codes,
stderr, directory listings and existence tests, upload summaries, hook
replies, liveness, and the outcome of the transfer-error resolver.

Parts that work by updating state are imperative Dafny:
- the `ESProcess` object is a class;
- the copytool workers form a `Pipeline` class over their queues;
- the file records of `stage_in_auto` and `copy_in`/`copy_out` live in an
  array updated in place.

Each method is proved against a specification function. The parser and the
helpers that are pure expressions are functions. A function gives the same
result for the same input, so the parser's determinism holds by
construction.

Modules, one per file:
- `Outcomes`: Option, Result and Outcome.
- `PyStr`: Python's `split`, `join`, `lower`, `in`, `os.path.join` and
  `str(n)` over `seq<char>`.
- `EsParse`: `parse_out_message`.
- `EsProcess`: `ESProcess`.
- `DataCall`: the polling loop.
- `DataStageIn`: `stage_in_auto`.
- `DataStageOut`: `_stage_out`, `prepare_log` and `_stage_out_all`.
- `DataWorkers`: `copytool_in` and `copytool_out`.
- `Gfal`: `pilot/copytool/gfal.py`.

## Model

| member | source | states |
|---|---|---|
| EsParse.ParseOutMessage | pilot/eventservice/esprocess.py:164-206 | A parsed record always has a status. A `/` line gives an `output` field and status 'finished'. Any other line that parses has exactly the keys id, status and message: status is 'failed', message is the whole line, and id is a non-empty run of digits and dashes. A line starting with neither `/` nor `ERR` fails as an unknown message. |
| EsParse.AddPairsFails | pilot/eventservice/esprocess.py:177-178 | The segment loop fails exactly when some segment does not split into two pieces on `:`. The error names the first such segment, and every earlier segment was well formed. No partial record is returned. |
| EsParse.OutputLineFails | pilot/eventservice/esprocess.py:173-182 | A `/` line fails to parse exactly when one of its `key:value` segments is malformed. |
| EsParse.OutputLineFields | pilot/eventservice/esprocess.py:173-182 | Keys of a parsed `/` line: `output`, `status` and the lower-cased segment keys. Status is 'finished' even when a segment names `status`. `output` is the first comma piece unless some segment's key lower-cases to `output`. Every other key holds the value of the last segment that names it. |
| EsParse.AddPairsFields | pilot/eventservice/esprocess.py:177-181 | The loop's record, once status is set, has exactly the starting keys, `status` and the segment keys. A starting field that no segment names keeps its value. A segment key holds the value of the last segment naming it. |
| EsParse.AddPairsKeys | pilot/eventservice/esprocess.py:177-180 | The keys after the loop are the starting keys plus the lower-cased key of every segment. |
| EsParse.AddPairsKeeps | pilot/eventservice/esprocess.py:177-180 | A key that no segment names keeps its starting value. |
| EsParse.AddPairsLastWins | pilot/eventservice/esprocess.py:177-180 | A later segment with the same key overwrites an earlier one: the last segment naming a key gives its value. |
| EsParse.AddPairsSize | pilot/eventservice/esprocess.py:177-180 | Segments with distinct fresh keys add one field each. |
| EsParse.AddPairsAbsent | pilot/eventservice/esprocess.py:177-180 | A key absent at the start and named by no segment stays absent. |
| EsParse.AddPairsDistinct | pilot/eventservice/esprocess.py:177-180 | Segments with distinct fresh keys each add their own field. The starting fields are unchanged. |
| EsParse.PairsRecord | pilot/eventservice/esprocess.py:175-181 | Start from `{output: path}` and feed segments that split into distinct fresh keys with values. The result is exactly those fields, plus output and status 'finished'. |
| EsParse.SegmentsParse | pilot/eventservice/esprocess.py:173-182 | Take a `/` line whose first comma piece is `path` and whose segments split into given distinct keys and values. It parses to exactly path, 'finished' and those pairs. |
| EsParse.OutputLineSplits | pilot/eventservice/esprocess.py:173-176 | A line written as `path,k:v,...` splits back into `path` and its `k:v` segments. |
| EsParse.PairSegment | pilot/eventservice/esprocess.py:178-180 | A `k:v` segment unpacks to the lower-cased `k` and the value `v`. |
| EsParse.OutputLineRoundTrip | pilot/eventservice/esprocess.py:173-182 | Round trip. Write `/path,k1:v1,...` with distinct keys and no separators inside, then parse it. The record is exactly output `path`, status 'finished' and each lower-cased key with its value. |
| EsParse.SampleOutputLine | pilot/eventservice/esprocess.py:173-182 | `/out/path,cpu:12,wall:34` gives exactly output `/out/path`, cpu `12`, wall `34` and status 'finished'. |
| EsParse.CodeEnd | pilot/eventservice/esprocess.py:197 | The greedy `[A-Z_]+` run: it ends at the first character outside the class. |
| EsParse.MatchErrWithId | pilot/eventservice/esprocess.py:197 | The id pattern `(ERR_[A-Z_]+) ([0-9-]+): ?(.+)` at a position: what it captures is a non-empty run of digits and dashes. `ErrLineMatch` gives the lines it matches. |
| EsParse.MatchErrWithDescriptor | pilot/eventservice/esprocess.py:185 | The descriptor pattern `(ERR_[A-Z_]+) (.+): ?(.+)` at a position: its capture is non-empty. `DescriptorMatch` gives what it captures. |
| EsParse.MatchRangeIdField | pilot/eventservice/esprocess.py:189 | The range-id pattern `eventRangeID': ?.?'([0-9-]+)` at a position: its capture is a non-empty run of digits and dashes. `DescriptorRangeId` gives what it captures. |
| EsParse.IdEnd | pilot/eventservice/esprocess.py:197 | The greedy `[0-9-]+` run: it ends at the first character outside the class. |
| EsParse.LineEnd | pilot/eventservice/esprocess.py:185 | `.+` runs to the first newline. |
| EsParse.LastColon | pilot/eventservice/esprocess.py:185 | The greedy `(.+)` backs off to the last colon before the end: no later `:` exists. |
| EsParse.MatchAt | pilot/eventservice/esprocess.py:185-199 | What the id pattern and the range-id pattern capture is a non-empty run of digits and dashes. A descriptor capture is non-empty. |
| EsParse.Search | pilot/eventservice/esprocess.py:197-199 | `findall(...)[0]`: a capture of the id patterns is a range id. |
| EsParse.SearchLeftmost | pilot/eventservice/esprocess.py:197-199 | `findall(...)[0]` is the match at the leftmost position where the pattern matches. |
| EsParse.SearchNone | pilot/eventservice/esprocess.py:197-199 | The search finds nothing exactly when the pattern matches at no position. |
| EsParse.ErrLineMatch | pilot/eventservice/esprocess.py:197-199 | The id pattern matches `ERR_<CODE> <id>:<detail>` at its start and captures `<id>`. |
| EsParse.ErrLineRoundTrip | pilot/eventservice/esprocess.py:196-201 | Take an error line `ERR_<CODE> <id>:<detail>` without `ERR_ATHENAMP_PARSE`. It parses to exactly `{id: <id>, status: 'failed', message: <the line>}`. |
| EsParse.ErrLineWithoutMatch | pilot/eventservice/esprocess.py:196-199 | An `ERR` line where the id pattern matches nowhere is refused (`found[0]` raises). |
| EsParse.ParseErrorLine | pilot/eventservice/esprocess.py:183-201 | A parsed `ERR` line gives exactly the keys id, status and message: status 'failed', the whole line as message, and a range id. Without `ERR_ATHENAMP_PARSE`, the only failure is a missing id match. |
| EsParse.DescriptorShape | pilot/eventservice/esprocess.py:188-189 | Where the `eventRangeID` head, the quotes and the id sit in a descriptor `{'eventRangeID': '<id>'...`. |
| EsParse.DescriptorLineShape | pilot/eventservice/esprocess.py:184-185 | Where the code, the descriptor and the last colon sit in an `ERR_ATHENAMP_PARSE` line. |
| EsParse.DescriptorEnds | pilot/eventservice/esprocess.py:185 | In such a line, the code run, the line and the last colon end where the shape says. |
| EsParse.DescriptorMatch | pilot/eventservice/esprocess.py:185-187 | The descriptor pattern matches at the line's start and captures everything between the code and the last colon. |
| EsParse.DescriptorGroup | pilot/eventservice/esprocess.py:184-187 | The descriptor pattern, searched leftmost, captures exactly the descriptor. |
| EsParse.DescriptorRangeId | pilot/eventservice/esprocess.py:188-191 | The descriptor contains `eventRangeID`. The range-id pattern finds exactly the id that follows `eventRangeID': '`. |
| EsParse.DescriptorParse | pilot/eventservice/esprocess.py:184-193 | An `ERR` line with `ERR_ATHENAMP_PARSE` parses to `{id, 'failed', line}` when its descriptor holds `eventRangeID` and the range-id pattern finds `id`. |
| EsParse.DescriptorLineRoundTrip | pilot/eventservice/esprocess.py:184-193 | Round trip. `ERR_ATHENAMP_PARSE {'eventRangeID': '<id>'...}: <detail>` parses to exactly `{id: <id>, status: 'failed', message: <the line>}`. |
| EsParse.DescriptorWithoutKey | pilot/eventservice/esprocess.py:188-195 | An `ERR_ATHENAMP_PARSE` line whose descriptor lacks `eventRangeID` is refused. |
| EsProcess.Reply | pilot/eventservice/esprocess.py:238-240 | A falsy hook reply becomes the sentinel string. A truthy one is kept. The result always holds the sentinel or is truthy. |
| EsProcess.OutgoingKeepsSentinel | pilot/eventservice/esprocess.py:154-160 | What goes on the wire holds "No more events" exactly when the ranges did, whether it is sent as it is or as a JSON list. The payload can always apply `in` to what it receives. |
| EsProcess.ReplyIsSendable | pilot/eventservice/esprocess.py:237-241 | After the falsy-to-sentinel replacement, the payload receives the sentinel verbatim or a non-empty JSON array. Only a non-zero number raises. A falsy reply sends exactly "No more events". |
| EsProcess.ESProcess.constructor | pilot/eventservice/esprocess.py:26-36 | The queue is empty. There is no thread, no process and no hooks. |
| EsProcess.ESProcess.Receive | pilot/eventservice/esprocess.py:45 | The message thread appends a payload line to the queue. Nothing else changes. |
| EsProcess.ESProcess.InitMessageThread | pilot/eventservice/esprocess.py:38-51 | Passes exactly when the thread is created and starts. A thread whose `start()` raised is kept but not started. A failed constructor leaves the thread unset. |
| EsProcess.ESProcess.InitPayloadProcess | pilot/eventservice/esprocess.py:53-70 | A missing `payload` key raises. A failed spawn raises. Otherwise the process runs `payload` with the output and error files, or their defaults. |
| EsProcess.ESProcess.Init | pilot/eventservice/esprocess.py:38-110 | The thread starts first, and Init passes exactly when both start. A failed thread constructor leaves the thread as it was. A thread whose `start()` raised stays assigned, not started, and the payload is skipped. A failed payload start keeps the started thread and leaves the process as it was. On success the process runs `payload` with its output and error files, or their defaults. |
| EsProcess.ESProcess.SetGetEventRangesHook | pilot/eventservice/esprocess.py:72-84 | The getter returns the hook just set. Nothing else changes. |
| EsProcess.ESProcess.SetHandleOutMessageHook | pilot/eventservice/esprocess.py:86-98 | The getter returns the hook just set. Nothing else changes. |
| EsProcess.ESProcess.Monitor | pilot/eventservice/esprocess.py:112-130 | Passes exactly when a started, live thread and a process without exit code are there. Otherwise it reports the first missing piece, in the source's order, with the process's exit code. |
| EsProcess.ESProcess.GetEventRanges | pilot/eventservice/esprocess.py:132-147 | An unset hook raises and the hook is not called. Otherwise the hook is called with `numRanges`. Its failure raises "Failed to get event ranges"; its reply is returned. |
| EsProcess.ESProcess.SendEventRangesToPayload | pilot/eventservice/esprocess.py:149-162 | The thread's outbound log grows by exactly `Outgoing(ranges)`. A value `in` refuses raises. Without a thread, nothing is sent. |
| EsProcess.ESProcess.HandleOutMessage | pilot/eventservice/esprocess.py:208-224 | An unset hook raises before parsing. A parse failure raises and nothing is handed on. Otherwise the record goes to the hook, and a raising hook makes the call fail. |
| EsProcess.ESProcess.HandleMessages | pilot/eventservice/esprocess.py:226-243 | An empty queue changes nothing. Otherwise exactly one message is taken. A "Ready for events" message calls the range hook with 1, or raises without a call when the hook is unset. It sends the reply, or the sentinel for a falsy reply. Any other message goes through the parser to the result hook. A record reaches the hook, and is logged as handled, whenever parsing succeeds, even when the hook then raises. A parse failure or a missing hook hands on nothing. |
| EsProcess.ESProcess.Step | pilot/eventservice/esprocess.py:255-263 | A failed liveness check raises before any message is taken. Otherwise one protocol step runs. |
| DataCall.Watch | pilot/control/data.py:53-73 | The wait ends:<br>- with an exit code only when some round polled it;<br>- cancelled only when some round saw the stop flag. |
| DataCall.Supervise | pilot/control/data.py:53-73 | Cancellation sends SIGTERM then SIGKILL and leaves the exit code None. An exit ends the wait with that code and sends no signal. |
| DataCall.Call | pilot/control/data.py:40-83 | `_call` is False when spawning fails. Otherwise it is True exactly when the wait ended with exit code 0. Signals are sent exactly when the wait was cancelled. |
| DataCall.CallOkIff | pilot/control/data.py:53-83 | `_call` succeeds exactly when some round polls 0 and every earlier round saw neither the flag nor an exit code. |
| DataCall.WatchExitedAt | pilot/control/data.py:55-73 | The wait ends with code `c` exactly when some round polls `c` before any flag or earlier exit code. |
| DataCall.CancelledFails | pilot/control/data.py:57-83 | Once the flag is seen before any exit code, `_call` returns False whatever the process does afterwards. |
| DataStageIn.Trimmed | pilot/control/data.py:158 | Python's `line[9:-1]`: a line of 10 or more characters is its first nine, the result, and its last character, in that order. A shorter line gives the empty string. |
| DataStageIn.FirstDetails | pilot/control/data.py:158 | The first line starting with `Details:`: no earlier line starts with it. None when there is no such line. |
| DataStageIn.FirstDetailsAt | pilot/control/data.py:158 | A line starting with `Details:` with none before it is the one chosen. |
| DataStageIn.DetailsLineFound | pilot/control/data.py:158 | The first `Details:` line after lines without one is found at its position. |
| DataStageIn.DetailsRoundTrip | pilot/control/data.py:156-161 | `DetailsMessage`, round trip: rucio's `Details: <message>` line plus one closing character, after lines without `Details:`, gives back exactly `<message>`. |
| DataStageIn.NoDetailsFallback | pilot/control/data.py:159-161 | `DetailsMessage`: without any `Details:` line the message is the fallback text naming the `list index out of range` error. |
| DataStageIn.Marked | pilot/control/data.py:120-128 | After the first pass a file has errno 1 exactly when its destination is missing. Its identity fields are unchanged. |
| DataStageIn.SettledCases | pilot/control/data.py:119-161 | Outcomes for a file whose download, if due, was spawned:<br>- missing destination: 'failed', errno 1 and the destination message;<br>- otherwise exit 0: 'done', errno 0;<br>- otherwise: 'failed', errno 3 and the `Details:` message.<br>A settled file is always 'failed' or 'done'. Its identity fields are unchanged. |
| DataStageIn.FirstUnspawned | pilot/control/data.py:130-142 | The first file whose destination exists but whose download cannot be spawned: every earlier file was spawned or skipped. None when every due download was spawned. |
| DataStageIn.FirstUnspawnedAt | pilot/control/data.py:130-142 | An unspawnable file with none before it is the one `FirstUnspawned` finds. |
| DataStageIn.CommandsOnlyExisting | pilot/control/data.py:130-142 | Every download command run is the command of a file whose destination exists. No process is spawned for a missing one. |
| DataStageIn.DownloadCommandTarget | pilot/control/data.py:115-138 | Each file's command is the shared five-word rucio executable, copied afresh, plus `--dir <destination>` and `<scope>:<name>`. Two files get the same command exactly when they share the destination and `scope:name`. |
| DataStageIn.MarkDestinations | pilot/control/data.py:120-128 | The first loop marks every record in place as `Marked` says. |
| DataStageIn.DownloadMarked | pilot/control/data.py:130-163 | The second loop passes exactly when every due download is spawned. Then every record is settled in place, and the commands are one per existing destination, in order. A spawn that raises ends the loop at the first unspawnable file. The records before it are settled, it and the later ones keep their marks, and the commands run are those of the files up to and including it. |
| DataStageIn.StageInAuto | pilot/control/data.py:102-165 | It returns exactly when every due download is spawned. Then every record ends as `Settled` says, in the same list, with one download per existing destination. Otherwise the exception leaves the records before the first unspawnable file settled and the rest marked. |
| DataStageOut.UploadResult | pilot/control/data.py:238-285 | `_stage_out` gives None exactly when the spawn fails or the wait is cancelled. A summary comes only after an exit, and it is the file's contents. |
| DataStageOut.StageOut | pilot/control/data.py:226-285 | The loop returns what `UploadResult` says. It signals exactly when cancelled. |
| DataStageOut.NonZeroExitKeepsSummary | pilot/control/data.py:278-285 | A nonzero exit code still returns the summary. |
| DataStageOut.Get | pilot/control/data.py:321 | Dict lookup: it finds a value exactly for a key present. |
| DataStageOut.Put | pilot/control/data.py:293-296 | Dict assignment on an insertion-ordered dict:<br>- the key is added;<br>- it maps to the new value;<br>- the other keys are unchanged;<br>- the size grows only for a new key;<br>- keys stay distinct. |
| DataStageOut.Collect | pilot/control/data.py:292-296 | The outputs dict built from the report has distinct keys. |
| DataStageOut.CollectKeys | pilot/control/data.py:292-296 | Its keys are exactly the output names. |
| DataStageOut.CollectLast | pilot/control/data.py:292-296 | Each name maps to the entry of the last report file with that name. |
| DataStageOut.OutputsKeys | pilot/control/data.py:290-298 | `outputs` has one entry per distinct output name plus the `scopeLog:logFile` key, with no key twice. The log key maps to prepare_log's entry: scope, name and guid from the job, and the tarball size. |
| DataStageOut.LogFiles | pilot/control/data.py:208-215 | Computed as the listing less three sets. A file is offered exactly when it is listed and is not an input file, an output file, `geomDB` or `sqlite200`. |
| DataStageOut.LogMembersExact | pilot/control/data.py:212-218 | `LogMembers`: every offered file except the tarball being written is archived as `join(tarball, file)`, and nothing else is archived. No two members share an archive name. When the tarball name is plain, the tarball's own path is never a member. |
| DataStageOut.FileBlockFields | pilot/control/data.py:303-312 | `FileBlock`: a catalogue entry opens with `<File ID="guid">` and closes with `</File>`. It holds the `lfn` element of the file's name and the `surl`, `fsize` and `adler32` metadata lines with the entry's values. |
| DataStageOut.Block | pilot/control/data.py:320-324 | The catalogue entry of an upload fails exactly when the summary lacks the file's `scope:name` entry, its `pfn` or its `adler32`. |
| DataStageOut.AnyFailedIff | pilot/control/data.py:315-327 | `failed` is set exactly when some upload gave no summary. |
| DataStageOut.StagedErrIff | pilot/control/data.py:317-327 | Stage-out crashes exactly when some upload crashes: its summary file is unreadable, or its summary lacks the entry. |
| DataStageOut.StagedCount | pilot/control/data.py:317-327 | Without a crash, the catalogue holds exactly one entry per upload that returned a summary. |
| DataStageOut.StagedAllGot | pilot/control/data.py:317-324 | When every upload returned a summary, the i-th catalogue entry is that of the i-th output, in dict order. |
| DataStageOut.CollectOutputs | pilot/control/data.py:290-298 | The loop fills the dict as `Outputs` says. |
| DataStageOut.UploadAll | pilot/control/data.py:315-329 | Every entry is uploaded even after a failure. `failed` says whether some upload gave no summary. The catalogue text is the header followed by one `File` block per summary, in order. A crash ends the loop with the first crash's error: `attempted` counts the uploads made, the last of them crashed and none before it did, so no later upload runs. |
| DataStageOut.StageOutAll | pilot/control/data.py:288-336 | Returns `StageOutAllResult`. The tarball members are exactly `LogMembers`. Without a crash, every output was attempted and the state sent is `StageOutAllReport`. On a crash, the uploads stop at the first output whose upload crashes. |
| DataStageOut.StageOutAllReportIs | pilot/control/data.py:331-336 | The state sent is 'finished' exactly when `_stage_out_all` returns True. It then carries header, one block per upload in dict order, and footer. Otherwise it is 'failed' without xml. |
| DataStageOut.StageOutAllFailsIff | pilot/control/data.py:315-336 | `_stage_out_all` crashes exactly when some upload crashes. It returns False exactly when nothing crashes and some upload gave no summary. |
| DataWorkers.FirstStop | pilot/control/data.py:170 | The first loop test that finds the flag set. |
| DataWorkers.RoutedPartition | pilot/control/data.py:176-179 | Every job taken lands on exactly one of the finished and failed queues. The two together are a permutation of the jobs taken. |
| DataWorkers.RoutedMembers | pilot/control/data.py:176-179 | A job is on the queue for outcome `w` exactly when its outcome is `w`. |
| DataWorkers.ResultsAt | pilot/control/data.py:195 | The i-th result is `_stage_out_all`'s result for the i-th job. |
| DataWorkers.Pipeline.CopytoolIn | pilot/control/data.py:168-182 | Until the flag is set, one job is taken per pass while the queue has any. Each taken job is reported 'transferring' and queued as finished or failed by `_call`'s result. Other queues are untouched. |
| DataWorkers.Pipeline.StepIn | pilot/control/data.py:171-179 | One pass over the next job extends the queues and the log by that job. |
| DataWorkers.Pipeline.TakeIn | pilot/control/data.py:172-179 | The head job is reported 'transferring' and queued finished exactly when `_call` succeeds. |
| DataWorkers.Pipeline.CopytoolOut | pilot/control/data.py:185-201 | As CopytoolIn, with `_stage_out_all`'s result. Each job's log is 'transferring' then 'finished' or 'failed'. A crash escapes the loop: the job taken is on neither queue and the worker ends. A job is only taken, crash or not, before the flag is first seen set. |
| DataWorkers.Pipeline.DrainOut | pilot/control/data.py:187-201 | The loop over the jobs queued at the start meets the same promises, including that a crashing job was taken before the flag was first seen set. |
| DataWorkers.Pipeline.StepOut | pilot/control/data.py:188-198 | One pass over the next job extends the queues and the log, or stops at its crash. |
| DataWorkers.Pipeline.TakeOut | pilot/control/data.py:189-198 | The head job is reported 'transferring' and staged out. Without a crash, it is queued by the result after the final state is sent. |
| DataWorkers.StageOutJob | pilot/control/data.py:331-336 | The state sent is 'finished' exactly when `_stage_out_all` returns True, 'failed' when it returns False. |
| Gfal.TruncDiv | pilot/copytool/gfal.py:50 | `int(size / 0.5e6)`: the quotient by 500000, rounded toward zero, also for negative sizes. |
| Gfal.TruncDivMonotone | pilot/copytool/gfal.py:50 | The rounded quotient keeps the order of sizes. |
| Gfal.GetTimeout | pilot/copytool/gfal.py:44-52 | The time-out never exceeds 3 hours. For a non-negative size it is at least 300 s. |
| Gfal.TimeoutMonotone | pilot/copytool/gfal.py:44-52 | A larger file never gets a shorter time-out. |
| Gfal.TimeoutRate | pilot/copytool/gfal.py:50-52 | Below the cap, the time-out is 300 s plus the whole number of 0.5 MB blocks. |
| Gfal.TimeoutCapped | pilot/copytool/gfal.py:47-52 | The 3-hour cap is reached exactly from 5.25 GB on. |
| Gfal.TransferPaths | pilot/copytool/gfal.py:75-125 | `Endpoints`: stage-in reads `turl` and writes `file://` + `join(dir, lfn)`. Here dir is the file's workdir, else the caller's, else `.`, which gives `file://./lfn`. `os.path.abspath` is left out: the source makes that fallback `file:///<cwd>/lfn` (gfal.py:79, 124), and the model keeps the relative `./lfn`. Stage-out writes `turl` and reads `file://surl` when `surl` is set, else the very file stage-in would write. |
| Gfal.CopyCommandJoin | pilot/copytool/gfal.py:81-88 | `CopyCommand`: the command line is the copy words joined by spaces. |
| Gfal.CopyCommandWords | pilot/copytool/gfal.py:81-88 | Split at spaces, the command line gives back:<br>- the options;<br>- an empty word where two spaces meet;<br>- `-t <timeout>`;<br>- `-K type:value` when there is a checksum;<br>- the two URLs. |
| Gfal.Done | pilot/copytool/gfal.py:69-73 | A file that did not fail gets status code 0. Its status is 'remote_io' exactly when it is read directly, else 'transferred'. Nothing else changes. |
| Gfal.CopyError | pilot/copytool/gfal.py:90-96 | ETIMEDOUT and ETIME give the direction's time-out code, state 'CP_TIMEOUT' and the message "Copy command timed out: " followed by stderr; the resolver is not consulted. Any other code is the resolver's verdict on stdout plus stderr. |
| Gfal.FirstFail | pilot/copytool/gfal.py:68-99 | The first file whose copy runs and exits nonzero. |
| Gfal.CopyFromAt | pilot/copytool/gfal.py:68-104 | From any point of the loop, the run ends as `CopyEnd` says for the first failing file from there on. |
| Gfal.CopyStepOk | pilot/copytool/gfal.py:68-102 | A file that does not fail moves the loop on without changing the first failure. |
| Gfal.CopyStepFail | pilot/copytool/gfal.py:90-99 | A failing file ends the run. |
| Gfal.CopySpec | pilot/copytool/gfal.py:55-150 | Without gfal, `copy_in`/`copy_out` raise before touching a file. Otherwise the run passes exactly when no copy fails, and then every file is done. On a failure it raises the first failing file's error and marks that file failed with the error's code. The files after it are untouched, and one transfer was run per copied file up to it. |
| Gfal.Copy | pilot/copytool/gfal.py:55-150 | The in-place loop over the records yields the outcome, the transfers and the records that `CopyRunOf` specifies. |
| Gfal.CopyFile | pilot/copytool/gfal.py:68-102 | One pass updates only the i-th record:<br>- 'remote_io' without a command;<br>- 'transferred' after one command;<br>- 'failed' with the error's code, returning that error. |
| Gfal.MoveCommandWords | pilot/copytool/gfal.py:218-223 | `MoveCommand`, split at spaces: `gfal-copy -r src dst` exactly when recursive, else `gfal-copy src dst`. |
| Gfal.MoveForWords | pilot/copytool/gfal.py:169-204 | `MoveFor`: stage-in copies `source/name` to `file:///` + `join(destination, name)`, recursively when the entry says so. Stage-out copies `file:///` + `join(source, name)` to `destination/name`, never recursively. |
| Gfal.FileOutcome | pilot/copytool/gfal.py:173-181 | The retry loop ends at the first success, the first non-time-out failure, or the last retry. Every earlier attempt timed out. |
| Gfal.MoveRetrying | pilot/copytool/gfal.py:173-181 | The imperative retry loop returns the last attempt and the number made, as `FileOutcome` says. |
| Gfal.MoveAllFiles | pilot/copytool/gfal.py:153-215 | `move_all_files_in`/`_out` return the result `MoveAll` specifies. With `n` files, `move` is called at most `n * nretries` times in all, and never when `nretries` is not positive. Every command moves one of the entries. |
| Gfal.MoveAllSucceeds | pilot/copytool/gfal.py:162-183 | `MoveFrom`/`MoveAll`: the helpers return exit code 0 exactly when every file's retry loop ends in a success, possibly after time-outs. With no files, or `nretries` not positive, they return 0 too. |
| Gfal.MoveAllStops | pilot/copytool/gfal.py:173-179 | `MoveFrom`/`MoveAll`: a nonzero result is the attempt that ended the run, a non-time-out failure or a time-out on the last retry. |
| PyStr.Split | pilot/eventservice/esprocess.py:174 | `str.split` gives at least one piece, none holding the separator, and joining the pieces back gives the string. |
| PyStr.SplitJoin | pilot/copytool/gfal.py:88 | Splitting a space-joined command line gives back its words when no word holds a space. |
| PyStr.PathJoinInjective | pilot/control/data.py:217-218 | Different relative names joined to the same tarball directory give different archive names. |

## Left out

- Processes, signals, `communicate` and `execute` are not run.
  - Exit codes, poll results, stderr, spawn success and thread start are inputs.
  - `_call` and `_stage_out` check the flag ten times per outer round, 100 ms apart. The model collapses these checks into one observation per round.
  - A run must reach an exit or a cancellation within its rounds (`Settles`), because the source would wait forever.
- Timing is not modelled: `time.sleep`, the monitor's one-minute log throttle and the 3 s grace before SIGKILL.
- Threads and the cross-thread `Queue` are not modelled.
  - `control` starts the two workers; here each worker runs alone over its queues.
  - `ESProcess.run` repeats `monitor`/`handle_messages` forever. One pass is `Step`.
- MessageThread is not part of this model. It is a started flag plus a log of what was sent; `Receive` stands for it putting payload lines on the queue.
- The file system is not modelled.
  - `os.listdir` and `os.path.exists` are a listing set.
  - `os.stat` of the tarball is a size input.
  - `rucio_upload.json` is a summary input, or unreadable.
  - `tarfile` writing is reduced to the set of (path, archive name) members.
  - `os.path.abspath` is left out; `os.path.join` is `PyStr.PathJoin`.
- JSON text is not modelled. `json.dumps` is kept symbolic (`Wire.Json`), and the upload summary is a map, not parsed text.
- Numbers rendered in XML use `NatToString`; other field texts are used as they are.
- `send_state`, `resolve_common_transfer_errors` and `PilotException` are not part of this model.
  - `send_state` calls are a ghost log of (job, state).
  - The resolver is a function parameter.
- `ErrorCodes` (pilot/common/errorcodes.py) is not part of this model. The two time-out codes are symbolic.
- `_stage_in`'s rucio argument list is not modelled. Its result is `_call`'s result for the given observations.
- Logging, `print` in `move` and the `RUCIO_LOGGING_FORMAT` environment variable are left out.
- Python 2 dict iteration order in `_stage_out_all` is modelled as insertion order.
- `str.lower` is ASCII only.
- `checksum.items()[0]` is modelled as the file's single checksum pair.
- `is_directaccess(ensure_replica=False)` is a field of the record.
- The command a copy runs is a `Transfer` record; `CopyCommand` renders it as text.
- A catalogue entry is a `CatalogEntry` record; `FileBlock` renders it as XML.
- The `ESProcess` hooks are deterministic functions: the range hook maps its argument to a reply or to a raise; the result hook says whether it raised.
- Gfal.TruncDiv: models `int(filesize / 0.5e6)` exactly for integer sizes. Float rounding of very large sizes (beyond 2^53 bytes) is not modelled.
- Gfal.MoveAllFiles: the commands issued are bounded in number, and each is the command of some entry. Their exact order is not stated.
- EsProcess.ESProcess.Step: states the liveness outcome and the queue. What the protocol step then does is stated by `HandleMessages`, not repeated.
- DataWorkers.Pipeline.CopytoolOut: the log records the state names sent, not the `xml` argument that `_stage_out_all` passes with the final state. `DataStageOut.StageOutAll` states that catalogue in its report.
- DataWorkers.Pipeline.TakeOut: as CopytoolOut, the log holds state names only; the catalogue sent is stated by `StageOutAll`.
- DataWorkers.FirstStop: requires some reading of the graceful-stop flag to find it set. The source's loop never ends otherwise, and a finite list of readings cannot describe that run.
- DataWorkers.Pipeline.CopytoolIn: requires the flag readings to end with a set flag, as `FirstStop` does.
- DataWorkers.Pipeline.CopytoolOut: requires the flag readings to end with a set flag, as `FirstStop` does.
- DataWorkers.Pipeline.DrainOut: requires the flag readings to end with a set flag, as `FirstStop` does.
- Gfal.IsValidForCopy: `is_valid_for_copy_in` and `is_valid_for_copy_out` return True for every list, so there is nothing to state beyond that.
- DataStageOut.LogMembers: `tarfile` skips the archive it is writing by comparing absolute paths. The model skips the entry named `logFile`.
- DataStageIn.StageInAuto: the exception a failed spawn raises is the outcome `Fail(i)`, where `i` is the index of the file. Its text is not modelled.
- DataStageIn.StageInAuto: the download poll loop checks no stop flag and waits until the process exits. The model takes each download's exit code as given, so a download that never exits is not modelled.
- Gfal.TransferPaths: the local fallback path stays relative (`file://./lfn`), because `os.path.abspath` needs the process's working directory; the source gives `file:///<cwd>/lfn`.
