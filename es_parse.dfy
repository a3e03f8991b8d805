/** The recogniser for the lines an event-service payload writes back to the
    pilot (ESProcess.parse_out_message). It reads no object state, so it is a
    plain function of the message: the same line always gives the same record.

    Two grammars:
    - an output line `/path,key:value,key:value,...`, giving
      `{output: path, <lower(key)>: value..., status: 'finished'}`;
    - an error line starting with `ERR`. When the text `ERR_ATHENAMP_PARSE`
      occurs in it, the range id is fished out of the descriptor captured by
      `(ERR_[A-Z_]+) (.+): ?(.+)` with `eventRangeID': ?.?'([0-9-]+)`;
      otherwise `(ERR_[A-Z_]+) ([0-9-]+): ?(.+)` gives it directly. Either way
      the record is `{id, status: 'failed', message: <the whole line>}`.
    The regular expressions are recognised by hand: each pattern is tried at
    every start position from the left (`re.findall(...)[0]` is the leftmost
    match), `.` matches anything but a newline, and greedy groups back off in
    the order Python's engine tries them. */
module EsParse {
  import opened Outcomes
  import opened PyStr

  /** The dict the parser returns. */
  type Record = map<string, string>

  /** Why the parser raised. */
  datatype ParseError =
    | BadSegment(segment: string)  // `name, value = part.split(":")` did not unpack
    | NoErrorMatch                  // the ERR pattern found nothing: `found[0]` raised
    | NoRangeIdKey                  // descriptor without `eventRangeID`: "Failed to parse ..."
    | NoRangeIdMatch                // `eventRangeID` present but its pattern found nothing
    | UnknownMessage                // neither `/` nor `ERR`: "Unknown message ..."

  const FINISHED := "finished"
  const FAILED := "failed"
  const ATHENAMP_PARSE := "ERR_ATHENAMP_PARSE"
  const RANGE_ID_KEY := "eventRangeID"
  /** The literal head of the range-id pattern, `eventRangeID\'\:`. */
  const RANGE_ID_HEAD := "eventRangeID':"

  // ---------------------------------------------------------------------
  // Output lines

  /** The key a `key:value` segment contributes: lower-cased first piece. */
  function KeyOf(segment: string): string
  {
    Lower(Split(segment, ':')[0])
  }

  /** The value a well-formed segment contributes. */
  function ValueOf(segment: string): string
  {
    var pieces := Split(segment, ':');
    if |pieces| >= 2 then pieces[1] else ""
  }

  predicate WellFormed(segment: string)
  {
    |Split(segment, ':')| == 2
  }

  /** The loop over the segments after the first: each one must split into
      exactly a name and a value; the lower-cased name is (re)assigned. */
  function AddPairs(acc: Record, segments: seq<string>): (r: Result<Record, ParseError>)
    ensures r.Ok? ==> acc.Keys <= r.value.Keys
    decreases |segments|
  {
    if segments == [] then Ok(acc)
    else if !WellFormed(segments[0]) then Err(BadSegment(segments[0]))
    else AddPairs(acc[KeyOf(segments[0]) := ValueOf(segments[0])], segments[1..])
  }

  /** The comma pieces after the first: the `key:value` segments. */
  function Segments(message: string): seq<string>
  {
    Split(message, ',')[1..]
  }

  /** The record before the segments are added: `{'output': parts[0]}`. */
  function Initial(message: string): Record
  {
    map["output" := Split(message, ',')[0]]
  }

  /** The `/` branch of the parser. */
  function ParseOutputLine(message: string): Result<Record, ParseError>
  {
    match AddPairs(Initial(message), Segments(message))
    case Ok(rec) => Ok(rec["status" := FINISHED])
    case Err(e) => Err(e)
  }

  // ---------------------------------------------------------------------
  // Error lines

  predicate IsCodeChar(c: char) { 'A' <= c <= 'Z' || c == '_' }

  predicate IsIdChar(c: char) { '0' <= c <= '9' || c == '-' }

  /** A non-empty run of `[0-9-]`: the shape of an event-range id. */
  predicate IsRangeId(id: string)
  {
    |id| > 0 && forall i :: 0 <= i < |id| ==> IsIdChar(id[i])
  }

  /** End of the maximal run of `[A-Z_]` starting at `i`. */
  function CodeEnd(s: string, i: nat): (j: nat)
    requires i <= |s|
    ensures i <= j <= |s|
    ensures forall k :: i <= k < j ==> IsCodeChar(s[k])
    ensures j < |s| ==> !IsCodeChar(s[j])
    decreases |s| - i
  {
    if i < |s| && IsCodeChar(s[i]) then CodeEnd(s, i + 1) else i
  }

  /** End of the maximal run of `[0-9-]` starting at `i`. */
  function IdEnd(s: string, i: nat): (j: nat)
    requires i <= |s|
    ensures i <= j <= |s|
    ensures forall k :: i <= k < j ==> IsIdChar(s[k])
    ensures j < |s| ==> !IsIdChar(s[j])
    decreases |s| - i
  {
    if i < |s| && IsIdChar(s[i]) then IdEnd(s, i + 1) else i
  }

  /** First newline at or after `i`, or the end of `s`: where `.` stops. */
  function LineEnd(s: string, i: nat): (e: nat)
    requires i <= |s|
    ensures i <= e <= |s|
    ensures forall k :: i <= k < e ==> s[k] != '\n'
    ensures e < |s| ==> s[e] == '\n'
    decreases |s| - i
  {
    if i < |s| && s[i] != '\n' then LineEnd(s, i + 1) else i
  }

  /** The last `:` in `s[lo..hi]`. */
  function LastColon(s: string, lo: nat, hi: nat): (p: Option<nat>)
    requires hi <= |s|
    ensures p.Some? ==> lo <= p.value < hi && s[p.value] == ':'
    ensures p.Some? ==> forall q :: p.value < q < hi ==> s[q] != ':'
    ensures p.None? ==> forall q :: lo <= q < hi ==> s[q] != ':'
    decreases hi
  {
    if hi <= lo then None
    else if s[hi - 1] == ':' then Some(hi - 1)
    else LastColon(s, lo, hi - 1)
  }

  /** An id run right after a quote at `q`: `\'([0-9\-]+)`. */
  function QuotedIdAt(s: string, q: nat): (g: Option<string>)
    ensures g.Some? ==> IsRangeId(g.value)
  {
    if q + 1 < |s| && s[q] == '\'' && IsIdChar(s[q + 1]) then Some(s[q + 1..IdEnd(s, q + 1)])
    else None
  }

  /** The three patterns of the parser. */
  datatype Pattern =
    | ErrWithId          // (ERR\_[A-Z\_]+)\ ([0-9\-]+)\:\ ?(.+)   -> group 2
    | ErrWithDescriptor  // (ERR\_[A-Z\_]+)\ (.+)\:\ ?(.+)         -> group 2
    | RangeIdField       // eventRangeID\'\:\ ?.?\'([0-9\-]+)      -> group 1

  /** The group the parser keeps, when `p` matches starting exactly at `i`. */
  function MatchAt(p: Pattern, s: string, i: nat): (g: Option<string>)
    ensures g.Some? && p != ErrWithDescriptor ==> IsRangeId(g.value)
    ensures g.Some? ==> |g.value| > 0
  {
    match p
    case ErrWithId => MatchErrWithId(s, i)
    case ErrWithDescriptor => MatchErrWithDescriptor(s, i)
    case RangeIdField => MatchRangeIdField(s, i)
  }

  /** `(ERR\_[A-Z\_]+)\ ([0-9\-]+)\:\ ?(.+)` at `i`, giving the id. */
  function MatchErrWithId(s: string, i: nat): (g: Option<string>)
    ensures g.Some? ==> IsRangeId(g.value)
  {
    if !(i + 4 <= |s| && s[i..i + 4] == "ERR_") then None
    else
      var j := CodeEnd(s, i + 4);
      if j == i + 4 || j == |s| || s[j] != ' ' then None
      else
        var k := IdEnd(s, j + 1);
        // `\ ?(.+)` needs one character other than a newline after the colon
        if k == j + 1 || k + 1 >= |s| || s[k] != ':' || s[k + 1] == '\n' then None
        else Some(s[j + 1..k])
  }

  /** `(ERR\_[A-Z\_]+)\ (.+)\:\ ?(.+)` at `i`, giving the descriptor. */
  function MatchErrWithDescriptor(s: string, i: nat): (g: Option<string>)
    ensures g.Some? ==> |g.value| > 0
  {
    if !(i + 4 <= |s| && s[i..i + 4] == "ERR_") then None
    else
      var j := CodeEnd(s, i + 4);
      if j == |s| || j == i + 4 || s[j] != ' ' then None
      else
        // greedy `(.+)` ends at the last colon of the line that is followed
        // by one more character of the line
        var e := LineEnd(s, j + 1);
        var c := LastColon(s, j + 2, e - 1);
        if c.None? then None else Some(s[j + 1..c.value])
  }

  /** `eventRangeID\'\:\ ?.?\'([0-9\-]+)` at `i`, giving the id. */
  function MatchRangeIdField(s: string, i: nat): (g: Option<string>)
    ensures g.Some? ==> IsRangeId(g.value)
  {
    if !(i + |RANGE_ID_HEAD| <= |s| && s[i..i + |RANGE_ID_HEAD|] == RANGE_ID_HEAD) then None
    else
      var t := i + |RANGE_ID_HEAD|;
      // `\ ?` takes a space when there is one; then `.?` first takes one
      // character and, failing that, none
      var u := if t < |s| && s[t] == ' ' then t + 1 else t;
      var taken := if u < |s| && s[u] != '\n' then QuotedIdAt(s, u + 1) else None;
      if taken.Some? then taken else QuotedIdAt(s, u)
  }

  /** `re.findall(p, s)[0]`: the leftmost match at or after position `i`. */
  function Search(p: Pattern, s: string, i: nat): (g: Option<string>)
    ensures g.Some? && p != ErrWithDescriptor ==> IsRangeId(g.value)
    decreases |s| + 1 - i
  {
    if i > |s| then None
    else
      match MatchAt(p, s, i)
      case Some(g) => Some(g)
      case None => Search(p, s, i + 1)
  }

  /** The record of a failed event range. */
  function FailedRecord(id: string, message: string): Record
  {
    map["id" := id, "status" := FAILED, "message" := message]
  }

  /** The `ERR` branch of the parser. A parsed line gives the failed record
      of a range id, with the whole line as its message; a line without
      `ERR_ATHENAMP_PARSE` can only fail for want of an id match. */
  function ParseErrorLine(message: string): (r: Result<Record, ParseError>)
    ensures r.Ok? ==> r.value.Keys == {"id", "status", "message"} && IsRangeId(r.value["id"])
                      && r.value["status"] == FAILED && r.value["message"] == message
    ensures r.Err? && !Contains(message, ATHENAMP_PARSE) ==> r.error == NoErrorMatch
  {
    if Contains(message, ATHENAMP_PARSE) then
      match Search(ErrWithDescriptor, message, 0)
      case None => Err(NoErrorMatch)
      case Some(descriptor) =>
        if !Contains(descriptor, RANGE_ID_KEY) then Err(NoRangeIdKey)
        else
          match Search(RangeIdField, descriptor, 0)
          case None => Err(NoRangeIdMatch)
          case Some(id) => Ok(FailedRecord(id, message))
    else
      match Search(ErrWithId, message, 0)
      case None => Err(NoErrorMatch)
      case Some(id) => Ok(FailedRecord(id, message))
  }

  /** ESProcess.parse_out_message. */
  function ParseOutMessage(message: string): (r: Result<Record, ParseError>)
    ensures r.Ok? ==> "status" in r.value
    ensures r.Ok? && "/" <= message ==> "output" in r.value && r.value["status"] == FINISHED
    ensures r.Ok? && !("/" <= message) ==>
              && r.value.Keys == {"id", "status", "message"}
              && r.value["status"] == FAILED
              && r.value["message"] == message
              && IsRangeId(r.value["id"])
    ensures !("/" <= message) && !("ERR" <= message) ==> r == Err(UnknownMessage)
  {
    if "/" <= message then ParseOutputLine(message)
    else if "ERR" <= message then ParseErrorLine(message)
    else Err(UnknownMessage)
  }

  // ---------------------------------------------------------------------
  // Properties of the search

  /** The search returns the match at the leftmost position that matches. */
  lemma {:induction false} SearchLeftmost(p: Pattern, s: string, i: nat, k: nat)
    requires i <= k <= |s|
    requires MatchAt(p, s, k).Some?
    requires forall j :: i <= j < k ==> MatchAt(p, s, j).None?
    ensures Search(p, s, i) == MatchAt(p, s, k)
    decreases k - i
  {
    if i < k {
      SearchLeftmost(p, s, i + 1, k);
    }
  }

  /** The search fails exactly when the pattern matches at no position. */
  lemma {:induction false} SearchNone(p: Pattern, s: string, i: nat)
    ensures Search(p, s, i).None? <==> forall k :: i <= k <= |s| ==> MatchAt(p, s, k).None?
    decreases |s| + 1 - i
  {
    if i <= |s| {
      SearchNone(p, s, i + 1);
      if MatchAt(p, s, i).None? {
        assert Search(p, s, i) == Search(p, s, i + 1);
      } else {
        assert Search(p, s, i).Some?;
      }
    }
  }


  // ---------------------------------------------------------------------
  // The run ends are the unique positions with their defining property

  lemma {:induction false} CodeEndIs(s: string, i: nat, j: nat)
    requires i <= j <= |s|
    requires forall k :: i <= k < j ==> IsCodeChar(s[k])
    requires j == |s| || !IsCodeChar(s[j])
    ensures CodeEnd(s, i) == j
    decreases j - i
  {
    if i < j { CodeEndIs(s, i + 1, j); }
  }

  lemma {:induction false} IdEndIs(s: string, i: nat, j: nat)
    requires i <= j <= |s|
    requires forall k :: i <= k < j ==> IsIdChar(s[k])
    requires j == |s| || !IsIdChar(s[j])
    ensures IdEnd(s, i) == j
    decreases j - i
  {
    if i < j { IdEndIs(s, i + 1, j); }
  }

  lemma {:induction false} LineEndIs(s: string, i: nat, j: nat)
    requires i <= j <= |s|
    requires forall k :: i <= k < j ==> s[k] != '\n'
    requires j == |s| || s[j] == '\n'
    ensures LineEnd(s, i) == j
    decreases j - i
  {
    if i < j { LineEndIs(s, i + 1, j); }
  }

  lemma {:induction false} LastColonIs(s: string, lo: nat, hi: nat, p: nat)
    requires lo <= p < hi <= |s|
    requires s[p] == ':'
    requires forall q :: p < q < hi ==> s[q] != ':'
    ensures LastColon(s, lo, hi) == Some(p)
    decreases hi
  {
    if p < hi - 1 { LastColonIs(s, lo, hi - 1, p); }
  }

  // ---------------------------------------------------------------------
  // Properties of the output-line grammar

  /** The loop fails exactly when some segment does not split into a name and
      a value, and then it reports the first such segment: no partial record
      is ever returned. */
  lemma {:induction false} AddPairsFails(acc: Record, segments: seq<string>)
    ensures AddPairs(acc, segments).Err? <==> exists i :: 0 <= i < |segments| && !WellFormed(segments[i])
    ensures AddPairs(acc, segments).Err? ==>
              exists i :: 0 <= i < |segments| && !WellFormed(segments[i])
                && AddPairs(acc, segments).error == BadSegment(segments[i])
                && forall j :: 0 <= j < i ==> WellFormed(segments[j])
  {
    if AddPairs(acc, segments).Err? {
      var i := AddPairsErrAt(acc, segments);
    }
    if exists i :: 0 <= i < |segments| && !WellFormed(segments[i]) {
      var i :| 0 <= i < |segments| && !WellFormed(segments[i]);
      AddPairsBad(acc, segments, i);
    }
  }

  /** A failed loop names the first bad segment. */
  lemma {:induction false} AddPairsErrAt(acc: Record, segments: seq<string>) returns (i: nat)
    requires AddPairs(acc, segments).Err?
    ensures i < |segments| && !WellFormed(segments[i])
    ensures AddPairs(acc, segments).error == BadSegment(segments[i])
    ensures forall j :: 0 <= j < i ==> WellFormed(segments[j])
    decreases |segments|
  {
    if WellFormed(segments[0]) {
      var rest := segments[1..];
      var k := AddPairsErrAt(acc[KeyOf(segments[0]) := ValueOf(segments[0])], rest);
      i := k + 1;
      assert segments[i] == rest[k];
      assert forall j :: 1 <= j < i ==> segments[j] == rest[j - 1];
    } else {
      i := 0;
    }
  }

  /** One bad segment makes the whole loop fail. */
  lemma {:induction false} AddPairsBad(acc: Record, segments: seq<string>, i: nat)
    requires i < |segments| && !WellFormed(segments[i])
    ensures AddPairs(acc, segments).Err?
    decreases |segments|
  {
    if i > 0 && WellFormed(segments[0]) {
      assert segments[1..][i - 1] == segments[i];
      AddPairsBad(acc[KeyOf(segments[0]) := ValueOf(segments[0])], segments[1..], i - 1);
    }
  }

  /** The keys of the record: those it started with and one per segment. */
  lemma {:induction false} AddPairsKeys(acc: Record, segments: seq<string>)
    requires AddPairs(acc, segments).Ok?
    ensures AddPairs(acc, segments).value.Keys
            == acc.Keys + set i | 0 <= i < |segments| :: KeyOf(segments[i])
    decreases |segments|
  {
    if segments != [] {
      var acc' := acc[KeyOf(segments[0]) := ValueOf(segments[0])];
      AddPairsKeys(acc', segments[1..]);
      var all := set i | 0 <= i < |segments| :: KeyOf(segments[i]);
      var later := set i | 0 <= i < |segments[1..]| :: KeyOf(segments[1..][i]);
      assert all == {KeyOf(segments[0])} + later by {
        forall x | x in all ensures x in {KeyOf(segments[0])} + later {
          var i :| 0 <= i < |segments| && x == KeyOf(segments[i]);
          if i > 0 { assert x == KeyOf(segments[1..][i - 1]); }
        }
        forall x | x in later ensures x in all {
          var i :| 0 <= i < |segments[1..]| && x == KeyOf(segments[1..][i]);
          assert x == KeyOf(segments[i + 1]);
        }
      }
    }
  }

  /** A key that no segment names keeps its initial value. */
  lemma {:induction false} AddPairsKeeps(acc: Record, segments: seq<string>, k: string)
    requires AddPairs(acc, segments).Ok?
    requires k in acc
    requires forall j :: 0 <= j < |segments| ==> KeyOf(segments[j]) != k
    ensures AddPairs(acc, segments).value[k] == acc[k]
    decreases |segments|
  {
    if segments != [] {
      AddPairsKeeps(acc[KeyOf(segments[0]) := ValueOf(segments[0])], segments[1..], k);
    }
  }

  /** Later segments overwrite earlier ones: a key gets the value of the last
      segment that names it. */
  lemma {:induction false} AddPairsLastWins(acc: Record, segments: seq<string>, i: nat)
    requires AddPairs(acc, segments).Ok?
    requires i < |segments|
    requires forall j :: i < j < |segments| ==> KeyOf(segments[j]) != KeyOf(segments[i])
    ensures KeyOf(segments[i]) in AddPairs(acc, segments).value
    ensures AddPairs(acc, segments).value[KeyOf(segments[i])] == ValueOf(segments[i])
    decreases |segments|
  {
    var acc' := acc[KeyOf(segments[0]) := ValueOf(segments[0])];
    if i == 0 {
      forall j | 0 <= j < |segments[1..]| ensures KeyOf(segments[1..][j]) != KeyOf(segments[0]) {
        assert segments[1..][j] == segments[j + 1];
      }
      AddPairsKeeps(acc', segments[1..], KeyOf(segments[0]));
    } else {
      forall j | i - 1 < j < |segments[1..]| ensures KeyOf(segments[1..][j]) != KeyOf(segments[1..][i - 1]) {
        assert segments[1..][j] == segments[j + 1];
      }
      AddPairsLastWins(acc', segments[1..], i - 1);
    }
  }

  /** With distinct fresh keys the record grows by one field per segment. */
  lemma {:induction false} AddPairsSize(acc: Record, segments: seq<string>)
    requires AddPairs(acc, segments).Ok?
    requires forall j :: 0 <= j < |segments| ==> KeyOf(segments[j]) !in acc
    requires forall j, k :: 0 <= j < k < |segments| ==> KeyOf(segments[j]) != KeyOf(segments[k])
    ensures |AddPairs(acc, segments).value| == |acc| + |segments|
    decreases |segments|
  {
    if segments != [] {
      var acc' := acc[KeyOf(segments[0]) := ValueOf(segments[0])];
      assert |acc'| == |acc| + 1;
      forall j | 0 <= j < |segments[1..]| ensures KeyOf(segments[1..][j]) !in acc' {
        assert segments[1..][j] == segments[j + 1];
      }
      AddPairsSize(acc', segments[1..]);
    }
  }

  /** An output line fails to parse exactly when one of its segments is not
      a `name:value` pair. */
  lemma OutputLineFails(message: string)
    requires "/" <= message
    ensures ParseOutMessage(message).Err?
            <==> exists i :: 0 <= i < |Segments(message)| && !WellFormed(Segments(message)[i])
  {
    AddPairsFails(Initial(message), Segments(message));
  }

  /** What an output line parses to. Its status is always 'finished', even
      when a segment names `status`; its `output` is the first comma piece
      unless a segment's key lower-cases to `output`; every other key holds
      the value of the last segment naming it. */
  lemma OutputLineFields(message: string)
    requires "/" <= message && ParseOutMessage(message).Ok?
    ensures var rec := ParseOutMessage(message).value;
            var segs := Segments(message);
            && rec.Keys == {"output", "status"} + (set i | 0 <= i < |segs| :: KeyOf(segs[i]))
            && rec["status"] == FINISHED
            && ((forall i :: 0 <= i < |segs| ==> KeyOf(segs[i]) != "output")
                  ==> rec["output"] == Split(message, ',')[0])
            && (forall i :: 0 <= i < |segs| && KeyOf(segs[i]) != "status"
                  && (forall j :: i < j < |segs| ==> KeyOf(segs[j]) != KeyOf(segs[i]))
                  ==> rec[KeyOf(segs[i])] == ValueOf(segs[i]))
  {
    var acc := Initial(message);
    var segs := Segments(message);
    assert ParseOutMessage(message) == ParseOutputLine(message);
    assert AddPairs(acc, segs).Ok?;
    AddPairsFields(acc, segs);
    assert ParseOutMessage(message).value == AddPairs(acc, segs).value["status" := FINISHED];
  }

  /** The loop followed by `status: finished`, from any starting record. */
  lemma AddPairsFields(acc: Record, segs: seq<string>)
    requires AddPairs(acc, segs).Ok?
    ensures var rec := AddPairs(acc, segs).value["status" := FINISHED];
            && rec.Keys == acc.Keys + {"status"} + (set i | 0 <= i < |segs| :: KeyOf(segs[i]))
            && rec["status"] == FINISHED
            && (("output" in acc && forall i :: 0 <= i < |segs| ==> KeyOf(segs[i]) != "output")
                  ==> rec["output"] == acc["output"])
            && (forall i :: 0 <= i < |segs| && KeyOf(segs[i]) != "status"
                  && (forall j :: i < j < |segs| ==> KeyOf(segs[j]) != KeyOf(segs[i]))
                  ==> rec[KeyOf(segs[i])] == ValueOf(segs[i]))
  {
    var rec := AddPairs(acc, segs).value;
    AddPairsKeys(acc, segs);
    if "output" in acc && forall i :: 0 <= i < |segs| ==> KeyOf(segs[i]) != "output" {
      AddPairsKeeps(acc, segs, "output");
    }
    forall i | 0 <= i < |segs| && KeyOf(segs[i]) != "status"
               && (forall j :: i < j < |segs| ==> KeyOf(segs[j]) != KeyOf(segs[i]))
      ensures rec["status" := FINISHED][KeyOf(segs[i])] == ValueOf(segs[i])
    {
      AddPairsLastWins(acc, segs, i);
    }
  }

  // ---------------------------------------------------------------------
  // Round trips: lines built the way a payload writes them parse back

  /** The `name:value` segments of a list of pairs. */
  function PairSegments(pairs: seq<(string, string)>): (segs: seq<string>)
    ensures |segs| == |pairs|
  {
    seq(|pairs|, i requires 0 <= i < |pairs| => pairs[i].0 + ":" + pairs[i].1)
  }

  /** An output line `/path,k1:v1,...` as the payload writes it. */
  function OutputLine(path: string, pairs: seq<(string, string)>): string
    requires |path| >= 1
  {
    Join([path] + PairSegments(pairs), ',')
  }

  lemma PairSegment(k: string, v: string)
    requires ':' !in k && ':' !in v
    ensures WellFormed(k + ":" + v) && KeyOf(k + ":" + v) == Lower(k) && ValueOf(k + ":" + v) == v
  {
    SplitJoin([k, v], ':');
    assert Join([k, v], ':') == k + ":" + v;
  }

  lemma OutputLineSplits(path: string, pairs: seq<(string, string)>)
    requires |path| >= 1 && ',' !in path
    requires forall i :: 0 <= i < |pairs| ==> ',' !in pairs[i].0 && ',' !in pairs[i].1
    ensures "/" <= path ==> "/" <= OutputLine(path, pairs)
    ensures Split(OutputLine(path, pairs), ',')[0] == path
    ensures Segments(OutputLine(path, pairs)) == PairSegments(pairs)
  {
    var parts := [path] + PairSegments(pairs);
    forall i | 0 <= i < |parts| ensures ',' !in parts[i] {
      if i > 0 { assert parts[i] == pairs[i - 1].0 + [':'] + pairs[i - 1].1; }
    }
    SplitJoin(parts, ',');
    if |parts| > 1 {
      assert OutputLine(path, pairs) == path + [','] + Join(parts[1..], ',');
    }
  }

  /** Every `name:value` pair written out comes back under its lower-cased
      name, the path comes back as `output`, and the record has exactly the
      fields written plus `output` and `status`. */
  lemma OutputLineRoundTrip(path: string, pairs: seq<(string, string)>)
    requires |path| >= 1 && path[0] == '/' && ',' !in path
    requires forall i :: 0 <= i < |pairs| ==>
               ',' !in pairs[i].0 && ':' !in pairs[i].0 && ',' !in pairs[i].1 && ':' !in pairs[i].1
    requires forall i :: 0 <= i < |pairs| ==> Lower(pairs[i].0) != "output" && Lower(pairs[i].0) != "status"
    requires forall i, j :: 0 <= i < j < |pairs| ==> Lower(pairs[i].0) != Lower(pairs[j].0)
    ensures ParseOutMessage(OutputLine(path, pairs)).Ok?
    ensures var rec := ParseOutMessage(OutputLine(path, pairs)).value;
            && rec["output"] == path
            && rec["status"] == FINISHED
            && |rec| == |pairs| + 2
            && forall i :: 0 <= i < |pairs| ==> Lower(pairs[i].0) in rec && rec[Lower(pairs[i].0)] == pairs[i].1
  {
    var line := OutputLine(path, pairs);
    assert "/" <= path;
    OutputLineSplits(path, pairs);
    var segs := PairSegments(pairs);
    forall i | 0 <= i < |segs|
      ensures WellFormed(segs[i]) && KeyOf(segs[i]) == Lower(pairs[i].0) && ValueOf(segs[i]) == pairs[i].1
    {
      PairSegment(pairs[i].0, pairs[i].1);
    }
    SegmentsParse(line, path, pairs);
  }

  /** A `/` line whose first comma piece is `path` and whose segments split
      into the given pairs, with distinct fresh names, parses to exactly
      those fields. */
  lemma SegmentsParse(line: string, path: string, pairs: seq<(string, string)>)
    requires "/" <= line && Split(line, ',')[0] == path && |Segments(line)| == |pairs|
    requires forall i :: 0 <= i < |pairs| ==>
               && WellFormed(Segments(line)[i])
               && KeyOf(Segments(line)[i]) == Lower(pairs[i].0)
               && ValueOf(Segments(line)[i]) == pairs[i].1
    requires forall i :: 0 <= i < |pairs| ==> Lower(pairs[i].0) != "output" && Lower(pairs[i].0) != "status"
    requires forall i, j :: 0 <= i < j < |pairs| ==> Lower(pairs[i].0) != Lower(pairs[j].0)
    ensures ParseOutMessage(line).Ok?
    ensures var rec := ParseOutMessage(line).value;
            && rec["output"] == path
            && rec["status"] == FINISHED
            && |rec| == |pairs| + 2
            && forall i :: 0 <= i < |pairs| ==> Lower(pairs[i].0) in rec && rec[Lower(pairs[i].0)] == pairs[i].1
  {
    var acc := Initial(line);
    assert acc == map["output" := path];
    var keys := seq(|pairs|, i requires 0 <= i < |pairs| => Lower(pairs[i].0));
    var values := seq(|pairs|, i requires 0 <= i < |pairs| => pairs[i].1);
    PairsRecord(path, Segments(line), keys, values);
    OutputLineRecord(line);
  }

  /** The record the loop builds from `{output: path}` and segments that
      split into distinct fresh `keys` with their `values`, once
      `status: finished` is added. */
  lemma PairsRecord(path: string, segs: seq<string>, keys: seq<string>, values: seq<string>)
    requires |segs| == |keys| == |values|
    requires forall i :: 0 <= i < |segs| ==> WellFormed(segs[i]) && KeyOf(segs[i]) == keys[i] && ValueOf(segs[i]) == values[i]
    requires forall i :: 0 <= i < |keys| ==> keys[i] != "output" && keys[i] != "status"
    requires forall i, j :: 0 <= i < j < |keys| ==> keys[i] != keys[j]
    ensures AddPairs(map["output" := path], segs).Ok?
    ensures var rec := AddPairs(map["output" := path], segs).value["status" := FINISHED];
            && rec["output"] == path
            && rec["status"] == FINISHED
            && |rec| == |keys| + 2
            && forall i :: 0 <= i < |keys| ==> keys[i] in rec && rec[keys[i]] == values[i]
  {
    var acc := map["output" := path];
    AddPairsFails(acc, segs);
    SegmentKeys(acc, segs, keys);
    AddPairsDistinct(acc, segs);
    AddPairsAbsent(acc, segs, "status");
  }

  lemma SegmentKeys(acc: Record, segs: seq<string>, keys: seq<string>)
    requires |segs| == |keys| && forall i :: 0 <= i < |segs| ==> KeyOf(segs[i]) == keys[i]
    requires forall i :: 0 <= i < |keys| ==> keys[i] !in acc && keys[i] != "status"
    requires forall i, j :: 0 <= i < j < |keys| ==> keys[i] != keys[j]
    ensures forall j :: 0 <= j < |segs| ==> KeyOf(segs[j]) !in acc && KeyOf(segs[j]) != "status"
    ensures forall j, k :: 0 <= j < k < |segs| ==> KeyOf(segs[j]) != KeyOf(segs[k])
  {
  }

  /** A key that no segment names and the record lacks stays absent. */
  lemma {:induction false} AddPairsAbsent(acc: Record, segments: seq<string>, k: string)
    requires AddPairs(acc, segments).Ok?
    requires k !in acc
    requires forall j :: 0 <= j < |segments| ==> KeyOf(segments[j]) != k
    ensures k !in AddPairs(acc, segments).value
    decreases |segments|
  {
    if segments != [] {
      AddPairsAbsent(acc[KeyOf(segments[0]) := ValueOf(segments[0])], segments[1..], k);
    }
  }

  /** A `/` line whose segments all split parses to the loop's record with
      `status: finished` added. */
  lemma OutputLineRecord(message: string)
    requires "/" <= message && AddPairs(Initial(message), Segments(message)).Ok?
    ensures ParseOutMessage(message) == Ok(AddPairs(Initial(message), Segments(message)).value["status" := FINISHED])
  {
  }

  /** Segments with distinct keys, none already in the record, each add
      their own field and leave the others as they were. */
  lemma AddPairsDistinct(acc: Record, segs: seq<string>)
    requires AddPairs(acc, segs).Ok?
    requires forall j :: 0 <= j < |segs| ==> KeyOf(segs[j]) !in acc
    requires forall j, k :: 0 <= j < k < |segs| ==> KeyOf(segs[j]) != KeyOf(segs[k])
    ensures var rec := AddPairs(acc, segs).value;
            && |rec| == |acc| + |segs|
            && (forall k :: k in acc ==> rec[k] == acc[k])
            && forall i :: 0 <= i < |segs| ==> KeyOf(segs[i]) in rec && rec[KeyOf(segs[i])] == ValueOf(segs[i])
  {
    var rec := AddPairs(acc, segs).value;
    AddPairsSize(acc, segs);
    forall k | k in acc ensures rec[k] == acc[k] {
      AddPairsKeeps(acc, segs, k);
    }
    forall i | 0 <= i < |segs| ensures KeyOf(segs[i]) in rec && rec[KeyOf(segs[i])] == ValueOf(segs[i]) {
      AddPairsLastWins(acc, segs, i);
    }
  }

  /** The sample line `/out/path,cpu:12,wall:34` gives the four fields
      `output: /out/path, cpu: 12, wall: 34, status: finished` and no other. */
  lemma SampleOutputLine(line: string)
    requires line == "/out/path,cpu:12,wall:34"
    ensures var r := ParseOutMessage(line);
            && r.Ok? && |r.value| == 4
            && "output" in r.value && r.value["output"] == "/out/path"
            && "cpu" in r.value && r.value["cpu"] == "12"
            && "wall" in r.value && r.value["wall"] == "34"
            && r.value["status"] == FINISHED
  {
    var pairs := [("cpu", "12"), ("wall", "34")];
    SampleLineBuilt();
    SampleKeysLower();
    OutputLineRoundTrip("/out/path", pairs);
    assert OutputLine("/out/path", pairs) == line;
    var rec := ParseOutMessage(line).value;
    assert Lower(pairs[0].0) in rec && rec[Lower(pairs[0].0)] == pairs[0].1;
    assert Lower(pairs[1].0) in rec && rec[Lower(pairs[1].0)] == pairs[1].1;
  }

  lemma SampleLineBuilt()
    ensures OutputLine("/out/path", [("cpu", "12"), ("wall", "34")]) == "/out/path,cpu:12,wall:34"
  {
    var pairs := [("cpu", "12"), ("wall", "34")];
    var segs := PairSegments(pairs);
    assert segs[0] == "cpu:12" && segs[1] == "wall:34";
    var parts := ["/out/path"] + segs;
    assert parts[1..] == segs;
    assert segs[1..] == [segs[1]];
    calc {
      Join(parts, ',');
      "/out/path" + [','] + Join(segs, ',');
      "/out/path" + [','] + (segs[0] + [','] + Join(segs[1..], ','));
      "/out/path" + [','] + ("cpu:12" + [','] + "wall:34");
    }
  }

  lemma SampleKeysLower()
    ensures Lower("cpu") == "cpu" && Lower("wall") == "wall"
  {
  }

  /** An error line `ERR_<CODE> <id>:<detail>` as the payload writes it. */
  function ErrLine(code: string, id: string, detail: string): string
  {
    "ERR_" + code + " " + id + ":" + detail
  }

  /** The id pattern matches a well-formed error line at its start and
      captures the id. */
  lemma ErrLineMatch(code: string, id: string, detail: string)
    requires |code| > 0 && forall i :: 0 <= i < |code| ==> IsCodeChar(code[i])
    requires IsRangeId(id)
    requires |detail| > 0 && detail[0] != '\n'
    ensures MatchAt(ErrWithId, ErrLine(code, id, detail), 0) == Some(id)
  {
    var line := ErrLine(code, id, detail);
    var j := 4 + |code|;
    var k := j + 1 + |id|;
    assert line[0..4] == "ERR_";
    assert line[j] == ' ' && line[k] == ':' && line[k + 1] == detail[0];
    assert forall x :: 4 <= x < j ==> line[x] == code[x - 4];
    assert forall x :: j + 1 <= x < k ==> line[x] == id[x - j - 1];
    CodeEndIs(line, 4, j);
    IdEndIs(line, j + 1, k);
    assert line[j + 1..k] == id;
  }

  /** A well-formed error line yields exactly its id, status 'failed' and the
      whole line as message. */
  lemma ErrLineRoundTrip(code: string, id: string, detail: string)
    requires |code| > 0 && forall i :: 0 <= i < |code| ==> IsCodeChar(code[i])
    requires IsRangeId(id)
    requires |detail| > 0 && detail[0] != '\n'
    requires !Contains(ErrLine(code, id, detail), ATHENAMP_PARSE)
    ensures ParseOutMessage(ErrLine(code, id, detail)) == Ok(FailedRecord(id, ErrLine(code, id, detail)))
  {
    var line := ErrLine(code, id, detail);
    ErrLineMatch(code, id, detail);
    SearchLeftmost(ErrWithId, line, 0, 0);
    assert line[..3] == "ERR";
  }

  /** The descriptor of an `ERR_ATHENAMP_PARSE` line as the payload writes
      it: a dict whose first item is `'eventRangeID': '<id>'`. */
  function Descriptor(id: string, rest: string): string
  {
    "{'" + RANGE_ID_HEAD + " '" + id + "'" + rest
  }

  /** An `ERR_ATHENAMP_PARSE` line carrying such a descriptor. */
  function DescriptorLine(id: string, rest: string, detail: string): string
  {
    ATHENAMP_PARSE + " " + Descriptor(id, rest) + ": " + detail
  }

  lemma DescriptorShape(id: string, rest: string)
    requires IsRangeId(id) && '\n' !in rest
    ensures var d := Descriptor(id, rest);
            && |d| == 19 + |id| + |rest|
            && (forall x :: 0 <= x < |d| ==> d[x] != '\n')
            && d[0] == '{' && d[1] == '\'' && d[2..16] == RANGE_ID_HEAD
            && d[16] == ' ' && d[17] == '\'' && d[18 + |id|] == '\''
            && d[18..18 + |id|] == id
  {
    var d := Descriptor(id, rest);
    forall x | 0 <= x < |d| ensures d[x] != '\n' {
      if 18 <= x < 18 + |id| { assert d[x] == id[x - 18]; }
      else if x >= 19 + |id| { assert d[x] == rest[x - 19 - |id|]; }
    }
  }

  /** Where the parts of a descriptor line sit. */
  lemma DescriptorLineShape(id: string, rest: string, detail: string)
    requires IsRangeId(id) && '\n' !in rest
    requires |detail| > 0 && ':' !in detail && '\n' !in detail
    ensures var d := Descriptor(id, rest);
            var line := DescriptorLine(id, rest, detail);
            var colon := 19 + |d|;
            && |line| == colon + 2 + |detail| && |d| >= 19
            && line[..|ATHENAMP_PARSE|] == ATHENAMP_PARSE
            && line[0..4] == "ERR_"
            && (forall x :: 4 <= x < 18 ==> IsCodeChar(line[x]))
            && line[18] == ' '
            && line[19..colon] == d
            && line[colon] == ':'
            && (forall x :: 19 <= x < |line| ==> line[x] != '\n')
            && (forall x :: colon < x < |line| ==> line[x] != ':')
  {
    var d := Descriptor(id, rest);
    var line := DescriptorLine(id, rest, detail);
    DescriptorShape(id, rest);
    assert line[..|ATHENAMP_PARSE|] == ATHENAMP_PARSE;
    assert line[0..4] == "ERR_";
    assert forall x :: 4 <= x < 18 ==> IsCodeChar(line[x]);
    var colon := 19 + |d|;
    assert forall x :: 19 <= x < colon ==> line[x] == d[x - 19];
    assert line[colon] == ':' && line[colon + 1] == ' ';
    assert forall x :: colon + 2 <= x < |line| ==> line[x] == detail[x - colon - 2];
    assert line[19..colon] == d;
  }

  /** Where the code, the line and the last colon end in a line of that
      shape. */
  lemma DescriptorEnds(line: string, colon: nat)
    requires 20 <= colon && colon + 1 < |line|
    requires (forall x :: 4 <= x < 18 ==> IsCodeChar(line[x])) && line[18] == ' '
    requires forall x :: 19 <= x < |line| ==> line[x] != '\n'
    requires line[colon] == ':' && forall x :: colon < x < |line| ==> line[x] != ':'
    ensures CodeEnd(line, 4) == 18 && LineEnd(line, 19) == |line| && LastColon(line, 20, |line| - 1) == Some(colon)
  {
    CodeEndIs(line, 4, 18);
    LineEndIs(line, 19, |line|);
    LastColonIs(line, 20, |line| - 1, colon);
  }

  /** The descriptor pattern matches such a line at its start and captures
      everything between the code and the last colon. */
  lemma DescriptorMatch(line: string, colon: nat)
    requires 20 <= colon && colon + 1 < |line|
    requires line[0..4] == "ERR_" && line[18] == ' '
    requires CodeEnd(line, 4) == 18 && LineEnd(line, 19) == |line| && LastColon(line, 20, |line| - 1) == Some(colon)
    ensures MatchAt(ErrWithDescriptor, line, 0) == Some(line[19..colon])
  {
    var j := CodeEnd(line, 4);
    assert !(j == |line| || j == 4 || line[j] != ' ');
    assert MatchErrWithDescriptor(line, 0) == Some(line[j + 1..colon]);
  }

  /** The descriptor pattern captures exactly the descriptor. */
  lemma DescriptorGroup(id: string, rest: string, detail: string)
    requires IsRangeId(id) && '\n' !in rest
    requires |detail| > 0 && ':' !in detail && '\n' !in detail
    ensures Contains(DescriptorLine(id, rest, detail), ATHENAMP_PARSE)
    ensures Search(ErrWithDescriptor, DescriptorLine(id, rest, detail), 0) == Some(Descriptor(id, rest))
  {
    var d := Descriptor(id, rest);
    var line := DescriptorLine(id, rest, detail);
    DescriptorLineShape(id, rest, detail);
    ContainsAt(line, ATHENAMP_PARSE, 0);
    DescriptorEnds(line, 19 + |d|);
    DescriptorMatch(line, 19 + |d|);
    SearchLeftmost(ErrWithDescriptor, line, 0, 0);
  }

  /** The range-id pattern finds the id inside the descriptor. */
  lemma DescriptorRangeId(id: string, rest: string)
    requires IsRangeId(id) && '\n' !in rest
    ensures Contains(Descriptor(id, rest), RANGE_ID_KEY)
    ensures Search(RangeIdField, Descriptor(id, rest), 0) == Some(id)
  {
    var d := Descriptor(id, rest);
    DescriptorShape(id, rest);
    assert d[2..14] == RANGE_ID_KEY;
    ContainsAt(d, RANGE_ID_KEY, 2);
    assert d[0..14][0] != RANGE_ID_HEAD[0];
    assert d[1..15][0] != RANGE_ID_HEAD[0];
    assert MatchAt(RangeIdField, d, 0).None?;
    assert MatchAt(RangeIdField, d, 1).None?;
    IdEndIs(d, 18, 18 + |id|);
    assert QuotedIdAt(d, 18).None?;
    assert MatchAt(RangeIdField, d, 2) == Some(id);
    SearchLeftmost(RangeIdField, d, 0, 2);
  }

  /** Such a line yields the id from inside the descriptor, status 'failed'
      and the whole line as message. */
  lemma DescriptorLineRoundTrip(id: string, rest: string, detail: string)
    requires IsRangeId(id)
    requires '\n' !in rest
    requires |detail| > 0 && ':' !in detail && '\n' !in detail
    ensures ParseOutMessage(DescriptorLine(id, rest, detail))
            == Ok(FailedRecord(id, DescriptorLine(id, rest, detail)))
  {
    var line := DescriptorLine(id, rest, detail);
    DescriptorGroup(id, rest, detail);
    DescriptorRangeId(id, rest);
    assert line[..3] == "ERR";
    assert "ERR" <= line;
    DescriptorParse(line, Descriptor(id, rest), id);
  }

  /** An `ERR` line whose descriptor holds a range id parses to that id. */
  lemma DescriptorParse(line: string, descriptor: string, id: string)
    requires "ERR" <= line && Contains(line, ATHENAMP_PARSE)
    requires Search(ErrWithDescriptor, line, 0) == Some(descriptor)
    requires Contains(descriptor, RANGE_ID_KEY) && Search(RangeIdField, descriptor, 0) == Some(id)
    ensures ParseOutMessage(line) == Ok(FailedRecord(id, line))
  {
    assert line[0] == 'E';
  }

  /** An error line in which neither pattern finds anything is refused: no
      partial record is returned. */
  lemma ErrLineWithoutMatch(message: string)
    requires "ERR" <= message && !Contains(message, ATHENAMP_PARSE)
    requires forall k :: 0 <= k <= |message| ==> MatchAt(ErrWithId, message, k).None?
    ensures ParseOutMessage(message) == Err(NoErrorMatch)
  {
    SearchNone(ErrWithId, message, 0);
  }

  /** An `ERR_ATHENAMP_PARSE` line whose descriptor lacks `eventRangeID` is
      refused. */
  lemma DescriptorWithoutKey(message: string)
    requires "ERR" <= message && Contains(message, ATHENAMP_PARSE)
    requires Search(ErrWithDescriptor, message, 0).Some?
    requires !Contains(Search(ErrWithDescriptor, message, 0).value, RANGE_ID_KEY)
    ensures ParseOutMessage(message) == Err(NoRangeIdKey)
  {
  }
}
