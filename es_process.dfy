/** The event-service process: it starts a message thread and the payload
    process, then answers the payload one message at a time. It fetches event
    ranges when the payload is ready for them, and passes every other line
    through the output parser to a result hook.

    External things are inputs to the model:
    - whether the thread starts;
    - whether the payload process spawns;
    - liveness and `poll()` observations;
    - the replies of the two hooks.

    The messages sent to the payload are kept in the message thread's
    outbound log. */
module EsProcess {
  import opened Outcomes
  import opened PyStr
  import opened EsParse

  const READY_FOR_EVENTS := "Ready for events"
  const NO_MORE_EVENTS := "No more events"
  const SOCKET_NAME := "EventService_EventRanges"
  const CONTEXT := "local"
  const DEFAULT_OUTPUT_FILE := "ES_payload_output.txt"
  const DEFAULT_ERROR_FILE := "ES_payload_error.txt"

  /** A value a range hook may return, as far as the protocol looks at it. */
  datatype Value =
    | Null
    | Num(n: int)
    | Str(s: string)
    | List(items: seq<Value>)
    | Dict(fields: map<string, Value>)

  /** What goes down the socket: a value sent as it is, or the JSON dump of
      a value. */
  datatype Wire = Verbatim(v: Value) | Json(v: Value)

  /** The message thread: its socket, whether `start()` succeeded, and what
      was sent through it. */
  datatype MessageThread = MessageThread(socket: string, context: string, started: bool, sent: seq<Wire>)

  /** The payload process as it was launched. */
  datatype Payload = Payload(command: string, outputFile: string, errorFile: string)

  /** What may happen when the message thread is created and started. */
  datatype ThreadStart = ConstructFails | StartFails | Starts

  /** The exceptions the process raises. `HandleFailed` carries, in the
      source, the same text as `RangesHookFailed`. */
  datatype Failure =
    | ThreadStartFailed
    | MissingPayloadKey
    | PayloadStartFailed
    | ThreadNotStarted
    | ThreadNotAlive
    | ProcessNotStarted
    | ProcessNotAlive(code: int)
    | RangesHookUnset
    | RangesHookFailed
    | HandleHookUnset
    | HandleFailed
    | NotIterable
    | NoThread

  /** Python truthiness. */
  predicate Truthy(v: Value)
  {
    match v
    case Null => false
    case Num(n) => n != 0
    case Str(s) => |s| > 0
    case List(xs) => |xs| > 0
    case Dict(m) => |m| > 0
  }

  /** `"No more events" in v`: a substring test on a string, element
      membership on a list, key membership on a dict, a TypeError otherwise. */
  function HasSentinel(v: Value): (r: Result<bool, Failure>)
    ensures r.Err? <==> v.Null? || v.Num?
    ensures r.Err? ==> r.error == NotIterable
    ensures v.Str? ==> r == Ok(Contains(v.s, NO_MORE_EVENTS))
    ensures v.List? ==> (r == Ok(true) <==> Str(NO_MORE_EVENTS) in v.items)
    ensures v.Dict? ==> (r == Ok(true) <==> NO_MORE_EVENTS in v.fields)
  {
    match v
    case Null => Err(NotIterable)
    case Num(_) => Err(NotIterable)
    case Str(s) => Ok(Contains(s, NO_MORE_EVENTS))
    case List(xs) => Ok(Str(NO_MORE_EVENTS) in xs)
    case Dict(m) => Ok(NO_MORE_EVENTS in m)
  }

  /** The hook's reply as it is sent on: a falsy reply becomes the
      "No more events" sentinel. */
  function Reply(v: Value): (r: Value)
    ensures Truthy(r)
    ensures Truthy(v) ==> r == v
    ensures !Truthy(v) ==> HasSentinel(r) == Ok(true)
  {
    if Truthy(v) then v else Str(NO_MORE_EVENTS)
  }

  /** What `send_event_ranges_to_payload` puts on the socket for `ranges`:
      the value itself when it holds the sentinel, else the JSON dump of a
      list (a non-list is wrapped into a one-element list). */
  function Outgoing(ranges: Value): (r: Result<Wire, Failure>)
    ensures r.Err? <==> ranges.Null? || ranges.Num?
    ensures r.Ok? ==> (r.value.Verbatim? <==> HasSentinel(ranges) == Ok(true))
    ensures r.Ok? && r.value.Verbatim? ==> r.value.v == ranges
    ensures r.Ok? && r.value.Json? ==> r.value.v.List?
    ensures r.Ok? && r.value.Json? && ranges.List? ==> r.value.v == ranges
    ensures r.Ok? && r.value.Json? && !ranges.List? ==> r.value.v.items == [ranges]
  {
    match HasSentinel(ranges)
    case Err(e) => Err(e)
    case Ok(sentinel) =>
      if sentinel then Ok(Verbatim(ranges))
      else if ranges.List? then Ok(Json(ranges))
      else Ok(Json(List([ranges])))
  }

  /** The message on the wire holds the sentinel exactly when the ranges
      did, and the payload can always test it for the sentinel. */
  lemma OutgoingKeepsSentinel(v: Value)
    ensures Outgoing(v).Ok? ==> HasSentinel(Outgoing(v).value.v).Ok?
    ensures Outgoing(v).Ok? ==> (HasSentinel(Outgoing(v).value.v) == Ok(true) <==> HasSentinel(v) == Ok(true))
  {
    if v.Str? && v.s == NO_MORE_EVENTS {
      ContainsAt(NO_MORE_EVENTS, NO_MORE_EVENTS, 0);
    }
  }

  /** Whatever the hook returns, short of a non-zero number (which `in`
      refuses), the payload receives either the sentinel, sent as it is, or
      a non-empty JSON array. */
  lemma ReplyIsSendable(v: Value)
    ensures Outgoing(Reply(v)).Err? <==> v.Num? && v.n != 0
    ensures Outgoing(Reply(v)).Ok? ==>
              var w := Outgoing(Reply(v)).value;
              (w.Verbatim? && HasSentinel(w.v) == Ok(true)) || (w.Json? && w.v.List? && |w.v.items| > 0)
    ensures !Truthy(v) ==> Outgoing(Reply(v)) == Ok(Verbatim(Str(NO_MORE_EVENTS)))
  {
    if !Truthy(v) {
      assert Reply(v) == Str(NO_MORE_EVENTS);
      ContainsAt(NO_MORE_EVENTS, NO_MORE_EVENTS, 0);
    }
  }

  class ESProcess {
    const payload: map<string, string>
    /** Messages from the payload, oldest first. */
    var inbox: seq<string>
    var thread: Option<MessageThread>
    var process: Option<Payload>
    /** The range hook maps its argument to its reply, or to None when it
        raises. */
    var getRangesHook: Option<nat -> Option<Value>>
    /** The result hook says whether it returns without raising; what it
        returns is ignored. */
    var handleOutHook: Option<Record -> bool>
    /** Every call of the range hook, with its argument. */
    ghost var rangeRequests: seq<nat>
    /** Every record handed to the result hook. */
    ghost var handled: seq<Record>

    constructor(payload: map<string, string>)
      ensures this.payload == payload
      ensures inbox == [] && thread == None && process == None
      ensures getRangesHook == None && handleOutHook == None
      ensures rangeRequests == [] && handled == []
    {
      this.payload := payload;
      inbox := [];
      thread := None;
      process := None;
      getRangesHook := None;
      handleOutHook := None;
      rangeRequests := [];
      handled := [];
    }

    /** The message thread puts a line from the payload on the queue. */
    method Receive(message: string)
      modifies this
      ensures inbox == old(inbox) + [message]
      ensures thread == old(thread) && process == old(process)
      ensures getRangesHook == old(getRangesHook) && handleOutHook == old(handleOutHook)
      ensures rangeRequests == old(rangeRequests) && handled == old(handled)
    {
      inbox := inbox + [message];
    }

    /** Creates and starts the message thread. A thread whose `start()`
        raised is kept, not started. */
    method InitMessageThread(socket: string, context: string, start: ThreadStart) returns (r: Outcome<Failure>)
      modifies this
      ensures r.Pass? <==> start == Starts
      ensures r.Fail? ==> r.error == ThreadStartFailed
      ensures start == ConstructFails ==> thread == old(thread)
      ensures start != ConstructFails ==> thread == Some(MessageThread(socket, context, start == Starts, []))
      ensures inbox == old(inbox) && process == old(process)
      ensures getRangesHook == old(getRangesHook) && handleOutHook == old(handleOutHook)
      ensures rangeRequests == old(rangeRequests) && handled == old(handled)
    {
      if start == ConstructFails {
        return Fail(ThreadStartFailed);
      }
      thread := Some(MessageThread(socket, context, start == Starts, []));
      r := if start == Starts then Pass else Fail(ThreadStartFailed);
    }

    /** Launches the payload command with its output and error files. The
        `payload` key is required; the file names have defaults. `spawnOk`
        says whether opening the files and spawning succeed. */
    method InitPayloadProcess(spawnOk: bool) returns (r: Outcome<Failure>)
      modifies this
      ensures "payload" !in payload ==> r == Fail(MissingPayloadKey) && process == old(process)
      ensures "payload" in payload && !spawnOk ==> r == Fail(PayloadStartFailed) && process == old(process)
      ensures r.Pass? <==> "payload" in payload && spawnOk
      ensures r.Pass? ==> process == Some(Payload(
                payload["payload"],
                if "output_file" in payload then payload["output_file"] else DEFAULT_OUTPUT_FILE,
                if "error_file" in payload then payload["error_file"] else DEFAULT_ERROR_FILE))
      ensures inbox == old(inbox) && thread == old(thread)
      ensures getRangesHook == old(getRangesHook) && handleOutHook == old(handleOutHook)
      ensures rangeRequests == old(rangeRequests) && handled == old(handled)
    {
      if "payload" !in payload {
        return Fail(MissingPayloadKey);
      }
      var command := payload["payload"];
      var outputFile := if "output_file" in payload then payload["output_file"] else DEFAULT_OUTPUT_FILE;
      var errorFile := if "error_file" in payload then payload["error_file"] else DEFAULT_ERROR_FILE;
      if !spawnOk {
        return Fail(PayloadStartFailed);
      }
      process := Some(Payload(command, outputFile, errorFile));
      r := Pass;
    }

    /** Start-up: the message thread first, then the payload process, which
        is not attempted when the thread fails. */
    method Init(start: ThreadStart, spawnOk: bool) returns (r: Outcome<Failure>)
      modifies this
      ensures r.Pass? <==> start == Starts && "payload" in payload && spawnOk
      ensures start != Starts ==> r == Fail(ThreadStartFailed)
      ensures start == ConstructFails ==> thread == old(thread)
      ensures start != ConstructFails ==> thread == Some(MessageThread(SOCKET_NAME, CONTEXT, start == Starts, []))
      ensures !r.Pass? ==> process == old(process)
      ensures r.Pass? ==> process == Some(Payload(
                payload["payload"],
                if "output_file" in payload then payload["output_file"] else DEFAULT_OUTPUT_FILE,
                if "error_file" in payload then payload["error_file"] else DEFAULT_ERROR_FILE))
      ensures inbox == old(inbox)
      ensures getRangesHook == old(getRangesHook) && handleOutHook == old(handleOutHook)
      ensures rangeRequests == old(rangeRequests) && handled == old(handled)
    {
      r := InitMessageThread(SOCKET_NAME, CONTEXT, start);
      if r.Fail? {
        return;
      }
      r := InitPayloadProcess(spawnOk);
    }

    function GetGetEventRangesHook(): Option<nat -> Option<Value>>
      reads this
    {
      getRangesHook
    }

    function GetHandleOutMessageHook(): Option<Record -> bool>
      reads this
    {
      handleOutHook
    }

    method SetGetEventRangesHook(hook: nat -> Option<Value>)
      modifies this
      ensures GetGetEventRangesHook() == Some(hook)
      ensures handleOutHook == old(handleOutHook)
      ensures inbox == old(inbox) && thread == old(thread) && process == old(process)
      ensures rangeRequests == old(rangeRequests) && handled == old(handled)
    {
      getRangesHook := Some(hook);
    }

    method SetHandleOutMessageHook(hook: Record -> bool)
      modifies this
      ensures GetHandleOutMessageHook() == Some(hook)
      ensures getRangesHook == old(getRangesHook)
      ensures inbox == old(inbox) && thread == old(thread) && process == old(process)
      ensures rangeRequests == old(rangeRequests) && handled == old(handled)
    {
      handleOutHook := Some(hook);
    }

    /** The liveness check, given what `is_alive()` and `poll()` report. It
        passes exactly when a started, live thread and a running process are
        there, and it reports the first missing piece in that order. */
    function Monitor(threadAlive: bool, poll: Option<int>): (r: Outcome<Failure>)
      reads this
      ensures r.Pass? <==> thread.Some? && thread.value.started && threadAlive && process.Some? && poll.None?
      ensures thread.None? ==> r == Fail(ThreadNotStarted)
      ensures thread.Some? && !(thread.value.started && threadAlive) ==> r == Fail(ThreadNotAlive)
      ensures thread.Some? && thread.value.started && threadAlive && process.None? ==> r == Fail(ProcessNotStarted)
      ensures r.Fail? && r.error.ProcessNotAlive? ==> poll == Some(r.error.code)
    {
      if thread.None? then Fail(ThreadNotStarted)
      else if !(thread.value.started && threadAlive) then Fail(ThreadNotAlive)
      else if process.None? then Fail(ProcessNotStarted)
      else if poll.Some? then Fail(ProcessNotAlive(poll.value))
      else Pass
    }

    /** Asks the range hook for `numRanges` ranges. */
    method GetEventRanges(numRanges: nat) returns (r: Result<Value, Failure>)
      modifies this
      ensures getRangesHook.None? ==> r == Err(RangesHookUnset) && rangeRequests == old(rangeRequests)
      ensures getRangesHook.Some? ==> rangeRequests == old(rangeRequests) + [numRanges]
      ensures getRangesHook.Some? && getRangesHook.value(numRanges).None? ==> r == Err(RangesHookFailed)
      ensures getRangesHook.Some? && getRangesHook.value(numRanges).Some? ==>
                r == Ok(getRangesHook.value(numRanges).value)
      ensures inbox == old(inbox) && thread == old(thread) && process == old(process)
      ensures getRangesHook == old(getRangesHook) && handleOutHook == old(handleOutHook)
      ensures handled == old(handled)
    {
      if getRangesHook.None? {
        return Err(RangesHookUnset);
      }
      var reply := getRangesHook.value(numRanges);
      rangeRequests := rangeRequests + [numRanges];
      r := if reply.None? then Err(RangesHookFailed) else Ok(reply.value);
    }

    /** Sends `ranges` through the message thread, as `Outgoing` says. */
    method SendEventRangesToPayload(ranges: Value) returns (r: Outcome<Failure>)
      modifies this
      ensures Outgoing(ranges).Err? ==> r == Fail(NotIterable) && thread == old(thread)
      ensures Outgoing(ranges).Ok? && old(thread).None? ==> r == Fail(NoThread) && thread == None
      ensures r.Pass? <==> Outgoing(ranges).Ok? && old(thread).Some?
      ensures r.Pass? ==> thread == Some(old(thread).value.(sent := old(thread).value.sent + [Outgoing(ranges).value]))
      ensures inbox == old(inbox) && process == old(process)
      ensures getRangesHook == old(getRangesHook) && handleOutHook == old(handleOutHook)
      ensures rangeRequests == old(rangeRequests) && handled == old(handled)
    {
      var msg := Outgoing(ranges);
      if msg.Err? {
        return Fail(msg.error);
      }
      if thread.None? {
        return Fail(NoThread);
      }
      thread := Some(thread.value.(sent := thread.value.sent + [msg.value]));
      r := Pass;
    }

    /** Parses a payload line and gives the record to the result hook. A
        missing hook is reported before parsing; a parse failure and a hook
        failure both become `HandleFailed`. */
    method HandleOutMessage(message: string) returns (r: Outcome<Failure>)
      modifies this
      ensures handleOutHook.None? ==> r == Fail(HandleHookUnset) && handled == old(handled)
      ensures handleOutHook.Some? && ParseOutMessage(message).Err? ==> r == Fail(HandleFailed) && handled == old(handled)
      ensures handleOutHook.Some? && ParseOutMessage(message).Ok? ==>
                && handled == old(handled) + [ParseOutMessage(message).value]
                && (r.Pass? <==> handleOutHook.value(ParseOutMessage(message).value))
                && (r.Fail? ==> r.error == HandleFailed)
      ensures inbox == old(inbox) && thread == old(thread) && process == old(process)
      ensures getRangesHook == old(getRangesHook) && handleOutHook == old(handleOutHook)
      ensures rangeRequests == old(rangeRequests)
    {
      if handleOutHook.None? {
        return Fail(HandleHookUnset);
      }
      var parsed := ParseOutMessage(message);
      if parsed.Err? {
        return Fail(HandleFailed);
      }
      var ok := handleOutHook.value(parsed.value);
      handled := handled + [parsed.value];
      r := if ok then Pass else Fail(HandleFailed);
    }

    /** One protocol step: takes at most one message off the queue. A message
        holding "Ready for events" asks the range hook for one range and sends
        the reply, or the sentinel when the reply is falsy. Any other message
        goes to the result hook. */
    method HandleMessages() returns (r: Outcome<Failure>)
      modifies this
      ensures old(inbox) == [] ==> r == Pass && inbox == [] && thread == old(thread)
      ensures old(inbox) == [] ==> rangeRequests == old(rangeRequests) && handled == old(handled)
      ensures old(inbox) != [] ==> inbox == old(inbox)[1..]
      ensures old(inbox) != [] && Contains(old(inbox)[0], READY_FOR_EVENTS) ==>
                && handled == old(handled)
                && (getRangesHook.Some? ==> rangeRequests == old(rangeRequests) + [1])
                && (getRangesHook.None? ==> rangeRequests == old(rangeRequests) && r == Fail(RangesHookUnset))
                && (r.Pass? <==> getRangesHook.Some? && getRangesHook.value(1).Some?
                                 && Outgoing(Reply(getRangesHook.value(1).value)).Ok? && old(thread).Some?)
                && (r.Pass? ==> thread == Some(old(thread).value.(sent := old(thread).value.sent
                                  + [Outgoing(Reply(getRangesHook.value(1).value)).value])))
                && (r.Fail? ==> thread == old(thread))
      ensures old(inbox) != [] && !Contains(old(inbox)[0], READY_FOR_EVENTS) ==>
                && thread == old(thread)
                && rangeRequests == old(rangeRequests)
                && (r.Pass? <==> handleOutHook.Some? && ParseOutMessage(old(inbox)[0]).Ok?
                                 && handleOutHook.value(ParseOutMessage(old(inbox)[0]).value))
                && (handleOutHook.None? || ParseOutMessage(old(inbox)[0]).Err? ==> handled == old(handled))
                && (handleOutHook.Some? && ParseOutMessage(old(inbox)[0]).Ok? ==>
                      handled == old(handled) + [ParseOutMessage(old(inbox)[0]).value])
      ensures process == old(process)
      ensures getRangesHook == old(getRangesHook) && handleOutHook == old(handleOutHook)
    {
      if inbox == [] {
        return Pass;
      }
      var message := inbox[0];
      inbox := inbox[1..];
      if Contains(message, READY_FOR_EVENTS) {
        var ranges := GetEventRanges(1);
        if ranges.Err? {
          return Fail(ranges.error);
        }
        ReplyIsSendable(ranges.value);
        r := SendEventRangesToPayload(Reply(ranges.value));
      } else {
        r := HandleOutMessage(message);
      }
    }

    /** One pass of the main loop: the liveness check, then one protocol
        step when it passes. */
    method Step(threadAlive: bool, poll: Option<int>) returns (r: Outcome<Failure>)
      modifies this
      ensures old(Monitor(threadAlive, poll)).Fail? ==>
                && r == old(Monitor(threadAlive, poll)) && inbox == old(inbox) && thread == old(thread)
                && rangeRequests == old(rangeRequests) && handled == old(handled)
      ensures old(Monitor(threadAlive, poll)).Pass? && old(inbox) != [] ==> inbox == old(inbox)[1..]
      ensures old(Monitor(threadAlive, poll)).Pass? && old(inbox) == [] ==> r == Pass && inbox == []
      ensures process == old(process)
      ensures getRangesHook == old(getRangesHook) && handleOutHook == old(handleOutHook)
    {
      r := Monitor(threadAlive, poll);
      if r.Fail? {
        return;
      }
      r := HandleMessages();
    }
  }
}
