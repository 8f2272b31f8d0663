/** The native-messaging host process: a loop that reads framed requests from
    stdin and writes one framed response to stdout for each of them. */
module NativeHost {
  import opened Wrappers
  import opened JsonValues
  import opened Framing
  import opened Osascript
  import opened Commands

  /** The collaborators the host calls but that are not modelled: UTF-8 plus
      `json.loads` (`decode`), `json.dumps` plus UTF-8 (`encode`), and the
      osascript process, whose `n`-th run of a script does `tool(n, script)`. */
  datatype Env = Env(
    decode: seq<Byte> -> Decoded,
    encode: Json -> seq<Byte>,
    tool: (nat, Script) -> ScriptRun)

  /** What `read_message` returns or raises. */
  datatype Received =
    | EndOfInput
    | ReadFailed(error: ReadError)
    | Message(value: Json)

  /** An outcome together with the number of stdin bytes it consumed. */
  datatype Reception = Reception(received: Received, consumed: nat)

  /** `read_message` on the remaining stdin content `input`. */
  function Receive(input: seq<Byte>, decode: seq<Byte> -> Decoded): (r: Reception)
    ensures r.consumed == ReadFrame(input).consumed
    ensures r.received.EndOfInput? <==> input == []
    ensures r.received.Message? <==>
              ReadFrame(input).frame.Complete? && decode(ReadFrame(input).frame.payload).Parsed?
    ensures r.received.Message? ==> decode(ReadFrame(input).frame.payload) == Parsed(r.received.value)
  {
    var fr := ReadFrame(input);
    if fr.frame.EndOfStream? then Reception(EndOfInput, fr.consumed)
    else
      match RequestOf(fr.frame, decode)
      case Refused(error) => Reception(ReadFailed(error), fr.consumed)
      case Dispatched(message) => Reception(Message(message), fr.consumed)
  }

  /** Round trip through the whole reader: a message encoded by a codec that
      decodes its own output, framed, reads back as that message. */
  lemma ReceiveEncoded(env: Env, message: Json, rest: seq<Byte>)
    requires |env.encode(message)| <= MaxMessageLength
    requires env.decode(env.encode(message)) == Parsed(message)
    ensures Receive(EncodeFrame(env.encode(message)) + rest, env.decode)
            == Reception(Message(message), 4 + |env.encode(message)|)
  {
    ReadEncodedFrame(env.encode(message), rest);
  }

  /** The bytes `write_message` leaves on stdout for a payload: its frame, or
      nothing when `struct.pack` rejects the length inside the guarded block. */
  function Emit(payload: seq<Byte>): (e: seq<Byte>)
    ensures e != [] <==> |payload| < Uint32Bound
    ensures e != [] ==> |e| == 4 + |payload| && UnpackLE32(e[..4]) == |payload| && e[4..] == payload
  {
    if |payload| < Uint32Bound then EncodeFrame(payload) else []
  }

  /** What `write_message` emits reads back as the payload when it fits in
      1 MiB, and is nothing at all when the length does not fit in 32 bits. */
  lemma EmitReadsBack(payload: seq<Byte>)
    ensures |payload| <= MaxMessageLength ==>
              ReadFrame(Emit(payload)) == FrameRead(Complete(payload), |Emit(payload)|)
    ensures |payload| >= Uint32Bound <==> Emit(payload) == []
  {
    if |payload| <= MaxMessageLength {
      ReadEncodedFrame(payload, []);
      assert EncodeFrame(payload) + [] == EncodeFrame(payload);
    }
  }

  /** Everything written for a sequence of responses, in order. */
  function Emitted(responses: seq<Response>, encode: Json -> seq<Byte>): (out: seq<Byte>)
    ensures responses == [] ==> out == []
  {
    if responses == [] then []
    else Emit(encode(responses[0].ToJson())) + Emitted(responses[1..], encode)
  }

  /** The osascript oracle as seen by a command handled after `calls` runs. */
  function ToolAt(env: Env, calls: nat): Script -> ScriptRun {
    s => env.tool(calls, s)
  }

  /** What one pass of the `main` loop reads: a message to hand to
      `process_command`, or a read error to answer with its text. */
  datatype Request =
    | Refused(error: ReadError)
    | Dispatched(message: Json)

  /** One pass of the `main` loop: stop at end-of-input, or go on with one
      request after consuming some input. */
  datatype Pass =
    | Stop
    | Continue(request: Request, consumed: nat)

  /** The pass the host makes over stdin content `input`. */
  function PassOf(decode: seq<Byte> -> Decoded, input: seq<Byte>): (p: Pass)
    ensures p.Stop? <==> input == []
    ensures p.Continue? ==> 1 <= p.consumed <= |input| && p.consumed == ReadFrame(input).consumed
  {
    var r := Receive(input, decode);
    match r.received
    case EndOfInput => Stop
    case ReadFailed(error) => Continue(Refused(error), r.consumed)
    case Message(message) => Continue(Dispatched(message), r.consumed)
  }

  /** A pass function that consumes input whenever it does not stop. */
  ghost predicate Progresses(step: seq<Byte> -> Pass) {
    forall input: seq<Byte> :: step(input).Continue? ==> 1 <= step(input).consumed <= |input|
  }

  /** The passes of the host as a function value. */
  function StepOf(decode: seq<Byte> -> Decoded): (step: seq<Byte> -> Pass)
    ensures Progresses(step)
  {
    input => PassOf(decode, input)
  }

  lemma StepOfIs(decode: seq<Byte> -> Decoded, input: seq<Byte>)
    ensures StepOf(decode)(input) == PassOf(decode, input)
  {
  }

  /** Passes repeated until one stops; each pass that goes on shortens the input. */
  function Loop(step: seq<Byte> -> Pass, input: seq<Byte>): (requests: seq<Request>)
    requires Progresses(step)
    ensures |requests| <= |input|
    decreases |input|
  {
    match step(input)
    case Stop => []
    case Continue(request, consumed) => [request] + Loop(step, input[consumed..])
  }

  /** Unfolding one pass of `Loop`. */
  lemma LoopStep(step: seq<Byte> -> Pass, input: seq<Byte>)
    requires Progresses(step) && step(input).Continue?
    ensures Loop(step, input) == [step(input).request] + Loop(step, input[step(input).consumed..])
  {
  }

  /** The requests `main` reads from stdin content `input`, in order. */
  function Requests(input: seq<Byte>, decode: seq<Byte> -> Decoded): (rs: seq<Request>)
    ensures |rs| <= |input|
    ensures rs == [] <==> input == []
  {
    Loop(StepOf(decode), input)
  }

  /** One pass on non-empty input: its request comes first, and reading goes
      on with the bytes the pass left. */
  lemma RequestsStep(input: seq<Byte>, decode: seq<Byte> -> Decoded)
    requires input != []
    ensures var p := PassOf(decode, input);
            Requests(input, decode) == [p.request] + Requests(input[p.consumed..], decode)
  {
    StepOfIs(decode, input);
    LoopStep(StepOf(decode), input);
  }

  /** At end-of-input the loop stops at once. */
  lemma EndOfInputStops(decode: seq<Byte> -> Decoded)
    ensures Requests([], decode) == []
  {
    StepOfIs(decode, []);
  }

  /** The request a frame becomes, and so what `read_message` returns or
      raises for it: a frame the framing layer rejects is refused with its
      error, a complete frame is dispatched when it decodes and refused with
      the decoding error otherwise. */
  function RequestOf(frame: Frame, decode: seq<Byte> -> Decoded): (r: Request)
    requires !frame.EndOfStream?
    ensures r.Dispatched? <==> frame.Complete? && decode(frame.payload).Parsed?
    ensures r.Dispatched? ==> decode(frame.payload) == Parsed(r.message)
    ensures frame.Broken? ==> r == Refused(frame.error)
    ensures frame.Complete? && decode(frame.payload).BadUtf8? ==>
              r == Refused(InvalidUtf8(decode(frame.payload).detail))
    ensures frame.Complete? && decode(frame.payload).BadJson? ==>
              r == Refused(InvalidJson(decode(frame.payload).detail))
  {
    match frame
    case Broken(error) => Refused(error)
    case Complete(payload) =>
      match decode(payload)
      case Parsed(value) => Dispatched(value)
      case BadUtf8(detail) => Refused(InvalidUtf8(detail))
      case BadJson(detail) => Refused(InvalidJson(detail))
  }

  /** A pass over non-empty input reads one frame and makes its request. */
  lemma PassReadsFrame(decode: seq<Byte> -> Decoded, input: seq<Byte>)
    requires input != []
    ensures PassOf(decode, input) == Continue(RequestOf(ReadFrame(input).frame, decode), ReadFrame(input).consumed)
  {
  }

  /** One request per frame, in order, each the request its frame becomes. */
  lemma {:induction false} RequestsFollowFrames(input: seq<Byte>, decode: seq<Byte> -> Decoded)
    ensures var rs := Requests(input, decode);
            var frames := ReadFrames(input);
            |rs| == |frames| && forall i :: 0 <= i < |frames| ==> rs[i] == RequestOf(frames[i], decode)
    decreases |input|
  {
    if input == [] {
      EndOfInputStops(decode);
    } else {
      var fr := ReadFrame(input);
      var tail := input[fr.consumed..];
      var first := RequestOf(fr.frame, decode);
      PassReadsFrame(decode, input);
      RequestsStep(input, decode);
      RequestsFollowFrames(tail, decode);
      var rs, frames := Requests(input, decode), ReadFrames(input);
      assert rs == [first] + Requests(tail, decode);
      assert frames == [fr.frame] + ReadFrames(tail);
      forall i | 0 <= i < |frames|
        ensures rs[i] == RequestOf(frames[i], decode)
      {
        if i > 0 {
          assert rs[i] == Requests(tail, decode)[i - 1];
          assert frames[i] == ReadFrames(tail)[i - 1];
        }
      }
    }
  }

  /** A read error is answered and the loop carries on with the bytes the
      failed read left: after an oversized prefix, its would-be payload is
      read as the next frame. */
  lemma ReadErrorsDoNotStop(input: seq<Byte>, decode: seq<Byte> -> Decoded)
    requires |input| >= 4 && UnpackLE32(input[..4]) > MaxMessageLength
    ensures Requests(input, decode)
            == [Refused(MessageTooLarge(UnpackLE32(input[..4])))] + Requests(input[4..], decode)
  {
    ReadOversize(input);
    RequestsStep(input, decode);
  }

  /** One well-formed request is dispatched, after which reading goes on with
      the bytes that follow it. */
  lemma RequestsEncoded(env: Env, message: Json, rest: seq<Byte>)
    requires |env.encode(message)| <= MaxMessageLength
    requires env.decode(env.encode(message)) == Parsed(message)
    ensures Requests(EncodeFrame(env.encode(message)) + rest, env.decode)
            == [Dispatched(message)] + Requests(rest, env.decode)
  {
    var input := EncodeFrame(env.encode(message)) + rest;
    ReceiveEncoded(env, message, rest);
    RequestsStep(input, env.decode);
    assert input[4 + |env.encode(message)|..] == rest;
  }

  /** The response `main` writes for a request when `calls` scripts have run
      before: the read error's text, or `process_command`'s response. */
  function Respond(env: Env, request: Request, calls: nat): (r: Response)
    ensures r.ErrorResponse? ==> r.error != ""
    ensures r.SuccessResponse? ==>
              request.Dispatched? && Classify(request.message) in {RunScript(SetMuted), RunScript(SetUnmuted)}
    ensures r.StatusResponse? ==>
              request.Dispatched? && Classify(request.message) == RunScript(ReadMuted)
  {
    match request
    case Refused(error) => ErrorResponse(error.Message())
    case Dispatched(message) => Commands.ProcessCommand(message, ToolAt(env, calls))
  }

  /** `Respond` as a function value. */
  function RespondOf(env: Env): (Request, nat) -> Response {
    (request: Request, calls: nat) => Respond(env, request, calls)
  }

  /** The scripts run while answering a request. */
  function Ran(request: Request): (ss: seq<Script>)
    ensures |ss| <= 1
    ensures ss != [] ==> request.Dispatched? && Classify(request.message) == RunScript(ss[0])
  {
    match request
    case Refused(_) => []
    case Dispatched(message) => ScriptsRun(message)
  }

  /** `Ran` as a function value. */
  function RanOf(): Request -> seq<Script> {
    request => Ran(request)
  }

  /** What a whole session does: the responses written and the scripts run. */
  datatype Session = Session(responses: seq<Response>, scripts: seq<Script>)

  /** Answering `requests` in order, after the scripts `before` have run,
      with `respond` choosing each response from the request and the number of
      earlier runs, and `ran` saying which scripts each request runs. */
  function Answer(respond: (Request, nat) -> Response, ran: Request -> seq<Script>,
                  requests: seq<Request>, before: seq<Script>): (s: Session)
    ensures |s.responses| == |requests|
  {
    if requests == [] then Session([], [])
    else
      var rest := Answer(respond, ran, requests[1..], before + ran(requests[0]));
      Session([respond(requests[0], |before|)] + rest.responses, ran(requests[0]) + rest.scripts)
  }

  lemma AnswerCons(respond: (Request, nat) -> Response, ran: Request -> seq<Script>,
                   request: Request, requests: seq<Request>, before: seq<Script>)
    ensures var rest := Answer(respond, ran, requests, before + ran(request));
            Answer(respond, ran, [request] + requests, before)
            == Session([respond(request, |before|)] + rest.responses, ran(request) + rest.scripts)
  {
    assert ([request] + requests)[1..] == requests;
  }

  /** When refusals are answered with their error text whatever ran before,
      every refused request is answered so, at its own position. */
  lemma {:induction false} RefusalsAnswered(respond: (Request, nat) -> Response, ran: Request -> seq<Script>,
                                            requests: seq<Request>, before: seq<Script>)
    requires forall r: Request, c: nat :: r.Refused? ==> respond(r, c) == ErrorResponse(r.error.Message())
    ensures forall i :: 0 <= i < |requests| && requests[i].Refused? ==>
              Answer(respond, ran, requests, before).responses[i] == ErrorResponse(requests[i].error.Message())
  {
    if requests != [] {
      var after := before + ran(requests[0]);
      var rest := Answer(respond, ran, requests[1..], after);
      RefusalsAnswered(respond, ran, requests[1..], after);
      assert Answer(respond, ran, requests, before).responses == [respond(requests[0], |before|)] + rest.responses;
      forall i | 0 <= i < |requests| && requests[i].Refused?
        ensures Answer(respond, ran, requests, before).responses[i] == ErrorResponse(requests[i].error.Message())
      {
        if i > 0 {
          assert requests[i] == requests[1..][i - 1];
        }
      }
    }
  }

  /** The `main` loop on stdin content `input`, after the scripts `before`
      have run. */
  function Serve(input: seq<Byte>, before: seq<Script>, env: Env): (s: Session)
    ensures |s.responses| == |Requests(input, env.decode)| <= |input|
    ensures s.responses == [] <==> input == []
  {
    Answer(RespondOf(env), RanOf(), Requests(input, env.decode), before)
  }

  /** One response per frame read, whatever the frames hold and whatever the
      tool does; a frame the framing layer rejects is answered with the text of
      its error, at its own position in the session. */
  lemma ServeAnswersEveryFrame(input: seq<Byte>, before: seq<Script>, env: Env)
    ensures var s := Serve(input, before, env);
            var frames := ReadFrames(input);
            |s.responses| == |frames|
            && forall i :: 0 <= i < |frames| && frames[i].Broken? ==>
                 s.responses[i] == ErrorResponse(frames[i].error.Message())
  {
    RequestsFollowFrames(input, env.decode);
    RefusalsAnswered(RespondOf(env), RanOf(), Requests(input, env.decode), before);
  }

  /** When the first request read from `input` is `request` and reading goes on
      with `rest`, the session answers `request` first and then serves `rest`. */
  lemma ServeFirst(input: seq<Byte>, rest: seq<Byte>, request: Request, before: seq<Script>, env: Env)
    requires Requests(input, env.decode) == [request] + Requests(rest, env.decode)
    ensures var later := Serve(rest, before + Ran(request), env);
            Serve(input, before, env)
            == Session([Respond(env, request, |before|)] + later.responses, Ran(request) + later.scripts)
  {
    AnswerCons(RespondOf(env), RanOf(), request, Requests(rest, env.decode), before);
    TurnOf(env, request, |before|);
  }

  /** One well-formed request is answered by `process_command`'s response,
      after which the session goes on with the bytes that follow it. */
  lemma ServeEncoded(env: Env, message: Json, rest: seq<Byte>, before: seq<Script>)
    requires |env.encode(message)| <= MaxMessageLength
    requires env.decode(env.encode(message)) == Parsed(message)
    ensures var later := Serve(rest, before + ScriptsRun(message), env);
            Serve(EncodeFrame(env.encode(message)) + rest, before, env)
            == Session([Commands.ProcessCommand(message, ToolAt(env, |before|))] + later.responses,
                       ScriptsRun(message) + later.scripts)
  {
    RequestsEncoded(env, message, rest);
    ServeFirst(EncodeFrame(env.encode(message)) + rest, rest, Dispatched(message), before, env);
  }

  /** The function values agree with the functions they wrap. */
  lemma TurnOf(env: Env, request: Request, calls: nat)
    ensures RespondOf(env)(request, calls) == Respond(env, request, calls)
    ensures RanOf()(request) == Ran(request)
  {
  }

  /** What answering one more request adds to the bytes written and the
      scripts run: the totals promised for the rest of the session are
      unchanged. */
  lemma AnswerKeepsTotals(respond: (Request, nat) -> Response, ran: Request -> seq<Script>,
                          encode: Json -> seq<Byte>, request: Request, later: seq<Request>,
                          written: seq<Byte>, scripts: seq<Script>)
    ensures var whole := Answer(respond, ran, [request] + later, scripts);
            var rest := Answer(respond, ran, later, scripts + ran(request));
            written + Emitted(whole.responses, encode)
              == (written + Emit(encode(respond(request, |scripts|).ToJson()))) + Emitted(rest.responses, encode)
            && scripts + whole.scripts == (scripts + ran(request)) + rest.scripts
  {
    var whole := Answer(respond, ran, [request] + later, scripts);
    var rest := Answer(respond, ran, later, scripts + ran(request));
    var response := respond(request, |scripts|);
    var e := Emit(encode(response.ToJson()));
    AnswerCons(respond, ran, request, later, scripts);
    assert whole.responses == [response] + rest.responses;
    EmittedCons(response, rest.responses, encode);
    assert Emitted(whole.responses, encode) == e + Emitted(rest.responses, encode);
    ConcatAssoc(written, e, Emitted(rest.responses, encode));
    assert whole.scripts == ran(request) + rest.scripts;
    ConcatAssoc(scripts, ran(request), rest.scripts);
  }

  lemma ConcatAssoc<T>(a: seq<T>, b: seq<T>, c: seq<T>)
    ensures (a + b) + c == a + (b + c)
  {
  }

  /** Nothing reaches stdout exactly when every response's payload is too long to frame. */
  lemma {:induction false} EmittedNothing(responses: seq<Response>, encode: Json -> seq<Byte>)
    ensures Emitted(responses, encode) == []
            <==> forall i :: 0 <= i < |responses| ==> |encode(responses[i].ToJson())| >= Uint32Bound
  {
    if responses != [] {
      EmittedNothing(responses[1..], encode);
      assert forall i :: 1 <= i < |responses| ==> responses[i] == responses[1..][i - 1];
    }
  }

  lemma EmittedCons(response: Response, responses: seq<Response>, encode: Json -> seq<Byte>)
    ensures Emitted([response] + responses, encode)
            == Emit(encode(response.ToJson())) + Emitted(responses, encode)
  {
    assert ([response] + responses)[1..] == responses;
  }

  /** The responses are written as a stream the extension can read back: one
      frame per response, in order, when every encoded response fits in 1 MiB. */
  lemma {:induction false} EmittedReadsBack(responses: seq<Response>, encode: Json -> seq<Byte>)
    requires forall i :: 0 <= i < |responses| ==> |encode(responses[i].ToJson())| <= MaxMessageLength
    ensures ReadFrames(Emitted(responses, encode))
            == seq(|responses|, i requires 0 <= i < |responses| => Complete(encode(responses[i].ToJson())))
  {
    var payloads := seq(|responses|, i requires 0 <= i < |responses| => encode(responses[i].ToJson()));
    EmittedIsFrames(responses, encode);
    ReadEncodedFrames(payloads);
  }

  lemma {:induction false} EmittedIsFrames(responses: seq<Response>, encode: Json -> seq<Byte>)
    requires forall i :: 0 <= i < |responses| ==> |encode(responses[i].ToJson())| <= MaxMessageLength
    ensures var payloads := seq(|responses|, i requires 0 <= i < |responses| => encode(responses[i].ToJson()));
            Emitted(responses, encode) == EncodeFrames(payloads)
  {
    if responses != [] {
      EmittedIsFrames(responses[1..], encode);
      var payloads := seq(|responses|, i requires 0 <= i < |responses| => encode(responses[i].ToJson()));
      var tail := seq(|responses| - 1, i requires 0 <= i < |responses| - 1 => encode(responses[1..][i].ToJson()));
      forall k | 0 <= k < |tail|
        ensures payloads[1..][k] == tail[k]
      {
        assert responses[1..][k] == responses[k + 1];
      }
      assert payloads[1..] == tail;
      var first := encode(responses[0].ToJson());
      assert Emit(first) == EncodeFrame(first);
      assert EncodeFrames(payloads) == EncodeFrame(first) + EncodeFrames(tail);
    }
  }

  /** The host process: unread stdin, stdout so far, and the scripts it has
      had osascript run. */
  class Host {
    const env: Env
    var input: seq<Byte>
    var output: seq<Byte>
    var scripts: seq<Script>

    constructor (env: Env, stdin: seq<Byte>)
      ensures this.env == env && input == stdin && output == [] && scripts == []
    {
      this.env := env;
      input := stdin;
      output := [];
      scripts := [];
    }

    /** `sys.stdin.buffer.read(n)`: up to `n` bytes, fewer only at end-of-file. */
    method ReadBytes(n: nat) returns (chunk: seq<Byte>)
      modifies this`input
      ensures |chunk| == if n <= |old(input)| then n else |old(input)|
      ensures old(input) == chunk + input
    {
      var k := if n <= |input| then n else |input|;
      chunk := input[..k];
      input := input[k..];
    }

    /** `read_message`: the prefix, then the payload, then decoding. */
    method ReadMessage() returns (r: Received)
      modifies this`input
      ensures r == Receive(old(input), env.decode).received
      ensures input == old(input)[Receive(old(input), env.decode).consumed..]
    {
      var lengthBytes := ReadBytes(4);
      if |lengthBytes| == 0 {
        return EndOfInput;
      }
      if |lengthBytes| != 4 {
        return ReadFailed(InvalidLengthPrefix(|lengthBytes|));
      }
      var length := UnpackLE32(lengthBytes);
      if length > MaxMessageLength {
        return ReadFailed(MessageTooLarge(length));
      }
      var messageBytes := ReadBytes(length);
      if |messageBytes| != length {
        return ReadFailed(IncompleteMessage(length, |messageBytes|));
      }
      assert messageBytes == old(input)[4..4 + length];
      assert input == old(input)[4 + length..];
      match env.decode(messageBytes)
      case Parsed(value) => r := Message(value);
      case BadUtf8(detail) => r := ReadFailed(InvalidUtf8(detail));
      case BadJson(detail) => r := ReadFailed(InvalidJson(detail));
    }

    /** `write_message`: prefix and payload appended to stdout. */
    method WriteMessage(message: Json)
      modifies this`output
      ensures output == old(output) + Emit(env.encode(message))
    {
      var messageBytes := env.encode(message);
      if |messageBytes| >= Uint32Bound {
        return;
      }
      var lengthBytes := PackLE32(|messageBytes|);
      output := output + lengthBytes;
      output := output + messageBytes;
    }

    /** `send_success_response`, `send_error_response`, `send_status_response`. */
    method SendResponse(response: Response)
      modifies this`output
      ensures output == old(output) + Emit(env.encode(response.ToJson()))
    {
      WriteMessage(response.ToJson());
    }

    /** `execute_osascript`: one more run of the tool. */
    method ExecuteOsascript(script: Script) returns (reply: ToolReply)
      modifies this`scripts
      ensures scripts == old(scripts) + [script]
      ensures reply == Osascript.ExecuteOsascript(env.tool(|old(scripts)|, script))
    {
      var run := env.tool(|scripts|, script);
      scripts := scripts + [script];
      reply := Osascript.ExecuteOsascript(run);
    }

    /** `mute_system_audio` and `unmute_system_audio`. */
    method SetMute(script: Script) returns (success: bool, error: Option<string>)
      requires script != ReadMuted
      modifies this`scripts
      ensures scripts == old(scripts) + [script]
      ensures (success, error) == SetMuteOutcome(env.tool(|old(scripts)|, script))
    {
      var reply := ExecuteOsascript(script);
      success, error := reply.success, reply.error;
    }

    /** `get_mute_status`. */
    method GetMuteStatus() returns (status: StatusReply)
      modifies this`scripts
      ensures scripts == old(scripts) + [ReadMuted]
      ensures status == Osascript.GetMuteStatus(env.tool(|old(scripts)|, ReadMuted))
    {
      var reply := ExecuteOsascript(ReadMuted);
      if !reply.success {
        return StatusReply(false, None, reply.error);
      }
      var isMuted := SaysTrue(reply.output.value);
      status := StatusReply(true, Some(isMuted), None);
    }

    /** `process_command`: exactly one response, and at most one script run. */
    method ProcessCommand(message: Json)
      modifies this`output, this`scripts
      ensures scripts == old(scripts) + ScriptsRun(message)
      ensures output == old(output)
                        + Emit(env.encode(Commands.ProcessCommand(message, ToolAt(env, |old(scripts)|)).ToJson()))
    {
      if !message.JObject? {
        SendResponse(ErrorResponse("Invalid message format"));
        return;
      }
      var command := Get(message.fields, "command");
      if !HasTruthy(command) {
        SendResponse(ErrorResponse("No command specified"));
        return;
      }
      if command.value == JString(CommandName(SetMuted)) {
        var success, error := SetMute(SetMuted);
        if success {
          SendResponse(SuccessResponse);
        } else {
          SendResponse(ErrorResponse(ErrorOr(error, "Failed to mute")));
        }
      } else if command.value == JString(CommandName(SetUnmuted)) {
        var success, error := SetMute(SetUnmuted);
        if success {
          SendResponse(SuccessResponse);
        } else {
          SendResponse(ErrorResponse(ErrorOr(error, "Failed to unmute")));
        }
      } else if command.value == JString(CommandName(ReadMuted)) {
        var status := GetMuteStatus();
        if status.success {
          SendResponse(StatusResponse(status.muted.value));
        } else {
          SendResponse(ErrorResponse(ErrorOr(status.error, "Failed to get status")));
        }
      } else {
        SendResponse(ErrorResponse("Unknown command: " + PyStr(command.value)));
      }
    }

    /** One pass of `main`'s loop: read a message and answer it, or answer
        the read error, or report end-of-input. */
    method HandleNext() returns (stop: bool)
      modifies this`input, this`output, this`scripts
      ensures var p := PassOf(env.decode, old(input));
              (stop <==> p.Stop?)
              && (p.Stop? ==> input == old(input) && output == old(output) && scripts == old(scripts))
              && (p.Continue? ==>
                    input == old(input)[p.consumed..]
                    && output == old(output) + Emit(env.encode(RespondOf(env)(p.request, |old(scripts)|).ToJson()))
                    && scripts == old(scripts) + RanOf()(p.request))
    {
      ghost var p := PassOf(env.decode, input);
      if p.Continue? {
        TurnOf(env, p.request, |scripts|);
      }
      var received := ReadMessage();
      match received
      case EndOfInput =>
        stop := true;
      case ReadFailed(error) =>
        SendResponse(ErrorResponse(error.Message()));
        stop := false;
      case Message(message) =>
        ProcessCommand(message);
        stop := false;
    }

    /** `main`: read and answer until end-of-input. Every read error is
        answered and the loop continues; every pass that does not stop has
        consumed at least one byte. */
    method Run()
      modifies this`input, this`output, this`scripts
      ensures input == []
      ensures output == old(output) + Emitted(Serve(old(input), old(scripts), env).responses, env.encode)
      ensures scripts == old(scripts) + Serve(old(input), old(scripts), env).scripts
    {
      ghost var respond, ranOf := RespondOf(env), RanOf();
      ghost var whole := Answer(respond, ranOf, Requests(input, env.decode), scripts);
      while true
        invariant old(output) + Emitted(whole.responses, env.encode)
                  == output + Emitted(Answer(respond, ranOf, Requests(input, env.decode), scripts).responses, env.encode)
        invariant old(scripts) + whole.scripts
                  == scripts + Answer(respond, ranOf, Requests(input, env.decode), scripts).scripts
        decreases |input|
      {
        ghost var before, written, ran := input, output, scripts;
        var stop := HandleNext();
        if stop {
          EndOfInputStops(env.decode);
          break;
        }
        ghost var p := PassOf(env.decode, before);
        RequestsStep(before, env.decode);
        AnswerKeepsTotals(respond, ranOf, env.encode, p.request, Requests(input, env.decode), written, ran);
      }
    }
  }
}
