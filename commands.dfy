/** `process_command`: every decoded message is answered by exactly one response,
    chosen from the message and from what the one script it needs reported. */
module Commands {
  import opened Wrappers
  import opened JsonValues
  import opened Osascript
  import PyText

  /** The host's three replies, one per `send_*_response` helper. */
  datatype Response =
    | SuccessResponse
    | ErrorResponse(error: string)
    | StatusResponse(muted: bool)
  {
    /** The dictionary handed to `write_message`. */
    function ToJson(): (j: Json)
      ensures j.JObject? && j.fields != []
    {
      match this
      case SuccessResponse => JObject([("success", JBool(true))])
      case ErrorResponse(error) => JObject([("success", JBool(false)), ("error", JString(error))])
      case StatusResponse(muted) => JObject([("muted", JBool(muted))])
    }
  }

  /** What a reader of the dictionary finds under each key the extension looks at:
      `success` on the two plain replies, `error` only on failures, `muted` only on status. */
  lemma ResponseFields(r: Response)
    ensures Get(r.ToJson().fields, "success") == if r.StatusResponse? then None else Some(JBool(r.SuccessResponse?))
    ensures Get(r.ToJson().fields, "error") == if r.ErrorResponse? then Some(JString(r.error)) else None
    ensures Get(r.ToJson().fields, "muted") == if r.StatusResponse? then Some(JBool(r.muted)) else None
    ensures |r.ToJson().fields| == if r.ErrorResponse? then 2 else 1
    ensures r.ToJson().fields[0].0 == if r.StatusResponse? then "muted" else "success"
  {
  }

  /** Distinct replies serialise to distinct dictionaries. */
  lemma ToJsonInjective(r: Response, s: Response)
    ensures r.ToJson() == s.ToJson() <==> r == s
  {
    if r.ToJson() == s.ToJson() {
      ResponseFields(r);
      ResponseFields(s);
    }
  }

  /** The command word that selects each script. */
  function CommandName(script: Script): string {
    match script
    case SetMuted => "mute"
    case SetUnmuted => "unmute"
    case ReadMuted => "getStatus"
  }

  /** Each command word selects one script, and no two scripts share a word. */
  lemma CommandNamesDistinct(a: Script, b: Script)
    ensures CommandName(a) == CommandName(b) <==> a == b
  {
  }

  /** How a message is routed before anything runs. */
  datatype Route =
    | NotAnObject
    | NoCommand
    | UnknownCommand(command: Json)
    | RunScript(script: Script)

  function Classify(message: Json): (d: Route)
    ensures d.NotAnObject? <==> !message.JObject?
    ensures d.NoCommand? <==> message.JObject? && !HasTruthy(Get(message.fields, "command"))
    ensures d.RunScript? ==> Get(message.fields, "command") == Some(JString(CommandName(d.script)))
    ensures d.UnknownCommand? ==>
              Get(message.fields, "command") == Some(d.command) && Truthy(d.command)
              && forall s: Script :: d.command != JString(CommandName(s))
  {
    if !message.JObject? then NotAnObject
    else
      var command := Get(message.fields, "command");
      if !HasTruthy(command) then NoCommand
      else if command.value == JString(CommandName(SetMuted)) then RunScript(SetMuted)
      else if command.value == JString(CommandName(SetUnmuted)) then RunScript(SetUnmuted)
      else if command.value == JString(CommandName(ReadMuted)) then RunScript(ReadMuted)
      else UnknownCommand(command.value)
  }

  /** The scripts a message makes the host run: none, or exactly one. */
  function ScriptsRun(message: Json): (ss: seq<Script>)
    ensures |ss| <= 1
    ensures |ss| == 1 <==> Classify(message).RunScript?
    ensures Classify(message).RunScript? ==> ss == [Classify(message).script]
  {
    match Classify(message)
    case RunScript(script) => [script]
    case _ => []
  }

  /** Python's `error or fallback` for an optional error text. */
  function ErrorOr(error: Option<string>, fallback: string): (text: string)
    requires fallback != ""
    ensures text != ""
    ensures error.Some? && error.value != "" ==> text == error.value
    ensures !(error.Some? && error.value != "") ==> text == fallback
  {
    if error.Some? && error.value != "" then error.value else fallback
  }

  /** The response to one run of a script: `mute`/`unmute` answer success or
      the error text (with a fixed fallback), `getStatus` the muted state or
      the error text (with a fixed fallback). */
  function ScriptResponse(script: Script, run: ScriptRun): (r: Response)
    ensures r.ErrorResponse? ==> r.error != ""
    ensures r.SuccessResponse? <==> script != ReadMuted && SetMuteOutcome(run).0
    ensures r.StatusResponse? <==> script == ReadMuted && GetMuteStatus(run).success
    ensures r.StatusResponse? ==> (r.muted <==> SaysTrue(PyText.Strip(run.stdout)))
  {
    match script
    case SetMuted =>
      var (success, error) := SetMuteOutcome(run);
      if success then SuccessResponse else ErrorResponse(ErrorOr(error, "Failed to mute"))
    case SetUnmuted =>
      var (success, error) := SetMuteOutcome(run);
      if success then SuccessResponse else ErrorResponse(ErrorOr(error, "Failed to unmute"))
    case ReadMuted =>
      var status := GetMuteStatus(run);
      if status.success then StatusResponse(status.muted.value)
      else ErrorResponse(ErrorOr(status.error, "Failed to get status"))
  }

  /** `process_command`, with the osascript process as the oracle `tool`:
      the response the host writes for `message`. */
  function ProcessCommand(message: Json, tool: Script -> ScriptRun): (r: Response)
    ensures r.ErrorResponse? ==> r.error != ""
    ensures r.SuccessResponse? <==>
              Classify(message) in {RunScript(SetMuted), RunScript(SetUnmuted)}
              && SetMuteOutcome(tool(Classify(message).script)).0
    ensures r.StatusResponse? <==>
              Classify(message) == RunScript(ReadMuted) && GetMuteStatus(tool(Classify(message).script)).success
    ensures r.StatusResponse? ==>
              (r.muted <==> SaysTrue(PyText.Strip(tool(Classify(message).script).stdout)))
    ensures Classify(message).UnknownCommand? ==>
              r == ErrorResponse("Unknown command: " + PyStr(Classify(message).command))
  {
    match Classify(message)
    case NotAnObject => ErrorResponse("Invalid message format")
    case NoCommand => ErrorResponse("No command specified")
    case UnknownCommand(command) => ErrorResponse("Unknown command: " + PyStr(command))
    case RunScript(script) => ScriptResponse(script, tool(script))
  }

  /** The dispatch table: the response for each kind of message. */
  lemma DispatchTable(message: Json, tool: Script -> ScriptRun)
    ensures !message.JObject? ==>
              ProcessCommand(message, tool) == ErrorResponse("Invalid message format")
    ensures message.JObject? && !HasTruthy(Get(message.fields, "command")) ==>
              ProcessCommand(message, tool) == ErrorResponse("No command specified")
    ensures message.JObject? && Get(message.fields, "command") == Some(JString("mute"))
            && tool(SetMuted) == Exited(0, "", "") ==>
              ProcessCommand(message, tool) == SuccessResponse
    ensures message.JObject? && Get(message.fields, "command") == Some(JString("unmute"))
            && tool(SetUnmuted) == TimedOut ==>
              ProcessCommand(message, tool) == ErrorResponse("Command timed out")
    ensures message.JObject? && Get(message.fields, "command") == Some(JString("getStatus"))
            && tool(ReadMuted) == NotFound ==>
              ProcessCommand(message, tool) == ErrorResponse("osascript not found")
  {
  }

  /** Any other truthy command is echoed back through `str()`. */
  lemma UnknownCommandEchoed(message: Json, command: Json, tool: Script -> ScriptRun)
    requires message.JObject? && Get(message.fields, "command") == Some(command) && Truthy(command)
    requires forall s: Script :: command != JString(CommandName(s))
    ensures ProcessCommand(message, tool) == ErrorResponse("Unknown command: " + PyStr(command))
  {
  }

  /** A command word outside the three is echoed verbatim; a number or a
      boolean is echoed as Python prints it. */
  lemma UnknownCommandTexts(message: Json, tool: Script -> ScriptRun)
    requires message.JObject?
    ensures Get(message.fields, "command") == Some(JString("volumeUp")) ==>
              ProcessCommand(message, tool) == ErrorResponse("Unknown command: volumeUp")
    ensures Get(message.fields, "command") == Some(JInt(5)) ==>
              ProcessCommand(message, tool) == ErrorResponse("Unknown command: 5")
    ensures Get(message.fields, "command") == Some(JBool(true)) ==>
              ProcessCommand(message, tool) == ErrorResponse("Unknown command: True")
  {
    var command := Get(message.fields, "command");
    if command == Some(JString("volumeUp")) {
      UnknownCommandEchoed(message, command.value, tool);
    } else if command == Some(JInt(5)) {
      assert PyText.IntToDecimal(5) == "5";
      UnknownCommandEchoed(message, command.value, tool);
    } else if command == Some(JBool(true)) {
      UnknownCommandEchoed(message, command.value, tool);
    }
  }

  /** The fixed fallback texts ("Failed to mute", ...) are sent when the failed
      run left no usable error text: its standard error was non-empty but all
      whitespace, or the exception raised had an empty message. Any other
      failure is reported with the tool's own (stripped) error text. */
  lemma FallbackTexts(message: Json, tool: Script -> ScriptRun)
    requires Classify(message).RunScript?
    ensures var script := Classify(message).script;
            var run := tool(script);
            var fallback := match script
                            case SetMuted => "Failed to mute"
                            case SetUnmuted => "Failed to unmute"
                            case ReadMuted => "Failed to get status";
            var blank := (run.Exited? && run.returnCode != 0 && run.stderr != ""
                          && PyText.Strip(run.stderr) == "") || run == Failed("");
            (blank ==> ProcessCommand(message, tool) == ErrorResponse(fallback))
            && (!blank && !ExecuteOsascript(run).success ==>
                  ProcessCommand(message, tool) == ErrorResponse(ExecuteOsascript(run).error.value))
  {
  }

  /** The oracle is consulted only for the script the message selects: two
      oracles that agree on the scripts a message runs give the same response. */
  lemma ResponseDependsOnlyOnScriptsRun(message: Json, tool1: Script -> ScriptRun, tool2: Script -> ScriptRun)
    requires forall i :: 0 <= i < |ScriptsRun(message)| ==> tool1(ScriptsRun(message)[i]) == tool2(ScriptsRun(message)[i])
    ensures ProcessCommand(message, tool1) == ProcessCommand(message, tool2)
  {
    if Classify(message).RunScript? {
      assert ScriptsRun(message)[0] == Classify(message).script;
    }
  }

  /** A `muted` field appears only in the reply to a status query that
      succeeded; a `success` field appears in every other reply. */
  lemma MutedFieldOnlyOnSuccess(message: Json, tool: Script -> ScriptRun)
    ensures var fields := ProcessCommand(message, tool).ToJson().fields;
            (Get(fields, "muted").Some? <==>
              Classify(message) == RunScript(ReadMuted) && GetMuteStatus(tool(ReadMuted)).success)
            && (Get(fields, "success").Some? <==> Get(fields, "muted").None?)
  {
  }
}
