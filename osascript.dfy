/** Running AppleScript through `osascript` and reading its result. The process
    itself is an oracle: a `ScriptRun` says what one run did. */
module Osascript {
  import opened Wrappers
  import PyText

  /** The three scripts the host runs. */
  datatype Script = SetMuted | SetUnmuted | ReadMuted {
    /** The AppleScript text passed to `osascript -e`. */
    function Source(): string {
      match this
      case SetMuted => "set volume with output muted"
      case SetUnmuted => "set volume without output muted"
      case ReadMuted => "output muted of (get volume settings)"
    }
  }

  /** The three script texts differ, so an oracle keyed by `Script` sees
      exactly what one keyed by the text passed to `osascript` would. */
  lemma SourcesDistinct(a: Script, b: Script)
    ensures a.Source() == b.Source() <==> a == b
  {
  }

  /** What one `subprocess.run(["osascript", "-e", script], timeout=5)` did:
      the process exited (text output captured), or one of the three
      exceptions the host catches was raised (`Failed` carries `str(e)`). */
  datatype ScriptRun =
    | Exited(returnCode: int, stdout: string, stderr: string)
    | TimedOut
    | NotFound
    | Failed(reason: string)

  /** `execute_osascript`'s `(success, output, error)` triple. */
  datatype ToolReply = ToolReply(success: bool, output: Option<string>, error: Option<string>)

  /** `execute_osascript`: how a run is reported to the rest of the host. */
  function ExecuteOsascript(run: ScriptRun): (r: ToolReply)
    ensures r.success <==> run.Exited? && run.returnCode == 0
    ensures r.success ==> r.error.None? && r.output == Some(PyText.Strip(run.stdout))
    ensures !r.success ==> r.output.None? && r.error.Some?
    ensures run.Exited? && run.returnCode != 0 && run.stderr == "" ==>
              r.error == Some("Unknown osascript error")
    ensures run.Exited? && run.returnCode != 0 && run.stderr != "" ==>
              r.error == Some(PyText.Strip(run.stderr))
    ensures run.TimedOut? ==> r.error == Some("Command timed out")
    ensures run.NotFound? ==> r.error == Some("osascript not found")
    ensures run.Failed? ==> r.error == Some(run.reason)
    ensures (!r.success && r.error.value == "") <==>
              (run.Exited? && run.returnCode != 0 && run.stderr != "" && PyText.Strip(run.stderr) == "")
              || run == Failed("")
  {
    match run
    case Exited(code, stdout, stderr) =>
      if code == 0 then ToolReply(true, Some(PyText.Strip(stdout)), None)
      else
        var error := if stderr != "" then PyText.Strip(stderr) else "Unknown osascript error";
        ToolReply(false, None, Some(error))
    case TimedOut => ToolReply(false, None, Some("Command timed out"))
    case NotFound => ToolReply(false, None, Some("osascript not found"))
    case Failed(reason) => ToolReply(false, None, Some(reason))
  }

  /** `mute_system_audio` / `unmute_system_audio`: the run's `(success, error)`. */
  function SetMuteOutcome(run: ScriptRun): (r: (bool, Option<string>))
    ensures r.0 <==> run.Exited? && run.returnCode == 0
    ensures r.0 <==> r.1.None?
  {
    var reply := ExecuteOsascript(run);
    (reply.success, reply.error)
  }

  /** Whether a reported mute state reads as true: `text.lower() == "true"`. */
  predicate SaysTrue(text: string) {
    PyText.AsciiLower(text) == "true"
  }

  /** `SaysTrue` accepts exactly the four-letter spellings of "true" in any case. */
  lemma SaysTrueSpellings(text: string)
    ensures SaysTrue(text) <==>
              |text| == 4 && text[0] in "tT" && text[1] in "rR" && text[2] in "uU" && text[3] in "eE"
  {
    if |text| == 4 {
      var low := PyText.AsciiLower(text);
      assert low[0] == PyText.LowerChar(text[0]) && low[1] == PyText.LowerChar(text[1]);
      assert low[2] == PyText.LowerChar(text[2]) && low[3] == PyText.LowerChar(text[3]);
    }
  }

  /** `get_mute_status`'s `(success, is_muted, error)` triple. */
  datatype StatusReply = StatusReply(success: bool, muted: Option<bool>, error: Option<string>)

  /** `get_mute_status`: the muted state is known exactly when the query
      succeeded, and is true exactly when the trimmed output says "true". */
  function GetMuteStatus(run: ScriptRun): (r: StatusReply)
    ensures r.success <==> run.Exited? && run.returnCode == 0
    ensures r.muted.Some? <==> r.success
    ensures r.error.Some? <==> !r.success
    ensures r.muted == Some(true) <==> r.success && SaysTrue(PyText.Strip(run.stdout))
  {
    var reply := ExecuteOsascript(run);
    if !reply.success then StatusReply(false, None, reply.error)
    else StatusReply(true, Some(SaysTrue(reply.output.value)), None)
  }

  /** Surrounding whitespace and letter case do not matter: the status query
      reports muted for output such as " TRUE\n". */
  lemma MutedDespiteSpacing(stdout: string, stderr: string)
    requires PyText.Strip(stdout) == "TRUE"
    ensures GetMuteStatus(Exited(0, stdout, stderr)).muted == Some(true)
  {
    SaysTrueSpellings("TRUE");
  }
}
