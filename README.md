# Twitch Ad Muter native messaging host, modelled in Dafny

The native messaging host is the small Python process Firefox starts for the
Twitch Ad Muter extension. It reads requests from stdin, runs AppleScript
through `osascript` to mute, unmute or query macOS system audio, and writes
one response to stdout for each request. Both directions use Firefox
native-messaging framing: a 4-byte little-endian unsigned length, then that
many bytes of UTF-8 JSON.

The model has seven modules:

- `Framing` (framing.dfy): `read_message`'s framing.
  - A 4-byte little-endian length prefix.
  - The 1 MiB limit.
  - Short reads at end-of-input.
  - The exact texts of the `MessageReadError`s.
  - `struct.pack`/`struct.unpack` of the prefix.
- `PyText` (pytext.dfy): the pieces of Python string behaviour the host relies
  on.
  - `str.strip` over Python's whitespace set.
  - `str.lower` as far as a comparison with `"true"` needs it.
  - Decimal rendering of integers in error texts.
- `JsonValues` (json.dfy): the decoded JSON values the host inspects.
  - `dict.get`, where the last binding wins.
  - Python truthiness.
  - `str()` of a value.
- `Osascript` (osascript.dfy): `execute_osascript`, `mute_system_audio`,
  `unmute_system_audio` and `get_mute_status`. What one `subprocess.run`
  did is an oracle value, `ScriptRun`.
- `Commands` (commands.dfy): `process_command` as a function from a message
  and an oracle to the one response written. The response's dictionary is
  built by the `send_*_response` helpers.
- `NativeHost` (host.dfy): two parts.
  - A value-level model of a whole session: `Requests`, `Answer` and `Serve`.
  - The imperative `Host` class, whose fields are the unread stdin, the
    bytes written to stdout and the scripts run so far. Its methods mirror
    `read_message`, `write_message`, the send helpers, `execute_osascript`,
    `process_command` and `main`'s loop. Each is proved against the
    value-level functions.
- `Wrappers` (wrappers.dfy): `Option`.

The JSON codec, UTF-8 and the osascript process are parameters of the host.
`Env.decode` is UTF-8 decoding followed by `json.loads`. `Env.encode` is
`json.dumps` followed by UTF-8 encoding. `Env.tool(n, script)` is what the
`n`-th run of `osascript` does.

## Model

| member | source | states |
|---|---|---|
| PyText.IsSpace | native-host/twitch_ad_muter_host.py:219 | Whitespace is the set `str.isspace()` accepts: the code points U+0009-U+000D, U+001C-U+0020, U+0085, U+00A0, U+1680, U+2000-U+200A, U+2028, U+2029, U+202F, U+205F and U+3000. This is what `strip()` removes. |
| PyText.Strip | native-host/twitch_ad_muter_host.py:219-221 | `strip()` leaves a result with no whitespace at either end. The result is an infix of the input whose left and right remainders are all whitespace. |
| PyText.StripUnique | native-host/twitch_ad_muter_host.py:219-221 | Any cut of a string into a blank prefix, a core with non-whitespace ends and a blank suffix yields exactly `Strip`'s result. |
| PyText.StripIdempotent | native-host/twitch_ad_muter_host.py:219-221 | Stripping a stripped text changes nothing. |
| PyText.AsciiLower | native-host/twitch_ad_muter_host.py:273 | `lower()` keeps the length and lower-cases exactly the ASCII capitals, by adding 32 to each code point. Every other character is unchanged. |
| PyText.NatToDecimal | native-host/twitch_ad_muter_host.py:102 | The rendering of a count in an error text is a non-empty string of digits. It has no leading zero unless the count is zero. |
| PyText.DecimalRoundTrip | native-host/twitch_ad_muter_host.py:112 | The decimal text of a length reads back as that length, so the number in an error text is the number the host saw. |
| PyText.IntToDecimal | native-host/twitch_ad_muter_host.py:326 | `str()` of an integer command starts with `-` exactly when the integer is negative. The rest is a non-empty numeral whose value is the integer's magnitude. The numeral has no leading zero unless the integer is zero. |
| PyText.Join | native-host/twitch_ad_muter_host.py:326 | `sep.join(parts)` of no parts is empty, and of one part is that part. |
| PyText.JoinCons | native-host/twitch_ad_muter_host.py:326 | `sep.join` of a first part followed by more parts is that part, `sep`, then the join of the rest. |
| JsonValues.Get | native-host/twitch_ad_muter_host.py:294 | `message.get("command")` is absent exactly when no field has that key. Otherwise it is the value of the last field with that key. |
| JsonValues.Truthy | native-host/twitch_ad_muter_host.py:296 | `not command` is Python truthiness. `None`, `False`, `0`, `""`, `[]` and `{}` are false, and everything else is true. |
| JsonValues.FalsyValues | native-host/twitch_ad_muter_host.py:296 | A value is falsy exactly when it is one of `None`, `False`, `0`, `""`, `[]` and `{}`. |
| JsonValues.HasTruthy | native-host/twitch_ad_muter_host.py:294-296 | A command is present exactly when `message.get("command")` found a binding and its value is truthy. |
| JsonValues.PyStr | native-host/twitch_ad_muter_host.py:326 | `str(command)` of a string is the string itself. `None`, booleans and integers print as `None`, `True`/`False` and their decimal numeral. Lists and dictionaries print in brackets and braces, and `ContainerText` gives their contents. |
| JsonValues.PyRepr | native-host/twitch_ad_muter_host.py:326 | `repr` of a nested value is never empty. A string is quoted in single quotes. Lists and dictionaries are printed in brackets and braces, and `ContainerText` gives their contents. |
| JsonValues.ContainerText | native-host/twitch_ad_muter_host.py:326 | `str()` and `repr` of a list are its items' `repr`s, joined by `", "`, in brackets. Of a dictionary, they are its `'key': repr(value)` entries, in binding order, joined by `", "`, in braces. |
| JsonValues.ReprItemsJoined | native-host/twitch_ad_muter_host.py:326 | The printed items of a list are exactly `", ".join` of the items' `repr`s. |
| JsonValues.ReprFieldsJoined | native-host/twitch_ad_muter_host.py:326 | The printed entries of a dictionary are exactly `", ".join` of its `'key': repr(value)` entries. |
| Framing.UnpackLE32 | native-host/twitch_ad_muter_host.py:107 | The length declared by a 4-byte little-endian prefix is below 2^32. |
| Framing.PackLE32 | native-host/twitch_ad_muter_host.py:157 | Packing a length below 2^32 gives 4 bytes that unpack to that length. |
| Framing.PackOfUnpack | native-host/twitch_ad_muter_host.py:107 | Every 4-byte prefix is the packing of the length it declares, so packing and unpacking are mutual inverses. |
| Framing.EncodeFrame | native-host/twitch_ad_muter_host.py:157-161 | `write_message` writes the payload's length as a 4-byte little-endian prefix and then the payload. The prefix declares exactly the payload's length. |
| Framing.ReadError.Message | native-host/twitch_ad_muter_host.py:101-137 | The text of every `MessageReadError` is non-empty. |
| Framing.ReadFrame | native-host/twitch_ad_muter_host.py:95-122 | Framing never consumes more than the input. It reports end-of-input exactly when the input is empty, and otherwise consumes at least one byte. A complete frame is at most 1 MiB and its consumed bytes are exactly prefix ++ payload. A broken frame fails only with a prefix, size or truncation error. |
| Framing.ReadEncodedFrame | native-host/twitch_ad_muter_host.py:95-122 | Round trip: a payload of at most 1 MiB, framed and followed by anything, reads back as that payload. The read consumes exactly 4 + length bytes. |
| Framing.ReadShortPrefix | native-host/twitch_ad_muter_host.py:101-104 | 1 to 3 bytes of input give "invalid length prefix" with the count of bytes read. All of them are consumed. |
| Framing.ReadOversize | native-host/twitch_ad_muter_host.py:110-114 | A declared length over 1 MiB gives "message too large" with that length. Only the 4 prefix bytes are consumed. |
| Framing.ReadTruncated | native-host/twitch_ad_muter_host.py:116-122 | A payload cut short by end-of-input gives "incomplete message" with the expected and received counts. The rest of the input is consumed. |
| Framing.ReadFrames | native-host/twitch_ad_muter_host.py:341-347 | Reading repeatedly until end-of-input yields at most one verdict per input byte. None of the verdicts is end-of-input. |
| Framing.ReadEncodedFrames | native-host/twitch_ad_muter_host.py:341-344 | Well-formed frames back to back read back as exactly their payloads, in order. |
| Osascript.ExecuteOsascript | native-host/twitch_ad_muter_host.py:210-233 | A run succeeds exactly when osascript exited with code 0. On success the output is `stdout.strip()` and there is no error. On failure there is no output but an error, with these texts: "Unknown osascript error" for a failing exit with empty stderr; the stripped stderr for a failing exit with stderr; "Command timed out" and "osascript not found" for those two exceptions; and `str(e)` for any other exception. The error text is empty exactly when stderr was non-empty whitespace or the exception's text was empty. |
| Osascript.SourcesDistinct | native-host/twitch_ad_muter_host.py:244-268 | The three AppleScript texts passed to `osascript` are pairwise different, so keying runs by script loses nothing. |
| Osascript.Script.Source | native-host/twitch_ad_muter_host.py:244-268 | The AppleScript texts: "set volume with output muted" for mute, "set volume without output muted" for unmute, and "output muted of (get volume settings)" for the status query. |
| Osascript.SetMuteOutcome | native-host/twitch_ad_muter_host.py:236-257 | Mute and unmute succeed exactly when osascript exited with 0. They carry an error exactly when they fail. |
| Osascript.SaysTrue | native-host/twitch_ad_muter_host.py:273 | The status query reads its stripped output as muted exactly when `output.lower() == "true"`. |
| Osascript.SaysTrueSpellings | native-host/twitch_ad_muter_host.py:273 | `output.lower() == "true"` holds exactly for the four-letter spellings of "true" in any mix of cases. |
| Osascript.GetMuteStatus | native-host/twitch_ad_muter_host.py:260-275 | The status query succeeds exactly when osascript exited with 0. A muted state is present exactly on success and an error exactly on failure. The state is true exactly when the stripped stdout says "true". |
| Osascript.MutedDespiteSpacing | native-host/twitch_ad_muter_host.py:268-273 | Output such as `" TRUE\n"` reports muted. |
| Commands.Response.ToJson | native-host/twitch_ad_muter_host.py:171-193 | Every response is a non-empty dictionary. |
| Commands.ResponseFields | native-host/twitch_ad_muter_host.py:171-193 | The dictionaries are exactly the ones the send helpers build. A success is `{"success": true}` and a status is `{"muted": m}`: one entry each. An error is `{"success": false, "error": text}`: two entries, with `success` first. The values under `success`, `error` and `muted` are stated for each response. |
| Commands.ToJsonInjective | native-host/twitch_ad_muter_host.py:171-193 | Two responses write the same dictionary exactly when they are the same response. |
| Commands.CommandName | native-host/twitch_ad_muter_host.py:303-317 | The command words are `mute`, `unmute` and `getStatus`, one per script. |
| Commands.CommandNamesDistinct | native-host/twitch_ad_muter_host.py:303-317 | No two scripts share a command word, so each word selects exactly one script. |
| Commands.Classify | native-host/twitch_ad_muter_host.py:289-326 | A message is routed as follows: "not an object" exactly when it is not a dictionary; "no command" exactly when its `command` is missing or falsy; a script only for the exact command word of that script. An unknown command is truthy and differs from all three words. |
| Commands.ScriptsRun | native-host/twitch_ad_muter_host.py:303-322 | A message runs at most one script, and exactly one when it is routed to a script. That one script is the script its command word selects. |
| Commands.ErrorOr | native-host/twitch_ad_muter_host.py:308 | `error or fallback` is never empty. It is the error whenever the error is a non-empty text, and the fallback otherwise. |
| Commands.ScriptResponse | native-host/twitch_ad_muter_host.py:303-322 | Mute and unmute answer success exactly when their script succeeded. The status query answers a status exactly when it succeeded, with muted exactly when stripped stdout says "true". Every error response has a non-empty text. |
| Commands.ProcessCommand | native-host/twitch_ad_muter_host.py:282-326 | One response per message. It is a success exactly for mute/unmute whose script succeeded, and a status exactly for a successful status query. The status's muted flag is the oracle's stripped stdout read as "true". Every error has a non-empty text. Any other truthy command, whatever its JSON type, is answered "Unknown command: " followed by `str()` of it. |
| Commands.DispatchTable | native-host/twitch_ad_muter_host.py:289-322 | The dispatch table. A non-dictionary gives "Invalid message format" and a missing or falsy command gives "No command specified". A successful mute gives success, a timed-out unmute gives "Command timed out", and a status query without osascript gives "osascript not found". |
| Commands.UnknownCommandEchoed | native-host/twitch_ad_muter_host.py:324-326 | Any truthy command other than the three command words, including a number, a boolean, a list or a dictionary, is answered "Unknown command: " followed by `str()` of the command. |
| Commands.UnknownCommandTexts | native-host/twitch_ad_muter_host.py:324-326 | Examples: the word `volumeUp` is echoed verbatim, the number 5 as `5`, and `true` as `True`. |
| Commands.FallbackTexts | native-host/twitch_ad_muter_host.py:303-322 | "Failed to mute", "Failed to unmute" and "Failed to get status" are sent exactly when the failed run left an empty error text. Any other failure is reported with `execute_osascript`'s error text. |
| Commands.ResponseDependsOnlyOnScriptsRun | native-host/twitch_ad_muter_host.py:303-322 | The oracle is consulted only for the script the message selects. Two oracles that agree on it give the same response. |
| Commands.MutedFieldOnlyOnSuccess | native-host/twitch_ad_muter_host.py:317-322 | The written dictionary has a `muted` field exactly for a successful status query, and a `success` field exactly when it has no `muted` field. |
| NativeHost.Receive | native-host/twitch_ad_muter_host.py:79-137 | `read_message` consumes what framing consumes. It signals end-of-input exactly on empty input. It returns a message exactly when the frame is complete and decodes, and the message is the decoded value. |
| NativeHost.ReceiveEncoded | native-host/twitch_ad_muter_host.py:124-129 | Round trip: a message encoded by a codec that decodes its own output, then framed, is read back as that message. |
| NativeHost.RequestOf | native-host/twitch_ad_muter_host.py:124-137 | A frame becomes a request. It is dispatched exactly when it is complete and decodes, and then it carries the decoded message. A framing error is refused with that error. An undecodable payload is refused with "Invalid UTF-8 encoding" or "Invalid JSON" carrying the decoder's detail. |
| NativeHost.Emit | native-host/twitch_ad_muter_host.py:151-168 | `write_message` writes something exactly when the payload's length fits in 32 bits. It then writes a 4-byte prefix declaring the payload's length, followed by the payload. |
| NativeHost.EmitReadsBack | native-host/twitch_ad_muter_host.py:140-168 | What `write_message` emits for a payload of at most 1 MiB reads back as that payload. It emits nothing exactly when the length does not fit in 32 bits. |
| NativeHost.PassOf | native-host/twitch_ad_muter_host.py:341-350 | One pass of `main`'s loop stops exactly at end-of-input. Every other pass consumes between 1 byte and the whole input, exactly as much as framing does. |
| NativeHost.Loop | native-host/twitch_ad_muter_host.py:341-350 | The loop makes at most one request per input byte, so it terminates. |
| NativeHost.RequestsStep | native-host/twitch_ad_muter_host.py:341-350 | On non-empty input the first pass's request comes first, and reading continues on exactly the bytes that pass left. |
| NativeHost.EndOfInputStops | native-host/twitch_ad_muter_host.py:345-347 | At end-of-input the loop makes no request. |
| NativeHost.Requests | native-host/twitch_ad_muter_host.py:341-350 | The loop makes at most one request per input byte. It makes none exactly when stdin is empty. |
| NativeHost.PassReadsFrame | native-host/twitch_ad_muter_host.py:342-350 | A pass over non-empty input reads one frame and makes the request that frame becomes. |
| NativeHost.RequestsFollowFrames | native-host/twitch_ad_muter_host.py:341-350 | The loop makes exactly one request per frame, in order. Each is the request its frame becomes: a framing error is refused with that error, and a complete frame is dispatched if it decodes and refused with the decoding error otherwise. |
| NativeHost.ReadErrorsDoNotStop | native-host/twitch_ad_muter_host.py:348-350 | A read error does not end the loop. After an oversized prefix the host refuses it and then reads its would-be payload as the next frame. |
| NativeHost.RequestsEncoded | native-host/twitch_ad_muter_host.py:341-344 | A well-formed framed message is dispatched, and reading continues with exactly the bytes after it. |
| NativeHost.Respond | native-host/twitch_ad_muter_host.py:343-350 | Every error answer has a non-empty text. A success answer comes only from a dispatched mute or unmute command, and a status answer only from a dispatched status query. |
| NativeHost.Ran | native-host/twitch_ad_muter_host.py:343-350 | A request runs at most one script. A request that runs one is a dispatched message routed to exactly that script. |
| NativeHost.Answer | native-host/twitch_ad_muter_host.py:341-350 | Answering a list of requests writes exactly one response per request. |
| NativeHost.RefusalsAnswered | native-host/twitch_ad_muter_host.py:348-350 | Every refused request is answered, at its own position, with its error's text, whatever ran before it. |
| NativeHost.Serve | native-host/twitch_ad_muter_host.py:341-350 | A session writes one response per request the loop makes, so at most one per input byte. It writes none exactly when stdin is empty. |
| NativeHost.ServeAnswersEveryFrame | native-host/twitch_ad_muter_host.py:341-350 | A session writes exactly one response per frame on stdin, whatever the frames hold and whatever osascript does. Each frame that framing rejects is answered with the text of its error. |
| NativeHost.ServeFirst | native-host/twitch_ad_muter_host.py:341-350 | The session answers its first request first, with `Respond`, runs `Ran` of that request, and then serves the remaining bytes. |
| NativeHost.ServeEncoded | native-host/twitch_ad_muter_host.py:341-344 | A well-formed framed message is answered by `process_command`'s response and runs the script its command selects. The session then continues on the following bytes. |
| NativeHost.EmittedReadsBack | native-host/twitch_ad_muter_host.py:140-168 | Everything written for a session reads back as one frame per response, in order, when every encoded response fits in 1 MiB. |
| NativeHost.Emitted | native-host/twitch_ad_muter_host.py:151-168 | A session without responses writes nothing. `EmittedNothing` says when nothing at all is written, and `EmittedIsFrames` says what is written. |
| NativeHost.EmittedNothing | native-host/twitch_ad_muter_host.py:151-168 | A session writes nothing to stdout exactly when every one of its encoded responses is too long for a 32-bit length prefix. |
| NativeHost.EmittedIsFrames | native-host/twitch_ad_muter_host.py:151-168 | When every encoded response fits in 1 MiB, what a session writes is exactly the concatenated frames of those payloads. |
| NativeHost.Host.ReadBytes | native-host/twitch_ad_muter_host.py:117 | `read(n)` returns `n` bytes, or all that remain when fewer do, and removes them from stdin. |
| NativeHost.Host.ReadMessage | native-host/twitch_ad_muter_host.py:79-137 | The imperative `read_message` returns `Receive`'s outcome and leaves stdin without exactly the bytes `Receive` consumes. |
| NativeHost.Host.WriteMessage | native-host/twitch_ad_muter_host.py:140-168 | The imperative `write_message` appends `Emit` of the encoded message to stdout. |
| NativeHost.Host.SendResponse | native-host/twitch_ad_muter_host.py:171-193 | Each send helper writes its response's dictionary. |
| NativeHost.Host.ExecuteOsascript | native-host/twitch_ad_muter_host.py:200-233 | A call records one more run of the script and reports that run as `ExecuteOsascript` does. |
| NativeHost.Host.SetMute | native-host/twitch_ad_muter_host.py:236-257 | Mute and unmute run their script once and return `SetMuteOutcome` of that run. |
| NativeHost.Host.GetMuteStatus | native-host/twitch_ad_muter_host.py:260-275 | The status query runs its script once and returns `GetMuteStatus` of that run. |
| NativeHost.Host.ProcessCommand | native-host/twitch_ad_muter_host.py:282-326 | The imperative `process_command` runs exactly `ScriptsRun(message)`. It appends to stdout exactly `Emit` of `Commands.ProcessCommand`'s response. |
| NativeHost.Host.HandleNext | native-host/twitch_ad_muter_host.py:341-350 | One pass of the loop stops exactly at end-of-input and then changes nothing. Otherwise it consumes what `PassOf` consumes, writes that request's response and runs its scripts. |
| NativeHost.Host.Run | native-host/twitch_ad_muter_host.py:333-359 | `main` terminates and leaves stdin empty. Stdout gains `Emitted` of `Serve`'s responses for the whole input, and the scripts run are `Serve`'s. Read errors are answered and do not stop the loop. |

## Left out

- JSON and UTF-8: `json.loads`, `json.dumps` and UTF-8 encoding and decoding are the parameters `Env.decode` and `Env.encode`. The model assumes decoding has exactly the three outcomes the host catches: a value, a `UnicodeDecodeError` or a `JSONDecodeError`. Any other exception would leave the loop through `main`'s outer handler. One example is the `ValueError` Python raises for an integer literal longer than its digit limit.
- JSON numbers are integers only. Floats are not modelled.
- JSON strings are sequences of Unicode scalar values. `json.loads` also accepts escaped unpaired surrogates such as `"\ud800"`, which `JString` cannot hold. A command containing one is not representable. Every command that can be represented is handled as the host handles it.
- JsonValues.PyStr: `repr` of a non-string command always puts strings in single quotes and does not escape quotes, backslashes or control characters. A dictionary is printed with every binding it was decoded from.
- PyText.AsciiLower: `str.lower` is applied to ASCII letters only. This is exact for the one use, comparing with `"true"`: outside ASCII only two characters lower-case to text containing an ASCII letter: U+212A KELVIN SIGN gives `k`, and U+0130 LATIN CAPITAL LETTER I WITH DOT ABOVE gives `i` followed by U+0307. Neither `k`, `i` nor U+0307 occurs in "true".
- Logging: `log`, `ensure_log_directory`, `DEBUG` and the log file are not modelled. They never write to stdout, and `DEBUG` is off.
- `flush`, and every write failure other than `struct.pack` rejecting a length of 2^32 or more, are not modelled. Those failures are swallowed by `write_message`'s handler, and the model assumes stdout writes succeed.
- The `KeyboardInterrupt` and generic-exception handlers around `main`'s loop, and `sys.exit(0)`, are not modelled.
- The `osascript` process itself (`subprocess.run`, the 5-second timeout and the AppleScript it executes) is the oracle `Env.tool`. It is indexed by how many runs came before.
- Framing.ReadFrame: `sys.stdin.buffer.read(n)` is modelled as returning fewer than `n` bytes only at end-of-file. Short reads from a pipe that has not closed are not modelled.
- The browser extension that starts the host and decides when to mute is not part of this model.
