# HDMI2USB serial console, modelled in Dafny

This project models the command interpreter of the HDMI2USB firmware's serial
console (`firmware/ci.c`). The interpreter has these parts:

- `readstr` collects one character per call into a 64-byte static line buffer.
- `get_token` cuts the finished line at its first space, in place.
- `ci_service` runs the status tick and then dispatches the line through a
  chain of `strcmp` tests on command names and their one-letter aliases.
- The commands route video sources to sinks, select video modes, pulse
  the HDMI inputs' hot-plug lines, switch the inputs' debug flags, and report
  status and DDR bandwidth.

Modules, in dependency order:

- `Wrappers`: `Option`.
- `CString`: C strings in a character buffer (`UpToNul`).
- `Numbers`: the `log2` loop, the DDR and encoder Mbps arithmetic (with
  64-bit wrap-around and 32-bit truncation written out), C's `atoi` (leading
  white space, an optional sign, then decimal digits), and `%d` printing of
  non-negative numbers.
- `Board`: the build switches as a constant capability record `Caps` (one
  field per `#ifdef`, plus `PROCESSOR_MODE_COUNT`, `DFII_NPHASES` and
  `DFII_PIX_DATA_SIZE`), the processor's source and sink indices, and
  `Readings`, the hardware registers and foreign values read during one
  service call.
- `Events`: what the console prints (message tags with their values) and
  the calls it makes (processor, config, hot-plug, encoder, CAS, …). A run
  of the console is a sequence of events.
- `LineEdit`: `readstr`. `Edit` is the pure effect of one character, and the
  class `LineEditor` keeps the static buffer as an `array<char>` with its
  cursor.
- `Tokenizer`: `get_token`. `Split` is the pure split at the first space.
  `GetToken` writes the NUL into the buffer and returns the token and rest
  positions.
- `Commands`: the dispatch chain as a pure `Parse(caps, line): Command`,
  gated by `Caps`, and the sub-dispatch of `debug`.
- `Control`: the controller state `Ctl`, which holds the globals
  `status_enabled`, `hdmi_in0_debug`, `hdmi_in1_debug` and the processor's
  three sink sources. It also has the effect of each command as a pure
  function to a new state plus events (`Step`, `RunLine`, `Service`) and the
  properties of those functions.
- `Console`: the class `Console`, whose fields are those globals and the
  event trace. Each method (`StatusEnable`, `VideoMatrixConnect`,
  `DebugInput`, `DebugDdr` with its `log2` loop, `Execute`, `Service`, …) is
  proved to leave exactly the state and trace that the matching `Control`
  function gives, and to keep every sink routed from a known source.

The combined `debug input <x>` toggle (`firmware/ci.c:724-731`) negates each
input's flag on its own (`Control.DebugToggleNegates`).

## Model

| member | source | states |
|---|---|---|
| CString.UpToNulCut | firmware/ci.c:516-519 | the NUL written at the cursor ends the returned line there, whatever the buffer holds after it |
| Numbers.Log2 | firmware/ci.c:437-442 | the shift-and-count loop returns floor(log2 v): 2^r <= v < 2^(r+1) for v >= 1, and 0 for v = 0 and v = 1 |
| Numbers.FloorLog2Bounds | firmware/ci.c:437-442 | floor(log2 v) lies between two consecutive powers of two around v |
| Numbers.MegabitsExact | firmware/ci.c:456-457 | without wrap-around, shifting by a power of two and then dividing by 10^6 is one floor division by their product |
| Numbers.DdrMbps | firmware/ci.c:455-457 | `(n*f >> (24 - log2(burstbits)))/1000000` with the 64-bit wrap of the product and the 32-bit store of the result: always below 2^32 |
| Numbers.DdrMbpsExact | firmware/ci.c:455-457 | without 64-bit or 32-bit overflow, each DDR rate is count*f / 2^(24 - log2(burstbits)) / 10^6, rounded down |
| Numbers.EncoderMbps | firmware/ci.c:231 | without 32-bit overflow of nbytes*8, the encoder rate is nbytes*8/10^6 rounded down |
| Numbers.Atoi | firmware/ci.c:651 | an empty argument, or one that starts with no space, sign or digit, reads as 0 |
| Numbers.AtoiDecimal | firmware/ci.c:651 | atoi reads back any number written in decimal, with or without a minus sign |
| LineEdit.Edit | firmware/ci.c:504-529 | one character: a line is returned exactly on CR/LF, as the kept characters up to a NUL, and the buffer empties; BEL changes nothing; erase on an empty buffer changes nothing; a plain character is dropped once 63 are kept; fewer than 64 stay kept |
| LineEdit.TypedPlain | firmware/ci.c:520-526 | a run of plain characters is appended while there is room, and the rest of the run is dropped |
| LineEdit.TypedErasures | firmware/ci.c:505-511 | n erase characters remove the last n kept characters, and stop at an empty buffer |
| LineEdit.TypeThenErase | firmware/ci.c:505-526 | typing characters that fit and then erasing as many gives back the buffer as it was |
| LineEdit.LineRoundTrip | firmware/ci.c:514-526 | a line of fewer than 64 plain characters followed by CR or LF comes back whole, and the buffer is empty again |
| LineEdit.LineEditor.constructor | firmware/ci.c:498-499 | the buffer starts empty, with 64 places |
| LineEdit.LineEditor.ReadStr | firmware/ci.c:495-530 | with no character waiting, nothing changes and no line is returned; otherwise the kept characters and the returned line are those of Edit, and the cursor stays below 64 |
| Tokenizer.Split | firmware/ci.c:532-546 | the token has no space; with a space, token + " " + rest is the input; without one, the token is the input and the rest is empty |
| Tokenizer.SplitUnique | firmware/ci.c:536-545 | a space-free word, a space and a rest split back into exactly that word and rest |
| Tokenizer.SplitAtStop | firmware/ci.c:536-541 | where the scan stops decides the split: at a space, the text before it and the C string after it; at the NUL, the whole string and nothing |
| Tokenizer.CutAtStop | firmware/ci.c:542 | after the NUL is written at the space, the C string at the start is the token and the one after the space is unchanged |
| Tokenizer.TokenAtStop | firmware/ci.c:536-545 | the C strings at the token and the rest positions, after the write, are the Split of the original string, and both are still NUL-terminated |
| Tokenizer.ScanToken | firmware/ci.c:536 | the scan stops at the first space or NUL from the start position |
| Tokenizer.GetToken | firmware/ci.c:532-546 | in place: the C strings at the returned token and rest positions are the Split of the C string before the call, and the rest position still points into a NUL-terminated string; the buffer afterwards is the old one with a NUL written over the space just before the rest position, if there was one, and otherwise unchanged |
| Commands.Parse | firmware/ci.c:564-846 | the first token picks the branch of the `strcmp` chain (names and the aliases the build enables); the result is Unknown exactly when that token names no command |
| Commands.ParseFamily | firmware/ci.c:566-842 | every branch of a recognised first word yields a command other than Unknown |
| Commands.FamilyOfNames | firmware/ci.c:566-712 | the chain recognises a first token exactly when it is a command name or alias of the build |
| Commands.ParseUnknown | firmware/ci.c:843-846 | a line is the Unknown command exactly when its first token is none of the build's names or aliases |
| Commands.TokenOf | firmware/ci.c:564 | the first token of `word rest` is the word and what follows is the rest |
| Commands.AliasFamily | firmware/ci.c:599-712 | each one-letter alias selects the same branch as the name it stands for |
| Commands.AliasesAgree | firmware/ci.c:599-712 | whatever follows, a line that starts with an alias parses as the line that starts with its name |
| Commands.ParseWord | firmware/ci.c:564-712 | a line starting with a command word runs that word's branch on the rest of the line |
| Commands.ParseDebugWordAt | firmware/ci.c:713-841 | after `debug`, a line starting with a sub-command word runs that sub-command on the rest |
| Commands.ParseDebugLine | firmware/ci.c:712-713 | a `debug` line runs the debug sub-dispatch on the rest of the line |
| Commands.Input0Toggles | firmware/ci.c:743-750 | `input0 x`, for x other than on, off and `?`, asks to toggle input 0 |
| Commands.DebugInput0Toggles | firmware/ci.c:743-750 | `debug input0 x`, for x other than on, off and `?`, toggles input 0's flag |
| Commands.DebugInput0BareToggles | firmware/ci.c:743-750 | `debug input0` with no argument toggles input 0's flag too |
| Commands.ConnectLine | firmware/ci.c:599-641 | `x c <source> <sink>` connects the source and the sink that its two words name |
| Commands.ModeLine | firmware/ci.c:646-651 | `m <n>` asks for mode n, and `m -<n>` for mode -n, since `atoi` keeps the sign |
| Commands.HeartbeatOnLine | firmware/ci.c:653-656 | `h on` switches the heartbeat on |
| Commands.StatusOnLine | firmware/ci.c:703-706 | `status on` switches status reporting on |
| Control.StatusEnable | firmware/ci.c:154-161 | `status_enable`: the flag is on, nothing else changes, and the encoder's byte counter is cleared exactly when the encoder is built in |
| Control.StatusDisable | firmware/ci.c:163-167 | `status_disable`: the flag is off and nothing else changes |
| Control.Connect | firmware/ci.c:299-327 | a source out of range does nothing; an output sink whose block is absent is announced, reported missing and followed by the processor update, with routing unchanged; any routing change ends with the processor update; routing to known sources is kept |
| Control.ConnectRoutes | firmware/ci.c:299-327 | exactly the named sink's source is set to the argument, and only when the source is valid and the sink is built in; nothing else changes |
| Control.ConnectIdempotent | firmware/ci.c:305-323 | repeating a connection changes nothing more |
| Control.ConnectCommand | firmware/ci.c:604-641 | `video_matrix connect`: only the three routes can change, they change only when both names are known, every sink stays routed from a known source, and no prompt is printed |
| Control.StepKeepsRouted | firmware/ci.c:638-639 | no command routes a sink from something that is not a source |
| Control.StepChangesOwnGlobals | firmware/ci.c:566-846 | each global is changed only by its own commands: the status flag by `status on`, `status off` and an unknown word, the debug flags by `debug input…`, the routes by `video_matrix connect` |
| Control.Reply | firmware/ci.c:566-842 | the events of a command that changes no global: a mode outside the table gives none, and `debug cas buttons` writes back the pending bits exactly when asked to clear them |
| Control.Step | firmware/ci.c:566-846 | one dispatched command: a command outside `video_matrix connect`, `status on`/`off`, `debug input…` and the unknown word leaves every global unchanged |
| Control.VideoModeSetAsWritten | firmware/ci.c:341-350 | `video_mode_set` as written: nothing happens exactly when mode >= PROCESSOR_MODE_COUNT; otherwise the mode is announced |
| Control.VideoModeSet | firmware/ci.c:341-350 | `video_mode_set` with the range check of Findings row 1: nothing happens exactly when the mode is outside [0, PROCESSOR_MODE_COUNT); otherwise the mode is announced |
| Control.ModeStepsCalls | firmware/ci.c:345-348 | a valid mode is looked up, persisted, then started, in that order |
| Control.VideoModeSetCalls | firmware/ci.c:341-350 | with the range check on both ends, a mode outside the table makes no call, and a valid one persists the mode and then starts it |
| Control.VideoModeSetStartsOnlyValidModes | firmware/ci.c:344 | the corrected check only ever starts a mode in the table |
| Control.VideoModeSetAsWrittenAcceptsNegative | firmware/ci.c:344 | as written, mode -1 is persisted and started |
| Control.HdpSequence | firmware/ci.c:352-376 | `hdp_toggle`: the announcement comes first, and input n is reported missing exactly when it is not built in |
| Control.HpdPulseLevels | firmware/ci.c:359-363 | the pulse of the named input writes 0 then 1 to its hot-plug line and nothing to any other line |
| Control.HdpToggleLevels | firmware/ci.c:352-376 | input n's hot-plug line is written exactly 0 then 1 when input n is built in and named, and is not touched otherwise |
| Control.HdpToggleMissing | firmware/ci.c:364-374 | "hdmi_inN is missing." is printed exactly when input N is not built in, whatever the source |
| Control.DebugInputWith | firmware/ci.c:462-478 | a flag changes only when its input is built in and both its channel and change bits are set, and it then takes its state bit; nothing else changes |
| Control.DebugInputEffect | firmware/ci.c:462-478 | `debug_input` with input 1's own flag reported: one report line per built-in input whose channel bit is set |
| Control.DebugInputEffectAsWritten | firmware/ci.c:462-478 | `debug_input` as written: the same new flags and the same number of report lines as the corrected one; its report lines are exactly one per targeted built-in input, and the line for input 1 shows input 0's new flag |
| Control.DebugInputReportsFlags | firmware/ci.c:462-478 | with the report of input 1 corrected, the output is exactly one line per built-in input whose channel bit is set, input 0 first, each showing that input's flag after the call |
| Control.DebugInputLinesShowFlags | firmware/ci.c:462-478 | every report line shows the flag, after the call, of the input it names |
| Control.DebugInputAsWrittenMisreports | firmware/ci.c:475 | as written, `debug input1 on` with both flags off sets input 1's flag but reports it off |
| Control.DebugInputQueryIsPure | firmware/ci.c:462-478 | with no change bit set, the state is untouched |
| Control.ToggleState | firmware/ci.c:724-750 | the state bits of a toggle: bit n is set exactly when input n is targeted (built in, for the combined toggle) and its flag is off |
| Control.DebugCommand | firmware/ci.c:717-766 | `debug input…` passes its channels, change and state bits to `debug_input`, in its corrected form of Findings row 2: only the debug flags can change, `?` changes nothing, and no prompt is printed |
| Control.DebugToggleNegates | firmware/ci.c:717-766 | a toggle negates each targeted built-in input's flag on its own and leaves everything else alone |
| Control.DebugToggleTwice | firmware/ci.c:717-766 | toggling twice restores the original state |
| Control.DebugSwitchSets | firmware/ci.c:717-766 | on and off force the targeted built-in flags; `?` changes nothing |
| Control.BlockLines | firmware/ci.c:171-238 | the lines of `status_print` before the DDR line: one per built-in block, and two for an enabled encoder; the encoder's byte counter is cleared exactly when the encoder is built in and enabled, as the last event, right after the encoder line |
| Control.StatusReport | firmware/ci.c:171-241 | `status_print` ends with the DDR report: the bandwidth latch, then the DDR line |
| Control.DdrReport | firmware/ci.c:444-459 | `debug_ddr`: the bandwidth latch, then one line whose read and write rates are `Numbers.DdrMbps` of the read and write counters (so 32-bit) and whose total is their sum modulo 2^32 |
| Control.FrequencyReport | firmware/ci.c:481-493 | `debug_freq`: one line per input that has a frequency counter |
| Control.FrequencyLinesInMegahertz | firmware/ci.c:481-493 | each `debug_freq` line is for input 0 or 1 and carries that input's counter in Hz and the whole number of megahertz in it |
| Control.StatusService | firmware/ci.c:243-253 | something is printed exactly when the timer has elapsed and status reporting is on |
| Control.NoPromptInStatus | firmware/ci.c:243-253 | the status tick never prints the prompt |
| Control.UnknownLineSilencesStatus | firmware/ci.c:843-848 | an unknown first word switches reporting off if it was on, and otherwise only prompts |
| Control.RunStatusOn | firmware/ci.c:703-706 | `status on` sets the flag, clears the encoder byte counter when the encoder is built in, and prompts |
| Control.StatusOnScenario | firmware/ci.c:703-706 | the typed line `status on` does the same |
| Control.RunConnect | firmware/ci.c:638-639 | a line naming a known source and sink runs the connection and prompts |
| Control.ConnectScenario | firmware/ci.c:599-641 | `x c <input0> <output0>` with output 0 built in routes output 0 from input 0, resyncs the processor, and prompts |
| Control.ConnectMissingScenario | firmware/ci.c:305-317 | the same line without output 0 reports it missing, still resyncs the processor, and routes nothing |
| Control.ModeOutOfRangeScenario | firmware/ci.c:646-651 | `m <n>` past the table only prompts and changes nothing |
| Control.HeartbeatScenario | firmware/ci.c:653-656 | `h on` calls the heartbeat, says so, and prompts |
| Control.NoLineNoPrompt | firmware/ci.c:559-562 | until a line is finished, only the status tick runs: no command, no change, no prompt |
| Control.LineEndsWithPrompt | firmware/ci.c:848 | a finished line other than reboot always ends with the prompt |
| Control.StepNoPrompt | firmware/ci.c:566-846 | no command's own output contains the prompt |
| Control.RunLine | firmware/ci.c:564-848 | a finished line other than reboot prints the prompt exactly once, as its last event; reboot prints none |
| Control.Service | firmware/ci.c:554-849 | `ci_service`: the status tick's output comes first, and without a finished line it is all that happens |
| Control.CasButtonsClear | firmware/ci.c:829-837 | `debug cas buttons` writes back exactly the pending bits it read, and only when asked to clear them; the state is untouched |
| Console.Console.constructor | firmware/ci.c:26 | the console starts with the given globals, an empty trace and an empty line buffer |
| Console.Console.StatusEnable | firmware/ci.c:154-161 | the flag and trace are those of `status_enable`, routing kept |
| Console.Console.StatusDisable | firmware/ci.c:163-167 | the flag and trace are those of `status_disable` |
| Console.Console.VideoMatrixConnect | firmware/ci.c:299-327 | the globals and trace are those of Control.Connect; every sink stays routed from a known source |
| Console.Console.MatrixConnect | firmware/ci.c:604-641 | a known source and sink are connected; each unknown name is reported, then the help |
| Console.Console.VideoModeSet | firmware/ci.c:341-350 | the trace is that of the corrected mode selection; no global changes |
| Console.Console.HdpToggle | firmware/ci.c:352-376 | the trace is the HPD sequence; no global changes |
| Console.Console.DebugInput | firmware/ci.c:462-478 | the debug flags and trace are those of the corrected `debug_input` |
| Console.Console.DebugDdr | firmware/ci.c:444-459 | the `log2` loop's result gives the trace of the DDR report |
| Console.Console.StatusPrint | firmware/ci.c:171-241 | the trace grows by one line per built-in block, then the DDR report |
| Console.Console.StatusService | firmware/ci.c:243-253 | the trace grows by the status tick and nothing else changes |
| Console.Console.Respond | firmware/ci.c:566-842 | a command that changes no global leaves the globals alone and appends its reply |
| Console.Console.Execute | firmware/ci.c:566-846 | the globals and trace are those of Control.Step for the parsed command |
| Console.Console.Change | firmware/ci.c:599-846 | the branches that change a global leave the globals and trace of Control.Step |
| Console.Console.RunLine | firmware/ci.c:564-848 | the globals and trace are those of Control.RunLine |
| Console.Console.Service | firmware/ci.c:554-849 | one service call: the buffer is edited as Edit says, and the globals and trace are those of Control.Service on the line returned, if any |

## Left out

- Character I/O: `readchar_nonblock`/`readchar` become the `Option<char>` argument of `Service`, and `readstr`'s echo writes (509, 517, 523) are not modelled.
- Printing: `wprintf`/`wputs` formatting and the help texts are message tags with their values, not text. The `%d` printing of unsigned values as signed is not modelled.
- Foreign calls are recorded as events and not modelled further: `reboot` (inline assembly), `print_version`, `print_board_dna`, `pll_dump`, the EEPROM dumps, `fx2_reboot`/`fx2_debug` and the EDID printers.
- Also recorded as events: the processor's mode, update and listing calls, `config_set`, `hb_status` and the encoder calls. Their code is not part of this model.
- The processor's source setters (`processor_set_hdmi_out0_source`, `processor_set_hdmi_out1_source`, `processor_set_encoder_source`, firmware/ci.c:307, 313, 322) are not events: they are assignments to `Ctl.out0Source`, `out1Source` and `encoderSource`, which `status_print` reads back as `processor_hdmi_out0_source` and its siblings (firmware/ci.c:203, 217, 232). The model thus assumes that each setter stores exactly its argument in the variable read later; `processor.c` is not part of this model, and `Control.ConnectRoutes`, `Control.ConnectIdempotent` and `Control.StepKeepsRouted` rest on that assumption.
- The mode descriptors of `video_mode_list` and `video_mode_set`, including the out-of-bounds read at 346 for a negative mode, are not modelled.
- Hardware registers, the processor's resolution and refresh, and `elapsed()` (with its static `last_event`) are one `Readings` value per service call. So when the status tick and a `status` or `debug ddr` line fall in the same call, the line reports the same counters as the tick, although the tick has just cleared the encoder's byte counter (firmware/ci.c:234) and latched the DDR counters; the firmware reads the hardware again.
- The busy-wait between the two hot-plug writes (361, 370) is not modelled; only the order of the writes is.
- `VIDEO_IN_*` and `VIDEO_OUT_*` are taken as 0, 1, 2. `processor.h` is not part of this model.
- `PROCESSOR_MODE_COUNT`, `DFII_NPHASES` and `DFII_PIX_DATA_SIZE` are fields of `Caps`, because their values are not in `ci.c`. `Caps.WellFormed` requires `log2(burstbits) <= 24`, so that the shift `24 - log2(burstbits)` of `debug_ddr` is not negative; the C compiles with any values, and a build with a larger burst, where that shift is undefined in C, is not modelled.
- Numbers.DdrMbpsExact: states the exact rate only without 64-bit wrap-around of `n*f` and without 32-bit truncation. `DdrMbps` itself keeps both.
- Numbers.Atoi: follows ISO C `atoi` (leading white space, an optional sign, decimal digits); the firmware's libc is not part of this model, and integers are unbounded, so its undefined behaviour on overflow is not modelled.
- Console.Console.VideoModeSet: runs the corrected range check of Findings row 1; the code as written is `Control.VideoModeSetAsWritten`.
- Console.Console.DebugInput: reports input 1's own flag, as Findings row 2 corrects; the code as written is `Control.DebugInputEffectAsWritten`.
- LineEdit.LineEditor.ReadStr: says nothing about the buffer's contents past the cursor.
- Tokenizer.GetToken: the dispatcher reads its tokens with `Split` on the line as a value; `GetToken` is proved to give the same token and rest in place, but `Console.Console.RunLine` does not call it.
- Control.Step: runs the corrected mode range check (Findings row 1) and the corrected input-1 report (Findings row 2), so `m -1` does nothing and `debug input1 …` reports input 1's own flag.
- Control.Reply: runs the corrected mode range check (Findings row 1), so `m -1` does nothing.
- Control.DebugCommand: runs the corrected input-1 report (Findings row 2), so `debug input1 …` reports input 1's own flag.
- Control.FrequencyReport: the frequency counters are unbounded naturals; the conversion of a 32-bit register value of 2^31 Hz or more to a negative C `int` is not modelled.
- Control.RunLine: runs `Control.Step`, with both corrections of Findings rows 1 and 2.
- Control.Service: runs `Control.RunLine`, with both corrections of Findings rows 1 and 2.
- Console.Console.Respond: runs the corrected mode range check (Findings row 1), so `m -1` does nothing.
- Console.Console.Execute: runs the corrected mode range check and the corrected input-1 report (Findings rows 1 and 2).
- Console.Console.Change: runs the corrected input-1 report (Findings row 2).
- Console.Console.RunLine: runs `Console.Console.Execute`, with both corrections of Findings rows 1 and 2.
- Console.Console.Service: runs `Console.Console.RunLine`, with both corrections of Findings rows 1 and 2.

## Findings

| source | as written | input that shows it | evidently intended | confidence | as-written member | corrected member |
|---|---|---|---|---|---|---|
| firmware/ci.c:344 | `video_mode_set` checks only the upper bound of the signed mode that `atoi` produced | `video_mode -1` persists mode -1 and starts it | act only when 0 <= mode < PROCESSOR_MODE_COUNT | high, not executed | Control.VideoModeSetAsWrittenAcceptsNegative | Control.VideoModeSetStartsOnlyValidModes |
| firmware/ci.c:475 | the report line for input 1 prints `hdmi_in0_debug` | with both flags off, `debug input1 on` sets input 1's flag and prints "HDMI Input 1 debug off" | print `hdmi_in1_debug` | high, not executed | Control.DebugInputAsWrittenMisreports | Control.DebugInputReportsFlags |
