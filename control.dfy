/** The controller state `ci.c` keeps and the effect of each command on it:
  * routing, mode selection, HPD toggling, the debug flags, status
  * reporting. Each operation gives the new state and what is printed and
  * called, in order. */
module Control {
  import opened Wrappers
  import opened Board
  import opened Events
  import opened Numbers
  import opened Commands

  /** The globals the console reads and writes: `status_enabled`, the
    * `hdmi_inN_debug` flags, and the processor's source for each sink. */
  datatype Ctl = Ctl(
    statusEnabled: bool,
    in0Debug: bool,
    in1Debug: bool,
    out0Source: int,
    out1Source: int,
    encoderSource: int)

  /** A new state and the events that produced it. */
  datatype Outcome = Outcome(ctl: Ctl, out: seq<Event>)

  predicate IsSource(v: int) { 0 <= v <= VideoInPattern }

  /** Every sink is fed by a source the processor knows. */
  predicate Routed(s: Ctl) {
    IsSource(s.out0Source) && IsSource(s.out1Source) && IsSource(s.encoderSource)
  }

  /** The calls among a run of events, in order. */
  function Calls(out: seq<Event>): seq<Call> {
    if out == [] then []
    else (if out[0].Do? then [out[0].call] else []) + Calls(out[1..])
  }

  lemma {:induction false} CallsAppend(a: seq<Event>, b: seq<Event>)
    ensures Calls(a + b) == Calls(a) + Calls(b)
  {
    if a == [] {
      assert a + b == b;
    } else {
      assert (a + b)[0] == a[0] && (a + b)[1..] == a[1..] + b;
      CallsAppend(a[1..], b);
    }
  }

  // ---- status_enable, status_disable ----

  /** `status_enable`: reporting on, and the encoder's byte counter cleared
    * so that the first report measures from here. */
  function StatusEnable(caps: Caps, s: Ctl): (r: Outcome)
    ensures r.ctl.statusEnabled && r.ctl.(statusEnabled := s.statusEnabled) == s
    ensures Do(EncoderBandwidthClear) in r.out <==> caps.encoder
  {
    Outcome(s.(statusEnabled := true),
      [Say(EnablingStatus)] + (if caps.encoder then [Do(EncoderBandwidthClear)] else []))
  }

  /** `status_disable`. */
  function StatusDisable(s: Ctl): (r: Outcome)
    ensures !r.ctl.statusEnabled && r.ctl.(statusEnabled := s.statusEnabled) == s
  {
    Outcome(s.(statusEnabled := false), [Say(DisablingStatus)])
  }

  // ---- video_matrix_connect ----

  /** `video_matrix_connect`: a source outside input0..pattern is ignored;
    * an HDMI output sink is announced, set if its block is built in (else
    * reported missing), and the processor is resynchronised either way; the
    * encoder sink is set only when the encoder is built in. */
  function Connect(caps: Caps, s: Ctl, source: int, sink: int): (r: Outcome)
    ensures Routed(s) ==> Routed(r.ctl)
    ensures !IsSource(source) ==> r == Outcome(s, [])
    ensures r.ctl != s ==> r.out != [] && r.out[|r.out| - 1] == Do(ProcessorUpdate)
    ensures sink == VideoOutHdmiOut0 && !caps.hdmiOut0 ==> r.ctl == s
    ensures sink == VideoOutHdmiOut1 && !caps.hdmiOut1 ==> r.ctl == s
    ensures (IsSource(source) && 0 <= sink <= VideoOutHdmiOut1 &&
             !(if sink == VideoOutHdmiOut0 then caps.hdmiOut0 else caps.hdmiOut1)) ==>
      r == Outcome(s, [Say(Connecting(source, sink)), Say(OutputMissing(sink)), Do(ProcessorUpdate)])
  {
    if !IsSource(source) then Outcome(s, [])
    else if 0 <= sink <= VideoOutHdmiOut1 then
      var announce := [Say(Connecting(source, sink))];
      if sink == VideoOutHdmiOut0 then
        if caps.hdmiOut0 then Outcome(s.(out0Source := source), announce + [Do(ProcessorUpdate)])
        else Outcome(s, announce + [Say(OutputMissing(0)), Do(ProcessorUpdate)])
      else
        if caps.hdmiOut1 then Outcome(s.(out1Source := source), announce + [Do(ProcessorUpdate)])
        else Outcome(s, announce + [Say(OutputMissing(1)), Do(ProcessorUpdate)])
    else if caps.encoder && sink == VideoOutEncoder then
      Outcome(s.(encoderSource := source), [Say(ConnectingEncoder(source)), Do(ProcessorUpdate)])
    else Outcome(s, [])
  }

  // ---- video_mode_set ----

  /** What selecting a valid mode does: look up its name, announce it,
    * persist it, start it. */
  function ModeSteps(mode: int): seq<Event> {
    [Do(ProcessorListModes), Say(SettingMode(mode)), Do(ConfigSetResolution(mode)), Do(ProcessorStart(mode))]
  }

  /** `video_mode_set` as written: only `mode < PROCESSOR_MODE_COUNT` is
    * checked, so a negative mode is let through. */
  function VideoModeSetAsWritten(caps: Caps, mode: int): (r: seq<Event>)
    ensures r == [] <==> mode >= caps.modeCount
    ensures r != [] ==> Say(SettingMode(mode)) in r
  {
    if mode < caps.modeCount then ModeSteps(mode) else []
  }

  /** `video_mode_set` with the evidently intended range check. */
  function VideoModeSet(caps: Caps, mode: int): (r: seq<Event>)
    ensures r == [] <==> !(0 <= mode < caps.modeCount)
    ensures r != [] ==> Say(SettingMode(mode)) in r
  {
    if 0 <= mode < caps.modeCount then ModeSteps(mode) else []
  }

  /** A mode outside the table writes no configuration and starts nothing; a
    * valid one is persisted before it is started. */
  lemma VideoModeSetCalls(caps: Caps, mode: int)
    ensures Calls(VideoModeSet(caps, mode)) ==
      if 0 <= mode < caps.modeCount
      then [ProcessorListModes, ConfigSetResolution(mode), ProcessorStart(mode)]
      else []
  {
    if 0 <= mode < caps.modeCount {
      ModeStepsCalls(mode);
    }
  }

  lemma ModeStepsCalls(mode: int)
    ensures Calls(ModeSteps(mode)) == [ProcessorListModes, ConfigSetResolution(mode), ProcessorStart(mode)]
  {
    var p := ModeSteps(mode);
    assert p[3..][1..] == [];
    assert Calls(p[3..]) == [ProcessorStart(mode)];
    assert p[2..][1..] == p[3..];
    assert Calls(p[2..]) == [ConfigSetResolution(mode), ProcessorStart(mode)];
    assert p[1..][1..] == p[2..];
    assert Calls(p[1..]) == Calls(p[2..]);
  }

  /** The corrected `video_mode_set` only ever starts a mode in the table. */
  lemma VideoModeSetStartsOnlyValidModes(caps: Caps, mode: int, m: int)
    requires ProcessorStart(m) in Calls(VideoModeSet(caps, mode))
    ensures 0 <= m < caps.modeCount
  {
    VideoModeSetCalls(caps, mode);
  }

  /** `video_mode -1` as written persists mode -1 and starts it. */
  lemma VideoModeSetAsWrittenAcceptsNegative(caps: Caps)
    ensures Calls(VideoModeSetAsWritten(caps, -1)) == [ProcessorListModes, ConfigSetResolution(-1), ProcessorStart(-1)]
  {
    ModeStepsCalls(-1);
  }

  // ---- hdp_toggle ----

  /** `hdp_toggle`: for each HDMI input that is built in and is the one
    * named, pull its hot-plug line low and then high again; an input that is
    * not built in is reported missing whatever the source. */
  function HdpSequence(caps: Caps, source: int): (r: seq<Event>)
    ensures r != [] && r[0] == Say(TogglingHdp(source))
    ensures Say(InputMissing(0)) in r <==> !caps.hdmiIn0
    ensures Say(InputMissing(1)) in r <==> !caps.hdmiIn1
  {
    [Say(TogglingHdp(source))]
    + (if caps.hdmiIn0 then HdpPulse(VideoInHdmiIn0, source) else [Say(InputMissing(0))])
    + (if caps.hdmiIn1 then HdpPulse(VideoInHdmiIn1, source) else [Say(InputMissing(1))])
  }

  function HdpPulse(input: int, source: int): seq<Event> {
    if source == input then [Do(HpdWrite(input, 0)), Do(HpdWrite(input, 1))] else []
  }

  /** The levels written to one input's hot-plug line, in order. */
  function HpdLevels(calls: seq<Call>, input: int): seq<int> {
    if calls == [] then []
    else
      var here := if calls[0].HpdWrite? && calls[0].input == input then [calls[0].level] else [];
      here + HpdLevels(calls[1..], input)
  }

  lemma {:induction false} HpdLevelsAppend(a: seq<Call>, b: seq<Call>, input: int)
    ensures HpdLevels(a + b, input) == HpdLevels(a, input) + HpdLevels(b, input)
  {
    if a == [] {
      assert a + b == b;
    } else {
      assert (a + b)[0] == a[0] && (a + b)[1..] == a[1..] + b;
      HpdLevelsAppend(a[1..], b, input);
    }
  }

  lemma HpdPulseLevels(input: int, source: int, n: int)
    ensures HpdLevels(Calls(HdpPulse(input, source)), n) == if source == input == n then [0, 1] else []
  {
    if source == input {
      var p := HdpPulse(input, source);
      assert p[1..][1..] == [];
      assert Calls(p[1..]) == [HpdWrite(input, 1)];
      var c := Calls(p);
      assert c == [HpdWrite(input, 0), HpdWrite(input, 1)];
      assert c[1..][1..] == [];
      assert HpdLevels(c[1..], n) == if input == n then [1] else [];
    }
  }

  /** The hot-plug line of input n is written exactly 0 then 1 when that
    * input is built in and named, and is not touched otherwise. */
  lemma HdpToggleLevels(caps: Caps, source: int, n: int)
    requires n == VideoInHdmiIn0 || n == VideoInHdmiIn1
    ensures HpdLevels(Calls(HdpSequence(caps, source)), n) ==
      if (if n == 0 then caps.hdmiIn0 else caps.hdmiIn1) && source == n then [0, 1] else []
  {
    var head: seq<Event> := [Say(TogglingHdp(source))];
    var p0 := if caps.hdmiIn0 then HdpPulse(VideoInHdmiIn0, source) else [Say(InputMissing(0))];
    var p1 := if caps.hdmiIn1 then HdpPulse(VideoInHdmiIn1, source) else [Say(InputMissing(1))];
    CallsAppend(head + p0, p1);
    CallsAppend(head, p0);
    HpdLevelsAppend(Calls(head) + Calls(p0), Calls(p1), n);
    HpdLevelsAppend(Calls(head), Calls(p0), n);
    assert Calls(head) == [];
    PartLevels(caps.hdmiIn0, VideoInHdmiIn0, source, n, 0);
    PartLevels(caps.hdmiIn1, VideoInHdmiIn1, source, n, 1);
    var l0 := HpdLevels(Calls(p0), n);
    var l1 := HpdLevels(Calls(p1), n);
    assert HpdLevels(Calls(HdpSequence(caps, source)), n) == [] + l0 + l1;
  }

  /** The levels one input's part of `hdp_toggle` writes to line n. */
  lemma PartLevels(built: bool, input: int, source: int, n: int, missing: int)
    ensures var p := if built then HdpPulse(input, source) else [Say(InputMissing(missing))];
      HpdLevels(Calls(p), n) == if built && source == input == n then [0, 1] else []
  {
    if built {
      HpdPulseLevels(input, source, n);
    } else {
      assert Calls([Say(InputMissing(missing))]) == [];
    }
  }

  /** "hdmi_inN is missing." is printed exactly when input N is not built in,
    * whatever source was asked for. */
  lemma HdpToggleMissing(caps: Caps, source: int)
    ensures Say(InputMissing(0)) in HdpSequence(caps, source) <==> !caps.hdmiIn0
    ensures Say(InputMissing(1)) in HdpSequence(caps, source) <==> !caps.hdmiIn1
  {
    var head: seq<Event> := [Say(TogglingHdp(source))];
    var p0 := if caps.hdmiIn0 then HdpPulse(VideoInHdmiIn0, source) else [Say(InputMissing(0))];
    var p1 := if caps.hdmiIn1 then HdpPulse(VideoInHdmiIn1, source) else [Say(InputMissing(1))];
    assert HdpSequence(caps, source) == head + p0 + p1;
    assert forall e :: e in head + p0 + p1 <==> e in head || e in p0 || e in p1;
  }

  // ---- debug_input ----

  /** `debug_input(channels, change, state)`: an input's flag is set to its
    * state bit when the input is built in and both its channel bit and its
    * change bit are set; each built-in input whose channel bit is set is
    * reported. `in1ReportsIn0` selects what the report of input 1 shows:
    * input 0's flag, as written, or input 1's own. */
  function DebugInputWith(caps: Caps, s: Ctl, channels: bv32, change: bv32, state: bv32,
                          in1ReportsIn0: bool): (r: Outcome)
    ensures r.ctl.in0Debug ==
      if caps.hdmiIn0 && channels & 1 != 0 && change & 1 != 0 then state & 1 != 0 else s.in0Debug
    ensures r.ctl.in1Debug ==
      if caps.hdmiIn1 && channels & 2 != 0 && change & 2 != 0 then state & 2 != 0 else s.in1Debug
    ensures r.ctl == s.(in0Debug := r.ctl.in0Debug, in1Debug := r.ctl.in1Debug)
  {
    var touch0 := caps.hdmiIn0 && channels & 1 != 0;
    var new0 := if touch0 && change & 1 != 0 then state & 1 != 0 else s.in0Debug;
    var touch1 := caps.hdmiIn1 && channels & 2 != 0;
    var new1 := if touch1 && change & 2 != 0 then state & 2 != 0 else s.in1Debug;
    Outcome(s.(in0Debug := new0, in1Debug := new1),
      (if touch0 then [Say(DebugState(0, new0))] else [])
      + (if touch1 then [Say(DebugState(1, if in1ReportsIn0 then new0 else new1))] else []))
  }

  /** `debug_input` as written: input 1's report line prints input 0's flag. */
  function DebugInputEffectAsWritten(caps: Caps, s: Ctl, channels: bv32, change: bv32, state: bv32): (r: Outcome)
    ensures var fixed := DebugInputEffect(caps, s, channels, change, state);
      r.ctl == fixed.ctl && |r.out| == |fixed.out|
    ensures r.out == (if caps.hdmiIn0 && channels & 1 != 0 then [Say(DebugState(0, r.ctl.in0Debug))] else [])
                   + (if caps.hdmiIn1 && channels & 2 != 0 then [Say(DebugState(1, r.ctl.in0Debug))] else [])
  {
    DebugInputWith(caps, s, channels, change, state, true)
  }

  /** `debug_input` with input 1's report showing input 1's flag. */
  function DebugInputEffect(caps: Caps, s: Ctl, channels: bv32, change: bv32, state: bv32): (r: Outcome)
    ensures |r.out| == (if caps.hdmiIn0 && channels & 1 != 0 then 1 else 0)
                     + (if caps.hdmiIn1 && channels & 2 != 0 then 1 else 0)
  {
    DebugInputWith(caps, s, channels, change, state, false)
  }

  /** The flag of input n in a state. */
  function Flag(s: Ctl, n: int): bool {
    if n == 0 then s.in0Debug else s.in1Debug
  }

  /** The corrected `debug_input` reports each built-in input whose channel
    * bit is set, input 0 first, with that input's flag as it is after the
    * call; no other line is printed. */
  lemma DebugInputReportsFlags(caps: Caps, s: Ctl, channels: bv32, change: bv32, state: bv32)
    ensures var r := DebugInputEffect(caps, s, channels, change, state);
      r.out == (if caps.hdmiIn0 && channels & 1 != 0 then [Say(DebugState(0, Flag(r.ctl, 0)))] else [])
             + (if caps.hdmiIn1 && channels & 2 != 0 then [Say(DebugState(1, Flag(r.ctl, 1)))] else [])
  {
  }

  /** Every report line of the corrected `debug_input` shows the flag of the
    * input it names, as it is after the call. */
  lemma DebugInputLinesShowFlags(caps: Caps, s: Ctl, channels: bv32, change: bv32, state: bv32, i: nat)
    requires var r := DebugInputEffect(caps, s, channels, change, state); i < |r.out| && r.out[i].Say?
    ensures var r := DebugInputEffect(caps, s, channels, change, state);
      r.out[i].message.DebugState? && r.out[i].message.on == Flag(r.ctl, r.out[i].message.input)
  {
  }

  /** As written, `debug input1 on` with both flags off sets input 1's flag
    * but reports it "off". */
  lemma DebugInputAsWrittenMisreports(caps: Caps, s: Ctl)
    requires caps.hdmiIn1 && !s.in0Debug && !s.in1Debug
    ensures var r := DebugInputEffectAsWritten(caps, s, 2, 2, 2);
      r.ctl.in1Debug && r.out == [Say(DebugState(1, false))]
  {
  }

  /** With no change bit set, `debug_input` is a pure read. */
  lemma DebugInputQueryIsPure(caps: Caps, s: Ctl, channels: bv32)
    ensures DebugInputEffect(caps, s, channels, 0, 0).ctl == s
  {
  }

  /** The mask of the inputs a debug command targets. */
  function ChannelMask(ch: Channels): bv32 {
    match ch
    case BothInputs => 3
    case Input0Only => 1
    case Input1Only => 2
  }

  /** The state bits of a toggle: the negation of each targeted flag, for
    * the inputs that are built in. */
  function ToggleState(caps: Caps, s: Ctl, ch: Channels): (r: bv32)
    ensures r & 1 != 0 <==> (ch.Input0Only? || (ch.BothInputs? && caps.hdmiIn0)) && !s.in0Debug
    ensures r & 2 != 0 <==> (ch.Input1Only? || (ch.BothInputs? && caps.hdmiIn1)) && !s.in1Debug
  {
    match ch
    case BothInputs =>
      (if caps.hdmiIn0 && !s.in0Debug then 1 else 0) | (if caps.hdmiIn1 && !s.in1Debug then 2 else 0)
    case Input0Only => if s.in0Debug then 0 else 1
    case Input1Only => if s.in1Debug then 0 else 2
  }

  /** The `(channels, change, state)` arguments the debug commands pass. */
  function DebugArgs(caps: Caps, s: Ctl, ch: Channels, sw: Switch): (bv32, bv32, bv32) {
    var m := ChannelMask(ch);
    match sw
    case SwitchOn => (m, m, m)
    case SwitchOff => (m, m, 0)
    case SwitchQuery => (m, 0, 0)
    case SwitchToggle => (m, m, ToggleState(caps, s, ch))
  }

  function DebugCommand(caps: Caps, s: Ctl, ch: Channels, sw: Switch): (r: Outcome)
    ensures r.ctl == s.(in0Debug := r.ctl.in0Debug, in1Debug := r.ctl.in1Debug)
    ensures sw.SwitchQuery? ==> r.ctl == s
    ensures Say(Prompt) !in r.out
  {
    var (channels, change, state) := DebugArgs(caps, s, ch, sw);
    DebugInputEffect(caps, s, channels, change, state)
  }

  /** Whether a debug command targets input n. */
  predicate Targets(ch: Channels, n: int) {
    ch.BothInputs? || (n == 0 && ch.Input0Only?) || (n == 1 && ch.Input1Only?)
  }

  /** A toggle negates each targeted built-in input's flag on its own and
    * leaves everything else as it was. */
  lemma DebugToggleNegates(caps: Caps, s: Ctl, ch: Channels)
    ensures var t := DebugCommand(caps, s, ch, SwitchToggle).ctl;
      t.in0Debug == (if caps.hdmiIn0 && Targets(ch, 0) then !s.in0Debug else s.in0Debug) &&
      t.in1Debug == (if caps.hdmiIn1 && Targets(ch, 1) then !s.in1Debug else s.in1Debug) &&
      t == s.(in0Debug := t.in0Debug, in1Debug := t.in1Debug)
  {
  }

  /** Toggling twice gives back the flags as they were. */
  lemma DebugToggleTwice(caps: Caps, s: Ctl, ch: Channels)
    ensures DebugCommand(caps, DebugCommand(caps, s, ch, SwitchToggle).ctl, ch, SwitchToggle).ctl == s
  {
    DebugToggleNegates(caps, s, ch);
    DebugToggleNegates(caps, DebugCommand(caps, s, ch, SwitchToggle).ctl, ch);
  }

  /** On and off force the targeted built-in flags; `?` changes nothing. */
  lemma DebugSwitchSets(caps: Caps, s: Ctl, ch: Channels, sw: Switch)
    requires !sw.SwitchToggle?
    ensures var t := DebugCommand(caps, s, ch, sw).ctl;
      t.in0Debug == (if caps.hdmiIn0 && Targets(ch, 0) && !sw.SwitchQuery? then sw.SwitchOn? else s.in0Debug) &&
      t.in1Debug == (if caps.hdmiIn1 && Targets(ch, 1) && !sw.SwitchQuery? then sw.SwitchOn? else s.in1Debug) &&
      t == s.(in0Debug := t.in0Debug, in1Debug := t.in1Debug)
  {
  }

  // ---- status_print, debug_ddr, debug_freq, status_service ----

  /** `debug_ddr`: latch the bandwidth counters, then report read, write and
    * their 32-bit sum in Mbps. */
  function DdrReport(caps: Caps, hw: Readings): (r: seq<Event>)
    requires caps.WellFormed()
    ensures |r| == 2 && r[0] == Do(DdrBandwidthUpdate) && r[1].Say? && r[1].message.DdrStats?
    ensures var m := r[1].message; m.read < U32 && m.write < U32 && m.all == (m.read + m.write) % U32
    ensures r[1].message.read == DdrMbps(hw.ddrReads, hw.sysFreq, caps.BurstBits())
    ensures r[1].message.write == DdrMbps(hw.ddrWrites, hw.sysFreq, caps.BurstBits())
  {
    var rd := DdrMbps(hw.ddrReads, hw.sysFreq, caps.BurstBits());
    var wr := DdrMbps(hw.ddrWrites, hw.sysFreq, caps.BurstBits());
    [Do(DdrBandwidthUpdate), Say(DdrStats(rd, wr, (rd + wr) % U32))]
  }

  /** `debug_freq`: each input with a frequency counter, in MHz and Hz. */
  function FrequencyReport(caps: Caps, hw: Readings): (r: seq<Event>)
    ensures |r| == (if caps.hdmiIn0Freq then 1 else 0) + (if caps.hdmiIn1Freq then 1 else 0)
  {
    (if caps.hdmiIn0Freq then [Say(InputFrequency(0, hw.in0FreqHz / Mega, hw.in0FreqHz))] else [])
    + (if caps.hdmiIn1Freq then [Say(InputFrequency(1, hw.in1FreqHz / Mega, hw.in1FreqHz))] else [])
  }

  /** Each `debug_freq` line is its own input's counter in Hz, and the whole
    * megahertz in it. */
  lemma FrequencyLinesInMegahertz(caps: Caps, hw: Readings)
    ensures forall e :: e in FrequencyReport(caps, hw) ==>
      e.Say? && e.message.InputFrequency? && (e.message.input == 0 || e.message.input == 1) &&
      e.message.hz == (if e.message.input == 0 then hw.in0FreqHz else hw.in1FreqHz) &&
      e.message.mhz * Mega <= e.message.hz < (e.message.mhz + 1) * Mega
  {
  }

  /** The lines `status_print` writes before the DDR line: one per built-in
    * block. The encoder's byte counter is cleared after an enabled encoder
    * is reported. */
  function BlockLines(caps: Caps, s: Ctl, hw: Readings): (r: seq<Event>)
    requires hw.WellFormed()
    ensures |r| == (if caps.hdmiIn0 then 1 else 0) + (if caps.hdmiIn1 then 1 else 0)
                 + (if caps.hdmiOut0 then 1 else 0) + (if caps.hdmiOut1 then 1 else 0)
                 + (if caps.encoder then (if hw.encoderEnabled then 2 else 1) else 0)
    ensures Do(EncoderBandwidthClear) in r <==> caps.encoder && hw.encoderEnabled
    ensures caps.encoder && hw.encoderEnabled ==>
      r[|r| - 1] == Do(EncoderBandwidthClear) && r[|r| - 2].Say? && r[|r| - 2].message.EncoderStatus?
  {
    (if caps.hdmiIn0 then
       [Say(InputStatus(0, hw.in0Hres, hw.in0Vres, if caps.hdmiIn0Freq then Some(hw.in0FreqHz / 1000) else None))]
     else [])
    + (if caps.hdmiIn1 then
       [Say(InputStatus(1, hw.in1Hres, hw.in1Vres, if caps.hdmiIn1Freq then Some(hw.in1FreqHz / 1000) else None))]
     else [])
    + (if caps.hdmiOut0 then
       [Say(if hw.out0Enabled then OutputStatus(0, hw.hActive, hw.vActive, hw.refresh, s.out0Source) else OutputOff(0))]
     else [])
    + (if caps.hdmiOut1 then
       [Say(if hw.out1Enabled then OutputStatus(1, hw.hActive, hw.vActive, hw.refresh, s.out1Source) else OutputOff(1))]
     else [])
    + (if caps.encoder then
         if hw.encoderEnabled then
           [Say(EncoderStatus(hw.hActive, hw.vActive, hw.encoderFps, EncoderMbps(hw.encoderBytes),
                              s.encoderSource, hw.encoderQuality)),
            Do(EncoderBandwidthClear)]
         else [Say(EncoderOff)]
       else [])
  }

  /** `status_print`: the block lines, then the DDR line. */
  function StatusReport(caps: Caps, s: Ctl, hw: Readings): (r: seq<Event>)
    requires caps.WellFormed() && hw.WellFormed()
    ensures |r| >= 2 && r[|r| - 2] == Do(DdrBandwidthUpdate) && r[|r| - 1].Say? && r[|r| - 1].message.DdrStats?
  {
    BlockLines(caps, s, hw) + DdrReport(caps, hw)
  }

  /** `status_service`: a report, and an empty line, only when the period
    * has elapsed and reporting is on. */
  function StatusService(caps: Caps, s: Ctl, hw: Readings): (r: seq<Event>)
    requires caps.WellFormed() && hw.WellFormed()
    ensures r != [] <==> hw.elapsed && s.statusEnabled
  {
    if hw.elapsed && s.statusEnabled then StatusReport(caps, s, hw) + [Say(LineEnd)] else []
  }

  // ---- dispatch ----

  /** The commands that change the controller state. */
  predicate ChangesState(cmd: Command) {
    cmd.MatrixConnect? || cmd.StatusOn? || cmd.StatusOff? || cmd.DebugInput? || cmd.Unknown?
  }

  /** The sources and sinks `video_matrix list` shows: the built-in ones. */
  function ListedSources(caps: Caps): seq<int> {
    (if caps.hdmiIn0 then [VideoInHdmiIn0] else []) + (if caps.hdmiIn1 then [VideoInHdmiIn1] else []) + [VideoInPattern]
  }

  function ListedSinks(caps: Caps): seq<int> {
    (if caps.hdmiOut0 then [VideoOutHdmiOut0] else []) + (if caps.hdmiOut1 then [VideoOutHdmiOut1] else [])
    + (if caps.encoder then [VideoOutEncoder] else [])
  }

  /** What a command that leaves the controller state alone prints and calls. */
  function Reply(caps: Caps, s: Ctl, cmd: Command, hw: Readings): (r: seq<Event>)
    requires caps.WellFormed() && hw.WellFormed() && !ChangesState(cmd)
    ensures cmd.ModeSet? ==> (r == [] <==> !(0 <= cmd.mode < caps.modeCount))
    ensures cmd.CasButtons? ==> (Do(CasButtonsPendingWrite(hw.casButtonsPending)) in r <==> cmd.clear)
  {
    match cmd
    case Help(topic) => [Say(AvailableCommands), Say(HelpText(topic)), Say(Blank)]
    case Reboot => [Do(CpuReboot)]
    case Version => [Do(PrintVersion)]
    case MatrixList => [Say(MatrixListing(ListedSources(caps), ListedSinks(caps)))]
    case MatrixHelp => [Say(HelpText(HelpVideoMatrix))]
    case ModeList => [Do(ProcessorListModes), Say(ModeListing(caps.modeCount))]
    case ModeSet(m) => VideoModeSet(caps, m)
    case HeartbeatSet(on) => [Do(HbStatus(on)), Say(if on then HeartbeatEnabled else HeartbeatDisabled)]
    case HeartbeatHelp => [Say(HelpText(HelpHeartbeat))]
    case HdpToggle(source) => HdpSequence(caps, source)
    case OutputSet(n, on) =>
      [Say(if on then EnablingOutput(n) else DisablingOutput(n)), Do(OutputEnableWrite(n, if on then 1 else 0))]
    case OutputHelp(n) => [Say(HelpText(if n == VideoOutHdmiOut0 then HelpOutput0 else HelpOutput1))]
    case EncoderSet(on) => [Say(if on then EnablingEncoder else DisablingEncoder), Do(EncoderEnable(if on then 1 else 0))]
    case EncoderQuality(q) => [Say(SettingQuality(q)), Do(EncoderSetQuality(q))]
    case EncoderFps(f) => [Say(SettingFps(f)), Do(EncoderSetFps(f))]
    case EncoderHelp => [Say(HelpText(HelpEncoder))]
    case StatusOnce => StatusReport(caps, s, hw)
    case DebugPll => [Do(PllDump)]
    case DebugDdr => DdrReport(caps, hw)
    case DebugDna => [Do(PrintBoardDna)]
    case DebugFreq => FrequencyReport(caps, hw)
    case DebugOpsisEeprom => [Do(OpsisEepromDump)]
    case DebugTofeEeprom => [Do(TofeEepromDump)]
    case DebugFx2Reboot(fw) => if fw.Some? then [Do(Fx2Reboot(fw.value))] else [Do(Fx2Debug)]
    case DebugEdid(port, token) => if port.Some? then [Do(PrintEdid(port.value))] else [Say(NoEdid(token))]
    case CasLeds(v) => [Do(CasLedsWrite(v))]
    case CasSwitches => [Say(SwitchesHex(hw.casSwitches))]
    case CasButtons(clear) =>
      [Say(ButtonsHex(hw.casButtonsStatus, hw.casButtonsPending))]
      + (if clear then [Do(CasButtonsPendingWrite(hw.casButtonsPending))] else [])
    case CasOther => []
    case DebugHelp => [Say(HelpText(HelpDebug))]
  }

  /** `video_matrix connect`: each argument that names nothing is reported;
    * the connection is made only when both are known. */
  function ConnectCommand(caps: Caps, s: Ctl, source: SourceArg, sink: SinkArg): (r: Outcome)
    ensures r.ctl == s.(out0Source := r.ctl.out0Source, out1Source := r.ctl.out1Source,
                        encoderSource := r.ctl.encoderSource)
    ensures !(source.KnownSource? && sink.KnownSink?) ==> r.ctl == s
    ensures Routed(s) ==> Routed(r.ctl)
    ensures Say(Prompt) !in r.out
  {
    if source.KnownSource? && sink.KnownSink? then Connect(caps, s, source.index, sink.index)
    else Outcome(s,
      (if source.BadSource? then [Say(UnknownSource(source.token))] else [])
      + (if sink.BadSink? then [Say(UnknownSink(sink.token))] else [])
      + [Say(HelpText(HelpVideoMatrix))])
  }

  /** One dispatched command: its new state and its events. */
  function Step(caps: Caps, s: Ctl, cmd: Command, hw: Readings): (r: Outcome)
    requires caps.WellFormed() && hw.WellFormed()
    ensures !ChangesState(cmd) ==> r.ctl == s
  {
    match cmd
    case MatrixConnect(source, sink) => ConnectCommand(caps, s, source, sink)
    case StatusOn => StatusEnable(caps, s)
    case StatusOff => StatusDisable(s)
    case DebugInput(ch, sw) => DebugCommand(caps, s, ch, sw)
    case Unknown => if s.statusEnabled then StatusDisable(s) else Outcome(s, [])
    case _ => Outcome(s, Reply(caps, s, cmd, hw))
  }

  /** A finished line: parse, run, and prompt again (a reboot never returns). */
  function RunLine(caps: Caps, s: Ctl, line: string, hw: Readings): (r: Outcome)
    requires caps.WellFormed() && hw.WellFormed()
    ensures if Parse(caps, line).Reboot? then Say(Prompt) !in r.out
      else r.out != [] && r.out[|r.out| - 1] == Say(Prompt) && Say(Prompt) !in r.out[..|r.out| - 1]
  {
    var cmd := Parse(caps, line);
    var o := Step(caps, s, cmd, hw);
    StepNoPrompt(caps, s, cmd, hw);
    if cmd.Reboot? then o
    else
      var r := Outcome(o.ctl, o.out + [Say(Prompt)]);
      assert r.out[..|r.out| - 1] == o.out;
      r
  }

  /** `ci_service`: the status tick, then the line if one was finished. */
  function Service(caps: Caps, s: Ctl, line: Option<string>, hw: Readings): (r: Outcome)
    requires caps.WellFormed() && hw.WellFormed()
    ensures StatusService(caps, s, hw) <= r.out
    ensures line.None? ==> r == Outcome(s, StatusService(caps, s, hw))
  {
    var tick := StatusService(caps, s, hw);
    match line
    case None => Outcome(s, tick)
    case Some(l) =>
      var o := RunLine(caps, s, l, hw);
      Outcome(o.ctl, tick + o.out)
  }

  // ---- properties of routing ----

  /** Connecting a known source to a built-in sink routes that sink from the
    * source and touches no other sink or flag. */
  lemma ConnectRoutes(caps: Caps, s: Ctl, source: int, sink: int)
    ensures var t := Connect(caps, s, source, sink).ctl;
      var ok := IsSource(source);
      t.out0Source == (if ok && sink == VideoOutHdmiOut0 && caps.hdmiOut0 then source else s.out0Source) &&
      t.out1Source == (if ok && sink == VideoOutHdmiOut1 && caps.hdmiOut1 then source else s.out1Source) &&
      t.encoderSource == (if ok && sink == VideoOutEncoder && caps.encoder then source else s.encoderSource) &&
      t == s.(out0Source := t.out0Source, out1Source := t.out1Source, encoderSource := t.encoderSource)
  {
  }

  /** Repeating a connection changes nothing more. */
  lemma ConnectIdempotent(caps: Caps, s: Ctl, source: int, sink: int)
    ensures var t := Connect(caps, s, source, sink).ctl;
      Connect(caps, t, source, sink).ctl == t
  {
    ConnectRoutes(caps, s, source, sink);
    ConnectRoutes(caps, Connect(caps, s, source, sink).ctl, source, sink);
  }

  /** No command routes a sink from something that is not a source. */
  lemma StepKeepsRouted(caps: Caps, s: Ctl, cmd: Command, hw: Readings)
    requires caps.WellFormed() && hw.WellFormed() && Routed(s)
    ensures Routed(Step(caps, s, cmd, hw).ctl)
  {
    if cmd.MatrixConnect? {
      var source := cmd.source;
      var sink := cmd.sink;
      if source.KnownSource? && sink.KnownSink? {
        assert Step(caps, s, cmd, hw) == Connect(caps, s, source.index, sink.index);
      }
    }
  }

  /** Each global is changed only by the commands that own it: the status
    * flag by `status on|off` and an unknown word, the debug flags by `debug
    * input…`, the routing by `video_matrix connect`. */
  lemma StepChangesOwnGlobals(caps: Caps, s: Ctl, cmd: Command, hw: Readings)
    requires caps.WellFormed() && hw.WellFormed()
    ensures var t := Step(caps, s, cmd, hw).ctl;
      (t.statusEnabled != s.statusEnabled ==> cmd.StatusOn? || cmd.StatusOff? || cmd.Unknown?) &&
      (t.in0Debug != s.in0Debug || t.in1Debug != s.in1Debug ==> cmd.DebugInput?) &&
      ((t.out0Source, t.out1Source, t.encoderSource) != (s.out0Source, s.out1Source, s.encoderSource)
       ==> cmd.MatrixConnect?)
  {
    if cmd.MatrixConnect? {
      assert Step(caps, s, cmd, hw) == ConnectCommand(caps, s, cmd.source, cmd.sink);
    } else if cmd.DebugInput? {
      assert Step(caps, s, cmd, hw) == DebugCommand(caps, s, cmd.channels, cmd.switch);
    }
  }

  // ---- properties of dispatch ----

  /** A parsed line other than reboot runs its command and then prompts. */
  lemma RunParsed(caps: Caps, s: Ctl, line: string, hw: Readings, cmd: Command)
    requires caps.WellFormed() && hw.WellFormed() && Parse(caps, line) == cmd && !cmd.Reboot?
    ensures RunLine(caps, s, line, hw) ==
      Outcome(Step(caps, s, cmd, hw).ctl, Step(caps, s, cmd, hw).out + [Say(Prompt)])
  {
  }

  /** A line whose first word is no command of the build switches status
    * reporting off if it was on, and does nothing else but prompt. */
  lemma UnknownLineSilencesStatus(caps: Caps, s: Ctl, line: string, hw: Readings)
    requires caps.WellFormed() && hw.WellFormed() && Token(line) !in CommandNames(caps)
    ensures RunLine(caps, s, line, hw) ==
      Outcome(s.(statusEnabled := false),
        (if s.statusEnabled then [Say(DisablingStatus)] else []) + [Say(Prompt)])
  {
    ParseUnknown(caps, line);
    RunParsed(caps, s, line, hw, Unknown);
    if !s.statusEnabled {
      assert s.(statusEnabled := false) == s;
    }
  }

  /** A line that parses as `status on` turns reporting on and clears the
    * encoder's byte counter. */
  lemma RunStatusOn(caps: Caps, s: Ctl, line: string, hw: Readings)
    requires caps.WellFormed() && hw.WellFormed() && Parse(caps, line) == StatusOn
    ensures RunLine(caps, s, line, hw) ==
      Outcome(s.(statusEnabled := true),
        [Say(EnablingStatus)] + (if caps.encoder then [Do(EncoderBandwidthClear)] else []) + [Say(Prompt)])
  {
    RunParsed(caps, s, line, hw, StatusOn);
  }

  /** `status on`, typed out. */
  lemma StatusOnScenario(caps: Caps, s: Ctl, hw: Readings)
    requires caps.WellFormed() && hw.WellFormed()
    ensures RunLine(caps, s, "status on", hw) ==
      Outcome(s.(statusEnabled := true),
        [Say(EnablingStatus)] + (if caps.encoder then [Do(EncoderBandwidthClear)] else []) + [Say(Prompt)])
  {
    StatusOnLine(caps);
    RunStatusOn(caps, s, "status on", hw);
  }

  /** A line that parses as a connection of two known arguments runs
    * `video_matrix_connect` on them. */
  lemma RunConnect(caps: Caps, s: Ctl, line: string, hw: Readings, source: int, sink: int)
    requires caps.WellFormed() && hw.WellFormed()
    requires Parse(caps, line) == MatrixConnect(KnownSource(source), KnownSink(sink))
    ensures var c := Connect(caps, s, source, sink);
      RunLine(caps, s, line, hw) == Outcome(c.ctl, c.out + [Say(Prompt)])
  {
    RunParsed(caps, s, line, hw, MatrixConnect(KnownSource(source), KnownSink(sink)));
    assert Step(caps, s, MatrixConnect(KnownSource(source), KnownSink(sink)), hw) == Connect(caps, s, source, sink);
  }

  /** `x c <input0> <output0>` (either word may be the short form) with
    * output 0 built in routes output 0 from input 0. */
  lemma ConnectScenario(caps: Caps, s: Ctl, hw: Readings, source: string, sink: string)
    requires caps.WellFormed() && hw.WellFormed() && caps.hdmiOut0
    requires ' ' !in source && ' ' !in sink
    requires ParseSource(source) == KnownSource(VideoInHdmiIn0) && ParseSink(sink) == KnownSink(VideoOutHdmiOut0)
    ensures RunLine(caps, s, "x c " + source + " " + sink, hw) ==
      Outcome(s.(out0Source := VideoInHdmiIn0),
        [Say(Connecting(VideoInHdmiIn0, VideoOutHdmiOut0)), Do(ProcessorUpdate), Say(Prompt)])
  {
    ConnectLine(caps, source, sink);
    RunConnect(caps, s, "x c " + source + " " + sink, hw, VideoInHdmiIn0, VideoOutHdmiOut0);
  }

  /** The same line without output 0 reports it missing, still resyncs the
    * processor, and routes nothing. */
  lemma ConnectMissingScenario(caps: Caps, s: Ctl, hw: Readings, source: string, sink: string)
    requires caps.WellFormed() && hw.WellFormed() && !caps.hdmiOut0
    requires ' ' !in source && ' ' !in sink
    requires ParseSource(source) == KnownSource(VideoInHdmiIn0) && ParseSink(sink) == KnownSink(VideoOutHdmiOut0)
    ensures RunLine(caps, s, "x c " + source + " " + sink, hw) ==
      Outcome(s, [Say(Connecting(VideoInHdmiIn0, VideoOutHdmiOut0)), Say(OutputMissing(0)),
                  Do(ProcessorUpdate), Say(Prompt)])
  {
    ConnectLine(caps, source, sink);
    RunConnect(caps, s, "x c " + source + " " + sink, hw, VideoInHdmiIn0, VideoOutHdmiOut0);
  }

  /** `m <n>` for a mode past the table prints nothing but the prompt and
    * changes nothing. */
  lemma ModeOutOfRangeScenario(caps: Caps, s: Ctl, n: nat, hw: Readings)
    requires caps.WellFormed() && hw.WellFormed() && n >= caps.modeCount
    ensures RunLine(caps, s, "m " + Decimal(n), hw) == Outcome(s, [Say(Prompt)])
  {
    ModeLine(caps, n);
    RunParsed(caps, s, "m " + Decimal(n), hw, ModeSet(n));
  }

  /** `h on` turns the heartbeat on and says so. */
  lemma HeartbeatScenario(caps: Caps, s: Ctl, hw: Readings)
    requires caps.WellFormed() && hw.WellFormed()
    ensures RunLine(caps, s, "h on", hw) ==
      Outcome(s, [Do(HbStatus(true)), Say(HeartbeatEnabled), Say(Prompt)])
  {
    HeartbeatOnLine(caps);
    RunParsed(caps, s, "h on", hw, HeartbeatSet(true));
  }

  /** `ci_service` run on a console that has already printed `before`: the
    * status tick is appended first, then the finished line's events. */
  lemma ServiceAfter(caps: Caps, s: Ctl, line: Option<string>, hw: Readings, before: seq<Event>)
    requires caps.WellFormed() && hw.WellFormed()
    ensures line.None? ==> Service(caps, s, line, hw) == Outcome(s, StatusService(caps, s, hw))
    ensures line.Some? ==>
      var o := RunLine(caps, s, line.value, hw);
      Service(caps, s, line, hw).ctl == o.ctl &&
      before + Service(caps, s, line, hw).out == before + StatusService(caps, s, hw) + o.out
  {
    var tick := StatusService(caps, s, hw);
    if line.Some? {
      var o := RunLine(caps, s, line.value, hw);
      assert Service(caps, s, line, hw) == Outcome(o.ctl, tick + o.out);
      AppendTwice(before, tick, o.out);
    }
  }

  /** A status report never contains a prompt. */
  lemma NoPromptInStatus(caps: Caps, s: Ctl, hw: Readings)
    requires caps.WellFormed() && hw.WellFormed()
    ensures Say(Prompt) !in StatusService(caps, s, hw)
  {
    if hw.elapsed && s.statusEnabled {
      var lines := BlockLines(caps, s, hw);
      var ddr := DdrReport(caps, hw);
      assert forall e :: e in lines ==> e.Say? ==> !e.message.Prompt?;
      assert Say(Prompt) !in ddr;
      assert StatusService(caps, s, hw) == lines + ddr + [Say(LineEnd)];
    }
  }

  /** Until a line is finished, `ci_service` only runs the status tick: no
    * command, no state change, no prompt. */
  lemma NoLineNoPrompt(caps: Caps, s: Ctl, hw: Readings)
    requires caps.WellFormed() && hw.WellFormed()
    ensures Service(caps, s, None, hw) == Outcome(s, StatusService(caps, s, hw))
    ensures Say(Prompt) !in Service(caps, s, None, hw).out
  {
    NoPromptInStatus(caps, s, hw);
  }

  /** No command prints the prompt itself. */
  lemma StepNoPrompt(caps: Caps, s: Ctl, cmd: Command, hw: Readings)
    requires caps.WellFormed() && hw.WellFormed()
    ensures Say(Prompt) !in Step(caps, s, cmd, hw).out
  {
    if !ChangesState(cmd) {
      ReplyNoPrompt(caps, s, cmd, hw);
    }
  }

  /** The commands that change nothing print no prompt. */
  lemma ReplyNoPrompt(caps: Caps, s: Ctl, cmd: Command, hw: Readings)
    requires caps.WellFormed() && hw.WellFormed() && !ChangesState(cmd)
    ensures Say(Prompt) !in Reply(caps, s, cmd, hw)
  {
    if cmd.StatusOnce? {
      ReportNoPrompt(caps, s, hw);
    } else if cmd.DebugDdr? || cmd.DebugFreq? || cmd.HdpToggle? || cmd.ModeSet? {
      MeasureNoPrompt(caps, s, cmd, hw);
    } else if cmd.Help? || cmd.Reboot? || cmd.Version? || cmd.MatrixList? || cmd.MatrixHelp? ||
              cmd.ModeList? || cmd.HeartbeatSet? || cmd.HeartbeatHelp? || cmd.OutputSet? || cmd.OutputHelp? {
      VideoReplyNoPrompt(caps, s, cmd, hw);
    } else {
      OtherReplyNoPrompt(caps, s, cmd, hw);
    }
  }

  /** `status_print` prints no prompt. */
  lemma ReportNoPrompt(caps: Caps, s: Ctl, hw: Readings)
    requires caps.WellFormed() && hw.WellFormed()
    ensures Say(Prompt) !in StatusReport(caps, s, hw)
  {
  }

  /** The replies built from readings, a mode or a hot-plug source print no
    * prompt. */
  lemma MeasureNoPrompt(caps: Caps, s: Ctl, cmd: Command, hw: Readings)
    requires caps.WellFormed() && hw.WellFormed()
    requires cmd.DebugDdr? || cmd.DebugFreq? || cmd.HdpToggle? || cmd.ModeSet?
    ensures Say(Prompt) !in Reply(caps, s, cmd, hw)
  {
  }

  /** The help, matrix, mode, heartbeat and output replies print no prompt. */
  lemma VideoReplyNoPrompt(caps: Caps, s: Ctl, cmd: Command, hw: Readings)
    requires caps.WellFormed() && hw.WellFormed()
    requires cmd.Help? || cmd.Reboot? || cmd.Version? || cmd.MatrixList? || cmd.MatrixHelp? ||
             cmd.ModeList? || cmd.HeartbeatSet? || cmd.HeartbeatHelp? || cmd.OutputSet? || cmd.OutputHelp?
    ensures Say(Prompt) !in Reply(caps, s, cmd, hw)
  {
  }

  /** The encoder, debug and `cas` replies print no prompt. */
  lemma OtherReplyNoPrompt(caps: Caps, s: Ctl, cmd: Command, hw: Readings)
    requires caps.WellFormed() && hw.WellFormed() && !ChangesState(cmd)
    requires !(cmd.StatusOnce? || cmd.DebugDdr? || cmd.DebugFreq? || cmd.HdpToggle? || cmd.ModeSet?)
    requires !(cmd.Help? || cmd.Reboot? || cmd.Version? || cmd.MatrixList? || cmd.MatrixHelp? ||
               cmd.ModeList? || cmd.HeartbeatSet? || cmd.HeartbeatHelp? || cmd.OutputSet? || cmd.OutputHelp?)
    ensures Say(Prompt) !in Reply(caps, s, cmd, hw)
  {
  }

  /** A finished line that is not `reboot` always ends with a prompt. */
  lemma LineEndsWithPrompt(caps: Caps, s: Ctl, line: string, hw: Readings)
    requires caps.WellFormed() && hw.WellFormed() && !Parse(caps, line).Reboot?
    ensures var o := Service(caps, s, Some(line), hw); o.out != [] && o.out[|o.out| - 1] == Say(Prompt)
  {
  }

  /** `debug cas buttons` writes back exactly the pending bits it read, and
    * only when asked to clear them. */
  lemma CasButtonsClear(caps: Caps, s: Ctl, clear: bool, hw: Readings, pending: nat)
    requires caps.WellFormed() && hw.WellFormed()
    ensures Do(CasButtonsPendingWrite(pending)) in Step(caps, s, CasButtons(clear), hw).out
      <==> clear && pending == hw.casButtonsPending
    ensures Step(caps, s, CasButtons(clear), hw).ctl == s
  {
    var out := Step(caps, s, CasButtons(clear), hw).out;
    assert out == [Say(ButtonsHex(hw.casButtonsStatus, hw.casButtonsPending))]
      + (if clear then [Do(CasButtonsPendingWrite(hw.casButtonsPending))] else []);
  }
}
