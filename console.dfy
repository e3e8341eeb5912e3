/** The console as `ci.c` runs it: the globals it reads and writes, the line
  * editor's static buffer, and one `ci_service` call after another. Every
  * method is proved to do what the matching function of `Control` says. */
module Console {
  import opened Wrappers
  import opened Board
  import opened Events
  import opened Numbers
  import opened Commands
  import opened Control
  import opened LineEdit

  class Console {
    /** The blocks this firmware was built with. */
    const caps: Caps
    /** `readstr`'s static buffer and cursor. */
    const editor: LineEditor
    var statusEnabled: bool
    var in0Debug: bool
    var in1Debug: bool
    var out0Source: int
    var out1Source: int
    var encoderSource: int
    /** Everything printed and every external call made so far, in order. */
    var trace: seq<Event>

    function State(): Ctl
      reads this
    {
      Ctl(statusEnabled, in0Debug, in1Debug, out0Source, out1Source, encoderSource)
    }

    ghost predicate Valid()
      reads this, editor
    {
      caps.WellFormed() && editor.Valid() && Routed(State())
    }

    constructor (caps: Caps, init: Ctl)
      requires caps.WellFormed() && Routed(init)
      ensures Valid() && fresh(editor) && fresh(editor.buf)
      ensures this.caps == caps && State() == init && trace == [] && editor.Pending() == []
    {
      this.caps := caps;
      editor := new LineEditor();
      statusEnabled := init.statusEnabled;
      in0Debug := init.in0Debug;
      in1Debug := init.in1Debug;
      out0Source := init.out0Source;
      out1Source := init.out1Source;
      encoderSource := init.encoderSource;
      trace := [];
    }

    /** `status_enable`. */
    method StatusEnable()
      requires Valid()
      modifies this
      ensures Valid()
      ensures var o := Control.StatusEnable(caps, old(State()));
        State() == o.ctl && trace == old(trace) + o.out
    {
      trace := trace + [Say(EnablingStatus)];
      statusEnabled := true;
      if caps.encoder {
        trace := trace + [Do(EncoderBandwidthClear)];
      }
    }

    /** `status_disable`. */
    method StatusDisable()
      requires Valid()
      modifies this
      ensures Valid()
      ensures var o := Control.StatusDisable(old(State()));
        State() == o.ctl && trace == old(trace) + o.out
    {
      trace := trace + [Say(DisablingStatus)];
      statusEnabled := false;
    }

    /** `video_matrix_connect`. */
    method VideoMatrixConnect(source: int, sink: int)
      requires Valid()
      modifies this
      ensures Valid()
      ensures var o := Connect(caps, old(State()), source, sink);
        State() == o.ctl && trace == old(trace) + o.out
    {
      if 0 <= source <= VideoInPattern {
        if 0 <= sink <= VideoOutHdmiOut1 {
          trace := trace + [Say(Connecting(source, sink))];
          if sink == VideoOutHdmiOut0 {
            if caps.hdmiOut0 {
              out0Source := source;
            } else {
              trace := trace + [Say(OutputMissing(0))];
            }
          } else if sink == VideoOutHdmiOut1 {
            if caps.hdmiOut1 {
              out1Source := source;
            } else {
              trace := trace + [Say(OutputMissing(1))];
            }
          }
          trace := trace + [Do(ProcessorUpdate)];
        } else if caps.encoder && sink == VideoOutEncoder {
          trace := trace + [Say(ConnectingEncoder(source)), Do(ProcessorUpdate)];
          encoderSource := source;
        }
      }
    }

    /** `video_mode_set`, with the range check on both ends. */
    method VideoModeSet(mode: int)
      requires Valid()
      modifies this
      ensures Valid()
      ensures State() == old(State()) && trace == old(trace) + Control.VideoModeSet(caps, mode)
    {
      if 0 <= mode < caps.modeCount {
        trace := trace + [Do(ProcessorListModes), Say(SettingMode(mode))];
        trace := trace + [Do(ConfigSetResolution(mode))];
        trace := trace + [Do(ProcessorStart(mode))];
      }
    }

    /** `hdp_toggle`. */
    method HdpToggle(source: int)
      requires Valid()
      modifies this
      ensures Valid()
      ensures State() == old(State()) && trace == old(trace) + HdpSequence(caps, source)
    {
      trace := trace + [Say(TogglingHdp(source))];
      if caps.hdmiIn0 {
        if source == VideoInHdmiIn0 {
          trace := trace + [Do(HpdWrite(VideoInHdmiIn0, 0))];
          trace := trace + [Do(HpdWrite(VideoInHdmiIn0, 1))];
        }
      } else {
        trace := trace + [Say(InputMissing(0))];
      }
      if caps.hdmiIn1 {
        if source == VideoInHdmiIn1 {
          trace := trace + [Do(HpdWrite(VideoInHdmiIn1, 0))];
          trace := trace + [Do(HpdWrite(VideoInHdmiIn1, 1))];
        }
      } else {
        trace := trace + [Say(InputMissing(1))];
      }
    }

    /** `debug_input`, with input 1's report showing input 1's flag. */
    method DebugInput(channels: bv32, change: bv32, state: bv32)
      requires Valid()
      modifies this
      ensures Valid()
      ensures var o := DebugInputEffect(caps, old(State()), channels, change, state);
        State() == o.ctl && trace == old(trace) + o.out
    {
      if caps.hdmiIn0 && channels & 1 != 0 {
        if change & 1 != 0 {
          in0Debug := state & 1 != 0;
        }
        trace := trace + [Say(DebugState(0, in0Debug))];
      }
      if caps.hdmiIn1 && channels & 2 != 0 {
        if change & 2 != 0 {
          in1Debug := state & 2 != 0;
        }
        trace := trace + [Say(DebugState(1, in1Debug))];
      }
    }

    /** `debug_ddr`: the rates come from the `log2` loop. */
    method DebugDdr(hw: Readings)
      requires Valid()
      modifies this
      ensures Valid()
      ensures State() == old(State()) && trace == old(trace) + DdrReport(caps, hw)
    {
      trace := trace + [Do(DdrBandwidthUpdate)];
      var lg := Log2(caps.BurstBits());
      var scale := Pow2(24 - lg);
      var rdb := (hw.ddrReads * hw.sysFreq) % U64 / scale / Mega % U32;
      var wrb := (hw.ddrWrites * hw.sysFreq) % U64 / scale / Mega % U32;
      trace := trace + [Say(DdrStats(rdb, wrb, (rdb + wrb) % U32))];
    }

    /** `status_print`. */
    method StatusPrint(hw: Readings)
      requires Valid() && hw.WellFormed()
      modifies this
      ensures Valid()
      ensures State() == old(State()) && trace == old(trace) + StatusReport(caps, State(), hw)
    {
      trace := trace + BlockLines(caps, State(), hw);
      DebugDdr(hw);
    }

    /** `status_service`: `elapsed()` is the `hw.elapsed` reading. */
    method StatusService(hw: Readings)
      requires Valid() && hw.WellFormed()
      modifies this
      ensures Valid()
      ensures State() == old(State()) && trace == old(trace) + Control.StatusService(caps, State(), hw)
    {
      if hw.elapsed && statusEnabled {
        StatusPrint(hw);
        trace := trace + [Say(LineEnd)];
      }
    }

    /** `video_matrix connect`: a known source and sink are connected; any
      * unknown name is reported, followed by the command's help. */
    method MatrixConnect(source: SourceArg, sink: SinkArg)
      requires Valid()
      modifies this
      ensures Valid()
      ensures var o := ConnectCommand(caps, old(State()), source, sink);
        State() == o.ctl && trace == old(trace) + o.out
    {
      if source.KnownSource? && sink.KnownSink? {
        VideoMatrixConnect(source.index, sink.index);
      } else {
        if source.BadSource? {
          trace := trace + [Say(UnknownSource(source.token))];
        }
        if sink.BadSink? {
          trace := trace + [Say(UnknownSink(sink.token))];
        }
        trace := trace + [Say(HelpText(HelpVideoMatrix))];
      }
    }

    /** A branch of `ci_service` that leaves the controller state alone. */
    method Respond(cmd: Command, hw: Readings)
      requires Valid() && hw.WellFormed() && !ChangesState(cmd)
      modifies this
      ensures Valid()
      ensures State() == old(State()) && trace == old(trace) + Reply(caps, old(State()), cmd, hw)
    {
      if cmd.ModeSet? {
        VideoModeSet(cmd.mode);
      } else if cmd.HdpToggle? {
        HdpToggle(cmd.hdpSource);
      } else if cmd.StatusOnce? {
        StatusPrint(hw);
      } else if cmd.DebugDdr? {
        DebugDdr(hw);
      } else {
        trace := trace + Reply(caps, State(), cmd, hw);
      }
    }

    /** The branch of `ci_service` a parsed command selects. */
    method Execute(cmd: Command, hw: Readings)
      requires Valid() && hw.WellFormed()
      modifies this
      ensures Valid()
      ensures var o := Step(caps, old(State()), cmd, hw);
        State() == o.ctl && trace == old(trace) + o.out
    {
      if ChangesState(cmd) {
        Change(cmd, hw);
      } else {
        ghost var s0 := State();
        assert Step(caps, s0, cmd, hw) == Outcome(s0, Reply(caps, s0, cmd, hw));
        Respond(cmd, hw);
      }
    }

    /** The branches of `ci_service` that change a global. */
    method Change(cmd: Command, hw: Readings)
      requires Valid() && hw.WellFormed() && ChangesState(cmd)
      modifies this
      ensures Valid()
      ensures var o := Step(caps, old(State()), cmd, hw);
        State() == o.ctl && trace == old(trace) + o.out
    {
      ghost var s0 := State();
      if cmd.MatrixConnect? {
        assert Step(caps, s0, cmd, hw) == ConnectCommand(caps, s0, cmd.source, cmd.sink);
        MatrixConnect(cmd.source, cmd.sink);
      } else if cmd.StatusOn? {
        assert Step(caps, s0, cmd, hw) == Control.StatusEnable(caps, s0);
        StatusEnable();
      } else if cmd.StatusOff? {
        assert Step(caps, s0, cmd, hw) == Control.StatusDisable(s0);
        StatusDisable();
      } else if cmd.DebugInput? {
        var (channels, change, state) := DebugArgs(caps, State(), cmd.channels, cmd.switch);
        assert Step(caps, s0, cmd, hw) == DebugInputEffect(caps, s0, channels, change, state);
        DebugInput(channels, change, state);
      } else if statusEnabled {
        StatusDisable();
      }
    }

    /** The handling of a finished line in `ci_service`: its command, then the
      * prompt unless the command rebooted. */
    method RunLine(line: string, hw: Readings)
      requires Valid() && hw.WellFormed()
      modifies this
      ensures Valid()
      ensures var o := Control.RunLine(caps, old(State()), line, hw);
        State() == o.ctl && trace == old(trace) + o.out
    {
      var cmd := Parse(caps, line);
      Execute(cmd, hw);
      if !cmd.Reboot? {
        trace := trace + [Say(Prompt)];
      }
    }

    /** `ci_service`: the status tick, then at most one character for the
      * line editor, and a command once a line is finished. */
    method Service(input: Option<char>, hw: Readings)
      requires Valid() && hw.WellFormed()
      modifies this, editor, editor.buf
      ensures Valid()
      ensures input.None? ==> editor.Pending() == old(editor.Pending())
      ensures input.Some? ==> editor.Pending() == Edit(old(editor.Pending()), input.value).kept
      ensures var line := if input.Some? then Edit(old(editor.Pending()), input.value).line else None;
        var o := Control.Service(caps, old(State()), line, hw);
        State() == o.ctl && trace == old(trace) + o.out
    {
      ghost var s0 := State();
      ghost var t0 := trace;
      ghost var tick := Control.StatusService(caps, s0, hw);
      StatusService(hw);
      ghost var t1 := trace;
      assert t1 == t0 + tick;
      var line := editor.ReadStr(input);
      assert State() == s0;
      ServiceAfter(caps, s0, line, hw, t0);
      if line.Some? {
        RunLine(line.value, hw);
      }
    }
  }
}
