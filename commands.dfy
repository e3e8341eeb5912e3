/** The command language of `ci_service`: the alias-matching chain that turns
  * a finished line into one command. */
module Commands {
  import opened Wrappers
  import opened Board
  import opened Events
  import opened Numbers
  import opened Tokenizer

  datatype SourceArg = KnownSource(index: int) | BadSource(token: string)
  datatype SinkArg = KnownSink(index: int) | BadSink(token: string)

  /** Which debug flags a `debug` command targets. */
  datatype Channels = BothInputs | Input0Only | Input1Only
  /** The argument of a debug-flag command: on, off, `?` (query) or anything
    * else, which toggles. */
  datatype Switch = SwitchOn | SwitchOff | SwitchQuery | SwitchToggle

  datatype Command =
    | Help(topic: Topic)
    | Reboot
    | Version
    | MatrixList
    | MatrixConnect(source: SourceArg, sink: SinkArg)
    | MatrixHelp
    | ModeList
    | ModeSet(mode: int)
    | HeartbeatSet(on: bool)
    | HeartbeatHelp
    | HdpToggle(hdpSource: int)
    | OutputSet(output: int, enable: bool)
    | OutputHelp(helpOutput: int)
    | EncoderSet(encoderOn: bool)
    | EncoderQuality(quality: int)
    | EncoderFps(fps: int)
    | EncoderHelp
    | StatusOn
    | StatusOff
    | StatusOnce
    | DebugPll
    | DebugInput(channels: Channels, switch: Switch)
    | DebugDdr
    | DebugDna
    | DebugFreq
    | DebugOpsisEeprom
    | DebugTofeEeprom
    | DebugFx2Reboot(firmware: Option<Firmware>)
    | DebugEdid(edidOutput: Option<int>, edidToken: string)
    | CasLeds(leds: int)
    | CasSwitches
    | CasButtons(clear: bool)
    | CasOther
    | DebugHelp
    | Unknown

  /** The next token of a line, "" once the line is used up. */
  function Token(s: string): string { Split(s).0 }
  /** What is left of a line after its next token. */
  function Rest(s: string): string { Split(s).1 }

  /** The command families of `ci_service`, one per branch of its chain. */
  datatype Family = FamHelp | FamReboot | FamVersion | FamMatrix | FamMode
                  | FamHeartbeat | FamHdpToggle | FamOutput0 | FamOutput1
                  | FamEncoder | FamStatus | FamDebug

  /** The first tokens `ci_service` recognises on a given build. */
  function CommandNames(caps: Caps): set<string> {
    {"help", "reboot", "version", "video_matrix", "x", "video_mode", "m",
     "heartbeat", "h", "hdp_toggle", "status", "s", "debug", "d"}
    + (if caps.hdmiOut0 then {"output0", "0"} else {})
    + (if caps.hdmiOut1 then {"output1", "1"} else {})
    + (if caps.encoder then {"encoder", "e"} else {})
  }

  /** The family a first token selects, by its name or its alias; a family
    * whose block is not built in is not selectable. */
  function FamilyOf(caps: Caps, t: string): Option<Family>
  {
    if t == "help" then Some(FamHelp)
    else if t == "reboot" then Some(FamReboot)
    else if t == "version" then Some(FamVersion)
    else if t == "video_matrix" || t == "x" then Some(FamMatrix)
    else if t == "video_mode" || t == "m" then Some(FamMode)
    else if t == "heartbeat" || t == "h" then Some(FamHeartbeat)
    else if t == "hdp_toggle" then Some(FamHdpToggle)
    else if caps.hdmiOut0 && (t == "output0" || t == "0") then Some(FamOutput0)
    else if caps.hdmiOut1 && (t == "output1" || t == "1") then Some(FamOutput1)
    else if caps.encoder && (t == "encoder" || t == "e") then Some(FamEncoder)
    else if t == "status" || t == "s" then Some(FamStatus)
    else if t == "debug" || t == "d" then Some(FamDebug)
    else None
  }

  /** `ci_service`'s dispatch on a finished line. */
  function Parse(caps: Caps, line: string): (r: Command)
    ensures r.Unknown? <==> FamilyOf(caps, Token(line)).None?
  {
    match FamilyOf(caps, Token(line))
    case None => Unknown
    case Some(f) => ParseFamily(caps, f, Rest(line))
  }

  /** The rest of the line r, read by the branch of family f. */
  function ParseFamily(caps: Caps, f: Family, r: string): (c: Command)
    ensures !c.Unknown?
  {
    match f
    case FamHelp => Help(HelpTopic(caps, Token(r)))
    case FamReboot => Reboot
    case FamVersion => Version
    case FamMatrix => ParseMatrix(r)
    case FamMode => ParseMode(r)
    case FamHeartbeat => ParseHeartbeat(r)
    case FamHdpToggle => HdpToggle(Atoi(Token(r)))
    case FamOutput0 => ParseOutput(VideoOutHdmiOut0, r)
    case FamOutput1 => ParseOutput(VideoOutHdmiOut1, r)
    case FamEncoder => ParseEncoder(r)
    case FamStatus => ParseStatus(r)
    case FamDebug => ParseDebug(caps, r)
  }

  /** `help <topic>`: topics of absent blocks, and unknown ones, give the
    * full help. */
  function HelpTopic(caps: Caps, t: string): Topic {
    if t == "video_matrix" then HelpVideoMatrix
    else if t == "video_mode" then HelpVideoMode
    else if t == "hdp_toggle" then HelpHdpToggle
    else if caps.hdmiOut0 && t == "output0" then HelpOutput0
    else if caps.hdmiOut1 && t == "output1" then HelpOutput1
    else if caps.encoder && t == "encoder" then HelpEncoder
    else if t == "debug" then HelpDebug
    else if t == "heartbeat" then HelpHeartbeat
    else HelpAll
  }

  function ParseSource(t: string): SourceArg {
    if t == "input0" || t == "0" then KnownSource(VideoInHdmiIn0)
    else if t == "input1" || t == "1" then KnownSource(VideoInHdmiIn1)
    else if t == "pattern" || t == "p" then KnownSource(VideoInPattern)
    else BadSource(t)
  }

  function ParseSink(t: string): SinkArg {
    if t == "output0" || t == "0" then KnownSink(VideoOutHdmiOut0)
    else if t == "output1" || t == "1" then KnownSink(VideoOutHdmiOut1)
    else if t == "encoder" || t == "e" then KnownSink(VideoOutEncoder)
    else BadSink(t)
  }

  function ParseMatrix(r: string): (c: Command)
    ensures !c.Unknown?
  {
    var t := Token(r);
    if t == "list" || t == "l" then MatrixList
    else if t == "connect" || t == "c" then
      var args := Rest(r);
      MatrixConnect(ParseSource(Token(args)), ParseSink(Token(Rest(args))))
    else MatrixHelp
  }

  function ParseMode(r: string): (c: Command)
    ensures !c.Unknown?
  {
    var t := Token(r);
    if t == "list" || t == "l" then ModeList else ModeSet(Atoi(t))
  }

  function ParseHeartbeat(r: string): (c: Command)
    ensures !c.Unknown?
  {
    var t := Token(r);
    if t == "on" then HeartbeatSet(true)
    else if t == "off" then HeartbeatSet(false)
    else HeartbeatHelp
  }

  function ParseOutput(n: int, r: string): (c: Command)
    ensures !c.Unknown?
  {
    var t := Token(r);
    if t == "on" then OutputSet(n, true)
    else if t == "off" then OutputSet(n, false)
    else OutputHelp(n)
  }

  function ParseEncoder(r: string): (c: Command)
    ensures !c.Unknown?
  {
    var t := Token(r);
    if t == "on" then EncoderSet(true)
    else if t == "off" then EncoderSet(false)
    else if t == "quality" then EncoderQuality(Atoi(Token(Rest(r))))
    else if t == "fps" then EncoderFps(Atoi(Token(Rest(r))))
    else EncoderHelp
  }

  function ParseStatus(r: string): (c: Command)
    ensures !c.Unknown?
  {
    var t := Token(r);
    if t == "on" then StatusOn
    else if t == "off" then StatusOff
    else StatusOnce
  }

  /** The argument of `debug input...`: anything but on, off and `?`,
    * including a missing one, asks for a toggle. */
  function ParseSwitch(t: string): Switch {
    if t == "on" then SwitchOn
    else if t == "off" then SwitchOff
    else if t != "?" then SwitchToggle
    else SwitchQuery
  }

  /** The sub-commands of `debug`, one per branch of its chain. */
  datatype DebugWord = DwPll | DwInput | DwOn | DwOff | DwQuery | DwInput0 | DwInput1
                     | DwDdr | DwDna | DwFreq | DwOpsisEeprom | DwTofeEeprom
                     | DwFx2Reboot | DwEdid | DwCas

  /** The sub-command a token after `debug` selects; those of blocks that are
    * not built in are not selectable. */
  function DebugWordOf(caps: Caps, t: string): Option<DebugWord> {
    var anyInput := caps.hdmiIn0 || caps.hdmiIn1;
    if t == "pll" then Some(DwPll)
    else if anyInput && t == "input" then Some(DwInput)
    else if anyInput && t == "on" then Some(DwOn)
    else if anyInput && t == "off" then Some(DwOff)
    else if anyInput && t == "?" then Some(DwQuery)
    else if caps.hdmiIn0 && (t == "input0" || t == "0") then Some(DwInput0)
    else if caps.hdmiIn1 && (t == "input1" || t == "1") then Some(DwInput1)
    else if t == "ddr" then Some(DwDdr)
    else if t == "dna" then Some(DwDna)
    else if t == "freq" then Some(DwFreq)
    else if caps.opsisEeprom && t == "opsis_eeprom" then Some(DwOpsisEeprom)
    else if caps.tofeEeprom && t == "tofe_eeprom" then Some(DwTofeEeprom)
    else if caps.fx2 && t == "fx2_reboot" then Some(DwFx2Reboot)
    else if t == "edid" then Some(DwEdid)
    else if caps.cas && t == "cas" then Some(DwCas)
    else None
  }

  function ParseDebug(caps: Caps, r: string): (c: Command)
    ensures !c.Unknown?
  {
    match DebugWordOf(caps, Token(r))
    case None => DebugHelp
    case Some(w) => ParseDebugWord(caps, w, Rest(r))
  }

  /** The arguments `args` of the debug sub-command w. */
  function ParseDebugWord(caps: Caps, w: DebugWord, args: string): (c: Command)
    ensures !c.Unknown?
  {
    match w
    case DwPll => DebugPll
    case DwInput => DebugInput(BothInputs, ParseSwitch(Token(args)))
    case DwOn => DebugInput(BothInputs, SwitchOn)
    case DwOff => DebugInput(BothInputs, SwitchOff)
    case DwQuery => DebugInput(BothInputs, SwitchQuery)
    case DwInput0 => DebugInput(Input0Only, ParseSwitch(Token(args)))
    case DwInput1 => DebugInput(Input1Only, ParseSwitch(Token(args)))
    case DwDdr => DebugDdr
    case DwDna => DebugDna
    case DwFreq => DebugFreq
    case DwOpsisEeprom => DebugOpsisEeprom
    case DwTofeEeprom => DebugTofeEeprom
    case DwFx2Reboot =>
      var f := Token(args);
      DebugFx2Reboot(
        if f == "usbjtag" then Some(UsbJtag)
        else if caps.encoder && f == "hdmi2usb" then Some(Hdmi2Usb)
        else None)
    case DwEdid =>
      var p := Token(args);
      DebugEdid(
        if caps.hdmiOut0I2c && p == "output0" then Some(VideoOutHdmiOut0)
        else if caps.hdmiOut1I2c && p == "output1" then Some(VideoOutHdmiOut1)
        else None,
        p)
    case DwCas =>
      var sub := Token(args);
      if sub == "leds" then CasLeds(Atoi(Token(Rest(args))))
      else if sub == "switches" then CasSwitches
      else if sub == "buttons" then CasButtons(Token(Rest(args)) == "clear")
      else CasOther
  }

  // ---- properties of the dispatch ----

  /** The chain recognises exactly the names and aliases of the table. */
  lemma {:induction false} FamilyOfNames(caps: Caps, t: string)
    ensures FamilyOf(caps, t).None? <==> t !in CommandNames(caps)
  {
  }

  /** A line is the Unknown command exactly when its first token is none of
    * the build's command names or aliases. */
  lemma {:induction false} ParseUnknown(caps: Caps, line: string)
    ensures Parse(caps, line).Unknown? <==> Token(line) !in CommandNames(caps)
  {
    FamilyOfNames(caps, Token(line));
  }

  /** A line made of a space-free word, a space and more text starts with
    * that word. */
  lemma {:induction false} TokenOf(word: string, rest: string)
    requires ' ' !in word
    ensures Token(word + " " + rest) == word && Rest(word + " " + rest) == rest
  {
    assert word + " " + rest == word + [' '] + rest;
    SplitUnique(word, rest);
  }

  /** The single-character aliases of `ci_service`, with the names they
    * stand for on a given build. */
  function Aliases(caps: Caps): set<(string, string)> {
    BaseAliases()
    + (if caps.hdmiOut0 then {("0", "output0")} else {})
    + (if caps.hdmiOut1 then {("1", "output1")} else {})
    + (if caps.encoder then {("e", "encoder")} else {})
  }

  /** An alias and the name it stands for select the same family. */
  lemma {:induction false} AliasFamily(caps: Caps, alias: string, name: string)
    requires (alias, name) in Aliases(caps)
    ensures FamilyOf(caps, alias) == FamilyOf(caps, name) != None
  {
    if (alias, name) in BaseAliases() {
      BaseAliasFamily(caps, alias, name);
    }
  }

  /** The aliases every build has. */
  function BaseAliases(): set<(string, string)> {
    {("x", "video_matrix"), ("m", "video_mode"), ("h", "heartbeat"),
     ("s", "status"), ("d", "debug")}
  }

  lemma {:induction false} BaseAliasFamily(caps: Caps, alias: string, name: string)
    requires (alias, name) in BaseAliases()
    ensures FamilyOf(caps, alias) == FamilyOf(caps, name) != None
  {
  }

  lemma {:induction false} AliasWords(caps: Caps, alias: string, name: string)
    requires (alias, name) in Aliases(caps)
    ensures ' ' !in alias && ' ' !in name
  {
  }

  /** Whatever follows it, an alias does what the name it stands for does. */
  lemma {:induction false} AliasesAgree(caps: Caps, alias: string, name: string, rest: string)
    requires (alias, name) in Aliases(caps)
    ensures Parse(caps, alias + " " + rest) == Parse(caps, name + " " + rest)
  {
    AliasFamily(caps, alias, name);
    AliasWords(caps, alias, name);
    TokenOf(alias, rest);
    TokenOf(name, rest);
  }

  /** A line that starts with a command word runs that word's family on the
    * rest of the line. */
  lemma {:induction false} ParseWord(caps: Caps, word: string, rest: string, f: Family)
    requires ' ' !in word && FamilyOf(caps, word) == Some(f)
    ensures Parse(caps, word + " " + rest) == ParseFamily(caps, f, rest)
  {
    TokenOf(word, rest);
  }

  /** After `debug`, a line that starts with a sub-command word runs that
    * sub-command on the rest of the line. */
  lemma {:induction false} ParseDebugWordAt(caps: Caps, word: string, rest: string, w: DebugWord)
    requires ' ' !in word && DebugWordOf(caps, word) == Some(w)
    ensures ParseDebug(caps, word + " " + rest) == ParseDebugWord(caps, w, rest)
    ensures ParseDebug(caps, word) == ParseDebugWord(caps, w, [])
  {
    TokenOf(word, rest);
  }

  /** A `debug` line runs the debug sub-dispatch on the rest of the line. */
  lemma {:induction false} ParseDebugLine(caps: Caps, sub: string)
    ensures Parse(caps, "debug" + " " + sub) == ParseFamily(caps, FamDebug, sub)
  {
    FamilyOfDebug(caps);
    ParseWord(caps, "debug", sub, FamDebug);
  }

  lemma {:induction false} DebugFamily(caps: Caps, r: string)
    ensures ParseFamily(caps, FamDebug, r) == ParseDebug(caps, r)
  {
    var f := FamDebug;
    assert f.FamDebug?;
    assert ParseFamily(caps, f, r) == ParseDebug(caps, r);
  }

  lemma {:induction false} FamilyOfDebug(caps: Caps)
    ensures FamilyOf(caps, "debug") == Some(FamDebug)
  {
  }

  /** `debug input0 <arg>`: any argument other than on, off and `?` toggles
    * input 0's flag. */
  lemma {:induction false} DebugInput0Toggles(caps: Caps, arg: string)
    requires caps.hdmiIn0 && ' ' !in arg
    requires arg != "on" && arg != "off" && arg != "?"
    ensures Parse(caps, "debug input0 " + arg) == DebugInput(Input0Only, SwitchToggle)
  {
    var sub := "input0" + " " + arg;
    DebugInput0Words(arg);
    ParseDebugLine(caps, sub);
    DebugFamily(caps, sub);
    Input0Toggles(caps, arg);
  }

  lemma {:induction false} DebugInput0Words(arg: string)
    ensures "debug input0 " + arg == "debug" + " " + ("input0" + " " + arg)
  {
    assert "debug input0 " == "debug" + " " + "input0" + " ";
  }

  lemma {:induction false} Input0Toggles(caps: Caps, arg: string)
    requires caps.hdmiIn0 && ' ' !in arg
    requires arg != "on" && arg != "off" && arg != "?"
    ensures ParseDebug(caps, "input0" + " " + arg) == DebugInput(Input0Only, SwitchToggle)
  {
    ParseDebugWordAt(caps, "input0", arg, DwInput0);
    assert Token(arg) == arg;
  }

  /** `debug input0` with its argument missing toggles too. */
  lemma {:induction false} DebugInput0BareToggles(caps: Caps)
    requires caps.hdmiIn0
    ensures Parse(caps, "debug input0") == DebugInput(Input0Only, SwitchToggle)
  {
    DebugInput0BareWords();
    ParseDebugLine(caps, "input0");
    DebugFamily(caps, "input0");
    Input0BareToggles(caps);
  }

  lemma DebugInput0BareWords()
    ensures "debug input0" == "debug" + " " + "input0"
  {
  }

  lemma {:induction false} Input0BareToggles(caps: Caps)
    requires caps.hdmiIn0
    ensures ParseDebug(caps, "input0") == DebugInput(Input0Only, SwitchToggle)
  {
    ParseDebugWordAt(caps, "input0", [], DwInput0);
    assert Token([]) == [];
  }

  // ---- lines of the worked scenarios ----

  lemma FamilyOfShortNames(caps: Caps)
    ensures FamilyOf(caps, "x") == Some(FamMatrix) && FamilyOf(caps, "m") == Some(FamMode)
    ensures FamilyOf(caps, "h") == Some(FamHeartbeat) && FamilyOf(caps, "status") == Some(FamStatus)
  {
  }

  lemma {:induction false} MatrixFamily(caps: Caps, r: string)
    ensures ParseFamily(caps, FamMatrix, r) == ParseMatrix(r)
  {
  }

  lemma {:induction false} ModeFamily(caps: Caps, r: string)
    ensures ParseFamily(caps, FamMode, r) == ParseMode(r)
  {
  }

  lemma {:induction false} HeartbeatFamily(caps: Caps, r: string)
    ensures ParseFamily(caps, FamHeartbeat, r) == ParseHeartbeat(r)
  {
  }

  lemma {:induction false} StatusFamily(caps: Caps, r: string)
    ensures ParseFamily(caps, FamStatus, r) == ParseStatus(r)
  {
  }

  lemma {:induction false} ConnectWords(source: string, sink: string)
    ensures "x c " + source + " " + sink == "x" + " " + ("c" + " " + (source + " " + sink))
  {
    assert "x c " == "x" + " " + "c" + " ";
  }

  lemma {:induction false} ConnectArgs(source: string, sink: string)
    requires ' ' !in source && ' ' !in sink
    ensures ParseMatrix("c" + " " + (source + " " + sink)) == MatrixConnect(ParseSource(source), ParseSink(sink))
  {
    TokenOf("c", source + " " + sink);
    TokenOf(source, sink);
    assert Token(sink) == sink;
  }

  /** `x c <source> <sink>` connects the source and sink its two words name. */
  lemma {:induction false} ConnectLine(caps: Caps, source: string, sink: string)
    requires ' ' !in source && ' ' !in sink
    ensures Parse(caps, "x c " + source + " " + sink) == MatrixConnect(ParseSource(source), ParseSink(sink))
  {
    var sub := "c" + " " + (source + " " + sink);
    ConnectWords(source, sink);
    FamilyOfShortNames(caps);
    ParseWord(caps, "x", sub, FamMatrix);
    MatrixFamily(caps, sub);
    ConnectArgs(source, sink);
  }

  lemma {:induction false} ModeArg(n: nat)
    ensures ParseMode(Decimal(n)) == ModeSet(n)
    ensures ParseMode("-" + Decimal(n)) == ModeSet(-(n as int))
  {
    var d := Decimal(n);
    assert IsDigit(d[0]);
    assert d != "list" && d != "l";
    assert Token(d) == d;
    var m := "-" + d;
    assert m[0] == '-' && m[1..] == d;
    assert m != "list" && m != "l";
    assert Token(m) == m;
    AtoiDecimal(n);
  }

  /** `m <n>` asks for mode n, and `m -<n>` for mode -n. */
  lemma {:induction false} ModeLine(caps: Caps, n: nat)
    ensures Parse(caps, "m " + Decimal(n)) == ModeSet(n)
    ensures Parse(caps, "m -" + Decimal(n)) == ModeSet(-(n as int))
  {
    var d := Decimal(n);
    assert IsDigit(d[0]);
    assert "m " + d == "m" + " " + d;
    FamilyOfShortNames(caps);
    ParseWord(caps, "m", d, FamMode);
    ModeFamily(caps, d);
    var m := "-" + d;
    assert "m -" + d == "m" + " " + m;
    ParseWord(caps, "m", m, FamMode);
    ModeFamily(caps, m);
    ModeArg(n);
  }

  lemma HeartbeatOnWords()
    ensures "h on" == "h" + " " + "on"
  {
  }

  /** `h on` switches the heartbeat on. */
  lemma {:induction false} HeartbeatOnLine(caps: Caps)
    ensures Parse(caps, "h on") == HeartbeatSet(true)
  {
    HeartbeatOnWords();
    FamilyOfShortNames(caps);
    ParseWord(caps, "h", "on", FamHeartbeat);
    HeartbeatFamily(caps, "on");
    assert Token("on") == "on";
  }

  lemma StatusOnWords()
    ensures "status on" == "status" + " " + "on"
  {
  }

  /** `status on` switches status reporting on. */
  lemma {:induction false} StatusOnLine(caps: Caps)
    ensures Parse(caps, "status on") == StatusOn
  {
    StatusOnWords();
    FamilyOfShortNames(caps);
    ParseWord(caps, "status", "on", FamStatus);
    StatusFamily(caps, "on");
    assert Token("on") == "on";
  }
}
