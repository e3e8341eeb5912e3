/** What the console does that can be observed: the messages it prints (as
  * tags with their values, not their text) and the calls it makes into the
  * rest of the firmware and into hardware registers. */
module Events {
  import opened Wrappers

  /** Which help text is printed. */
  datatype Topic = HelpAll | HelpVideoMatrix | HelpVideoMode | HelpHdpToggle
                 | HelpOutput0 | HelpOutput1 | HelpEncoder | HelpDebug | HelpHeartbeat

  datatype Firmware = UsbJtag | Hdmi2Usb

  datatype Message =
    | AvailableCommands
    | HelpText(topic: Topic)
    | Blank                                   // an empty line
    | MatrixListing(sources: seq<int>, sinks: seq<int>)
    | UnknownSource(token: string)
    | UnknownSink(token: string)
    | Connecting(source: int, output: int)
    | ConnectingEncoder(source: int)
    | OutputMissing(output: int)              // "hdmi_outN is missing."
    | InputMissing(input: int)                // "hdmi_inN is missing."
    | ModeListing(count: nat)
    | SettingMode(mode: int)
    | HeartbeatEnabled | HeartbeatDisabled
    | TogglingHdp(source: int)
    | EnablingOutput(output: int) | DisablingOutput(output: int)
    | EnablingEncoder | DisablingEncoder
    | SettingQuality(quality: int) | SettingFps(fps: int)
    | EnablingStatus | DisablingStatus
    | InputStatus(input: int, hres: int, vres: int, kHz: Option<nat>)
    | OutputStatus(output: int, hres: int, vres: int, refresh: int, source: int)
    | OutputOff(output: int)
    | EncoderStatus(hres: int, vres: int, fps: int, mbps: nat, source: int, quality: int)
    | EncoderOff
    | DdrStats(read: nat, write: nat, all: nat)
    | DebugState(input: int, on: bool)        // "HDMI Input N debug on/off"
    | InputFrequency(input: int, mhz: nat, hz: nat)
    | NoEdid(token: string)
    | SwitchesHex(value: nat)
    | ButtonsHex(status: nat, pending: nat)
    | LineEnd
    | Prompt

  datatype Call =
    | HbStatus(on: bool)
    | ConfigSetResolution(mode: int)          // config_set(CONFIG_KEY_RESOLUTION, mode)
    | ProcessorStart(mode: int)
    | ProcessorUpdate
    | ProcessorListModes
    | HpdWrite(input: int, level: int)        // hdmi_inN_edid_hpd_en_write(level)
    | OutputEnableWrite(output: int, level: int)
    | EncoderEnable(level: int)
    | EncoderSetQuality(quality: int)
    | EncoderSetFps(fps: int)
    | EncoderBandwidthClear                   // encoder_bandwidth_nbytes_clear_write(1)
    | DdrBandwidthUpdate                      // sdram_controller_bandwidth_update_write(1)
    | CasLedsWrite(leds: int)
    | CasButtonsPendingWrite(pending: nat)
    | CpuReboot
    | PrintVersion
    | PrintBoardDna
    | PllDump
    | OpsisEepromDump
    | TofeEepromDump
    | Fx2Reboot(firmware: Firmware)
    | Fx2Debug
    | PrintEdid(output: int)

  datatype Event = Say(message: Message) | Do(call: Call)

  /** Appending to a trace in two steps is appending the two parts at once. */
  lemma AppendTwice(t: seq<Event>, a: seq<Event>, b: seq<Event>)
    ensures t + a + b == t + (a + b)
  {
  }
}
