/** What the firmware build and the board provide: the blocks that are
  * compiled in, the build constants, and the hardware values the console
  * reads. */
module Board {
  import opened Numbers

  /** Source indices of the video processor (`VIDEO_IN_*`). */
  const VideoInHdmiIn0: int := 0
  const VideoInHdmiIn1: int := 1
  const VideoInPattern: int := 2
  /** Sink indices of the video processor (`VIDEO_OUT_*`). */
  const VideoOutHdmiOut0: int := 0
  const VideoOutHdmiOut1: int := 1
  const VideoOutEncoder: int := 2

  /** The `#ifdef` switches of the build, fixed for the life of the console,
    * and the build constants the console uses. */
  datatype Caps = Caps(
    hdmiIn0: bool,          // CSR_HDMI_IN0_BASE
    hdmiIn1: bool,          // CSR_HDMI_IN1_BASE
    hdmiIn0Freq: bool,      // CSR_HDMI_IN0_FREQUENCY_VALUE_ADDR
    hdmiIn1Freq: bool,      // CSR_HDMI_IN1_FREQUENCY_VALUE_ADDR
    hdmiOut0: bool,         // CSR_HDMI_OUT0_BASE
    hdmiOut1: bool,         // CSR_HDMI_OUT1_BASE
    hdmiOut0I2c: bool,      // CSR_HDMI_OUT0_I2C_W_ADDR
    hdmiOut1I2c: bool,      // CSR_HDMI_OUT1_I2C_W_ADDR
    encoder: bool,          // ENCODER_BASE
    opsisEeprom: bool,      // CSR_OPSIS_EEPROM_I2C_W_ADDR
    tofeEeprom: bool,       // CSR_TOFE_EEPROM_I2C_W_ADDR
    fx2: bool,              // CSR_FX2_RESET_OUT_ADDR
    cas: bool,              // CSR_CAS_BASE
    modeCount: nat,         // PROCESSOR_MODE_COUNT
    dfiiNPhases: nat,       // DFII_NPHASES
    dfiiPixDataSize: nat)   // DFII_PIX_DATA_SIZE
  {
    /** `burstbits = (2*DFII_NPHASES) << DFII_PIX_DATA_SIZE`. */
    function BurstBits(): nat {
      2 * dfiiNPhases * Pow2(dfiiPixDataSize)
    }

    /** The shift `24 - log2(burstbits)` of the DDR report is not negative. */
    predicate WellFormed() {
      FloorLog2(BurstBits()) <= 24
    }
  }

  /** Values the console reads from hardware registers and from code it only
    * calls, sampled once per service call. */
  datatype Readings = Readings(
    elapsed: bool,              // elapsed(&last_event, ...) fired
    in0Hres: int, in0Vres: int, in0FreqHz: nat,
    in1Hres: int, in1Vres: int, in1FreqHz: nat,
    out0Enabled: bool,          // hdmi_out0_fi_enable_read()
    out1Enabled: bool,
    hActive: int, vActive: int, refresh: int,   // processor_h_active, ...
    encoderEnabled: bool, encoderFps: int, encoderQuality: int,
    encoderBytes: nat,          // encoder_bandwidth_nbytes_read()
    ddrReads: nat, ddrWrites: nat,
    sysFreq: nat,               // identifier_frequency_read()
    casSwitches: nat, casButtonsStatus: nat, casButtonsPending: nat)
  {
    /** The byte counter is a 32-bit register. */
    predicate WellFormed() {
      encoderBytes < U32
    }
  }
}
