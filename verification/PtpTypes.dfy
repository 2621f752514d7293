/** Messages, data sets and configuration of an IEEE 1588-2008 ordinary clock, with the
    fields that the modelled code reads or writes. Integer widths are subset types. */
module PtpTypes {

  datatype Option<+T> = None | Some(value: T)

  type byte = x: int | 0 <= x < 0x100
  type uint16 = x: int | 0 <= x < 0x1_0000
  type uint32 = x: int | 0 <= x < 0x1_0000_0000
  type int8 = x: int | -0x80 <= x < 0x80
  type int16 = x: int | -0x8000 <= x < 0x8000
  type int32 = x: int | -0x8000_0000 <= x < 0x8000_0000

  const SLAVE_ONLY_CLOCK_CLASS: byte := 255
  const LOWEST_LOCALPREFERENCE: byte := 255

  type ClockIdentity = s: seq<byte> | |s| == 8 witness [0, 0, 0, 0, 0, 0, 0, 0]

  const ZERO_IDENTITY: ClockIdentity := [0, 0, 0, 0, 0, 0, 0, 0]
  const ALL_ONES_IDENTITY: ClockIdentity := [255, 255, 255, 255, 255, 255, 255, 255]

  datatype PortIdentity = PortIdentity(clockIdentity: ClockIdentity, portNumber: uint16)

  datatype ClockQuality = ClockQuality(
    clockClass: byte, clockAccuracy: byte, offsetScaledLogVariance: uint16)

  /** A 48-bit seconds count split as the source splits it, plus nanoseconds. */
  datatype Timestamp = Timestamp(secondsMsb: uint16, secondsLsb: uint32, nanosecondsField: uint32)

  /** A 64-bit two's complement number split into a signed and an unsigned word. */
  datatype Integer64 = Integer64(msb: int32, lsb: uint32)

  datatype MsgHeader = MsgHeader(
    transportSpecific: byte, messageType: byte, versionPTP: byte, messageLength: uint16,
    domainNumber: byte, flagField0: byte, flagField1: byte, correctionField: Integer64,
    sourcePortIdentity: PortIdentity, sequenceId: uint16, controlField: byte,
    logMessageInterval: int8)

  datatype MsgAnnounce = MsgAnnounce(
    originTimestamp: Timestamp, currentUtcOffset: int16, grandmasterPriority1: byte,
    grandmasterClockQuality: ClockQuality, grandmasterPriority2: byte,
    grandmasterIdentity: ClockIdentity, stepsRemoved: uint16, timeSource: byte)

  datatype ForeignMasterRecord = ForeignMasterRecord(
    foreignMasterPortIdentity: PortIdentity, foreignMasterAnnounceMessages: uint16,
    announce: MsgAnnounce, header: MsgHeader, localPreference: byte,
    sourceAddr: uint32, disqualified: bool)

  datatype DefaultDS = DefaultDS(
    twoStepFlag: bool, clockIdentity: ClockIdentity, clockQuality: ClockQuality,
    priority1: byte, priority2: byte, domainNumber: byte, slaveOnly: bool)

  datatype ParentDS = ParentDS(
    parentPortIdentity: PortIdentity, grandmasterIdentity: ClockIdentity,
    grandmasterClockQuality: ClockQuality, grandmasterPriority1: byte, grandmasterPriority2: byte)

  /** The leap second flags are not part of this model. */
  datatype TimePropertiesDS = TimePropertiesDS(
    currentUtcOffset: int16, currentUtcOffsetValid: bool, timeTraceable: bool,
    frequencyTraceable: bool, ptpTimescale: bool, timeSource: byte)

  datatype PortState =
    Initializing | Faulty | Disabled | Listening | PreMaster | Master | Passive | Uncalibrated | Slave

  /** The run time options that the modelled code reads. */
  datatype RunTimeOpts = RunTimeOpts(
    slaveOnly: bool, clockQuality: ClockQuality, priority1: byte, priority2: byte,
    domainNumber: byte, portNumber: uint16, timeProperties: TimePropertiesDS,
    anyDomain: bool, preferUtcValid: bool, requireUtcValid: bool, disableBMCA: bool,
    announceTimeoutGracePeriod: nat, backupIfaceEnabled: bool, maxListen: nat, refreshIgmp: bool)

  /** The flags of the second flag octet, by bit number. */
  const LI61: nat := 0
  const LI59: nat := 1
  const UTCV: nat := 2
  const PTPT: nat := 3
  const TTRA: nat := 4
  const FTRA: nat := 5

  function Pow2(k: nat): (r: nat)
    ensures r > 0
  {
    if k == 0 then 1 else 2 * Pow2(k - 1)
  }

  predicate IsSet(data: byte, bitpos: nat) {
    data / Pow2(bitpos) % 2 == 1
  }

  function Bit(b: bool): byte {
    if b then 1 else 0
  }

  /** The second flag octet of a clock that announces no leap second. */
  function FlagField1(tp: TimePropertiesDS): byte {
    4 * Bit(tp.currentUtcOffsetValid) + 8 * Bit(tp.ptpTimescale) +
    16 * Bit(tp.timeTraceable) + 32 * Bit(tp.frequencyTraceable)
  }

  lemma FlagField1Bits(tp: TimePropertiesDS)
    ensures IsSet(FlagField1(tp), UTCV) == tp.currentUtcOffsetValid
    ensures IsSet(FlagField1(tp), PTPT) == tp.ptpTimescale
    ensures IsSet(FlagField1(tp), TTRA) == tp.timeTraceable
    ensures IsSet(FlagField1(tp), FTRA) == tp.frequencyTraceable
  {
    assert Pow2(2) == 4 && Pow2(3) == 8 && Pow2(4) == 16 && Pow2(5) == 32;
  }
}
