/** The fixed layout of header, Announce, Sync, Follow_Up, Delay_Req and Delay_Resp messages
    (clause 13 of IEEE 1588-2008), written byte by byte into a buffer that is reused. */
module Codec {
  import opened PtpTypes

  const HEADER_LENGTH: nat := 34
  const ANNOUNCE_LENGTH: uint16 := 64
  const SYNC_LENGTH: uint16 := 44
  const FOLLOW_UP_LENGTH: uint16 := 44
  const DELAY_REQ_LENGTH: uint16 := 44
  const DELAY_RESP_LENGTH: uint16 := 54

  const PTP_TWO_STEP: byte := 2
  const PTP_UNICAST: byte := 4
  const NO_INTERVAL: int8 := 0x7F

  datatype MsgDelayResp = MsgDelayResp(receiveTimestamp: Timestamp, requestingPortIdentity: PortIdentity)

  /** The fields of a clock that the packing functions read. */
  datatype Sender = Sender(
    transportSpecific: byte, versionNumber: byte, portIdentity: PortIdentity, defaultDS: DefaultDS,
    parentDS: ParentDS, timePropertiesDS: TimePropertiesDS, leap61: bool, leap59: bool, stepsRemoved: uint16,
    logAnnounceInterval: int8, logSyncInterval: int8, logMinDelayReqInterval: int8, multicast: bool)
  {
    /** The fields that share an octet with others fit into their half of it. */
    predicate InRange() {
      transportSpecific < 16 && versionNumber < 16
    }
  }

  // ---------------------------------------------------------------- reading

  function Get16(buf: array<byte>, offset: nat): uint16
    requires offset + 2 <= buf.Length
    reads buf
  {
    buf[offset] as int * 0x100 + buf[offset + 1]
  }

  function Get32(buf: array<byte>, offset: nat): uint32
    requires offset + 4 <= buf.Length
    reads buf
  {
    buf[offset] as int * 0x100_0000 + buf[offset + 1] as int * 0x1_0000 +
    buf[offset + 2] as int * 0x100 + buf[offset + 3]
  }

  function Signed8(x: byte): int8 {
    if x >= 0x80 then x - 0x100 else x
  }

  function Signed16(x: uint16): int16 {
    if x >= 0x8000 then x - 0x1_0000 else x
  }

  function Signed32(x: uint32): int32 {
    if x >= 0x8000_0000 then x - 0x1_0000_0000 else x
  }

  function GetIdentity(buf: array<byte>, offset: nat): ClockIdentity
    requires offset + 8 <= buf.Length
    reads buf
  {
    [buf[offset], buf[offset + 1], buf[offset + 2], buf[offset + 3],
     buf[offset + 4], buf[offset + 5], buf[offset + 6], buf[offset + 7]]
  }

  function GetTimestamp(buf: array<byte>): Timestamp
    requires 44 <= buf.Length
    reads buf
  {
    Timestamp(Get16(buf, 34), Get32(buf, 36), Get32(buf, 40))
  }

  function UnpackHeader(buf: array<byte>): MsgHeader
    requires HEADER_LENGTH <= buf.Length
    reads buf
  {
    MsgHeader(
      buf[0] / 16, buf[0] % 16, buf[1] % 16, Get16(buf, 2), buf[4], buf[6], buf[7],
      Integer64(Signed32(Get32(buf, 8)), Get32(buf, 12)),
      PortIdentity(GetIdentity(buf, 20), Get16(buf, 28)),
      Get16(buf, 30), buf[32], Signed8(buf[33]))
  }

  function UnpackAnnounce(buf: array<byte>): MsgAnnounce
    requires ANNOUNCE_LENGTH <= buf.Length
    reads buf
  {
    MsgAnnounce(
      GetTimestamp(buf), Signed16(Get16(buf, 44)), buf[47],
      ClockQuality(buf[48], buf[49], Get16(buf, 50)), buf[52], GetIdentity(buf, 53), Get16(buf, 61), buf[63])
  }

  function UnpackDelayResp(buf: array<byte>): MsgDelayResp
    requires DELAY_RESP_LENGTH <= buf.Length
    reads buf
  {
    MsgDelayResp(GetTimestamp(buf), PortIdentity(GetIdentity(buf, 44), Get16(buf, 52)))
  }

  /** The number that `n` octets from `offset` on make, the most significant one first. */
  function BigEndian(buf: array<byte>, offset: nat, n: nat): nat
    requires offset + n <= buf.Length
    reads buf
  {
    if n == 0 then 0 else BigEndian(buf, offset, n - 1) * 0x100 + buf[offset + n - 1]
  }

  lemma WordsAreBigEndian(buf: array<byte>, offset: nat)
    ensures offset + 2 <= buf.Length ==> Get16(buf, offset) == BigEndian(buf, offset, 2)
    ensures offset + 4 <= buf.Length ==> Get32(buf, offset) == BigEndian(buf, offset, 4)
  {
    if offset + 2 <= buf.Length {
      assert BigEndian(buf, offset, 1) == buf[offset];
    }
    if offset + 4 <= buf.Length {
      assert BigEndian(buf, offset, 3) == BigEndian(buf, offset, 2) * 0x100 + buf[offset + 2];
    }
  }

  /** Where the header fields are, as section 13.3 of IEEE 1588-2008 places them. */
  lemma HeaderLayout(buf: array<byte>)
    requires HEADER_LENGTH <= buf.Length
    ensures var h := UnpackHeader(buf);
            && buf[0] == h.transportSpecific * 16 + h.messageType && buf[1] % 16 == h.versionPTP
            && BigEndian(buf, 2, 2) == h.messageLength && buf[4] == h.domainNumber
            && buf[6] == h.flagField0 && buf[7] == h.flagField1
            && BigEndian(buf, 8, 4) == h.correctionField.msb % 0x1_0000_0000
            && BigEndian(buf, 12, 4) == h.correctionField.lsb
            && (forall k | 0 <= k < 8 :: buf[20 + k] == h.sourcePortIdentity.clockIdentity[k])
            && BigEndian(buf, 28, 2) == h.sourcePortIdentity.portNumber
            && BigEndian(buf, 30, 2) == h.sequenceId && buf[32] == h.controlField
            && buf[33] == h.logMessageInterval % 0x100
  {
    hide BigEndian, Get16, Get32;
    WordsAreBigEndian(buf, 2);
    WordsAreBigEndian(buf, 8);
    WordsAreBigEndian(buf, 12);
    WordsAreBigEndian(buf, 28);
    WordsAreBigEndian(buf, 30);
  }

  /** The timestamp of Sync, Follow_Up, Delay_Req and Delay_Resp, and of an Announce. */
  lemma TimestampLayout(buf: array<byte>)
    requires 44 <= buf.Length
    ensures var t := GetTimestamp(buf);
            && BigEndian(buf, 34, 2) == t.secondsMsb && BigEndian(buf, 36, 4) == t.secondsLsb
            && BigEndian(buf, 40, 4) == t.nanosecondsField
  {
    hide BigEndian, Get16, Get32;
    WordsAreBigEndian(buf, 34);
    WordsAreBigEndian(buf, 36);
    WordsAreBigEndian(buf, 40);
  }

  /** Where the fields of an Announce and of a Delay_Resp are, as sections 13.5 and 13.8 place them. */
  lemma BodyLayout(buf: array<byte>)
    requires ANNOUNCE_LENGTH <= buf.Length
    ensures var a := UnpackAnnounce(buf);
            && a.originTimestamp == GetTimestamp(buf)
            && BigEndian(buf, 44, 2) == a.currentUtcOffset % 0x1_0000 && buf[47] == a.grandmasterPriority1
            && buf[48] == a.grandmasterClockQuality.clockClass && buf[49] == a.grandmasterClockQuality.clockAccuracy
            && BigEndian(buf, 50, 2) == a.grandmasterClockQuality.offsetScaledLogVariance
            && buf[52] == a.grandmasterPriority2
            && (forall k | 0 <= k < 8 :: buf[53 + k] == a.grandmasterIdentity[k])
            && BigEndian(buf, 61, 2) == a.stepsRemoved && buf[63] == a.timeSource
    ensures var r := UnpackDelayResp(buf);
            && r.receiveTimestamp == GetTimestamp(buf)
            && (forall k | 0 <= k < 8 :: buf[44 + k] == r.requestingPortIdentity.clockIdentity[k])
            && BigEndian(buf, 52, 2) == r.requestingPortIdentity.portNumber
  {
    hide BigEndian, Get16, Get32, GetTimestamp;
    WordsAreBigEndian(buf, 44);
    WordsAreBigEndian(buf, 50);
    WordsAreBigEndian(buf, 52);
    WordsAreBigEndian(buf, 61);
  }

  // ---------------------------------------------------------------- writing

  /** Nothing outside the given range changed. */
  twostate predicate OnlyChanged(buf: array<byte>, from: nat, end: nat)
    reads buf
  {
    forall k | 0 <= k < buf.Length && !(from <= k < end) :: buf[k] == old(buf[k])
  }

  function Octet(x: int): byte {
    x % 0x100
  }

  method Put8(buf: array<byte>, offset: nat, x: int8)
    requires offset < buf.Length
    modifies buf
    ensures Signed8(buf[offset]) == x && OnlyChanged(buf, offset, offset + 1)
  {
    buf[offset] := Octet(x);
  }

  method Put16(buf: array<byte>, offset: nat, x: uint16)
    requires offset + 2 <= buf.Length
    modifies buf
    ensures Get16(buf, offset) == x && OnlyChanged(buf, offset, offset + 2)
  {
    buf[offset] := x / 0x100;
    buf[offset + 1] := x % 0x100;
  }

  lemma FourOctets(x: uint32)
    ensures x == x / 0x100_0000 * 0x100_0000 + x / 0x1_0000 % 0x100 * 0x1_0000 + x / 0x100 % 0x100 * 0x100 + x % 0x100
    ensures x / 0x100_0000 < 0x100
  {
    assert x / 0x1_0000 == x / 0x100 / 0x100 && x / 0x100_0000 == x / 0x1_0000 / 0x100;
  }

  method Put32(buf: array<byte>, offset: nat, x: uint32)
    requires offset + 4 <= buf.Length
    modifies buf
    ensures Get32(buf, offset) == x && OnlyChanged(buf, offset, offset + 4)
  {
    FourOctets(x);
    buf[offset] := x / 0x100_0000;
    buf[offset + 1] := x / 0x1_0000 % 0x100;
    buf[offset + 2] := x / 0x100 % 0x100;
    buf[offset + 3] := x % 0x100;
  }

  method CopyClockIdentity(buf: array<byte>, offset: nat, id: ClockIdentity)
    requires offset + 8 <= buf.Length
    modifies buf
    ensures GetIdentity(buf, offset) == id && OnlyChanged(buf, offset, offset + 8)
  {
    forall k | 0 <= k < 8 {
      buf[offset + k] := id[k];
    }
  }

  method PutTimestamp(buf: array<byte>, t: Timestamp)
    requires 44 <= buf.Length
    modifies buf
    ensures GetTimestamp(buf) == t && OnlyChanged(buf, 34, 44)
  {
    Put16(buf, 34, t.secondsMsb);
    Put32(buf, 36, t.secondsLsb);
    Put32(buf, 40, t.nanosecondsField);
  }

  // ---------------------------------------------------------------- header fields

  method SetTransport(buf: array<byte>, transportSpecific: byte)
    requires HEADER_LENGTH <= buf.Length && transportSpecific < 16
    modifies buf
    ensures UnpackHeader(buf) == old(UnpackHeader(buf)).(transportSpecific := transportSpecific, messageType := 0)
    ensures OnlyChanged(buf, 0, 1)
  {
    buf[0] := transportSpecific * 16;
  }

  /** Clears the lower half of the first octet, then sets it. */
  method SetMessageType(buf: array<byte>, messageType: byte)
    requires HEADER_LENGTH <= buf.Length && messageType < 16
    modifies buf
    ensures UnpackHeader(buf) == old(UnpackHeader(buf)).(messageType := messageType)
    ensures OnlyChanged(buf, 0, 1)
  {
    buf[0] := buf[0] / 16 * 16;
    buf[0] := buf[0] + messageType;
  }

  method SetVersion(buf: array<byte>, versionNumber: byte)
    requires HEADER_LENGTH <= buf.Length && versionNumber < 16
    modifies buf
    ensures UnpackHeader(buf) == old(UnpackHeader(buf)).(versionPTP := versionNumber)
    ensures OnlyChanged(buf, 1, 2)
  {
    buf[1] := versionNumber;
  }

  method SetLength(buf: array<byte>, messageLength: uint16)
    requires HEADER_LENGTH <= buf.Length
    modifies buf
    ensures UnpackHeader(buf) == old(UnpackHeader(buf)).(messageLength := messageLength)
    ensures OnlyChanged(buf, 2, 4)
  {
    Put16(buf, 2, messageLength);
  }

  method SetDomain(buf: array<byte>, domainNumber: byte)
    requires HEADER_LENGTH <= buf.Length
    modifies buf
    ensures UnpackHeader(buf) == old(UnpackHeader(buf)).(domainNumber := domainNumber)
    ensures OnlyChanged(buf, 4, 5)
  {
    buf[4] := domainNumber;
  }

  method SetFlags(buf: array<byte>, flagField0: byte, flagField1: byte)
    requires HEADER_LENGTH <= buf.Length
    modifies buf
    ensures UnpackHeader(buf) == old(UnpackHeader(buf)).(flagField0 := flagField0, flagField1 := flagField1)
    ensures OnlyChanged(buf, 6, 8)
  {
    buf[6], buf[7] := flagField0, flagField1;
  }

  method SetCorrection(buf: array<byte>, correction: Integer64)
    requires HEADER_LENGTH <= buf.Length
    modifies buf
    ensures UnpackHeader(buf) == old(UnpackHeader(buf)).(correctionField := correction)
    ensures OnlyChanged(buf, 8, 16)
  {
    Put32(buf, 8, correction.msb % 0x1_0000_0000);
    Put32(buf, 12, correction.lsb);
  }

  method SetSourcePort(buf: array<byte>, port: PortIdentity)
    requires HEADER_LENGTH <= buf.Length
    modifies buf
    ensures UnpackHeader(buf) == old(UnpackHeader(buf)).(sourcePortIdentity := port)
    ensures OnlyChanged(buf, 20, 30)
  {
    CopyClockIdentity(buf, 20, port.clockIdentity);
    Put16(buf, 28, port.portNumber);
  }

  method SetSequenceId(buf: array<byte>, sequenceId: uint16)
    requires HEADER_LENGTH <= buf.Length
    modifies buf
    ensures UnpackHeader(buf) == old(UnpackHeader(buf)).(sequenceId := sequenceId)
    ensures OnlyChanged(buf, 30, 32)
  {
    Put16(buf, 30, sequenceId);
  }

  method SetControl(buf: array<byte>, controlField: byte)
    requires HEADER_LENGTH <= buf.Length
    modifies buf
    ensures UnpackHeader(buf) == old(UnpackHeader(buf)).(controlField := controlField)
    ensures OnlyChanged(buf, 32, 33)
  {
    buf[32] := controlField;
  }

  method SetInterval(buf: array<byte>, logMessageInterval: int8)
    requires HEADER_LENGTH <= buf.Length
    modifies buf
    ensures UnpackHeader(buf) == old(UnpackHeader(buf)).(logMessageInterval := logMessageInterval)
    ensures OnlyChanged(buf, 33, 34)
  {
    Put8(buf, 33, logMessageInterval);
  }

  /** Octet 5 and octets 16 to 19, which no message uses, and everything from `end` on. */
  twostate predicate ReservedKept(buf: array<byte>, end: nat)
    reads buf
  {
    forall k | 0 <= k < buf.Length && (k == 5 || 16 <= k < 20 || end <= k) :: buf[k] == old(buf[k])
  }

  /** The header of every message; its type, length, sequence number and control field are yet to come. */
  method PackHeader(buf: array<byte>, s: Sender)
    requires HEADER_LENGTH <= buf.Length && s.InRange()
    modifies buf
    ensures var h := old(UnpackHeader(buf));
            UnpackHeader(buf) == MsgHeader(
              s.transportSpecific, 0, s.versionNumber, h.messageLength, s.defaultDS.domainNumber, 0, 0,
              Integer64(0, 0), s.portIdentity, h.sequenceId, h.controlField, NO_INTERVAL)
    ensures ReservedKept(buf, HEADER_LENGTH)
  {
    hide UnpackHeader;
    SetTransport(buf, s.transportSpecific);
    SetVersion(buf, s.versionNumber);
    SetDomain(buf, s.defaultDS.domainNumber);
    SetFlags(buf, 0, 0);
    SetCorrection(buf, Integer64(0, 0));
    SetSourcePort(buf, s.portIdentity);
    SetInterval(buf, NO_INTERVAL);
  }

  /** The header of a message of the given type. */
  method PackMessageHeader(buf: array<byte>, s: Sender, messageType: byte, messageLength: uint16,
                           sequenceId: uint16, controlField: byte)
    requires HEADER_LENGTH <= buf.Length && s.InRange() && messageType < 16
    modifies buf
    ensures UnpackHeader(buf) == HeaderOf(s, messageType, messageLength, sequenceId, controlField)
    ensures ReservedKept(buf, HEADER_LENGTH)
  {
    hide UnpackHeader;
    PackHeader(buf, s);
    SetMessageType(buf, messageType);
    SetLength(buf, messageLength);
    SetSequenceId(buf, sequenceId);
    SetControl(buf, controlField);
  }

  function HeaderOf(s: Sender, messageType: byte, messageLength: uint16, sequenceId: uint16,
                    controlField: byte): MsgHeader
  {
    MsgHeader(s.transportSpecific, messageType, s.versionNumber, messageLength, s.defaultDS.domainNumber, 0, 0,
              Integer64(0, 0), s.portIdentity, sequenceId, controlField, NO_INTERVAL)
  }

  // ---------------------------------------------------------------- messages

  twostate lemma HeaderUntouched(buf: array<byte>)
    requires HEADER_LENGTH <= buf.Length && OnlyChanged(buf, HEADER_LENGTH, buf.Length)
    ensures UnpackHeader(buf) == old(UnpackHeader(buf))
  {
  }

  twostate lemma BodyUntouched(buf: array<byte>)
    requires DELAY_RESP_LENGTH <= buf.Length && OnlyChanged(buf, 0, HEADER_LENGTH)
    ensures GetTimestamp(buf) == old(GetTimestamp(buf))
    ensures UnpackDelayResp(buf) == old(UnpackDelayResp(buf))
    ensures ANNOUNCE_LENGTH <= buf.Length ==> UnpackAnnounce(buf) == old(UnpackAnnounce(buf))
  {
  }

  method PackSync(buf: array<byte>, sequenceId: uint16, originTimestamp: Timestamp, s: Sender)
    requires SYNC_LENGTH <= buf.Length && s.InRange()
    modifies buf
    ensures UnpackHeader(buf) == HeaderOf(s, 0, SYNC_LENGTH, sequenceId, 0).(
              flagField0 := if s.defaultDS.twoStepFlag then PTP_TWO_STEP else 0,
              logMessageInterval := if s.multicast then s.logSyncInterval else NO_INTERVAL)
    ensures GetTimestamp(buf) == originTimestamp
    ensures ReservedKept(buf, SYNC_LENGTH)
  {
    hide UnpackHeader, GetTimestamp;
    PackMessageHeader(buf, s, 0, SYNC_LENGTH, sequenceId, 0);
    if s.defaultDS.twoStepFlag {
      SetFlags(buf, PTP_TWO_STEP, 0);
    }
    if s.multicast {
      SetInterval(buf, s.logSyncInterval);
    }
    SetCorrection(buf, Integer64(0, 0));
    label Body:
    PutTimestamp(buf, originTimestamp);
    HeaderUntouched@Body(buf);
  }

  method PackFollowUp(buf: array<byte>, preciseOriginTimestamp: Timestamp, s: Sender, sequenceId: uint16)
    requires FOLLOW_UP_LENGTH <= buf.Length && s.InRange()
    modifies buf
    ensures UnpackHeader(buf) == HeaderOf(s, 8, FOLLOW_UP_LENGTH, sequenceId, 2).(
              logMessageInterval := if s.multicast then s.logSyncInterval else NO_INTERVAL)
    ensures GetTimestamp(buf) == preciseOriginTimestamp
    ensures ReservedKept(buf, FOLLOW_UP_LENGTH)
  {
    hide UnpackHeader, GetTimestamp;
    PackMessageHeader(buf, s, 8, FOLLOW_UP_LENGTH, sequenceId, 2);
    if s.multicast {
      SetInterval(buf, s.logSyncInterval);
    }
    label Body:
    PutTimestamp(buf, preciseOriginTimestamp);
    HeaderUntouched@Body(buf);
  }

  method PackDelayReq(buf: array<byte>, originTimestamp: Timestamp, s: Sender, sentDelayReqSequenceId: uint16)
    requires DELAY_REQ_LENGTH <= buf.Length && s.InRange()
    modifies buf
    ensures UnpackHeader(buf) == HeaderOf(s, 1, DELAY_REQ_LENGTH, sentDelayReqSequenceId, 1)
    ensures GetTimestamp(buf) == originTimestamp
    ensures ReservedKept(buf, DELAY_REQ_LENGTH)
  {
    hide UnpackHeader, GetTimestamp;
    PackMessageHeader(buf, s, 1, DELAY_REQ_LENGTH, sentDelayReqSequenceId, 1);
    SetInterval(buf, NO_INTERVAL);
    SetCorrection(buf, Integer64(0, 0));
    label Body:
    PutTimestamp(buf, originTimestamp);
    HeaderUntouched@Body(buf);
  }

  method PackDelayResp(buf: array<byte>, header: MsgHeader, receiveTimestamp: Timestamp, s: Sender)
    requires DELAY_RESP_LENGTH <= buf.Length && s.InRange()
    modifies buf
    ensures UnpackHeader(buf) == HeaderOf(s, 9, DELAY_RESP_LENGTH, header.sequenceId, 3).(
              domainNumber := header.domainNumber, correctionField := header.correctionField,
              logMessageInterval := if header.flagField0 / PTP_UNICAST % 2 == 1 then NO_INTERVAL
                                    else s.logMinDelayReqInterval)
    ensures UnpackDelayResp(buf) == MsgDelayResp(receiveTimestamp, header.sourcePortIdentity)
    ensures ReservedKept(buf, DELAY_RESP_LENGTH)
  {
    hide UnpackHeader, GetTimestamp, GetIdentity;
    PackMessageHeader(buf, s, 9, DELAY_RESP_LENGTH, header.sequenceId, 3);
    SetDomain(buf, header.domainNumber);
    SetCorrection(buf, Integer64(0, 0));
    SetCorrection(buf, header.correctionField);
    if header.flagField0 / PTP_UNICAST % 2 != 1 {
      SetInterval(buf, s.logMinDelayReqInterval);
    }
    label Body:
    PutTimestamp(buf, receiveTimestamp);
    PutRequester(buf, header.sourcePortIdentity);
    HeaderUntouched@Body(buf);
  }

  method PutRequester(buf: array<byte>, port: PortIdentity)
    requires DELAY_RESP_LENGTH <= buf.Length
    modifies buf
    ensures UnpackDelayResp(buf) == MsgDelayResp(old(GetTimestamp(buf)), port)
    ensures OnlyChanged(buf, 44, 54)
  {
    CopyClockIdentity(buf, 44, port.clockIdentity);
    Put16(buf, 52, port.portNumber);
  }

  /** What an Announce says: the grandmaster of the parent data set, but the clock's own quality. */
  function AnnounceOf(s: Sender, originTimestamp: Timestamp): MsgAnnounce {
    MsgAnnounce(originTimestamp, s.timePropertiesDS.currentUtcOffset, s.parentDS.grandmasterPriority1,
                s.defaultDS.clockQuality, s.parentDS.grandmasterPriority2, s.parentDS.grandmasterIdentity,
                s.stepsRemoved, s.timePropertiesDS.timeSource)
  }

  function AnnounceFlags(s: Sender): byte {
    Bit(s.leap61) + 2 * Bit(s.leap59) + FlagField1(s.timePropertiesDS)
  }

  function AnnounceHeaderOf(s: Sender, sequenceId: uint16): MsgHeader {
    HeaderOf(s, 11, ANNOUNCE_LENGTH, sequenceId, 5).(
      flagField1 := AnnounceFlags(s), logMessageInterval := s.logAnnounceInterval)
  }

  /** The header of an Announce: type 11, control 5 and 64 octets, with the announce interval and the port, domain
      and version of the sender; it has no correction, and its first flag octet is empty. */
  lemma AnnounceHeaderFields(s: Sender, sequenceId: uint16, originTimestamp: Timestamp)
    ensures var h := AnnounceHeaderOf(s, sequenceId);
            && h.messageType == 0xB && h.controlField == 0x05 && h.messageLength == 64 && h.sequenceId == sequenceId
            && h.logMessageInterval == s.logAnnounceInterval && h.sourcePortIdentity == s.portIdentity
            && h.domainNumber == s.defaultDS.domainNumber && h.versionPTP == s.versionNumber
            && h.transportSpecific == s.transportSpecific
            && h.flagField0 == 0 && h.correctionField == Integer64(0, 0)
    ensures AnnounceOf(s, originTimestamp).originTimestamp == originTimestamp
  {
  }

  method SetUtcOffset(buf: array<byte>, currentUtcOffset: int16)
    requires ANNOUNCE_LENGTH <= buf.Length
    modifies buf
    ensures UnpackAnnounce(buf) == old(UnpackAnnounce(buf)).(currentUtcOffset := currentUtcOffset)
    ensures OnlyChanged(buf, 44, 46)
  {
    Put16(buf, 44, currentUtcOffset % 0x1_0000);
  }

  method SetPriorities(buf: array<byte>, priority1: byte, priority2: byte)
    requires ANNOUNCE_LENGTH <= buf.Length
    modifies buf
    ensures UnpackAnnounce(buf) == old(UnpackAnnounce(buf)).(
              grandmasterPriority1 := priority1, grandmasterPriority2 := priority2)
    ensures OnlyChanged(buf, 47, 53)
  {
    buf[47] := priority1;
    buf[52] := priority2;
  }

  method SetQuality(buf: array<byte>, quality: ClockQuality)
    requires ANNOUNCE_LENGTH <= buf.Length
    modifies buf
    ensures UnpackAnnounce(buf) == old(UnpackAnnounce(buf)).(grandmasterClockQuality := quality)
    ensures OnlyChanged(buf, 48, 52)
  {
    buf[48] := quality.clockClass;
    buf[49] := quality.clockAccuracy;
    Put16(buf, 50, quality.offsetScaledLogVariance);
  }

  method PackGrandmaster(buf: array<byte>, s: Sender)
    requires ANNOUNCE_LENGTH <= buf.Length
    modifies buf
    ensures UnpackAnnounce(buf) == old(UnpackAnnounce(buf)).(
              currentUtcOffset := s.timePropertiesDS.currentUtcOffset,
              grandmasterPriority1 := s.parentDS.grandmasterPriority1,
              grandmasterClockQuality := s.defaultDS.clockQuality,
              grandmasterPriority2 := s.parentDS.grandmasterPriority2)
    ensures OnlyChanged(buf, 44, 53) && buf[46] == old(buf[46])
  {
    hide UnpackAnnounce;
    SetUtcOffset(buf, s.timePropertiesDS.currentUtcOffset);
    SetPriorities(buf, s.parentDS.grandmasterPriority1, s.parentDS.grandmasterPriority2);
    SetQuality(buf, s.defaultDS.clockQuality);
  }

  method PackTopology(buf: array<byte>, s: Sender)
    requires ANNOUNCE_LENGTH <= buf.Length
    modifies buf
    ensures UnpackAnnounce(buf) == old(UnpackAnnounce(buf)).(
              grandmasterIdentity := s.parentDS.grandmasterIdentity, stepsRemoved := s.stepsRemoved,
              timeSource := s.timePropertiesDS.timeSource)
    ensures OnlyChanged(buf, 53, 64)
  {
    CopyClockIdentity(buf, 53, s.parentDS.grandmasterIdentity);
    Put16(buf, 61, s.stepsRemoved);
    buf[63] := s.timePropertiesDS.timeSource;
  }

  method SetOrigin(buf: array<byte>, t: Timestamp)
    requires ANNOUNCE_LENGTH <= buf.Length
    modifies buf
    ensures UnpackAnnounce(buf) == old(UnpackAnnounce(buf)).(originTimestamp := t)
    ensures OnlyChanged(buf, 34, 44)
  {
    hide GetTimestamp;
    PutTimestamp(buf, t);
  }

  method PackAnnounce(buf: array<byte>, sequenceId: uint16, originTimestamp: Timestamp, s: Sender)
    requires ANNOUNCE_LENGTH <= buf.Length && s.InRange()
    modifies buf
    ensures UnpackHeader(buf) == AnnounceHeaderOf(s, sequenceId)
    ensures UnpackAnnounce(buf) == AnnounceOf(s, originTimestamp)
    ensures ReservedKept(buf, ANNOUNCE_LENGTH) && buf[46] == old(buf[46])
  {
    hide UnpackHeader, UnpackAnnounce, AnnounceFlags;
    PackMessageHeader(buf, s, 11, ANNOUNCE_LENGTH, sequenceId, 5);
    SetInterval(buf, s.logAnnounceInterval);
    label Body:
    SetOrigin(buf, originTimestamp);
    PackGrandmaster(buf, s);
    PackTopology(buf, s);
    HeaderUntouched@Body(buf);
    label Flags:
    SetFlags(buf, 0, AnnounceFlags(s));
    BodyUntouched@Flags(buf);
  }

  // ---------------------------------------------------------------- what the receiver learns

  /** Every flag of the second flag octet reads back as the time property it was made from. */
  lemma FlagsReadBack(s: Sender)
    ensures IsSet(AnnounceFlags(s), LI61) == s.leap61 && IsSet(AnnounceFlags(s), LI59) == s.leap59
    ensures IsSet(AnnounceFlags(s), UTCV) == s.timePropertiesDS.currentUtcOffsetValid
    ensures IsSet(AnnounceFlags(s), PTPT) == s.timePropertiesDS.ptpTimescale
    ensures IsSet(AnnounceFlags(s), TTRA) == s.timePropertiesDS.timeTraceable
    ensures IsSet(AnnounceFlags(s), FTRA) == s.timePropertiesDS.frequencyTraceable
  {
    assert Pow2(0) == 1 && Pow2(1) == 2 && Pow2(2) == 4 && Pow2(3) == 8;
    assert Pow2(4) == 16 && Pow2(5) == 32;
    FlagBits(Bit(s.leap61), Bit(s.leap59), Bit(s.timePropertiesDS.currentUtcOffsetValid),
             Bit(s.timePropertiesDS.ptpTimescale), Bit(s.timePropertiesDS.timeTraceable),
             Bit(s.timePropertiesDS.frequencyTraceable));
  }

  lemma FlagBits(a: int, b: int, c: int, d: int, e: int, f: int)
    requires 0 <= a <= 1 && 0 <= b <= 1 && 0 <= c <= 1 && 0 <= d <= 1 && 0 <= e <= 1 && 0 <= f <= 1
    ensures var x := a + 2 * b + 4 * c + 8 * d + 16 * e + 32 * f;
            && x / 1 % 2 == a && x / 2 % 2 == b && x / 4 % 2 == c
            && x / 8 % 2 == d && x / 16 % 2 == e && x / 32 % 2 == f
  {
    var x := a + 2 * b + 4 * c + 8 * d + 16 * e + 32 * f;
    assert x / 2 == b + 2 * c + 4 * d + 8 * e + 16 * f;
    assert x / 4 == c + 2 * d + 4 * e + 8 * f;
    assert x / 8 == d + 2 * e + 4 * f;
    assert x / 16 == e + 2 * f;
    assert x / 32 == f;
  }

  /** A delay request travels to the responder and its response back: whatever the two buffers held, the
      requester finds its own identity and sequence number, and the receive time of its request. */
  method ServeDelayRequest(request: array<byte>, response: array<byte>, requester: Sender, responder: Sender,
                           sequenceId: uint16, origin: Timestamp, received: Timestamp)
    returns (header: MsgHeader, resp: MsgDelayResp)
    requires DELAY_REQ_LENGTH <= request.Length && DELAY_RESP_LENGTH <= response.Length
    requires requester.InRange() && responder.InRange()
    modifies request, response
    ensures resp == MsgDelayResp(received, requester.portIdentity)
    ensures header.sequenceId == sequenceId && header.messageType == 9
    ensures header.sourcePortIdentity == responder.portIdentity
    ensures header.domainNumber == requester.defaultDS.domainNumber
  {
    PackDelayReq(request, origin, requester, sequenceId);
    PackDelayResp(response, UnpackHeader(request), received, responder);
    header, resp := UnpackHeader(response), UnpackDelayResp(response);
  }
}
