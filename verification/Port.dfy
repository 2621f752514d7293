/** One PTP port as a state machine over values: data set updates, state decision, Announce
    handling, state changes and the main loop, with unicast negotiation off. Timers, sockets and
    the send paths appear as inputs of a tick. */
module Port {
  import opened PtpTypes
  import opened Bmc
  import opened ForeignTable

  datatype Port = Port(
    defaultDS: DefaultDS, stepsRemoved: uint16, parentDS: ParentDS,
    timePropertiesDS: TimePropertiesDS, portIdentity: PortIdentity, portState: PortState,
    table: Table, bestMaster: Option<nat>, recordUpdate: bool,
    announceTimeouts: nat, listenCount: nat)
  {
    /** Indices and the best master pointer stay inside a record array of two slots or more. */
    predicate InMemory() {
      && table.InBounds() && |table.foreign| >= 2
      && (bestMaster.Some? ==> bestMaster.value < |table.foreign|)
    }

    /** The states that follow a master also point at its record. */
    predicate Ready() {
      && InMemory()
      && (portState in {Passive, Slave, Uncalibrated} ==> bestMaster.Some?)
    }

    function Context(rt: RunTimeOpts): Context {
      Bmc.Context(parentDS.parentPortIdentity.clockIdentity, defaultDS.domainNumber,
                  rt.domainNumber, rt.anyDomain, rt.preferUtcValid)
    }
  }

  // ---------------------------------------------------------------- data sets (bmc.c)

  function OwnParent(p: Port): ParentDS {
    ParentDS(PortIdentity(p.defaultDS.clockIdentity, p.portIdentity.portNumber),
             p.defaultDS.clockIdentity, p.defaultDS.clockQuality,
             p.defaultDS.priority1, p.defaultDS.priority2)
  }

  function M1(rt: RunTimeOpts, p: Port): Port {
    p.(stepsRemoved := 0, parentDS := OwnParent(p), timePropertiesDS := rt.timeProperties)
  }

  function ParentFrom(header: MsgHeader, announce: MsgAnnounce): ParentDS {
    ParentDS(header.sourcePortIdentity, announce.grandmasterIdentity, announce.grandmasterClockQuality,
             announce.grandmasterPriority1, announce.grandmasterPriority2)
  }

  function P1(rt: RunTimeOpts, state: PortState, tp: TimePropertiesDS): TimePropertiesDS {
    if state == Passive then
      tp.(currentUtcOffset := rt.timeProperties.currentUtcOffset,
          currentUtcOffsetValid := rt.timeProperties.currentUtcOffsetValid)
    else tp
  }

  function TimePropertiesFrom(header: MsgHeader, announce: MsgAnnounce): TimePropertiesDS {
    TimePropertiesDS(announce.currentUtcOffset, IsSet(header.flagField1, UTCV),
                     IsSet(header.flagField1, TTRA), IsSet(header.flagField1, FTRA),
                     IsSet(header.flagField1, PTPT), announce.timeSource)
  }

  function S1(rt: RunTimeOpts, header: MsgHeader, announce: MsgAnnounce, p: Port): Port {
    p.(stepsRemoved := (announce.stepsRemoved + 1) % 0x1_0000,
       parentDS := ParentFrom(header, announce),
       timePropertiesDS := P1(rt, p.portState, TimePropertiesFrom(header, announce)),
       defaultDS := if rt.anyDomain then p.defaultDS.(domainNumber := header.domainNumber) else p.defaultDS)
  }

  /** The local clock in the shape of a foreign master record; everything not copied is zero. */
  function CopyD0(p: Port): ForeignMasterRecord {
    ForeignMasterRecord(
      PortIdentity(ZERO_IDENTITY, 0), 0,
      MsgAnnounce(Timestamp(0, 0, 0), 0, p.defaultDS.priority1, p.defaultDS.clockQuality,
                  p.defaultDS.priority2, p.defaultDS.clockIdentity, 0, 0),
      MsgHeader(0, 0, 0, 0, 0, 0, FlagField1(p.timePropertiesDS), Integer64(0, 0),
                PortIdentity(p.defaultDS.clockIdentity, 0), 0, 0, 0),
      LOWEST_LOCALPREFERENCE, 0, false)
  }

  /** The recommended state and the data sets after the decision on record `k`. */
  function StateDecision(rt: RunTimeOpts, k: nat, p: Port): (r: (PortState, Port))
    requires k < |p.table.foreign|
  {
    var record := p.table.foreign[k];
    var comp := DataSetComparison(CopyD0(p), record, p.Context(rt));
    if p.defaultDS.slaveOnly then (Slave, S1(rt, record.header, record.announce, p))
    else if p.table.number == 0 && p.portState == Listening then (Listening, p)
    else if comp < 0 then (Master, M1(rt, p))
    else if comp > 0 then
      (if p.defaultDS.clockQuality.clockClass < 128 then Passive else Slave,
       S1(rt, record.header, record.announce, p))
    else (Faulty, p)
  }

  function BestMasterClock(rt: RunTimeOpts, p: Port): (r: (PortState, Port))
    requires p.Ready()
  {
    if p.table.number == 0 && p.portState == Master then (Master, M1(rt, p))
    else
      var best := ScanBest(p.table.foreign, p.table.number, p.Context(rt));
      StateDecision(rt, best, p.(table := p.table.(best := best), bestMaster := Some(best)))
  }

  // ---------------------------------------------------------------- state changes (protocol.c)

  function Leave(s: PortState, p: Port): Port {
    if p.portState == Listening && s != Listening then p.(listenCount := 0) else p
  }

  /** Entering any state other than LISTENING. */
  function Enter(rt: RunTimeOpts, s: PortState, p: Port): Port
    requires s != Listening
  {
    var q := Leave(s, p);
    match s
    case Initializing | Faulty | Uncalibrated => q.(portState := s)
    case Disabled => q.(bestMaster := None, portState := s)
    case Master => q.(portState := Master, bestMaster := None)
    case Passive => q.(portState := Passive, timePropertiesDS := P1(rt, Passive, q.timePropertiesDS))
    case Slave => q.(announceTimeouts := 0, portState := Slave)
    case PreMaster => q
  }

  /** Entering LISTENING ends in MASTER when announces are ignored, and in FAULTY after too many
      rounds or when the multicast refresh fails. */
  function EnterListening(rt: RunTimeOpts, p: Port, igmpOk: bool): Port {
    var again := if p.portState == Listening then p.listenCount + 1 else p.listenCount;
    if p.defaultDS.clockQuality.clockClass <= 127 && rt.disableBMCA then
      Enter(rt, Master, M1(rt, p.(table := Reset(p.table))))
    else if p.portState == Listening && again >= rt.maxListen then
      Enter(rt, Faulty, p)
    else if rt.refreshIgmp && !igmpOk then
      Enter(rt, Faulty, p.(listenCount := again))
    else
      p.(listenCount := again, announceTimeouts := 0, bestMaster := None, portState := Listening)
  }

  function ToState(rt: RunTimeOpts, s: PortState, p: Port, igmpOk: bool): Port {
    if s == Listening then EnterListening(rt, p, igmpOk) else Enter(rt, s, p)
  }

  function InitData(rt: RunTimeOpts, p: Port): Port {
    var quality := if rt.slaveOnly then rt.clockQuality.(clockClass := SLAVE_ONLY_CLOCK_CLASS) else rt.clockQuality;
    p.(defaultDS := DefaultDS(true, p.defaultDS.clockIdentity, quality, rt.priority1, rt.priority2,
                              rt.domainNumber, p.defaultDS.slaveOnly || rt.slaveOnly),
       portIdentity := PortIdentity(p.defaultDS.clockIdentity, rt.portNumber),
       bestMaster := None,
       table := p.table.(number := 0))
  }

  function DoInit(rt: RunTimeOpts, initOk: bool, igmpOk: bool, p: Port): Port {
    if !initOk then ToState(rt, Faulty, p, igmpOk)
    else ToState(rt, Listening, M1(rt, InitData(rt, p)), igmpOk)
  }

  // ---------------------------------------------------------------- Announce messages

  predicate FromParent(p: Port, header: MsgHeader) {
    header.sourcePortIdentity == p.parentDS.parentPortIdentity
  }

  /** An Announce of the current parent, which also refreshes the parent's record. */
  function UpdateParent(rt: RunTimeOpts, a: Announcement, p: Port): Port
    requires p.InMemory() && p.bestMaster.Some?
  {
    var k := p.bestMaster.value;
    var record := p.table.foreign[k].(header := a.header, announce := a.announce);
    S1(rt, a.header, a.announce, p).(
      recordUpdate := true,
      table := p.table.(foreign := p.table.foreign[k := record]),
      announceTimeouts := if rt.announceTimeoutGracePeriod > 0 then 0 else p.announceTimeouts)
  }

  function HandleAnnounce(rt: RunTimeOpts, a: Announcement, p: Port): Port
    requires p.Ready()
  {
    if p.defaultDS.clockQuality.clockClass <= 127 && rt.disableBMCA then p
    else if p.portState in {Initializing, Faulty, Disabled} then p
    else if CmpPortIdentity(p.portIdentity, a.Sender()) == 0 then p
    else if rt.requireUtcValid && !IsSet(a.header.flagField1, UTCV) then p
    else if p.portState in {Uncalibrated, Slave} && FromParent(p, a.header) then
      UpdateParent(rt, a, p)
    else if p.portState == Passive && FromParent(p, a.header) then
      S1(rt, a.header, a.announce, p).(recordUpdate := true)
    else
      p.(recordUpdate := true, table := AddForeign(p.table, a))
  }

  /** Messages of another domain reach the handler only on a slave-only port that accepts any. */
  function ProcessAnnounce(rt: RunTimeOpts, a: Announcement, p: Port): Port
    requires p.Ready()
  {
    if a.header.domainNumber != p.defaultDS.domainNumber && !(p.defaultDS.slaveOnly && rt.anyDomain) then p
    else HandleAnnounce(rt, a, p)
  }

  // ---------------------------------------------------------------- one turn of the main loop

  /** What the environment does during one turn: at most one Announce is received. */
  datatype Input = Input(
    disabled: bool, initOk: bool, announce: Option<Announcement>, receiveError: bool,
    announceTimeout: bool, clockUpdateTimeout: bool, sendError: bool,
    masterRefreshDue: bool, igmpOk: bool, utcOffset: int16)

  /** The state decision event, before anything else of the turn. */
  function Decision(rt: RunTimeOpts, igmpOk: bool, p: Port): Port
    requires p.Ready()
  {
    if p.portState in {Listening, Passive, Slave, Master} && p.recordUpdate then
      var (s, q) := BestMasterClock(rt, p.(recordUpdate := false));
      if s != q.portState then ToState(rt, s, q, igmpOk) else q
    else p
  }

  function Receive(rt: RunTimeOpts, i: Input, p: Port): Port
    requires p.Ready()
  {
    if i.receiveError then ToState(rt, Faulty, p, i.igmpOk)
    else match i.announce
      case None => p
      case Some(a) => ProcessAnnounce(rt, a, p)
  }

  function Disqualify(p: Port): Port
    requires p.InMemory() && p.bestMaster.Some?
  {
    var k := p.bestMaster.value;
    p.(table := p.table.(foreign := p.table.foreign[k := p.table.foreign[k].(disqualified := true)]))
  }

  function AnnounceTimeout(rt: RunTimeOpts, igmpOk: bool, p: Port): Port
    requires p.Ready()
  {
    if !p.defaultDS.slaveOnly && p.defaultDS.clockQuality.clockClass != SLAVE_ONLY_CLOCK_CLASS then
      ToState(rt, Master, M1(rt, p.(table := Reset(p.table), bestMaster := None)), igmpOk)
    else if p.portState in {Passive, Slave, Uncalibrated} && p.announceTimeouts < rt.announceTimeoutGracePeriod then
      var q := Disqualify(p);
      if rt.refreshIgmp && !igmpOk then ToState(rt, Faulty, q, igmpOk)
      else q.(announceTimeouts := q.announceTimeouts + 1)
    else
      var q := if p.portState == Listening then p else p.(table := Reset(p.table), bestMaster := None);
      ToState(rt, if rt.backupIfaceEnabled then Initializing else Listening, q, igmpOk)
  }

  /** The announce receipt timer runs in these states only. */
  predicate AwaitsAnnounce(s: PortState) {
    s in {Listening, Passive, Slave}
  }

  function FollowerTurn(rt: RunTimeOpts, i: Input, p: Port): Port
    requires p.Ready()
  {
    var received := Receive(rt, i, p);
    ReceiveStaysReady(rt, i, p);
    var timed := if i.announceTimeout && AwaitsAnnounce(received.portState)
                 then AnnounceTimeout(rt, i.igmpOk, received) else received;
    var updated := if i.clockUpdateTimeout && timed.portState == Slave
                   then ToState(rt, Listening, timed, i.igmpOk) else timed;
    if i.sendError then ToState(rt, Faulty, updated, i.igmpOk) else updated
  }

  function MasterTurn(rt: RunTimeOpts, i: Input, p: Port): Port
    requires p.Ready()
  {
    var tp := if i.utcOffset != 0
              then p.timePropertiesDS.(currentUtcOffset := i.utcOffset, currentUtcOffsetValid := true)
              else p.timePropertiesDS;
    var q := p.(timePropertiesDS := tp);
    var sent := if i.sendError then ToState(rt, Faulty, q, i.igmpOk) else q;
    if rt.refreshIgmp && i.masterRefreshDue && !i.igmpOk then ToState(rt, Faulty, sent, i.igmpOk)
    else
      var received := Receive(rt, i, sent);
      if received.defaultDS.slaveOnly || received.defaultDS.clockQuality.clockClass == SLAVE_ONLY_CLOCK_CLASS
      then ToState(rt, Listening, received, i.igmpOk) else received
  }

  function DoState(rt: RunTimeOpts, i: Input, p: Port): Port
    requires p.Ready()
  {
    DecisionStaysReady(rt, i.igmpOk, p);
    var q := Decision(rt, i.igmpOk, p);
    match q.portState
    case Faulty => ToState(rt, Initializing, q, i.igmpOk)
    case Listening | Uncalibrated | Passive | Slave => FollowerTurn(rt, i, q)
    case Master => MasterTurn(rt, i, q)
    case Disabled =>
      ReceiveStaysReady(rt, i, q);
      var received := Receive(rt, i, q);
      if !i.disabled then ToState(rt, Listening, received, i.igmpOk) else received
    case Initializing | PreMaster => q
  }

  /** The port after it was disabled or enabled again, before its turn. */
  function Switched(rt: RunTimeOpts, i: Input, p: Port): Port {
    if i.disabled && p.portState != Disabled then ToState(rt, Disabled, p, i.igmpOk)
    else if !i.disabled && p.portState == Disabled then ToState(rt, Initializing, p, i.igmpOk)
    else p
  }

  function Turn(rt: RunTimeOpts, i: Input, p: Port): Port
    requires p.Ready()
  {
    var q := Switched(rt, i, p);
    var worked := if q.portState == Initializing then DoInit(rt, i.initOk, i.igmpOk, q) else DoState(rt, i, q);
    if i.disabled && worked.portState != Disabled then ToState(rt, Disabled, worked, i.igmpOk) else worked
  }

  // ---------------------------------------------------------------- no null or stray pointer

  lemma ToStateStaysReady(rt: RunTimeOpts, s: PortState, p: Port, igmpOk: bool)
    requires p.InMemory() && s != PreMaster && (s in {Passive, Slave, Uncalibrated} ==> p.bestMaster.Some?)
    ensures ToState(rt, s, p, igmpOk).Ready()
  {
  }

  lemma BestMasterClockStaysReady(rt: RunTimeOpts, p: Port)
    requires p.Ready()
    ensures var (s, q) := BestMasterClock(rt, p);
            q.Ready() && q.portState == p.portState && s in {Listening, Faulty, Master, Passive, Slave}
    ensures var (s, q) := BestMasterClock(rt, p);
            s in {Passive, Slave} ==> q.bestMaster.Some?
  {
    hide DataSetComparison, CopyD0, TimePropertiesFrom, ScanBest;
  }

  lemma DecisionStaysReady(rt: RunTimeOpts, igmpOk: bool, p: Port)
    requires p.Ready()
    ensures Decision(rt, igmpOk, p).Ready()
  {
    hide BestMasterClock, ToState;
    BestMasterClockStaysReady(rt, p.(recordUpdate := false));
    var (s, q) := BestMasterClock(rt, p.(recordUpdate := false));
    ToStateStaysReady(rt, s, q, igmpOk);
  }

  lemma ReceiveStaysReady(rt: RunTimeOpts, i: Input, p: Port)
    requires p.Ready()
    ensures Receive(rt, i, p).Ready()
  {
  }

  lemma AnnounceTimeoutStaysReady(rt: RunTimeOpts, igmpOk: bool, p: Port)
    requires p.Ready()
    ensures AnnounceTimeout(rt, igmpOk, p).Ready()
  {
    hide ToState;
    ToStateStaysReady(rt, Master, M1(rt, p.(table := Reset(p.table), bestMaster := None)), igmpOk);
    ToStateStaysReady(rt, Faulty, if p.bestMaster.None? then p else Disqualify(p), igmpOk);
    var q := if p.portState == Listening then p else p.(table := Reset(p.table), bestMaster := None);
    ToStateStaysReady(rt, if rt.backupIfaceEnabled then Initializing else Listening, q, igmpOk);
  }

  lemma FollowerTurnStaysReady(rt: RunTimeOpts, i: Input, p: Port)
    requires p.Ready()
    ensures FollowerTurn(rt, i, p).Ready()
  {
    hide Receive, AnnounceTimeout, ToState;
    ReceiveStaysReady(rt, i, p);
    var received := Receive(rt, i, p);
    AnnounceTimeoutStaysReady(rt, i.igmpOk, received);
    var timed := if i.announceTimeout && AwaitsAnnounce(received.portState)
                 then AnnounceTimeout(rt, i.igmpOk, received) else received;
    ToStateStaysReady(rt, Listening, timed, i.igmpOk);
    var updated := if i.clockUpdateTimeout && timed.portState == Slave
                   then ToState(rt, Listening, timed, i.igmpOk) else timed;
    ToStateStaysReady(rt, Faulty, updated, i.igmpOk);
  }

  lemma MasterTurnStaysReady(rt: RunTimeOpts, i: Input, p: Port)
    requires p.Ready()
    ensures MasterTurn(rt, i, p).Ready()
  {
    hide Receive, ToState;
    var q := p.(timePropertiesDS := if i.utcOffset != 0
              then p.timePropertiesDS.(currentUtcOffset := i.utcOffset, currentUtcOffsetValid := true)
              else p.timePropertiesDS);
    ToStateStaysReady(rt, Faulty, q, i.igmpOk);
    var sent := if i.sendError then ToState(rt, Faulty, q, i.igmpOk) else q;
    ToStateStaysReady(rt, Faulty, sent, i.igmpOk);
    ReceiveStaysReady(rt, i, sent);
    ToStateStaysReady(rt, Listening, Receive(rt, i, sent), i.igmpOk);
  }

  lemma DoStateStaysReady(rt: RunTimeOpts, i: Input, p: Port)
    requires p.Ready()
    ensures DoState(rt, i, p).Ready()
  {
    hide Decision, FollowerTurn, MasterTurn, Receive, ToState;
    DecisionStaysReady(rt, i.igmpOk, p);
    var d := Decision(rt, i.igmpOk, p);
    ReceiveStaysReady(rt, i, d);
    FollowerTurnStaysReady(rt, i, d);
    MasterTurnStaysReady(rt, i, d);
    ToStateStaysReady(rt, Initializing, d, i.igmpOk);
    ToStateStaysReady(rt, Listening, Receive(rt, i, d), i.igmpOk);
  }

  /** The best master pointer is never dereferenced while null, and never points outside the
      record array, whatever the environment does. */
  lemma TurnStaysReady(rt: RunTimeOpts, i: Input, p: Port)
    requires p.Ready()
    ensures Turn(rt, i, p).Ready()
  {
    hide DoState;
    var q := Switched(rt, i, p);
    DoStateStaysReady(rt, i, q);
  }
}
