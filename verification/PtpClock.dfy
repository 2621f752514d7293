/** The clock object whose fields the source updates in place. Every method is tied to the value
    machine of module `Port`; the record array and the best master pointer into it are aliased
    as in the source, so a write through the pointer is a write to the array. */
module PtpClock {
  import opened PtpTypes
  import opened Bmc
  import opened ForeignTable
  import P = Port
  import R = PortRuns

  class PtpClock {
    var defaultDS: DefaultDS
    var stepsRemoved: uint16
    var parentDS: ParentDS
    var timePropertiesDS: TimePropertiesDS
    var portIdentity: PortIdentity
    var portState: PortState
    const foreign: array<ForeignMasterRecord>
    var numberForeignRecords: nat
    var foreignRecordI: nat
    var foreignRecordBest: nat
    var bestMaster: Option<nat>
    var recordUpdate: bool
    var announceTimeouts: nat
    var listenCount: nat

    ghost function Records(): Table
      reads this, foreign
    {
      Table(foreign[..], numberForeignRecords, foreignRecordI, foreignRecordBest)
    }

    ghost function View(): P.Port
      reads this, foreign
    {
      P.Port(defaultDS, stepsRemoved, parentDS, timePropertiesDS, portIdentity, portState, Records(),
             bestMaster, recordUpdate, announceTimeouts, listenCount)
    }

    /** The zeroed memory of a fresh clock. */
    constructor (clockIdentity: ClockIdentity, capacity: nat)
      requires capacity >= 2
      ensures fresh(foreign) && foreign.Length == capacity
      ensures R.JustStarted(View()) && Records() == Table(foreign[..], 0, 0, 0) && !recordUpdate
      ensures defaultDS.clockIdentity == clockIdentity
    {
      var zero := ClockQuality(0, 0, 0);
      var nobody := PortIdentity(ZERO_IDENTITY, 0);
      defaultDS := DefaultDS(false, clockIdentity, zero, 0, 0, 0, false);
      stepsRemoved, numberForeignRecords, foreignRecordI, foreignRecordBest := 0, 0, 0, 0;
      parentDS := ParentDS(nobody, ZERO_IDENTITY, zero, 0, 0);
      timePropertiesDS := TimePropertiesDS(0, false, false, false, false, 0);
      portIdentity, portState, bestMaster := nobody, Initializing, None;
      recordUpdate, announceTimeouts, listenCount := false, 0, 0;
      var blank := ForeignMasterRecord(nobody, 0,
        MsgAnnounce(Timestamp(0, 0, 0), 0, 0, zero, 0, ZERO_IDENTITY, 0, 0),
        MsgHeader(0, 0, 0, 0, 0, 0, 0, Integer64(0, 0), nobody, 0, 0, 0), 0, 0, false);
      foreign := new ForeignMasterRecord[capacity](_ => blank);
    }

    method M1(rt: RunTimeOpts)
      modifies this
      ensures View() == P.M1(rt, old(View()))
    {
      stepsRemoved := 0;
      parentDS := ParentDS(PortIdentity(defaultDS.clockIdentity, portIdentity.portNumber),
                           defaultDS.clockIdentity, defaultDS.clockQuality,
                           defaultDS.priority1, defaultDS.priority2);
      timePropertiesDS := rt.timeProperties;
    }

    method S1(rt: RunTimeOpts, header: MsgHeader, announce: MsgAnnounce)
      modifies this
      ensures View() == P.S1(rt, header, announce, old(View()))
    {
      stepsRemoved := (announce.stepsRemoved + 1) % 0x1_0000;
      parentDS := ParentDS(header.sourcePortIdentity, announce.grandmasterIdentity,
                           announce.grandmasterClockQuality,
                           announce.grandmasterPriority1, announce.grandmasterPriority2);
      timePropertiesDS := timePropertiesDS.(
        currentUtcOffset := announce.currentUtcOffset,
        currentUtcOffsetValid := IsSet(header.flagField1, UTCV));
      if portState == Passive {
        timePropertiesDS := timePropertiesDS.(
          currentUtcOffset := rt.timeProperties.currentUtcOffset,
          currentUtcOffsetValid := rt.timeProperties.currentUtcOffsetValid);
      }
      timePropertiesDS := timePropertiesDS.(
        timeTraceable := IsSet(header.flagField1, TTRA),
        frequencyTraceable := IsSet(header.flagField1, FTRA),
        ptpTimescale := IsSet(header.flagField1, PTPT),
        timeSource := announce.timeSource);
      if rt.anyDomain {
        defaultDS := defaultDS.(domainNumber := header.domainNumber);
      }
    }

    method StateDecision(rt: RunTimeOpts, k: nat) returns (s: PortState)
      requires k < foreign.Length
      modifies this
      ensures (s, View()) == P.StateDecision(rt, k, old(View()))
    {
      var record := foreign[k];
      if defaultDS.slaveOnly {
        S1(rt, record.header, record.announce);
        return Slave;
      }
      if numberForeignRecords == 0 && portState == Listening {
        return Listening;
      }
      var context := Context(parentDS.parentPortIdentity.clockIdentity, defaultDS.domainNumber,
                             rt.domainNumber, rt.anyDomain, rt.preferUtcValid);
      var me := P.CopyD0(P.Port(defaultDS, stepsRemoved, parentDS, timePropertiesDS, portIdentity, portState,
                                Table([], 0, 0, 0), None, false, 0, 0));
      var comp := DataSetComparison(me, record, context);
      if comp < 0 {
        M1(rt);
        return Master;
      } else if comp > 0 {
        S1(rt, record.header, record.announce);
        return if defaultDS.clockQuality.clockClass < 128 then Passive else Slave;
      } else {
        return Faulty;
      }
    }

    /** The scan of `bmc` over the records in use. */
    method ScanRecords(context: Context) returns (best: nat)
      requires View().InMemory()
      ensures best == ScanBest(foreign[..], numberForeignRecords, context) && best < foreign.Length
    {
      hide DataSetComparison;
      ghost var records := foreign[..];
      best := 0;
      var i: nat := 1;
      while i < numberForeignRecords
        invariant best < i && best < foreign.Length
        invariant 1 <= i <= numberForeignRecords || (i == 1 && numberForeignRecords == 0)
        invariant i <= numberForeignRecords ==> best == ScanBest(records, i, context)
      {
        if DataSetComparison(foreign[i], foreign[best], context) < 0 {
          best := i;
        }
        i := i + 1;
      }
    }

    method BestMasterClock(rt: RunTimeOpts) returns (s: PortState)
      requires View().Ready()
      modifies this
      ensures (s, View()) == P.BestMasterClock(rt, old(View()))
    {
      if numberForeignRecords == 0 && portState == Master {
        M1(rt);
        return portState;
      }
      var context := Context(parentDS.parentPortIdentity.clockIdentity, defaultDS.domainNumber,
                             rt.domainNumber, rt.anyDomain, rt.preferUtcValid);
      var best := ScanRecords(context);
      foreignRecordBest := best;
      bestMaster := Some(best);
      s := StateDecision(rt, best);
    }

    method Enter(rt: RunTimeOpts, s: PortState)
      requires s != Listening
      modifies this
      ensures View() == P.Enter(rt, s, old(View()))
    {
      if portState == Listening {
        listenCount := 0;
      }
      match s
      case Initializing | Faulty | Uncalibrated =>
        portState := s;
      case Disabled =>
        bestMaster := None;
        portState := Disabled;
      case Master =>
        portState := Master;
        bestMaster := None;
      case Passive =>
        portState := Passive;
        timePropertiesDS := P.P1(rt, portState, timePropertiesDS);
      case Slave =>
        announceTimeouts := 0;
        portState := Slave;
      case PreMaster =>
    }

    method EnterListening(rt: RunTimeOpts, igmpOk: bool)
      modifies this
      ensures View() == P.EnterListening(rt, old(View()), igmpOk)
    {
      if defaultDS.clockQuality.clockClass <= 127 && rt.disableBMCA {
        numberForeignRecords := 0;
        foreignRecordI := 0;
        M1(rt);
        Enter(rt, Master);
        return;
      }
      if portState == Listening {
        listenCount := listenCount + 1;
        if listenCount >= rt.maxListen {
          Enter(rt, Faulty);
          listenCount := 0;
          return;
        }
      }
      if rt.refreshIgmp && !igmpOk {
        Enter(rt, Faulty);
        return;
      }
      announceTimeouts := 0;
      bestMaster := None;
      portState := Listening;
    }

    method ToState(rt: RunTimeOpts, s: PortState, igmpOk: bool)
      modifies this
      ensures View() == P.ToState(rt, s, old(View()), igmpOk)
    {
      if s == Listening {
        EnterListening(rt, igmpOk);
      } else {
        Enter(rt, s);
      }
    }

    /** The search of `addForeign`, from the best record round the used slots. */
    method FindRecord(id: PortIdentity) returns (slot: Option<nat>)
      requires View().InMemory()
      ensures slot == Find(Records(), id)
    {
      ghost var t := Records();
      var i: nat, j := 0, foreignRecordBest;
      while i < numberForeignRecords
        invariant 0 <= i <= t.number && 0 <= j < |t.foreign|
        invariant Find(t, id) == FindFrom(t, id, j, t.number - i)
      {
        if foreign[j].foreignMasterPortIdentity == id {
          return Some(j);
        }
        i, j := i + 1, (j + 1) % numberForeignRecords;
      }
      return None;
    }

    method AddForeign(a: Announcement)
      requires View().InMemory()
      modifies this, foreign
      ensures View() == old(View()).(table := ForeignTable.AddForeign(old(Records()), a))
    {
      hide FindFrom;
      var slot := FindRecord(a.Sender());
      if slot.Some? {
        var j := slot.value;
        foreign[j] := foreign[j].(
          foreignMasterAnnounceMessages := (foreign[j].foreignMasterAnnounceMessages + 1) % 0x1_0000,
          header := a.header, announce := a.announce,
          disqualified := false, localPreference := a.localPreference);
      } else {
        if numberForeignRecords < foreign.Length {
          numberForeignRecords := numberForeignRecords + 1;
        }
        if foreignRecordI == foreignRecordBest {
          foreignRecordI := (foreignRecordI + 1) % numberForeignRecords;
        }
        var j := foreignRecordI;
        foreign[j] := ForeignMasterRecord(a.Sender(), 0, a.announce, a.header, a.localPreference, a.sourceAddr, false);
        foreignRecordI := (foreignRecordI + 1) % foreign.Length;
      }
    }

    /** An Announce of the current parent: the data sets and, through the best master pointer,
        the parent's record are brought up to date. */
    method UpdateParent(rt: RunTimeOpts, a: Announcement)
      requires View().InMemory() && bestMaster.Some?
      modifies this, foreign
      ensures View() == P.UpdateParent(rt, a, old(View()))
    {
      hide P.TimePropertiesFrom, P.ParentFrom, P.P1;
      recordUpdate := true;
      S1(rt, a.header, a.announce);
      var k := bestMaster.value;
      foreign[k] := foreign[k].(header := a.header, announce := a.announce);
      if rt.announceTimeoutGracePeriod > 0 && announceTimeouts > 0 {
        announceTimeouts := 0;
      }
    }

    method HandleAnnounce(rt: RunTimeOpts, a: Announcement)
      requires View().Ready()
      modifies this, foreign
      ensures View() == P.HandleAnnounce(rt, a, old(View()))
    {
      hide ForeignTable.AddForeign, P.UpdateParent, CmpPortIdentity, IsSet, P.TimePropertiesFrom, P.ParentFrom, P.P1;
      if defaultDS.clockQuality.clockClass <= 127 && rt.disableBMCA {
        return;
      }
      var isFromSelf := CmpPortIdentity(portIdentity, a.Sender()) == 0;
      var fromParent := a.Sender() == parentDS.parentPortIdentity;
      match portState
      case Initializing | Faulty | Disabled =>
      case Uncalibrated | Slave =>
        if !isFromSelf && (!rt.requireUtcValid || IsSet(a.header.flagField1, UTCV)) {
          if fromParent {
            UpdateParent(rt, a);
          } else {
            recordUpdate := true;
            AddForeign(a);
          }
        }
      case Passive =>
        if !isFromSelf && (!rt.requireUtcValid || IsSet(a.header.flagField1, UTCV)) {
          recordUpdate := true;
          if fromParent {
            S1(rt, a.header, a.announce);
          } else {
            AddForeign(a);
          }
        }
      case Listening | PreMaster | Master =>
        if !isFromSelf && (!rt.requireUtcValid || IsSet(a.header.flagField1, UTCV)) {
          AddForeign(a);
          recordUpdate := true;
        }
    }

    method Receive(rt: RunTimeOpts, i: P.Input)
      requires View().Ready()
      modifies this, foreign
      ensures View() == P.Receive(rt, i, old(View()))
    {
      if i.receiveError {
        ToState(rt, Faulty, i.igmpOk);
      } else if i.announce.Some? {
        var a := i.announce.value;
        if a.header.domainNumber != defaultDS.domainNumber && !(defaultDS.slaveOnly && rt.anyDomain) {
          return;
        }
        HandleAnnounce(rt, a);
      }
    }

    method AnnounceTimeout(rt: RunTimeOpts, igmpOk: bool)
      requires View().Ready() && P.AwaitsAnnounce(portState)
      modifies this, foreign
      ensures View() == P.AnnounceTimeout(rt, igmpOk, old(View()))
    {
      if !defaultDS.slaveOnly && defaultDS.clockQuality.clockClass != SLAVE_ONLY_CLOCK_CLASS {
        numberForeignRecords := 0;
        foreignRecordI := 0;
        bestMaster := None;
        M1(rt);
        ToState(rt, Master, igmpOk);
      } else if portState != Listening {
        if announceTimeouts < rt.announceTimeoutGracePeriod {
          var k := bestMaster.value;
          if !foreign[k].disqualified {
            foreign[k] := foreign[k].(disqualified := true);
          }
          if rt.refreshIgmp && !igmpOk {
            ToState(rt, Faulty, igmpOk);
            return;
          }
          announceTimeouts := announceTimeouts + 1;
        } else {
          numberForeignRecords := 0;
          foreignRecordI := 0;
          bestMaster := None;
          ToState(rt, if rt.backupIfaceEnabled then Initializing else Listening, igmpOk);
        }
      } else {
        ToState(rt, if rt.backupIfaceEnabled then Initializing else Listening, igmpOk);
      }
    }

    method Decision(rt: RunTimeOpts, igmpOk: bool)
      requires View().Ready()
      modifies this
      ensures View() == P.Decision(rt, igmpOk, old(View()))
    {
      if portState in {Listening, Passive, Slave, Master} && recordUpdate {
        recordUpdate := false;
        var s := BestMasterClock(rt);
        if s != portState {
          ToState(rt, s, igmpOk);
        }
      }
    }

    method DoState(rt: RunTimeOpts, i: P.Input)
      requires View().Ready()
      modifies this, foreign
      ensures View() == P.DoState(rt, i, old(View()))
    {
      P.DecisionStaysReady(rt, i.igmpOk, View());
      Decision(rt, i.igmpOk);
      match portState
      case Faulty =>
        ToState(rt, Initializing, i.igmpOk);
      case Listening | Uncalibrated | Passive | Slave =>
        FollowerTurn(rt, i);
      case Master =>
        MasterTurn(rt, i);
      case Disabled =>
        Receive(rt, i);
        if !i.disabled {
          ToState(rt, Listening, i.igmpOk);
        }
      case Initializing | PreMaster =>
    }

    method FollowerTurn(rt: RunTimeOpts, i: P.Input)
      requires View().Ready()
      modifies this, foreign
      ensures View() == P.FollowerTurn(rt, i, old(View()))
    {
      P.ReceiveStaysReady(rt, i, View());
      Receive(rt, i);
      if i.announceTimeout && P.AwaitsAnnounce(portState) {
        AnnounceTimeout(rt, i.igmpOk);
      }
      if i.clockUpdateTimeout && portState == Slave {
        ToState(rt, Listening, i.igmpOk);
      }
      if i.sendError {
        ToState(rt, Faulty, i.igmpOk);
      }
    }

    method MasterTurn(rt: RunTimeOpts, i: P.Input)
      requires View().Ready()
      modifies this, foreign
      ensures View() == P.MasterTurn(rt, i, old(View()))
    {
      if i.utcOffset != 0 {
        timePropertiesDS := timePropertiesDS.(currentUtcOffset := i.utcOffset, currentUtcOffsetValid := true);
      }
      if i.sendError {
        ToState(rt, Faulty, i.igmpOk);
      }
      if rt.refreshIgmp && i.masterRefreshDue && !i.igmpOk {
        ToState(rt, Faulty, i.igmpOk);
        return;
      }
      Receive(rt, i);
      if defaultDS.slaveOnly || defaultDS.clockQuality.clockClass == SLAVE_ONLY_CLOCK_CLASS {
        ToState(rt, Listening, i.igmpOk);
      }
    }

    method DoInit(rt: RunTimeOpts, initOk: bool, igmpOk: bool)
      modifies this
      ensures View() == P.DoInit(rt, initOk, igmpOk, old(View()))
    {
      if !initOk {
        ToState(rt, Faulty, igmpOk);
        return;
      }
      bestMaster := None;
      defaultDS := defaultDS.(twoStepFlag := true, clockQuality := rt.clockQuality, priority1 := rt.priority1,
                              priority2 := rt.priority2, domainNumber := rt.domainNumber);
      if rt.slaveOnly {
        defaultDS := defaultDS.(slaveOnly := true,
                                clockQuality := rt.clockQuality.(clockClass := SLAVE_ONLY_CLOCK_CLASS));
      }
      portIdentity := PortIdentity(defaultDS.clockIdentity, rt.portNumber);
      numberForeignRecords := 0;
      M1(rt);
      ToState(rt, Listening, igmpOk);
    }

    /** One turn of the endless loop of the protocol engine. */
    method Turn(rt: RunTimeOpts, i: P.Input)
      requires View().Ready()
      modifies this, foreign
      ensures View() == P.Turn(rt, i, old(View()))
      ensures View().Ready()
      ensures old(R.Coherent(rt, View()) && !R.EmptyDecision(View())) ==> R.Coherent(rt, View())
    {
      hide R.Coherent, R.EmptyDecision, P.DoInit, P.DoState;
      P.TurnStaysReady(rt, i, View());
      R.TurnCoherence(rt, i, View());
      if i.disabled && portState != Disabled {
        ToState(rt, Disabled, i.igmpOk);
      } else if !i.disabled && portState == Disabled {
        ToState(rt, Initializing, i.igmpOk);
      }
      if portState == Initializing {
        DoInit(rt, i.initOk, i.igmpOk);
      } else {
        DoState(rt, i);
      }
      if i.disabled && portState != Disabled {
        ToState(rt, Disabled, i.igmpOk);
      }
    }
  }
}
