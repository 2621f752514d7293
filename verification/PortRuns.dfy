/** What every run of one port keeps: the data sets agree with the state and with the chosen record,
    the role of the clock restricts its states, and the one way in which the agreement is lost. */
module PortRuns {
  import opened PtpTypes
  import opened Bmc
  import opened ForeignTable
  import opened Port

  /** Every record was stored under the identity of its sender. */
  predicate StoredBySender(t: Table) {
    forall k | 0 <= k < |t.foreign| ::
      t.foreign[k].foreignMasterPortIdentity == t.foreign[k].header.sourcePortIdentity
  }

  /** The parent data set of a grandmaster names the port itself. */
  predicate NamesItself(p: Port) {
    && p.stepsRemoved == 0
    && p.parentDS.parentPortIdentity == p.portIdentity
    && p.parentDS.grandmasterIdentity == p.defaultDS.clockIdentity
    && p.parentDS.grandmasterClockQuality == p.defaultDS.clockQuality
    && p.parentDS.grandmasterPriority1 == p.defaultDS.priority1
    && p.parentDS.grandmasterPriority2 == p.defaultDS.priority2
  }

  /** The best master pointer and the best index denote one used record, sent by the parent. */
  predicate PointsAtParent(p: Port)
    requires p.Ready()
  {
    && p.table.number > 0 && p.table.best < p.table.number
    && p.bestMaster == Some(p.table.best)
    && p.parentDS.parentPortIdentity == p.table.foreign[p.table.best].foreignMasterPortIdentity
  }

  /** The current and parent data sets say what the best record says. */
  predicate CopiesRecord(p: Port)
    requires p.Ready()
  {
    var announce := p.table.foreign[p.table.best].announce;
    && p.stepsRemoved == (announce.stepsRemoved + 1) % 0x1_0000
    && p.parentDS.grandmasterIdentity == announce.grandmasterIdentity
    && p.parentDS.grandmasterClockQuality == announce.grandmasterClockQuality
    && p.parentDS.grandmasterPriority1 == announce.grandmasterPriority1
    && p.parentDS.grandmasterPriority2 == announce.grandmasterPriority2
  }

  /** A MASTER has the configured time properties, but for a UTC offset that the system supplied. */
  predicate LeadsTime(rt: RunTimeOpts, p: Port) {
    p.timePropertiesDS == rt.timeProperties.(
      currentUtcOffset := p.timePropertiesDS.currentUtcOffset,
      currentUtcOffsetValid := p.timePropertiesDS.currentUtcOffsetValid)
  }

  /** A SLAVE has the time properties that its record announces. */
  predicate FollowsTime(p: Port)
    requires p.Ready()
  {
    var record := p.table.foreign[p.table.best];
    p.timePropertiesDS == TimePropertiesFrom(record.header, record.announce)
  }

  /** A SLAVE that accepts any domain is in the domain of its master. */
  predicate FollowsDomain(rt: RunTimeOpts, p: Port)
    requires p.Ready()
  {
    rt.anyDomain ==> p.defaultDS.domainNumber == p.table.foreign[p.table.best].header.domainNumber
  }

  /** A port in PASSIVE keeps to the configured UTC offset, whatever others announce. */
  predicate StandsByTime(rt: RunTimeOpts, p: Port) {
    && p.timePropertiesDS.currentUtcOffset == rt.timeProperties.currentUtcOffset
    && p.timePropertiesDS.currentUtcOffsetValid == rt.timeProperties.currentUtcOffsetValid
  }

  predicate Operational(s: PortState) {
    s in {Listening, Master, Passive, Slave}
  }

  /** The states that a clock of this role may take. */
  predicate RoleAllows(rt: RunTimeOpts, s: PortState) {
    if rt.slaveOnly then s != Master && s != Passive
    else if rt.clockQuality.clockClass < 128 then s != Slave
    else s != Passive
  }

  /** The quality of a clock: a slave-only one has its own class. */
  function QualityOf(rt: RunTimeOpts): ClockQuality {
    ClockQuality(if rt.slaveOnly then SLAVE_ONLY_CLOCK_CLASS else rt.clockQuality.clockClass,
                 rt.clockQuality.clockAccuracy, rt.clockQuality.offsetScaledLogVariance)
  }

  /** The default data set and the port identity are those of the configuration. */
  predicate ConfiguredBy(rt: RunTimeOpts, p: Port) {
    && p.defaultDS == DefaultDS(true, p.defaultDS.clockIdentity, QualityOf(rt), rt.priority1, rt.priority2,
                                p.defaultDS.domainNumber, rt.slaveOnly)
    && p.portIdentity == PortIdentity(p.defaultDS.clockIdentity, rt.portNumber)
    && (!rt.anyDomain ==> p.defaultDS.domainNumber == rt.domainNumber)
  }

  predicate Coherent(rt: RunTimeOpts, p: Port) {
    && p.Ready() && StoredBySender(p.table)
    && (p.defaultDS.slaveOnly ==> rt.slaveOnly)
    && p.portState != PreMaster && p.portState != Uncalibrated
    && (Operational(p.portState) ==> ConfiguredBy(rt, p) && RoleAllows(rt, p.portState))
    && (p.portState == Master ==> NamesItself(p) && LeadsTime(rt, p))
    && (p.portState == Passive ==> PointsAtParent(p) && StandsByTime(rt, p))
    && (p.portState == Slave ==> PointsAtParent(p) && CopiesRecord(p) && FollowsTime(p) && FollowsDomain(rt, p))
  }

  /** A slave-only port is about to decide with an empty table. */
  predicate EmptyDecision(p: Port) {
    p.portState == Listening && p.defaultDS.slaveOnly && p.recordUpdate && p.table.number == 0
  }

  // ---------------------------------------------------------------- step by step

  lemma EnterListeningKeeps(rt: RunTimeOpts, p: Port, igmpOk: bool)
    requires p.InMemory() && StoredBySender(p.table) && ConfiguredBy(rt, p)
    ensures Coherent(rt, EnterListening(rt, p, igmpOk))
  {
  }

  lemma LeaveForInactiveKeeps(rt: RunTimeOpts, s: PortState, p: Port)
    requires p.InMemory() && StoredBySender(p.table) && (p.defaultDS.slaveOnly ==> rt.slaveOnly)
    requires s in {Initializing, Faulty, Disabled}
    ensures var q := Enter(rt, s, p);
            Coherent(rt, q) && q.defaultDS == p.defaultDS && q.portIdentity == p.portIdentity
  {
  }

  /** The decision on a record agrees with the state that it recommends. */
  lemma DecidedStateKeeps(rt: RunTimeOpts, k: nat, p: Port, igmpOk: bool)
    requires p.InMemory() && StoredBySender(p.table) && ConfiguredBy(rt, p)
    requires Operational(p.portState) && RoleAllows(rt, p.portState)
    requires k == p.table.best && p.bestMaster == Some(k)
    requires p.table.number > 0 ==> k < p.table.number
    requires p.table.number == 0 ==> p.portState == Listening && !rt.slaveOnly
    ensures var (s, q) := StateDecision(rt, k, p);
            Coherent(rt, if s != q.portState then ToState(rt, s, q, igmpOk) else q)
  {
    hide DataSetComparison, CopyD0, TimePropertiesFrom;
  }

  /** From a coherent port the decision keeps coherence exactly when a slave-only port does not
      decide on an empty table. */
  lemma DecisionKeepsIff(rt: RunTimeOpts, igmpOk: bool, p: Port)
    requires Coherent(rt, p)
    ensures Decision(rt, igmpOk, p).Ready()
    ensures Coherent(rt, Decision(rt, igmpOk, p)) <==> !EmptyDecision(p)
  {
    hide DataSetComparison, CopyD0, TimePropertiesFrom, ScanBest;
    DecisionStaysReady(rt, igmpOk, p);
    if Operational(p.portState) && p.recordUpdate && !EmptyDecision(p)
       && !(p.table.number == 0 && p.portState == Master) {
      var q := p.(recordUpdate := false);
      var best := ScanBest(p.table.foreign, p.table.number, q.Context(rt));
      DecidedStateKeeps(rt, best, q.(table := q.table.(best := best), bestMaster := Some(best)), igmpOk);
    }
  }

  /** A record of somebody else than the parent never replaces the parent's record. */
  lemma AddForeignKeepsParent(p: Port, a: Announcement)
    requires p.Ready() && StoredBySender(p.table)
    requires PointsAtParent(p) && !FromParent(p, a.header)
    ensures var t := AddForeign(p.table, a);
            && StoredBySender(t) && t.number >= p.table.number
            && t.foreign[p.table.best] == p.table.foreign[p.table.best]
  {
    hide FindFrom;
    if p.table.next == p.table.best {
      WrapAround(p.table.next + 1, NumberAfterInsert(p.table));
    }
  }

  lemma AddForeignStoresBySender(t: Table, a: Announcement)
    requires t.InBounds() && StoredBySender(t)
    ensures StoredBySender(AddForeign(t, a))
  {
    hide FindFrom;
  }

  lemma HandleAnnounceKeeps(rt: RunTimeOpts, a: Announcement, p: Port)
    requires Coherent(rt, p)
    ensures Coherent(rt, HandleAnnounce(rt, a, p))
  {
    hide AddForeign, TimePropertiesFrom, CmpPortIdentity, IsSet;
    AddForeignStoresBySender(p.table, a);
    if p.portState in {Passive, Slave} && !FromParent(p, a.header) {
      AddForeignKeepsParent(p, a);
    }
  }

  lemma ReceiveKeeps(rt: RunTimeOpts, i: Input, p: Port)
    requires Coherent(rt, p)
    ensures Coherent(rt, Receive(rt, i, p))
  {
    hide HandleAnnounce;
    LeaveForInactiveKeeps(rt, Faulty, p);
    if i.announce.Some? {
      HandleAnnounceKeeps(rt, i.announce.value, p);
    }
  }

  /** Disqualifying the best record keeps what the data sets were copied from. */
  lemma GraceKeeps(rt: RunTimeOpts, p: Port)
    requires Coherent(rt, p) && p.portState in {Passive, Slave}
    ensures Coherent(rt, Disqualify(p))
    ensures Coherent(rt, Disqualify(p).(announceTimeouts := p.announceTimeouts + 1))
  {
  }

  lemma BecomesMasterKeeps(rt: RunTimeOpts, p: Port)
    requires p.InMemory() && StoredBySender(p.table) && ConfiguredBy(rt, p)
    requires !rt.slaveOnly
    ensures Coherent(rt, Enter(rt, Master, M1(rt, p)))
  {
  }

  /** What a coherent port brings to the end of its announce receipt timer. */
  lemma TimeoutFacts(rt: RunTimeOpts, p: Port)
    requires Coherent(rt, p) && AwaitsAnnounce(p.portState)
    ensures p.InMemory() && StoredBySender(p.table) && ConfiguredBy(rt, p) && (p.defaultDS.slaveOnly ==> rt.slaveOnly)
    ensures p.portState != Listening ==> p.bestMaster.Some?
  {
  }

  lemma AnnounceTimeoutKeeps(rt: RunTimeOpts, igmpOk: bool, p: Port)
    requires Coherent(rt, p) && AwaitsAnnounce(p.portState)
    ensures Coherent(rt, AnnounceTimeout(rt, igmpOk, p))
  {
    hide EnterListening, Enter, M1, Coherent, StoredBySender;
    TimeoutFacts(rt, p);
    var reset := p.(table := Reset(p.table), bestMaster := None);
    ResetKeepsStored(p.table);
    if !rt.slaveOnly && rt.clockQuality.clockClass != SLAVE_ONLY_CLOCK_CLASS {
      BecomesMasterKeeps(rt, reset);
    } else {
      var q := if p.portState == Listening then p else reset;
      LeaveForInactiveKeeps(rt, Initializing, q);
      EnterListeningKeeps(rt, q, igmpOk);
      if p.portState != Listening {
        GraceKeeps(rt, p);
        TimeoutFacts(rt, Disqualify(p));
        LeaveForInactiveKeeps(rt, Faulty, Disqualify(p));
      }
    }
  }

  lemma ResetKeepsStored(t: Table)
    requires StoredBySender(t)
    ensures StoredBySender(Reset(t))
  {
  }

  lemma FollowerTurnKeeps(rt: RunTimeOpts, i: Input, p: Port)
    requires Coherent(rt, p)
    ensures Coherent(rt, FollowerTurn(rt, i, p))
  {
    hide Receive, AnnounceTimeout, Enter, EnterListening;
    ReceiveKeeps(rt, i, p);
    var received := Receive(rt, i, p);
    if AwaitsAnnounce(received.portState) {
      AnnounceTimeoutKeeps(rt, i.igmpOk, received);
    }
    var timed := if i.announceTimeout && AwaitsAnnounce(received.portState)
                 then AnnounceTimeout(rt, i.igmpOk, received) else received;
    if timed.portState == Slave {
      EnterListeningKeeps(rt, timed, i.igmpOk);
    }
    var updated := if i.clockUpdateTimeout && timed.portState == Slave
                   then ToState(rt, Listening, timed, i.igmpOk) else timed;
    LeaveForInactiveKeeps(rt, Faulty, updated);
  }

  lemma MasterTurnKeeps(rt: RunTimeOpts, i: Input, p: Port)
    requires Coherent(rt, p) && p.portState == Master
    ensures Coherent(rt, MasterTurn(rt, i, p))
  {
    hide Receive, Enter, EnterListening;
    var q := p.(timePropertiesDS := if i.utcOffset != 0
              then p.timePropertiesDS.(currentUtcOffset := i.utcOffset, currentUtcOffsetValid := true)
              else p.timePropertiesDS);
    assert Coherent(rt, q);
    LeaveForInactiveKeeps(rt, Faulty, q);
    var sent := if i.sendError then ToState(rt, Faulty, q, i.igmpOk) else q;
    LeaveForInactiveKeeps(rt, Faulty, sent);
    ReceiveKeeps(rt, i, sent);
    MasterReceives(rt, i, sent);
    EnterListeningKeeps(rt, Receive(rt, i, sent), i.igmpOk);
  }

  /** Receiving changes neither the configuration nor the identity of the port. */
  lemma MasterReceives(rt: RunTimeOpts, i: Input, p: Port)
    requires p.Ready()
    ensures var r := Receive(rt, i, p);
            && r.defaultDS == p.defaultDS.(domainNumber := r.defaultDS.domainNumber)
            && (!rt.anyDomain ==> r.defaultDS == p.defaultDS)
            && r.portIdentity == p.portIdentity
  {
    hide AddForeign, TimePropertiesFrom, CmpPortIdentity, IsSet;
  }

  lemma DoStateKeeps(rt: RunTimeOpts, i: Input, p: Port)
    requires Coherent(rt, p) && !EmptyDecision(p) && p.portState != Initializing
    requires p.portState == Disabled ==> i.disabled
    ensures Coherent(rt, DoState(rt, i, p))
  {
    hide Receive, FollowerTurn, MasterTurn, Enter, EnterListening;
    DecisionKeepsIff(rt, i.igmpOk, p);
    DecisionFromDisabled(rt, i.igmpOk, p);
    var q := Decision(rt, i.igmpOk, p);
    hide Decision;
    LeaveForInactiveKeeps(rt, Initializing, q);
    ReceiveKeeps(rt, i, q);
    FollowerTurnKeeps(rt, i, q);
    if q.portState == Master {
      MasterTurnKeeps(rt, i, q);
    }
  }

  lemma DecisionFromDisabled(rt: RunTimeOpts, igmpOk: bool, p: Port)
    requires p.Ready()
    ensures Decision(rt, igmpOk, p).portState == Disabled ==> p.portState == Disabled
  {
    hide DataSetComparison, CopyD0, ScanBest;
  }

  lemma InitialisationKeeps(rt: RunTimeOpts, initOk: bool, igmpOk: bool, p: Port)
    requires p.InMemory() && StoredBySender(p.table) && (p.defaultDS.slaveOnly ==> rt.slaveOnly)
    ensures Coherent(rt, DoInit(rt, initOk, igmpOk, p))
  {
    hide EnterListening, Enter;
    LeaveForInactiveKeeps(rt, Faulty, p);
    EnterListeningKeeps(rt, M1(rt, InitData(rt, p)), igmpOk);
  }

  /** One turn of the main loop keeps the data sets coherent, faults and re-initialisations
      included, unless it decides with an empty table on a slave-only port. */
  lemma TurnKeepsCoherent(rt: RunTimeOpts, i: Input, p: Port)
    requires Coherent(rt, p) && !EmptyDecision(p)
    ensures Coherent(rt, Turn(rt, i, p))
  {
    hide DoState, DoInit, Enter;
    LeaveForInactiveKeeps(rt, Disabled, p);
    LeaveForInactiveKeeps(rt, Initializing, p);
    var q := Switched(rt, i, p);
    EnteredState(rt, Disabled, p);
    EnteredState(rt, Initializing, p);
    if q.portState == Initializing {
      InitialisationKeeps(rt, i.initOk, i.igmpOk, q);
    } else {
      DoStateKeeps(rt, i, q);
    }
    var worked := if q.portState == Initializing then DoInit(rt, i.initOk, i.igmpOk, q) else DoState(rt, i, q);
    LeaveForInactiveKeeps(rt, Disabled, worked);
  }

  lemma TurnCoherence(rt: RunTimeOpts, i: Input, p: Port)
    requires p.Ready()
    ensures Coherent(rt, p) && !EmptyDecision(p) ==> Coherent(rt, Turn(rt, i, p))
  {
    hide Coherent, EmptyDecision, Turn;
    if Coherent(rt, p) && !EmptyDecision(p) {
      TurnKeepsCoherent(rt, i, p);
    }
  }

  lemma EnteredState(rt: RunTimeOpts, s: PortState, p: Port)
    requires s in {Initializing, Faulty, Disabled}
    ensures Enter(rt, s, p).portState == s
  {
  }

  // ---------------------------------------------------------------- runs

  function Run(rt: RunTimeOpts, inputs: seq<Input>, p: Port): (r: Port)
    requires p.Ready()
    ensures r.Ready()
    decreases |inputs|
  {
    if inputs == [] then p
    else
      TurnStaysReady(rt, inputs[0], p);
      Run(rt, inputs[1..], Turn(rt, inputs[0], p))
  }

  /** No turn of the run starts with an empty decision. */
  predicate DecidesOnRecords(rt: RunTimeOpts, inputs: seq<Input>, p: Port)
    requires p.Ready()
    decreases |inputs|
  {
    inputs == [] ||
    (!EmptyDecision(p) &&
     (TurnStaysReady(rt, inputs[0], p); DecidesOnRecords(rt, inputs[1..], Turn(rt, inputs[0], p))))
  }

  /** A clock whose memory was just cleared. */
  predicate JustStarted(p: Port) {
    p.Ready() && StoredBySender(p.table) && !p.defaultDS.slaveOnly && p.portState == Initializing
  }

  lemma {:induction false} RunKeepsCoherent(rt: RunTimeOpts, inputs: seq<Input>, p: Port)
    requires Coherent(rt, p) && DecidesOnRecords(rt, inputs, p)
    ensures Coherent(rt, Run(rt, inputs, p))
    decreases |inputs|
  {
    hide Turn, Coherent, EmptyDecision;
    CoherentIsReady(rt, p);
    if inputs != [] {
      TurnKeepsCoherent(rt, inputs[0], p);
      RunKeepsCoherent(rt, inputs[1..], Turn(rt, inputs[0], p));
    }
  }

  lemma CoherentIsReady(rt: RunTimeOpts, p: Port)
    requires Coherent(rt, p)
    ensures p.Ready()
  {
  }

  /** Data set coherence over every run from a cleared clock: a MASTER's parent is itself; a SLAVE
      follows exactly the record that its pointer and its best index denote. */
  lemma DataSetsAgreeWithState(rt: RunTimeOpts, inputs: seq<Input>, start: Port)
    requires JustStarted(start) && DecidesOnRecords(rt, inputs, start)
    ensures var p := Run(rt, inputs, start);
            && (p.portState == Master ==> NamesItself(p) && LeadsTime(rt, p))
            && (p.portState == Slave ==>
                  PointsAtParent(p) && CopiesRecord(p) && FollowsTime(p) && FollowsDomain(rt, p))
            && (p.portState == Passive ==> PointsAtParent(p) && StandsByTime(rt, p))
            && (Operational(p.portState) ==> ConfiguredBy(rt, p))
  {
    RunKeepsCoherent(rt, inputs, start);
  }
}
