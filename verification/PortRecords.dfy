/** What the foreign master records of one port say, over every run: each listed record says what the last
    Announce said that the port accepted from its sender, and every other Announce leaves no trace. */
module PortRecords {
  import opened PtpTypes
  import opened Bmc
  import opened ForeignTable
  import opened Port
  import opened PortRuns

  // ---------------------------------------------------------------- which messages count

  /** Messages of other domains count on a slave-only port that accepts any domain. */
  predicate InDomain(rt: RunTimeOpts, a: Announcement, p: Port) {
    a.header.domainNumber == p.defaultDS.domainNumber || (p.defaultDS.slaveOnly && rt.anyDomain)
  }

  predicate HasUtc(rt: RunTimeOpts, a: Announcement) {
    rt.requireUtcValid ==> IsSet(a.header.flagField1, UTCV)
  }

  /** The port is active and listens to others at all. */
  predicate Listens(rt: RunTimeOpts, p: Port) {
    && p.portState !in {Initializing, Faulty, Disabled}
    && !(p.defaultDS.clockQuality.clockClass <= 127 && rt.disableBMCA)
  }

  predicate Accepts(rt: RunTimeOpts, a: Announcement, p: Port) {
    Listens(rt, p) && InDomain(rt, a, p) && HasUtc(rt, a) && a.Sender() != p.portIdentity
  }

  /** A port acts on a message exactly when it accepts it: it then has a decision to take, and otherwise
      nothing at all changes. */
  lemma AcceptsIff(rt: RunTimeOpts, a: Announcement, p: Port)
    requires p.Ready()
    ensures Accepts(rt, a, p) ==> ProcessAnnounce(rt, a, p).recordUpdate
    ensures !Accepts(rt, a, p) ==> ProcessAnnounce(rt, a, p) == p
  {
    hide AddForeign, S1, IsSet, CmpPortIdentity;
    CmpPortIdentityZero(p.portIdentity, a.Sender());
  }

  lemma ReceiveIgnores(rt: RunTimeOpts, i: Input, a: Announcement, p: Port)
    requires p.Ready() && !Accepts(rt, a, p)
    ensures Receive(rt, i.(announce := Some(a)), p) == Receive(rt, i.(announce := None), p)
  {
    hide HandleAnnounce, ToState, Accepts;
    AcceptsIff(rt, a, p);
  }

  /** A message that the port cannot accept in any state. */
  predicate Foreign(rt: RunTimeOpts, a: Announcement, p: Port) {
    a.header.domainNumber != p.defaultDS.domainNumber || !HasUtc(rt, a) || a.Sender() == p.portIdentity
  }

  lemma DecisionKeepsIdentity(rt: RunTimeOpts, igmpOk: bool, p: Port)
    requires p.Ready() && !rt.anyDomain
    ensures var d := Decision(rt, igmpOk, p);
            d.defaultDS == p.defaultDS && d.portIdentity == p.portIdentity
  {
    hide ScanBest, DataSetComparison, CopyD0, TimePropertiesFrom;
  }

  lemma EnterKeepsIdentity(rt: RunTimeOpts, s: PortState, p: Port, igmpOk: bool)
    ensures var q := ToState(rt, s, p, igmpOk);
            q.defaultDS == p.defaultDS && q.portIdentity == p.portIdentity
  {
  }

  lemma MasterTurnIgnores(rt: RunTimeOpts, i: Input, a: Announcement, p: Port)
    requires p.Ready() && !rt.anyDomain && Foreign(rt, a, p)
    ensures MasterTurn(rt, i.(announce := Some(a)), p) == MasterTurn(rt, i.(announce := None), p)
  {
    hide Receive, ToState, IsSet;
    var q := p.(timePropertiesDS := if i.utcOffset != 0
              then p.timePropertiesDS.(currentUtcOffset := i.utcOffset, currentUtcOffsetValid := true)
              else p.timePropertiesDS);
    EnterKeepsIdentity(rt, Faulty, q, i.igmpOk);
    ToStateStaysReady(rt, Faulty, q, i.igmpOk);
    ReceiveIgnores(rt, i, a, if i.sendError then ToState(rt, Faulty, q, i.igmpOk) else q);
  }

  lemma DoStateIgnores(rt: RunTimeOpts, i: Input, a: Announcement, p: Port)
    requires p.Ready() && !rt.anyDomain && Foreign(rt, a, p)
    ensures DoState(rt, i.(announce := Some(a)), p) == DoState(rt, i.(announce := None), p)
  {
    hide Decision, Receive, ToState, AnnounceTimeout, IsSet, MasterTurn;
    DecisionStaysReady(rt, i.igmpOk, p);
    DecisionKeepsIdentity(rt, i.igmpOk, p);
    var d := Decision(rt, i.igmpOk, p);
    ReceiveIgnores(rt, i, a, d);
    MasterTurnIgnores(rt, i, a, d);
  }

  /** A turn in which an Announce of another domain arrives, or an own one, or one without a required UTC
      offset, is the same turn as if nothing had arrived. */
  lemma ForeignIsIgnored(rt: RunTimeOpts, i: Input, a: Announcement, p: Port)
    requires p.Ready() && !rt.anyDomain && Foreign(rt, a, p)
    ensures Turn(rt, i.(announce := Some(a)), p) == Turn(rt, i.(announce := None), p)
  {
    hide DoState, DoInit, IsSet, ToState, Switched;
    SwitchedAlike(rt, i, Some(a), p);
    SwitchedAlike(rt, i, None, p);
    DoStateIgnores(rt, i, a, Switched(rt, i, p));
  }

  lemma SwitchedAlike(rt: RunTimeOpts, i: Input, announce: Option<Announcement>, p: Port)
    requires p.Ready()
    ensures var q := Switched(rt, i, p);
            && Switched(rt, i.(announce := announce), p) == q
            && q.Ready() && q.defaultDS == p.defaultDS && q.portIdentity == p.portIdentity
  {
  }

  // ---------------------------------------------------------------- what was heard last

  type Said = map<PortIdentity, Announcement>

  /** The port is reached by a message after the decision of the turn, if nothing fails before. */
  function Reached(rt: RunTimeOpts, i: Input, d: Port): Option<Port> {
    if i.receiveError then None
    else match d.portState
      case Listening | Uncalibrated | Passive | Slave => Some(d)
      case Master => if i.sendError || (rt.refreshIgmp && i.masterRefreshDue && !i.igmpOk) then None else Some(d)
      case Initializing | Faulty | Disabled | PreMaster => None
  }

  /** The port that a message of this turn reaches, if one listens then. */
  function Receiver(rt: RunTimeOpts, i: Input, p: Port): Option<Port>
    requires p.Ready()
  {
    var q := Switched(rt, i, p);
    SwitchedAlike(rt, i, None, p);
    if q.portState == Initializing then None else Reached(rt, i, Decision(rt, i.igmpOk, q))
  }

  /** The record of the parent is not written in PASSIVE. */
  predicate Records(rt: RunTimeOpts, a: Announcement, p: Port) {
    Accepts(rt, a, p) && !(p.portState == Passive && FromParent(p, a.header))
  }

  /** The message counts for a port that it reaches. */
  function SaidBy(rt: RunTimeOpts, announce: Option<Announcement>, p: Port, said: Said): Said {
    if announce.Some? && Records(rt, announce.value, p) then said[announce.value.Sender() := announce.value] else said
  }

  function SaidAfter(rt: RunTimeOpts, i: Input, p: Port, said: Said): Said
    requires p.Ready()
  {
    var q := Receiver(rt, i, p);
    if q.Some? then SaidBy(rt, i.announce, q.value, said) else said
  }

  /** For every sender the last Announce that a run of turns accepted from it. */
  function Heard(rt: RunTimeOpts, inputs: seq<Input>, p: Port, said: Said): Said
    requires p.Ready()
    decreases |inputs|
  {
    if inputs == [] then said
    else
      TurnStaysReady(rt, inputs[0], p);
      Heard(rt, inputs[1..], Turn(rt, inputs[0], p), SaidAfter(rt, inputs[0], p, said))
  }

  predicate SaysSo(r: ForeignMasterRecord, said: Said) {
    && r.foreignMasterPortIdentity in said
    && r.header == said[r.foreignMasterPortIdentity].header
    && r.announce == said[r.foreignMasterPortIdentity].announce
  }

  predicate RecordsSay(t: Table, said: Said)
    requires t.InBounds()
  {
    forall k | 0 <= k < t.number :: SaysSo(t.foreign[k], said)
  }

  /** What the records say is up to date, and the ring can take the next one. */
  predicate Kept(p: Port, said: Said) {
    && Usable(p.table) && (!p.recordUpdate ==> WellFormed(p.table)) && RecordsSay(p.table, said)
  }

  lemma ToStateKept(rt: RunTimeOpts, s: PortState, p: Port, igmpOk: bool, said: Said)
    requires Kept(p, said)
    ensures Kept(ToState(rt, s, p, igmpOk), said)
    ensures ToState(rt, s, p, igmpOk).recordUpdate == p.recordUpdate
  {
  }

  lemma DecisionKept(rt: RunTimeOpts, igmpOk: bool, p: Port, said: Said)
    requires p.Ready() && Kept(p, said) && p.portState != Uncalibrated
    ensures var d := Decision(rt, igmpOk, p);
            && Kept(d, said)
            && (d.portState in {Listening, Passive, Slave, Master} ==> !d.recordUpdate)
  {
    hide DataSetComparison, CopyD0, TimePropertiesFrom, ToState, SaysSo;
    if p.portState in {Listening, Passive, Slave, Master} && p.recordUpdate {
      var (s, q) := BestMasterClock(rt, p.(recordUpdate := false));
      assert Kept(q, said);
      ToStateKept(rt, s, q, igmpOk, said);
    }
  }

  lemma InsertionSays(t: Table, a: Announcement, said: Said)
    requires WellFormed(t) && RecordsSay(t, said)
    ensures RecordsSay(AddForeign(t, a), said[a.Sender() := a])
  {
    hide FindFrom;
    AddForeignStores(t, a);
    FindIsMembership(t, a.Sender());
    InsertSlotFacts(t);
  }

  lemma MessageKept(rt: RunTimeOpts, a: Announcement, p: Port, said: Said)
    requires p.Ready() && Kept(p, said) && !p.recordUpdate && Accepts(rt, a, p) && p.portState != Uncalibrated
    requires p.portState == Slave ==> PointsAtParent(p)
    ensures Kept(ProcessAnnounce(rt, a, p), if Records(rt, a, p) then said[a.Sender() := a] else said)
  {
    hide AddForeign, TimePropertiesFrom, IsSet, CmpPortIdentity, DistinctIdentities;
    CmpPortIdentityZero(p.portIdentity, a.Sender());
    InsertionSays(p.table, a, said);
    AddForeignShape(p.table, a);
    if p.portState == Slave && FromParent(p, a.header) {
      UpdateSays(rt, a, p, said);
    }
  }

  lemma UpdateSays(rt: RunTimeOpts, a: Announcement, p: Port, said: Said)
    requires p.Ready() && PointsAtParent(p) && FromParent(p, a.header)
    requires WellFormed(p.table) && RecordsSay(p.table, said)
    ensures var t := UpdateParent(rt, a, p).table;
            WellFormed(t) && RecordsSay(t, said[a.Sender() := a])
  {
    hide TimePropertiesFrom;
  }

  lemma ReceiveKept(rt: RunTimeOpts, i: Input, p: Port, said: Said)
    requires p.Ready() && Kept(p, said) && p.portState != Uncalibrated && p.portState != PreMaster
    requires p.portState in {Listening, Passive, Slave, Master} ==> !p.recordUpdate
    requires p.portState == Slave ==> PointsAtParent(p)
    ensures Kept(Receive(rt, i, p), if i.receiveError then said else SaidBy(rt, i.announce, p, said))
  {
    hide ProcessAnnounce, Kept, InDomain, HasUtc, ToState, PointsAtParent;
    ToStateKept(rt, Faulty, p, i.igmpOk, said);
    if i.announce.Some? {
      AcceptsIff(rt, i.announce.value, p);
      if Accepts(rt, i.announce.value, p) {
        MessageKept(rt, i.announce.value, p, said);
      }
    }
  }

  lemma AnnounceTimeoutKept(rt: RunTimeOpts, igmpOk: bool, p: Port, said: Said)
    requires p.Ready() && Kept(p, said)
    ensures Kept(AnnounceTimeout(rt, igmpOk, p), said)
  {
    hide ToState, Kept, Disqualify;
    var reset := p.(table := Reset(p.table), bestMaster := None);
    EmptiedKept(rt, p, said);
    ToStateKept(rt, Master, M1(rt, reset), igmpOk, said);
    ToStateKept(rt, Initializing, reset, igmpOk, said);
    ToStateKept(rt, Listening, reset, igmpOk, said);
    ToStateKept(rt, Initializing, p, igmpOk, said);
    ToStateKept(rt, Listening, p, igmpOk, said);
    if p.bestMaster.Some? {
      DisqualifyKept(p, said);
      ToStateKept(rt, Faulty, Disqualify(p), igmpOk, said);
    }
  }

  lemma EmptiedKept(rt: RunTimeOpts, p: Port, said: Said)
    requires Kept(p, said)
    ensures var reset := p.(table := Reset(p.table), bestMaster := None);
            Kept(reset, said) && Kept(M1(rt, reset), said)
  {
  }

  lemma DisqualifyKept(p: Port, said: Said)
    requires p.Ready() && Kept(p, said) && p.bestMaster.Some?
    ensures var q := Disqualify(p);
            Kept(q, said) && Kept(q.(announceTimeouts := q.announceTimeouts + 1), said)
  {
  }

  lemma FollowerTurnKept(rt: RunTimeOpts, i: Input, p: Port, said: Said)
    requires p.Ready() && Kept(p, said) && p.portState in {Listening, Passive, Slave} && !p.recordUpdate
    requires p.portState == Slave ==> PointsAtParent(p)
    ensures Kept(FollowerTurn(rt, i, p), if i.receiveError then said else SaidBy(rt, i.announce, p, said))
  {
    hide Receive, AnnounceTimeout, ToState, Kept, SaidBy, PointsAtParent;
    ReceiveStaysReady(rt, i, p);
    ReceiveKept(rt, i, p, said);
    var said' := if i.receiveError then said else SaidBy(rt, i.announce, p, said);
    var received := Receive(rt, i, p);
    AnnounceTimeoutKept(rt, i.igmpOk, received, said');
    var timed := if i.announceTimeout && AwaitsAnnounce(received.portState)
                 then AnnounceTimeout(rt, i.igmpOk, received) else received;
    ToStateKept(rt, Listening, timed, i.igmpOk, said');
    var updated := if i.clockUpdateTimeout && timed.portState == Slave
                   then ToState(rt, Listening, timed, i.igmpOk) else timed;
    ToStateKept(rt, Faulty, updated, i.igmpOk, said');
  }

  lemma MasterTurnKept(rt: RunTimeOpts, i: Input, p: Port, said: Said)
    requires p.Ready() && Kept(p, said) && p.portState == Master && !p.recordUpdate
    ensures var deaf := i.receiveError || i.sendError || (rt.refreshIgmp && i.masterRefreshDue && !i.igmpOk);
            Kept(MasterTurn(rt, i, p), if deaf then said else SaidBy(rt, i.announce, p, said))
  {
    hide Receive, EnterListening, Records;
    var q := p.(timePropertiesDS := if i.utcOffset != 0
              then p.timePropertiesDS.(currentUtcOffset := i.utcOffset, currentUtcOffsetValid := true)
              else p.timePropertiesDS);
    ToStateKept(rt, Faulty, q, i.igmpOk, said);
    ToStateStaysReady(rt, Faulty, q, i.igmpOk);
    var sent := if i.sendError then ToState(rt, Faulty, q, i.igmpOk) else q;
    ToStateKept(rt, Faulty, sent, i.igmpOk, said);
    ReceiveKept(rt, i, sent, said);
    if i.announce.Some? {
      RecordsInMaster(rt, i.announce.value, p, sent);
    }
    var said' := if i.receiveError then said else SaidBy(rt, i.announce, sent, said);
    ToStateKept(rt, Listening, Receive(rt, i, sent), i.igmpOk, said');
  }

  lemma RecordsInMaster(rt: RunTimeOpts, a: Announcement, p: Port, q: Port)
    requires p.portState == Master && q.defaultDS == p.defaultDS && q.portIdentity == p.portIdentity
    requires q.portState in {Master, Faulty}
    ensures Records(rt, a, q) <==> q.portState == Master && Records(rt, a, p)
  {
  }

  lemma DoStateKept(rt: RunTimeOpts, i: Input, p: Port, said: Said)
    requires Coherent(rt, p) && !EmptyDecision(p) && Kept(p, said)
    requires p.portState != Initializing && (p.portState == Disabled ==> i.disabled)
    ensures var q := Reached(rt, i, Decision(rt, i.igmpOk, p));
            Kept(DoState(rt, i, p), if q.Some? then SaidBy(rt, i.announce, q.value, said) else said)
  {
    hide Receive, FollowerTurn, MasterTurn, ToState, Decision, Kept;
    DecisionKept(rt, i.igmpOk, p, said);
    DecisionKeepsIff(rt, i.igmpOk, p);
    DecisionFromDisabled(rt, i.igmpOk, p);
    var d := Decision(rt, i.igmpOk, p);
    ToStateKept(rt, Initializing, d, i.igmpOk, said);
    match d.portState
    case Listening | Passive | Slave => FollowerTurnKept(rt, i, d, said);
    case Master => MasterTurnKept(rt, i, d, said);
    case Disabled => ReceiveKept(rt, i, d, said);
    case Initializing | Faulty | Uncalibrated | PreMaster =>
  }

  /** Initialisation clears the count of records and leaves a ring index that is not at the front. */
  predicate UnpairedInit(rt: RunTimeOpts, i: Input, p: Port) {
    Switched(rt, i, p).portState == Initializing && i.initOk && p.table.next != 0
  }

  lemma DoInitKept(rt: RunTimeOpts, initOk: bool, igmpOk: bool, p: Port, said: Said)
    requires p.Ready() && Kept(p, said) && (initOk ==> p.table.next == 0)
    ensures Kept(DoInit(rt, initOk, igmpOk, p), said)
  {
    hide ToState;
    ToStateKept(rt, Faulty, p, igmpOk, said);
    if initOk {
      ToStateKept(rt, Listening, M1(rt, InitData(rt, p)), igmpOk, said);
    }
  }

  lemma TurnKept(rt: RunTimeOpts, i: Input, p: Port, said: Said)
    requires Coherent(rt, p) && !EmptyDecision(p) && Kept(p, said) && !UnpairedInit(rt, i, p)
    ensures Kept(Turn(rt, i, p), SaidAfter(rt, i, p, said))
  {
    hide DoState, DoInit, ToState, Kept, Coherent, EmptyDecision, Reached, SaidBy;
    CoherentIsReady(rt, p);
    SwitchedAlike(rt, i, None, p);
    SwitchedKept(rt, i, p, said);
    var q := Switched(rt, i, p);
    if q.portState == Initializing {
      DoInitKept(rt, i.initOk, i.igmpOk, q, said);
    } else {
      DoStateKept(rt, i, q, said);
    }
    var worked := if q.portState == Initializing then DoInit(rt, i.initOk, i.igmpOk, q) else DoState(rt, i, q);
    ToStateKept(rt, Disabled, worked, i.igmpOk, SaidAfter(rt, i, p, said));
  }

  lemma SwitchedKept(rt: RunTimeOpts, i: Input, p: Port, said: Said)
    requires Coherent(rt, p) && !EmptyDecision(p) && Kept(p, said)
    ensures var q := Switched(rt, i, p);
            && Coherent(rt, q) && !EmptyDecision(q) && Kept(q, said) && q.table == p.table
            && (q.portState == Disabled ==> i.disabled)
  {
    LeaveForInactiveKeeps(rt, Disabled, p);
    LeaveForInactiveKeeps(rt, Initializing, p);
    ToStateKept(rt, Disabled, p, i.igmpOk, said);
    ToStateKept(rt, Initializing, p, i.igmpOk, said);
  }

  /** No turn of the run initialises a ring whose index is not at the front. */
  predicate InitsPaired(rt: RunTimeOpts, inputs: seq<Input>, p: Port)
    requires p.Ready()
    decreases |inputs|
  {
    inputs == [] ||
    (!UnpairedInit(rt, inputs[0], p) &&
     (TurnStaysReady(rt, inputs[0], p); InitsPaired(rt, inputs[1..], Turn(rt, inputs[0], p))))
  }

  lemma {:induction false} RunKept(rt: RunTimeOpts, inputs: seq<Input>, p: Port, said: Said)
    requires Coherent(rt, p) && DecidesOnRecords(rt, inputs, p) && InitsPaired(rt, inputs, p) && Kept(p, said)
    ensures Kept(PortRuns.Run(rt, inputs, p), Heard(rt, inputs, p, said))
    decreases |inputs|
  {
    hide Turn, Coherent, EmptyDecision, Kept, SaidAfter, UnpairedInit;
    CoherentIsReady(rt, p);
    if inputs != [] {
      TurnKept(rt, inputs[0], p, said);
      TurnKeepsCoherent(rt, inputs[0], p);
      RunKept(rt, inputs[1..], Turn(rt, inputs[0], p), SaidAfter(rt, inputs[0], p, said));
    }
  }

  /** What a port may accept with this configuration, as long as it keeps to one domain. */
  predicate Acceptable(rt: RunTimeOpts, clockIdentity: ClockIdentity, id: PortIdentity, a: Announcement) {
    && a.Sender() == id && id != PortIdentity(clockIdentity, rt.portNumber)
    && a.header.domainNumber == rt.domainNumber && HasUtc(rt, a)
  }

  predicate AllAcceptable(rt: RunTimeOpts, clockIdentity: ClockIdentity, said: Said) {
    forall id | id in said :: Acceptable(rt, clockIdentity, id, said[id])
  }

  lemma TurnAccepts(rt: RunTimeOpts, i: Input, p: Port, said: Said)
    requires Coherent(rt, p) && !EmptyDecision(p) && !rt.anyDomain
    requires AllAcceptable(rt, p.defaultDS.clockIdentity, said)
    ensures AllAcceptable(rt, p.defaultDS.clockIdentity, SaidAfter(rt, i, p, said))
    ensures Turn(rt, i, p).defaultDS.clockIdentity == p.defaultDS.clockIdentity
  {
    hide Decision, DoState, DoInit, ToState, HasUtc;
    SwitchedAlike(rt, i, None, p);
    var q := Switched(rt, i, p);
    DecisionKeepsIdentity(rt, i.igmpOk, q);
    SwitchedIsCoherent(rt, i, p);
    DecisionKeepsIff(rt, i.igmpOk, q);
    TurnKeepsClock(rt, i, p);
  }

  lemma SwitchedIsCoherent(rt: RunTimeOpts, i: Input, p: Port)
    requires Coherent(rt, p) && !EmptyDecision(p)
    ensures Coherent(rt, Switched(rt, i, p)) && !EmptyDecision(Switched(rt, i, p))
  {
    LeaveForInactiveKeeps(rt, Disabled, p);
    LeaveForInactiveKeeps(rt, Initializing, p);
  }

  predicate SameIdentity(p: Port, q: Port) {
    q.defaultDS == p.defaultDS && q.portIdentity == p.portIdentity
  }

  lemma FollowerTurnKeepsIdentity(rt: RunTimeOpts, i: Input, p: Port)
    requires p.Ready() && !rt.anyDomain
    ensures SameIdentity(p, FollowerTurn(rt, i, p))
  {
    hide Receive, ToState;
    MasterReceives(rt, i, p);
    ReceiveStaysReady(rt, i, p);
    var received := Receive(rt, i, p);
    TimeoutKeepsIdentity(rt, i.igmpOk, received);
    hide AnnounceTimeout;
    var timed := if i.announceTimeout && AwaitsAnnounce(received.portState)
                 then AnnounceTimeout(rt, i.igmpOk, received) else received;
    EnterKeepsIdentity(rt, Listening, timed, i.igmpOk);
    var updated := if i.clockUpdateTimeout && timed.portState == Slave
                   then ToState(rt, Listening, timed, i.igmpOk) else timed;
    EnterKeepsIdentity(rt, Faulty, updated, i.igmpOk);
  }

  lemma TimeoutKeepsIdentity(rt: RunTimeOpts, igmpOk: bool, p: Port)
    requires p.Ready()
    ensures SameIdentity(p, AnnounceTimeout(rt, igmpOk, p))
  {
    hide ToState;
    EnterKeepsIdentity(rt, Master, M1(rt, p.(table := Reset(p.table), bestMaster := None)), igmpOk);
    EnterKeepsIdentity(rt, Faulty, if p.bestMaster.None? then p else Disqualify(p), igmpOk);
    var q := if p.portState == Listening then p else p.(table := Reset(p.table), bestMaster := None);
    EnterKeepsIdentity(rt, if rt.backupIfaceEnabled then Initializing else Listening, q, igmpOk);
  }

  lemma MasterTurnKeepsIdentity(rt: RunTimeOpts, i: Input, p: Port)
    requires p.Ready() && !rt.anyDomain
    ensures SameIdentity(p, MasterTurn(rt, i, p))
  {
    hide Receive, ToState;
    var q := p.(timePropertiesDS := if i.utcOffset != 0
              then p.timePropertiesDS.(currentUtcOffset := i.utcOffset, currentUtcOffsetValid := true)
              else p.timePropertiesDS);
    EnterKeepsIdentity(rt, Faulty, q, i.igmpOk);
    ToStateStaysReady(rt, Faulty, q, i.igmpOk);
    var sent := if i.sendError then ToState(rt, Faulty, q, i.igmpOk) else q;
    EnterKeepsIdentity(rt, Faulty, sent, i.igmpOk);
    MasterReceives(rt, i, sent);
    EnterKeepsIdentity(rt, Listening, Receive(rt, i, sent), i.igmpOk);
  }

  lemma TurnKeepsClock(rt: RunTimeOpts, i: Input, p: Port)
    requires p.Ready() && !rt.anyDomain
    ensures Turn(rt, i, p).defaultDS.clockIdentity == p.defaultDS.clockIdentity
  {
    hide Decision, FollowerTurn, MasterTurn, Receive, ToState, Switched;
    SwitchedAlike(rt, i, None, p);
    var q := Switched(rt, i, p);
    EnterKeepsIdentity(rt, Faulty, q, i.igmpOk);
    EnterKeepsIdentity(rt, Listening, M1(rt, InitData(rt, q)), i.igmpOk);
    DecisionStaysReady(rt, i.igmpOk, q);
    DecisionKeepsIdentity(rt, i.igmpOk, q);
    var d := Decision(rt, i.igmpOk, q);
    EnterKeepsIdentity(rt, Initializing, d, i.igmpOk);
    FollowerTurnKeepsIdentity(rt, i, d);
    MasterTurnKeepsIdentity(rt, i, d);
    MasterReceives(rt, i, d);
    EnterKeepsIdentity(rt, Listening, Receive(rt, i, d), i.igmpOk);
    var worked := if q.portState == Initializing then DoInit(rt, i.initOk, i.igmpOk, q) else DoState(rt, i, q);
    EnterKeepsIdentity(rt, Disabled, worked, i.igmpOk);
  }

  lemma {:induction false} RunAccepts(rt: RunTimeOpts, inputs: seq<Input>, p: Port, said: Said)
    requires Coherent(rt, p) && DecidesOnRecords(rt, inputs, p) && !rt.anyDomain
    requires AllAcceptable(rt, p.defaultDS.clockIdentity, said)
    ensures AllAcceptable(rt, p.defaultDS.clockIdentity, Heard(rt, inputs, p, said))
    decreases |inputs|
  {
    hide Turn, Coherent, EmptyDecision, SaidAfter, AllAcceptable;
    CoherentIsReady(rt, p);
    if inputs != [] {
      TurnAccepts(rt, inputs[0], p, said);
      TurnKeepsCoherent(rt, inputs[0], p);
      RunAccepts(rt, inputs[1..], Turn(rt, inputs[0], p), SaidAfter(rt, inputs[0], p, said));
    }
  }

  /** Over every run from a cleared clock whose ring is never initialised unpaired: each listed record says
      what the last Announce said that the port accepted from its sender. */
  lemma RecordsSayWhatWasHeard(rt: RunTimeOpts, inputs: seq<Input>, start: Port)
    requires JustStarted(start) && start.table.number == 0 && start.table.next == 0 && !start.recordUpdate
    requires DecidesOnRecords(rt, inputs, start) && InitsPaired(rt, inputs, start)
    ensures RecordsSay(PortRuns.Run(rt, inputs, start).table, Heard(rt, inputs, start, map[]))
  {
    RunKept(rt, inputs, start, map[]);
  }

  /** With one domain, no record is ever listed of the port itself, of another domain, or without a UTC
      offset that is required. */
  lemma OnlyOwnDomainIsListed(rt: RunTimeOpts, inputs: seq<Input>, start: Port, k: nat)
    requires JustStarted(start) && start.table.number == 0 && start.table.next == 0 && !start.recordUpdate
    requires DecidesOnRecords(rt, inputs, start) && InitsPaired(rt, inputs, start) && !rt.anyDomain
    ensures var t := PortRuns.Run(rt, inputs, start).table;
            k < t.number ==>
              var r := t.foreign[k];
              && r.header.domainNumber == rt.domainNumber
              && r.foreignMasterPortIdentity != PortIdentity(start.defaultDS.clockIdentity, rt.portNumber)
              && (rt.requireUtcValid ==> IsSet(r.header.flagField1, UTCV))
  {
    hide Heard, PortRuns.Run, IsSet;
    RunKept(rt, inputs, start, map[]);
    RunAccepts(rt, inputs, start, map[]);
    var said := Heard(rt, inputs, start, map[]);
    if k < PortRuns.Run(rt, inputs, start).table.number {
      var r := PortRuns.Run(rt, inputs, start).table.foreign[k];
      assert SaysSo(r, said) && Acceptable(rt, start.defaultDS.clockIdentity, r.foreignMasterPortIdentity,
                                           said[r.foreignMasterPortIdentity]);
    }
  }
}
