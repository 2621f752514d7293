/** Which states a clock of a given role can take, over every run with a fixed configuration:
    faults, timeouts, re-initialisations and decisions on an empty table included. */
module PortRoles {
  import opened PtpTypes
  import opened Bmc
  import opened ForeignTable
  import opened Port
  import opened PortRuns

  /** The configuration in force, and a state that it allows. */
  predicate InRole(rt: RunTimeOpts, p: Port) {
    && p.Ready()
    && (p.defaultDS.slaveOnly ==> rt.slaveOnly)
    && (p.portState in {Initializing, Faulty, Disabled} || ConfiguredBy(rt, p))
    && p.portState != PreMaster && p.portState != Uncalibrated
    && RoleAllows(rt, p.portState)
  }

  lemma EnterKeepsRole(rt: RunTimeOpts, s: PortState, p: Port, igmpOk: bool)
    requires p.InMemory() && (p.defaultDS.slaveOnly ==> rt.slaveOnly)
    requires s in {Initializing, Faulty, Disabled} || (ConfiguredBy(rt, p) && RoleAllows(rt, s))
    requires s in {Passive, Slave} ==> p.bestMaster.Some?
    requires s != PreMaster && s != Uncalibrated
    ensures InRole(rt, ToState(rt, s, p, igmpOk))
    ensures s != Listening ==> ToState(rt, s, p, igmpOk).defaultDS == p.defaultDS
    ensures s != Listening ==> ToState(rt, s, p, igmpOk).portIdentity == p.portIdentity
    ensures s in {Initializing, Faulty, Disabled} ==> ToState(rt, s, p, igmpOk).portState == s
  {
  }

  lemma StateDecisionKeepsRole(rt: RunTimeOpts, k: nat, p: Port)
    requires InRole(rt, p) && Operational(p.portState) && k < |p.table.foreign| && p.bestMaster == Some(k)
    ensures var (s, q) := StateDecision(rt, k, p);
            && q.InMemory() && q.portState == p.portState && q.bestMaster == p.bestMaster
            && (q.defaultDS.slaveOnly ==> rt.slaveOnly) && ConfiguredBy(rt, q)
            && RoleAllows(rt, s) && s in {Listening, Master, Slave, Passive, Faulty}
  {
    hide DataSetComparison, CopyD0, TimePropertiesFrom;
  }

  lemma DecisionKeepsRole(rt: RunTimeOpts, igmpOk: bool, p: Port)
    requires InRole(rt, p)
    ensures InRole(rt, Decision(rt, igmpOk, p))
    ensures Decision(rt, igmpOk, p).portState == Disabled ==> p.portState == Disabled
  {
    hide ScanBest, StateDecision, EnterListening, Enter;
    if Operational(p.portState) && p.recordUpdate && !(p.table.number == 0 && p.portState == Master) {
      var q := p.(recordUpdate := false);
      var best := ScanBest(p.table.foreign, p.table.number, q.Context(rt));
      var chosen := q.(table := q.table.(best := best), bestMaster := Some(best));
      StateDecisionKeepsRole(rt, best, chosen);
      var (s, decided) := StateDecision(rt, best, chosen);
      EnterKeepsRole(rt, s, decided, igmpOk);
      EnterReaches(rt, s, decided, igmpOk);
    }
  }

  lemma EnterReaches(rt: RunTimeOpts, s: PortState, p: Port, igmpOk: bool)
    ensures EnterListening(rt, p, igmpOk).portState in {Listening, Master, Faulty}
    ensures s != Listening && s != PreMaster ==> Enter(rt, s, p).portState == s
  {
  }

  lemma ReceiveKeepsRole(rt: RunTimeOpts, i: Input, p: Port)
    requires InRole(rt, p)
    ensures InRole(rt, Receive(rt, i, p))
    ensures ConfiguredBy(rt, p) ==> ConfiguredBy(rt, Receive(rt, i, p))
  {
    hide AddForeign, TimePropertiesFrom, CmpPortIdentity, IsSet, Enter;
    ReceiveStaysReady(rt, i, p);
    EnterKeepsRole(rt, Faulty, p, i.igmpOk);
  }

  lemma AnnounceTimeoutKeepsRole(rt: RunTimeOpts, igmpOk: bool, p: Port)
    requires InRole(rt, p) && AwaitsAnnounce(p.portState)
    ensures InRole(rt, AnnounceTimeout(rt, igmpOk, p))
  {
    hide EnterListening, Enter, OwnParent;
    var reset := p.(table := Reset(p.table), bestMaster := None);
    if !rt.slaveOnly && rt.clockQuality.clockClass != SLAVE_ONLY_CLOCK_CLASS {
      EnterKeepsRole(rt, Master, M1(rt, reset), igmpOk);
    } else {
      var q := if p.portState == Listening then p else reset;
      EnterKeepsRole(rt, Initializing, q, igmpOk);
      EnterKeepsRole(rt, Listening, q, igmpOk);
      if p.bestMaster.Some? {
        EnterKeepsRole(rt, Faulty, Disqualify(p), igmpOk);
      }
    }
  }

  lemma FollowerTurnKeepsRole(rt: RunTimeOpts, i: Input, p: Port)
    requires InRole(rt, p)
    ensures InRole(rt, FollowerTurn(rt, i, p))
  {
    hide Receive, AnnounceTimeout, Enter, EnterListening;
    ReceiveKeepsRole(rt, i, p);
    var received := Receive(rt, i, p);
    if AwaitsAnnounce(received.portState) {
      AnnounceTimeoutKeepsRole(rt, i.igmpOk, received);
    }
    var timed := if i.announceTimeout && AwaitsAnnounce(received.portState)
                 then AnnounceTimeout(rt, i.igmpOk, received) else received;
    if timed.portState == Slave {
      EnterKeepsRole(rt, Listening, timed, i.igmpOk);
    }
    var updated := if i.clockUpdateTimeout && timed.portState == Slave
                   then ToState(rt, Listening, timed, i.igmpOk) else timed;
    EnterKeepsRole(rt, Faulty, updated, i.igmpOk);
  }

  lemma MasterTurnKeepsRole(rt: RunTimeOpts, i: Input, p: Port)
    requires InRole(rt, p) && p.portState == Master
    ensures InRole(rt, MasterTurn(rt, i, p))
  {
    hide Receive, Enter, EnterListening;
    var q := p.(timePropertiesDS := if i.utcOffset != 0
              then p.timePropertiesDS.(currentUtcOffset := i.utcOffset, currentUtcOffsetValid := true)
              else p.timePropertiesDS);
    EnterKeepsRole(rt, Faulty, q, i.igmpOk);
    var sent := if i.sendError then ToState(rt, Faulty, q, i.igmpOk) else q;
    EnterKeepsRole(rt, Faulty, sent, i.igmpOk);
    ReceiveKeepsRole(rt, i, sent);
    EnterKeepsRole(rt, Listening, Receive(rt, i, sent), i.igmpOk);
  }

  lemma DoStateKeepsRole(rt: RunTimeOpts, i: Input, p: Port)
    requires InRole(rt, p) && p.portState != Initializing
    requires p.portState == Disabled ==> i.disabled
    ensures InRole(rt, DoState(rt, i, p))
  {
    hide Decision, Receive, FollowerTurn, MasterTurn, Enter, EnterListening;
    DecisionKeepsRole(rt, i.igmpOk, p);
    var q := Decision(rt, i.igmpOk, p);
    EnterKeepsRole(rt, Initializing, q, i.igmpOk);
    ReceiveKeepsRole(rt, i, q);
    FollowerTurnKeepsRole(rt, i, q);
    if q.portState == Master {
      MasterTurnKeepsRole(rt, i, q);
    }
  }

  lemma TurnKeepsRole(rt: RunTimeOpts, i: Input, p: Port)
    requires InRole(rt, p)
    ensures InRole(rt, Turn(rt, i, p))
  {
    hide DoState, Enter, EnterListening;
    EnterKeepsRole(rt, Disabled, p, i.igmpOk);
    EnterKeepsRole(rt, Initializing, p, i.igmpOk);
    var q := Switched(rt, i, p);
    if q.portState == Initializing {
      EnterKeepsRole(rt, Faulty, q, i.igmpOk);
      EnterKeepsRole(rt, Listening, M1(rt, InitData(rt, q)), i.igmpOk);
    } else {
      DoStateKeepsRole(rt, i, q);
    }
    var worked := if q.portState == Initializing then DoInit(rt, i.initOk, i.igmpOk, q) else DoState(rt, i, q);
    EnterKeepsRole(rt, Disabled, worked, i.igmpOk);
  }

  lemma {:induction false} RunKeepsRole(rt: RunTimeOpts, inputs: seq<Input>, p: Port)
    requires InRole(rt, p)
    ensures InRole(rt, PortRuns.Run(rt, inputs, p))
    decreases |inputs|
  {
    hide Turn, InRole;
    RoleIsReady(rt, p);
    if inputs != [] {
      TurnKeepsRole(rt, inputs[0], p);
      RunKeepsRole(rt, inputs[1..], Turn(rt, inputs[0], p));
    }
  }

  lemma RoleIsReady(rt: RunTimeOpts, p: Port)
    requires InRole(rt, p)
    ensures p.Ready()
  {
  }

  /** From a cleared clock: slave-only never leads nor stands by, a clock of class below 128 never
      follows, and any other clock never stands by. */
  lemma RoleSafety(rt: RunTimeOpts, inputs: seq<Input>, start: Port)
    requires JustStarted(start)
    ensures var s := PortRuns.Run(rt, inputs, start).portState;
            && (rt.slaveOnly ==> s != Master && s != Passive)
            && (!rt.slaveOnly && rt.clockQuality.clockClass < 128 ==> s != Slave)
            && (!rt.slaveOnly && rt.clockQuality.clockClass >= 128 ==> s != Passive)
  {
    RunKeepsRole(rt, inputs, start);
  }
}
