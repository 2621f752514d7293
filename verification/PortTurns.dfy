/** Where one turn leads: disabling, failures and recovery, timeouts, and what a port forgets when it enters
    a state. */
module PortTurns {
  import opened PtpTypes
  import opened Bmc
  import opened ForeignTable
  import opened Port
  import opened PortRuns
  import opened PortRoles

  // ---------------------------------------------------------------- disabling and recovery

  lemma FollowerTurnEnds(rt: RunTimeOpts, i: Input, p: Port)
    requires p.Ready() && p.portState in {Listening, Uncalibrated, Passive, Slave}
    ensures var s := FollowerTurn(rt, i, p).portState;
            s != Disabled && (i.sendError ==> s == Faulty)
  {
    hide Receive, AnnounceTimeout, EnterListening;
    ReceiveEnds(rt, i, p);
    ReceiveStaysReady(rt, i, p);
    var received := Receive(rt, i, p);
    TimeoutEnds(rt, i.igmpOk, received);
    var timed := if i.announceTimeout && AwaitsAnnounce(received.portState)
                 then AnnounceTimeout(rt, i.igmpOk, received) else received;
    ListeningEnds(rt, timed, i.igmpOk);
  }

  lemma ReceiveEnds(rt: RunTimeOpts, i: Input, p: Port)
    requires p.Ready()
    ensures Receive(rt, i, p).portState == if i.receiveError then Faulty else p.portState
  {
    hide AddForeign, TimePropertiesFrom, IsSet, CmpPortIdentity;
  }

  lemma TimeoutEnds(rt: RunTimeOpts, igmpOk: bool, p: Port)
    requires p.Ready() && p.portState != Disabled
    ensures AnnounceTimeout(rt, igmpOk, p).portState != Disabled
  {
    hide M1;
  }

  lemma MasterTurnEnds(rt: RunTimeOpts, i: Input, p: Port)
    requires p.Ready() && p.portState == Master
    ensures var s := MasterTurn(rt, i, p).portState;
            && s in {Master, Faulty, Listening}
            && (!(p.defaultDS.slaveOnly || p.defaultDS.clockQuality.clockClass == SLAVE_ONLY_CLOCK_CLASS) ==>
                  && (s == Faulty <==>
                        i.sendError || i.receiveError || (rt.refreshIgmp && i.masterRefreshDue && !i.igmpOk))
                  && s != Listening)
            && (p.defaultDS.clockQuality.clockClass == SLAVE_ONLY_CLOCK_CLASS ==> s != Master)
            && (p.defaultDS.slaveOnly && p.defaultDS.clockQuality.clockClass > 127 ==> s != Master)
  {
    hide AddForeign, S1, IsSet, CmpPortIdentity, M1;
  }

  /** Exactly a port that is disabled is in DISABLED after a turn. */
  lemma DisabledIff(rt: RunTimeOpts, i: Input, p: Port)
    requires InRole(rt, p)
    ensures Turn(rt, i, p).portState == Disabled <==> i.disabled
  {
    hide Decision, FollowerTurn, MasterTurn, Receive, M1, InitData, EnterListening;
    var q := Switched(rt, i, p);
    SwitchedState(rt, i, p);
    ListeningEnds(rt, M1(rt, InitData(rt, q)), i.igmpOk);
    if q.portState != Initializing {
      DecisionStaysReady(rt, i.igmpOk, q);
      DecisionKeepsRole(rt, i.igmpOk, q);
      var d := Decision(rt, i.igmpOk, q);
      if d.portState in {Listening, Uncalibrated, Passive, Slave} {
        FollowerTurnEnds(rt, i, d);
      }
      if d.portState == Master {
        MasterTurnEnds(rt, i, d);
      }
    }
  }

  lemma SwitchedState(rt: RunTimeOpts, i: Input, p: Port)
    requires InRole(rt, p)
    ensures var q := Switched(rt, i, p);
            && InRole(rt, q) && (i.disabled ==> q.portState == Disabled)
            && (!i.disabled ==> q.portState == if p.portState == Disabled then Initializing else p.portState)
  {
  }

  lemma ListeningEnds(rt: RunTimeOpts, p: Port, igmpOk: bool)
    ensures EnterListening(rt, p, igmpOk).portState in {Listening, Faulty, Master}
  {
  }

  /** A faulty port is initialised in the turn after the next, and a port that is initialised forgets all records
      of the table, is its own master and listens; one that ignores announces leads at once. */
  lemma Recovers(rt: RunTimeOpts, i: Input, p: Port)
    requires InRole(rt, p) && !i.disabled
    ensures p.portState == Faulty ==> Turn(rt, i, p).portState == Initializing
    ensures p.portState in {Initializing, Disabled} ==>
              var q := Turn(rt, i, p);
              && (!i.initOk ==> q.portState == Faulty && q.table == p.table)
              && (i.initOk ==> q.table.number == 0 && NamesItself(q) && q.timePropertiesDS == rt.timeProperties
                               && q.bestMaster == None && ConfiguredBy(rt, q)
                               && q.defaultDS.domainNumber == rt.domainNumber
                               && q.defaultDS.clockIdentity == p.defaultDS.clockIdentity)
              && (i.initOk && (i.igmpOk || !rt.refreshIgmp) ==>
                    q.portState == if QualityOf(rt).clockClass <= 127 && rt.disableBMCA then Master else Listening)
              && (i.initOk && q.portState == Listening ==> q.announceTimeouts == 0)
  {
  }

  // ---------------------------------------------------------------- what a decision recommends

  /** A slave-only clock follows and a port that listens to nobody listens on; any other leads exactly if its own
      data set is the better one, follows exactly if it is the worse one, as a standby if it never is a slave, and
      is faulty exactly if they tie. Its own data set is never disqualified. */
  lemma RecommendsIff(rt: RunTimeOpts, k: nat, p: Port)
    requires k < |p.table.foreign|
    ensures var s := StateDecision(rt, k, p).0;
            var comp := DataSetComparison(CopyD0(p), p.table.foreign[k], p.Context(rt));
            var decides := !p.defaultDS.slaveOnly && !(p.table.number == 0 && p.portState == Listening);
            && (s == Master <==> decides && comp < 0)
            && (s == Faulty <==> decides && comp == 0)
            && (s == Passive <==> decides && comp > 0 && p.defaultDS.clockQuality.clockClass < 128)
            && (s == Slave <==> p.defaultDS.slaveOnly ||
                                (decides && comp > 0 && p.defaultDS.clockQuality.clockClass >= 128))
            && (s == Listening <==> !p.defaultDS.slaveOnly && p.table.number == 0 && p.portState == Listening)
    ensures !CopyD0(p).disqualified
  {
    hide DataSetComparison;
  }

  // ---------------------------------------------------------------- what a port forgets

  /** Entering a state: a SLAVE has its whole grace period ahead, as has a port that listens again; LISTENING,
      MASTER and DISABLED point at no master; and a port that stops listening starts the next time from zero. */
  lemma EnteringForgets(rt: RunTimeOpts, s: PortState, p: Port, igmpOk: bool)
    requires s != PreMaster
    ensures var q := ToState(rt, s, p, igmpOk);
            && (q.portState == Slave && s == Slave ==> q.announceTimeouts == 0)
            && (q.portState == Listening ==> q.announceTimeouts == 0)
            && (q.portState in {Listening, Disabled, Master} ==> q.bestMaster == None)
            && (p.portState == Listening && s != Listening ==> q.listenCount == 0)
            && (p.portState != Listening && s != Listening ==> q.listenCount == p.listenCount)
            && (s == Passive ==> StandsByTime(rt, q))
            && (s != Listening ==> q.portState == s && q.table == p.table)
  {
  }

  /** A port that is to listen leads instead, with an empty table and its own data sets, if it ignores announces;
      it is faulty if it has listened often enough or cannot refresh its multicast membership; otherwise it listens,
      and counts the rounds in which it does so again. The records stay. */
  lemma ListeningIff(rt: RunTimeOpts, p: Port, igmpOk: bool)
    ensures var q := EnterListening(rt, p, igmpOk);
            var ignores := p.defaultDS.clockQuality.clockClass <= 127 && rt.disableBMCA;
            var exhausted := p.portState == Listening && p.listenCount + 1 >= rt.maxListen;
            && (q.portState == Master <==> ignores)
            && (q.portState == Faulty <==> !ignores && (exhausted || (rt.refreshIgmp && !igmpOk)))
            && (ignores ==> q.table == p.table.(number := 0, next := 0) && q.stepsRemoved == 0
                            && q.parentDS == OwnParent(p) && q.timePropertiesDS == rt.timeProperties)
            && (!ignores ==> q.table == p.table && q.parentDS == p.parentDS && q.stepsRemoved == p.stepsRemoved)
            && (q.portState == Listening ==>
                  q.listenCount == if p.portState == Listening then p.listenCount + 1 else p.listenCount)
  {
  }

  /** An Announce of the parent ends the grace period. */
  lemma ParentEndsGrace(rt: RunTimeOpts, a: Announcement, p: Port)
    requires p.Ready() && p.portState == Slave && FromParent(p, a.header) && a.Sender() != p.portIdentity
    requires !(p.defaultDS.clockQuality.clockClass <= 127 && rt.disableBMCA)
    requires rt.requireUtcValid ==> IsSet(a.header.flagField1, UTCV)
    ensures HandleAnnounce(rt, a, p).announceTimeouts ==
            if rt.announceTimeoutGracePeriod > 0 then 0 else p.announceTimeouts
  {
    CmpPortIdentityZero(p.portIdentity, a.Sender());
  }

  // ---------------------------------------------------------------- timeouts

  /** A turn in which nothing happens except that the announce receipt timer expires. */
  const EXPIRY: Input := Input(false, true, None, false, true, false, false, false, true, 0)

  /** A clock that may lead and hears nothing in time leads, with an empty table and its own data sets. */
  lemma SilenceMakesMaster(rt: RunTimeOpts, p: Port)
    requires p.Ready() && AwaitsAnnounce(p.portState) && !p.recordUpdate
    requires !p.defaultDS.slaveOnly && p.defaultDS.clockQuality.clockClass != SLAVE_ONLY_CLOCK_CLASS
    ensures var q := Turn(rt, EXPIRY, p);
            && q.portState == Master && q.table == p.table.(number := 0, next := 0) && q.bestMaster == None
            && q.stepsRemoved == 0 && q.parentDS == OwnParent(p) && q.timePropertiesDS == rt.timeProperties
  {
    assert Decision(rt, true, p) == p;
  }

  /** What an expiry leads to: a clock that may lead does; a follower in its grace period stays, or is faulty if it
      cannot refresh its multicast membership; any other starts anew, by the other interface if there is one. */
  lemma ExpiryIff(rt: RunTimeOpts, igmpOk: bool, p: Port)
    requires p.Ready() && AwaitsAnnounce(p.portState) && p.defaultDS.clockQuality.clockClass > 127
    ensures var q := AnnounceTimeout(rt, igmpOk, p);
            var leads := !p.defaultDS.slaveOnly && p.defaultDS.clockQuality.clockClass != SLAVE_ONLY_CLOCK_CLASS;
            var graced := !leads && p.portState != Listening && p.announceTimeouts < rt.announceTimeoutGracePeriod;
            && (q.portState == Master <==> leads)
            && (graced ==> q.portState == (if rt.refreshIgmp && !igmpOk then Faulty else p.portState)
                           && q.table.number == p.table.number)
            && (!leads && !graced && rt.backupIfaceEnabled ==> q.portState == Initializing)
            && (!leads && !graced && !rt.backupIfaceEnabled ==> q.portState in {Listening, Faulty})
            && (!leads && !graced && p.portState != Listening ==> q.table == p.table.(number := 0, next := 0))
  {
  }

  /** `k` turns in each of which the timer expires. */
  function Expiries(rt: RunTimeOpts, p: Port, k: nat): (q: Port)
    requires p.Ready()
    ensures q.Ready()
  {
    if k == 0 then p
    else
      var q := Expiries(rt, p, k - 1);
      TurnStaysReady(rt, EXPIRY, q);
      Turn(rt, EXPIRY, q)
  }

  lemma ListensOn(rt: RunTimeOpts, p: Port)
    requires p.Ready() && p.portState == Listening && !p.recordUpdate && !rt.backupIfaceEnabled
    requires p.defaultDS.clockQuality.clockClass == SLAVE_ONLY_CLOCK_CLASS
    ensures var q := Turn(rt, EXPIRY, p);
            && q.defaultDS == p.defaultDS && !q.recordUpdate
            && if p.listenCount + 1 < rt.maxListen then q.portState == Listening && q.listenCount == p.listenCount + 1
               else q.portState == Faulty && q.listenCount == 0
  {
    assert Decision(rt, true, p) == p;
  }

  /** A clock of the slave-only class that hears nothing listens for exactly as many rounds as configured, and is
      then faulty, so that it is initialised anew. */
  lemma {:induction false} ListeningGivesUp(rt: RunTimeOpts, p: Port, k: nat)
    requires p.Ready() && p.portState == Listening && !p.recordUpdate && !rt.backupIfaceEnabled
    requires p.defaultDS.clockQuality.clockClass == SLAVE_ONLY_CLOCK_CLASS
    requires p.listenCount < rt.maxListen && k <= rt.maxListen - p.listenCount
    ensures var q := Expiries(rt, p, k);
            && q.defaultDS == p.defaultDS && !q.recordUpdate
            && if p.listenCount + k < rt.maxListen then q.portState == Listening && q.listenCount == p.listenCount + k
               else q.portState == Faulty && q.listenCount == 0
  {
    hide Turn;
    if k > 0 {
      ListeningGivesUp(rt, p, k - 1);
      ListensOn(rt, Expiries(rt, p, k - 1));
    }
  }

  /** A slave whose clock was not updated in time listens again, and one that cannot send is faulty. */
  lemma SlaveGivesUp(rt: RunTimeOpts, i: Input, p: Port)
    requires p.Ready() && p.portState == Slave && !p.recordUpdate && !i.disabled
    requires !i.receiveError && i.announce.None? && !i.announceTimeout
    ensures var q := Turn(rt, i, p);
            && (i.sendError ==> q.portState == Faulty)
            && (!i.sendError && i.clockUpdateTimeout && (i.igmpOk || !rt.refreshIgmp)
                && p.defaultDS.clockQuality.clockClass > 127 ==>
                  q.portState == Listening && q.bestMaster == None && q.table == p.table)
            && (!i.sendError && !i.clockUpdateTimeout ==> q == p)
  {
    assert Decision(rt, i.igmpOk, p) == p;
  }
}
