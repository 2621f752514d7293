/** Where one port does less than its comments promise: exact families of runs. */
module PortLimits {
  import opened PtpTypes
  import opened Bmc
  import opened ForeignTable
  import opened Port
  import opened PortRuns

  /** A turn in which nothing happens except what is set explicitly. */
  const IDLE: Input := Input(false, true, None, false, false, false, false, false, true, 0)

  predicate Accepted(rt: RunTimeOpts, a: Announcement, p: Port) {
    && a.header.domainNumber == p.defaultDS.domainNumber
    && a.Sender() != p.portIdentity
    && (rt.requireUtcValid ==> IsSet(a.header.flagField1, UTCV))
  }

  // ---------------------------------------------------------------- deciding on nothing

  /** A slave-only port that hears a second master in the very turn in which its announce receipt
      timer expires resets its table with the decision still pending, and the next turn makes it
      a SLAVE of a record that is no longer listed. */
  lemma SecondMasterAtTimeout(rt: RunTimeOpts, a: Announcement, p: Port)
    requires Coherent(rt, p) && rt.slaveOnly && p.portState == Slave && !p.recordUpdate
    requires Accepted(rt, a, p) && !FromParent(p, a.header)
    requires p.announceTimeouts >= rt.announceTimeoutGracePeriod && !rt.backupIfaceEnabled
    ensures var q := Turn(rt, IDLE.(announce := Some(a), announceTimeout := true), p);
            && EmptyDecision(q) && q.Ready()
            && Turn(rt, IDLE, q).portState == Slave && Turn(rt, IDLE, q).table.number == 0
            && !Coherent(rt, Turn(rt, IDLE, q))
  {
    hide AddForeign, DataSetComparison, TimePropertiesFrom, IsSet;
    CmpPortIdentityZero(p.portIdentity, a.Sender());
    var i := IDLE.(announce := Some(a), announceTimeout := true);
    assert Decision(rt, true, p) == p;
    var received := p.(recordUpdate := true, table := AddForeign(p.table, a));
    assert Receive(rt, i, p) == received;
    var reset := received.(table := Reset(received.table), bestMaster := None);
    assert AnnounceTimeout(rt, true, received) == EnterListening(rt, reset, true);
    var q := EnterListening(rt, reset, true);
    assert Turn(rt, i, p) == q;
    assert EmptyDecision(q);
    DecidesOnNothing(rt, q);
  }

  lemma DecidesOnNothing(rt: RunTimeOpts, q: Port)
    requires q.Ready() && EmptyDecision(q)
    ensures var r := Turn(rt, IDLE, q);
            r.portState == Slave && r.table.number == 0 && !Coherent(rt, r)
  {
    hide DataSetComparison, TimePropertiesFrom;
    assert ScanBest(q.table.foreign, 0, q.(recordUpdate := false).Context(rt)) == 0;
    assert Decision(rt, true, q).portState == Slave;
  }

  // ---------------------------------------------------------------- the standby port

  lemma ComparisonReadsUtcFlagOnly(a: ForeignMasterRecord, b: ForeignMasterRecord,
                                   r: ForeignMasterRecord, ctx: Context)
    requires IsSet(a.header.flagField1, UTCV) == IsSet(b.header.flagField1, UTCV)
    requires b == a.(header := a.header.(flagField1 := b.header.flagField1))
    ensures DataSetComparison(a, r, ctx) == DataSetComparison(b, r, ctx)
  {
  }

  lemma StandbyDecision(rt: RunTimeOpts, k: nat, p: Port, q: Port)
    requires p.portState == Passive && k < |p.table.foreign|
    requires q == p.(stepsRemoved := q.stepsRemoved, parentDS := q.parentDS, timePropertiesDS := q.timePropertiesDS)
    requires q.parentDS.parentPortIdentity == p.parentDS.parentPortIdentity
    requires q.timePropertiesDS.currentUtcOffsetValid == p.timePropertiesDS.currentUtcOffsetValid
    ensures var (s, p') := StateDecision(rt, k, p);
            var (t, q') := StateDecision(rt, k, q);
            s == t && (s in {Master, Passive, Slave} ==> p' == q')
  {
    hide DataSetComparison;
    FlagField1Bits(p.timePropertiesDS);
    FlagField1Bits(q.timePropertiesDS);
    ComparisonReadsUtcFlagOnly(CopyD0(p), CopyD0(q), p.table.foreign[k], p.Context(rt));
  }

  /** In PASSIVE the record of the parent is not refreshed, so the decision that every Announce of
      the parent triggers is the same whatever that Announce says. It changes nothing at all when the
      clock ignores announces. */
  lemma PassiveForgetsParent(rt: RunTimeOpts, a: Announcement, b: Announcement, igmpOk: bool, p: Port)
    requires Coherent(rt, p) && p.portState == Passive
    requires Accepted(rt, a, p) && Accepted(rt, b, p) && FromParent(p, a.header) && FromParent(p, b.header)
    ensures var (pa, pb) := (HandleAnnounce(rt, a, p), HandleAnnounce(rt, b, p));
            && (if p.defaultDS.clockQuality.clockClass <= 127 && rt.disableBMCA then pa == p
                else pa.parentDS == ParentFrom(a.header, a.announce) && pa.recordUpdate)
            && pa.table == p.table
            && Decision(rt, igmpOk, pa).portState == Decision(rt, igmpOk, pb).portState
            && (Decision(rt, igmpOk, pa).portState == Passive ==>
                  Decision(rt, igmpOk, pa).parentDS == Decision(rt, igmpOk, pb).parentDS)
  {
    hide DataSetComparison, ScanBest, StateDecision;
    CmpPortIdentityZero(p.portIdentity, a.Sender());
    var (pa, pb) := (HandleAnnounce(rt, a, p), HandleAnnounce(rt, b, p));
    if p.defaultDS.clockQuality.clockClass <= 127 && rt.disableBMCA {
      return;
    }
    var (qa, qb) := (pa.(recordUpdate := false), pb.(recordUpdate := false));
    assert qa.Context(rt) == qb.Context(rt);
    var best := ScanBest(p.table.foreign, p.table.number, qa.Context(rt));
    var ca := qa.(table := qa.table.(best := best), bestMaster := Some(best));
    var cb := qb.(table := qb.table.(best := best), bestMaster := Some(best));
    StandbyDecision(rt, best, ca, cb);
    assert BestMasterClock(rt, qa) == StateDecision(rt, best, ca);
    assert BestMasterClock(rt, qb) == StateDecision(rt, best, cb);
    StandbyStates(rt, best, ca);
    StandbyStates(rt, best, cb);
  }

  lemma StandbyStates(rt: RunTimeOpts, k: nat, p: Port)
    requires p.InMemory() && k < |p.table.foreign| && p.portState == Passive
    ensures var (s, q) := StateDecision(rt, k, p);
            q.portState == Passive && s in {Master, Passive, Slave, Faulty}
  {
    hide DataSetComparison;
  }

  // ---------------------------------------------------------------- the grace period

  predicate OnlyDisqualified(t: Table, k: nat)
    requires t.InBounds()
  {
    k < t.number && forall j | 0 <= j < t.number :: t.foreign[j].disqualified <==> j == k
  }

  lemma AddForeignKeepsDisqualified(t: Table, a: Announcement)
    requires WellFormed(t) && OnlyDisqualified(t, t.best)
    requires t.foreign[t.best].foreignMasterPortIdentity != a.Sender()
    ensures OnlyDisqualified(AddForeign(t, a), t.best)
    ensures AddForeign(t, a).foreign[t.best] == t.foreign[t.best]
  {
    hide FindFrom;
    FindIsMembership(t, a.Sender());
    InsertSlotFacts(t);
  }

  /** During the grace period a slave-only port that hears another live master stays with the master
      that timed out: disqualification ranks a record first instead of last. */
  lemma GraceKeepsDeadMaster(rt: RunTimeOpts, a: Announcement, p: Port)
    requires Coherent(rt, p) && WellFormed(p.table) && rt.slaveOnly && p.portState == Slave
    requires p.announceTimeouts < rt.announceTimeoutGracePeriod
    requires forall j | 0 <= j < p.table.number && j != p.table.best :: !p.table.foreign[j].disqualified
    requires Accepted(rt, a, p) && !FromParent(p, a.header)
    ensures AnnounceTimeout(rt, true, p).Ready()
    ensures var heard := HandleAnnounce(rt, a, AnnounceTimeout(rt, true, p));
            var d := Decision(rt, true, heard);
            && Holds(heard.table, a.Sender())
            && d.portState == Slave && d.table.best == p.table.best
            && d.parentDS.parentPortIdentity == p.parentDS.parentPortIdentity
  {
    hide AddForeign, DataSetComparison, TimePropertiesFrom, IsSet, CopyD0;
    CmpPortIdentityZero(p.portIdentity, a.Sender());
    var q := AnnounceTimeout(rt, true, p);
    assert q == Disqualify(p).(announceTimeouts := p.announceTimeouts + 1);
    var heard := q.(recordUpdate := true, table := AddForeign(q.table, a));
    assert HandleAnnounce(rt, a, q) == heard;
    AddForeignKeepsDisqualified(q.table, a);
    AddForeignEffect(q.table, a);
    var decided := heard.(recordUpdate := false);
    DisqualifiedIsChosen(heard.table.foreign, heard.table.number, heard.table.best, decided.Context(rt));
  }

  /** `k` turns in each of which the announce receipt timer expires and nothing else happens. */
  function TimedOutTurns(rt: RunTimeOpts, p: Port, k: nat): (q: Port)
    requires p.Ready()
    ensures q.Ready()
  {
    if k == 0 then p
    else
      var q := TimedOutTurns(rt, p, k - 1);
      TurnStaysReady(rt, IDLE.(announceTimeout := true), q);
      Turn(rt, IDLE.(announceTimeout := true), q)
  }

  /** A clock of the slave-only class that follows, with no decision pending. */
  predicate Waits(rt: RunTimeOpts, p: Port) {
    && p.Ready() && p.portState == Slave && !p.recordUpdate
    && p.defaultDS.clockQuality.clockClass == SLAVE_ONLY_CLOCK_CLASS
  }

  lemma TimedOutTurn(rt: RunTimeOpts, p: Port)
    requires Waits(rt, p)
    ensures var q := Turn(rt, IDLE.(announceTimeout := true), p);
            if p.announceTimeouts < rt.announceTimeoutGracePeriod then
              && Waits(rt, q) && q.announceTimeouts == p.announceTimeouts + 1 && q.table.number == p.table.number
              && q.bestMaster == p.bestMaster && q.parentDS == p.parentDS
              && q.table.foreign[q.bestMaster.value].disqualified
            else
              && q.table.number == 0 && q.table.next == 0 && q.bestMaster == None
              && q.portState == if rt.backupIfaceEnabled then Initializing else Listening
  {
    var i := IDLE.(announceTimeout := true);
    assert Decision(rt, true, p) == p;
    assert Receive(rt, i, p) == p;
  }

  /** The grace period lasts for exactly as many expiries as are left of it: until then the port stays a SLAVE
      of its disqualified master, and the next expiry ends it with an empty table. */
  lemma {:induction false} GracePeriodEnds(rt: RunTimeOpts, p: Port, k: nat)
    requires Waits(rt, p) && p.announceTimeouts <= rt.announceTimeoutGracePeriod
    requires k <= rt.announceTimeoutGracePeriod - p.announceTimeouts + 1
    ensures var q := TimedOutTurns(rt, p, k);
            if k <= rt.announceTimeoutGracePeriod - p.announceTimeouts then
              && Waits(rt, q) && q.announceTimeouts == p.announceTimeouts + k
              && q.table.number == p.table.number && q.bestMaster == p.bestMaster && q.parentDS == p.parentDS
              && (k > 0 ==> q.table.foreign[q.bestMaster.value].disqualified)
            else
              && q.table.number == 0 && q.table.next == 0 && q.bestMaster == None
              && q.portState == if rt.backupIfaceEnabled then Initializing else Listening
  {
    hide Turn;
    if k > 0 {
      GracePeriodEnds(rt, p, k - 1);
      TimedOutTurn(rt, TimedOutTurns(rt, p, k - 1));
    }
  }
}
