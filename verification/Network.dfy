/** Several clocks on a medium that may lose, duplicate and reorder Announce messages. The invariant
    of one port is kept here; module `Agreement` lifts it to the whole network. */
module Network {
  import opened LexOrder
  import opened PtpTypes
  import opened Bmc
  import opened ForeignTable
  import opened Port
  import opened PortRuns

  /** What never changes about one clock: its configuration, default data set and port identity. */
  datatype Member = Member(rt: RunTimeOpts, ds: DefaultDS, id: PortIdentity)

  predicate ValidMember(m: Member) {
    && !m.rt.anyDomain && !m.rt.preferUtcValid && !m.rt.disableBMCA
    && m.ds == DefaultDS(true, m.ds.clockIdentity, QualityOf(m.rt), m.rt.priority1, m.rt.priority2,
                         m.ds.domainNumber, m.rt.slaveOnly)
    && (m.ds.clockQuality.clockClass == SLAVE_ONLY_CLOCK_CLASS ==> m.rt.slaveOnly)
    && m.id == PortIdentity(m.ds.clockIdentity, m.rt.portNumber)
    && m.ds.domainNumber == m.rt.domainNumber
  }

  /** A network whose clocks have distinct identities. */
  predicate ValidMembers(ms: seq<Member>) {
    && (forall i | 0 <= i < |ms| :: ValidMember(ms[i]))
    && (forall i, j | 0 <= i < j < |ms| :: ms[i].ds.clockIdentity != ms[j].ds.clockIdentity)
  }

  // ---------------------------------------------------------------- ranks

  /** The rank of a clock as grandmaster; the lesser one is better. */
  function Rank(m: Member): (k: seq<int>)
    ensures |k| == 17
  {
    [0, 0, LOWEST_LOCALPREFERENCE, m.ds.priority1, 0, m.ds.clockQuality.clockClass, m.ds.clockQuality.clockAccuracy,
     m.ds.clockQuality.offsetScaledLogVariance, m.ds.priority2] + m.ds.clockIdentity
  }

  predicate Better(a: Member, b: Member) {
    LexCompare(Rank(a), Rank(b)) < 0
  }

  lemma RanksDiffer(a: Member, b: Member)
    requires a.ds.clockIdentity != b.ds.clockIdentity
    ensures Better(a, b) <==> !Better(b, a)
  {
    LexAntisymmetric(Rank(a), Rank(b));
    assert Rank(a)[9..] == a.ds.clockIdentity && Rank(b)[9..] == b.ds.clockIdentity;
  }

  /** The message says of clock `m` what that clock says of itself. */
  predicate SpeaksFor(m: Member, header: MsgHeader, announce: MsgAnnounce, localPreference: byte) {
    && header.sourcePortIdentity == m.id
    && localPreference == LOWEST_LOCALPREFERENCE
    && announce.grandmasterPriority1 == m.ds.priority1
    && announce.grandmasterClockQuality == m.ds.clockQuality
    && announce.grandmasterPriority2 == m.ds.priority2
    && announce.grandmasterIdentity == m.ds.clockIdentity
    && announce.stepsRemoved == 0
  }

  predicate RecordOf(m: Member, r: ForeignMasterRecord) {
    && SpeaksFor(m, r.header, r.announce, r.localPreference)
    && r.foreignMasterPortIdentity == m.id
    && !r.disqualified
  }

  lemma RecordRank(m: Member, r: ForeignMasterRecord, ctx: Context)
    requires RecordOf(m, r) && !ctx.anyDomain && !ctx.preferUtcValid
    ensures GrandmasterKey(r, ctx) == Rank(m)
  {
  }

  /** Records of two clocks rank as the clocks do. */
  lemma RecordsRankAsMembers(a: Member, b: Member, ra: ForeignMasterRecord, rb: ForeignMasterRecord, ctx: Context)
    requires RecordOf(a, ra) && RecordOf(b, rb) && !ctx.anyDomain && !ctx.preferUtcValid
    requires LexCompare(Key(ra, ctx), Key(rb, ctx)) <= 0
    ensures LexCompare(Rank(a), Rank(b)) <= 0
  {
    hide LexCompare;
    RecordRank(a, ra, ctx);
    RecordRank(b, rb, ctx);
    var (ka, kb) := (GrandmasterKey(ra, ctx), GrandmasterKey(rb, ctx));
    LexConcat([1], [1], ka + TopologyKey(ra), kb + TopologyKey(rb));
    LexConcat(ka, kb, TopologyKey(ra), TopologyKey(rb));
    LexAntisymmetric([1], [1]);
  }

  /** Against a record of another clock the local clock decides by rank alone. */
  lemma OwnRankDecides(m: Member, other: Member, p: Port, r: ForeignMasterRecord)
    requires ValidMember(m) && p.defaultDS == m.ds && RecordOf(other, r)
    requires m.ds.clockIdentity != other.ds.clockIdentity
    ensures DataSetComparison(CopyD0(p), r, p.Context(m.rt)) < 0 <==> Better(m, other)
    ensures DataSetComparison(CopyD0(p), r, p.Context(m.rt)) > 0 <==> Better(other, m)
  {
    hide LexCompare, IsSet, FlagField1, CompareGrandmasters;
    var ctx := p.Context(m.rt);
    GrandmastersFollowKey(CopyD0(p), r, ctx);
    RecordRank(other, r, ctx);
    assert GrandmasterKey(CopyD0(p), ctx) == Rank(m);
    LexAntisymmetric(Rank(m), Rank(other));
    RanksDiffer(m, other);
  }

  // ---------------------------------------------------------------- what one port keeps

  /** The records in use were sent by other clocks that may lead. */
  predicate KnowsLeaders(ms: seq<Member>, i: nat, t: Table)
    requires t.InBounds()
  {
    forall k | 0 <= k < t.number :: ByLeader(ms, i, t.foreign[k])
  }

  predicate ByLeader(ms: seq<Member>, i: nat, r: ForeignMasterRecord) {
    exists j :: 0 <= j < |ms| && j != i && !ms[j].ds.slaveOnly && RecordOf(ms[j], r)
  }

  /** The best record is used, and outranks the local clock unless that may not lead. */
  predicate Outranked(ms: seq<Member>, i: nat, t: Table)
    requires t.InBounds() && i < |ms|
  {
    && t.best < t.number
    && exists j :: 0 <= j < |ms| && j != i && RecordOf(ms[j], t.foreign[t.best])
                   && (ms[i].ds.slaveOnly || Better(ms[j], ms[i]))
  }

  predicate PortKeeps(ms: seq<Member>, i: nat, p: Port)
    requires i < |ms|
  {
    && p.defaultDS == ms[i].ds && p.portIdentity == ms[i].id
    && Operational(p.portState)
    && Usable(p.table)
    && (!p.recordUpdate ==> WellFormed(p.table))
    && (p.recordUpdate ==> p.table.number > 0 || p.portState == Master)
    && (p.portState == Listening && !p.recordUpdate ==> p.table.number == 0)
    && KnowsLeaders(ms, i, p.table)
    && (p.portState in {Passive, Slave} ==> Outranked(ms, i, p.table))
  }

  lemma LeadersComparable(ms: seq<Member>, i: nat, a: ForeignMasterRecord, b: ForeignMasterRecord, ctx: Context)
    requires ValidMembers(ms) && ByLeader(ms, i, a) && ByLeader(ms, i, b) && !ctx.anyDomain && !ctx.preferUtcValid
    ensures Comparable(a, b, ctx)
  {
  }

  /** The scan picks a record whose sender nobody in the table outranks. */
  lemma ScanFindsBestMember(ms: seq<Member>, i: nat, t: Table, ctx: Context, a: int, b: int, k: nat)
    requires ValidMembers(ms) && t.InBounds() && t.number > 0 && KnowsLeaders(ms, i, t)
    requires !ctx.anyDomain && !ctx.preferUtcValid
    requires 0 <= a < |ms| && 0 <= b < |ms| && k < t.number
    requires RecordOf(ms[a], t.foreign[ScanBest(t.foreign, t.number, ctx)]) && RecordOf(ms[b], t.foreign[k])
    ensures LexCompare(Rank(ms[a]), Rank(ms[b])) <= 0
  {
    hide LexCompare, Key, ScanBest, RecordOf, Comparable;
    forall x, y | 0 <= x < t.number && 0 <= y < t.number ensures Comparable(t.foreign[x], t.foreign[y], ctx) {
      LeadersComparable(ms, i, t.foreign[x], t.foreign[y], ctx);
    }
    ScanFindsMinimum(t.foreign, t.number, ctx);
    RecordsRankAsMembers(ms[a], ms[b], t.foreign[ScanBest(t.foreign, t.number, ctx)], t.foreign[k], ctx);
  }

  /** The member that sent a record is unique. */
  lemma SenderIsUnique(ms: seq<Member>, a: nat, b: nat, r: ForeignMasterRecord)
    requires ValidMembers(ms) && a < |ms| && b < |ms| && RecordOf(ms[a], r) && RecordOf(ms[b], r)
    ensures a == b
  {
  }

  // ---------------------------------------------------------------- one decision

  /** The state that the decision on a record of clock `best` recommends to clock `m`. */
  function Recommended(m: Member, best: Member): PortState {
    if m.ds.slaveOnly then Slave
    else if Better(m, best) then Master
    else if m.ds.clockQuality.clockClass < 128 then Passive
    else Slave
  }

  lemma DecidesByRank(ms: seq<Member>, i: nat, j: nat, p: Port)
    requires ValidMembers(ms) && i < |ms| && j < |ms| && i != j
    requires p.Ready() && PortKeeps(ms, i, p) && p.table.number > 0 && p.recordUpdate
    requires RecordOf(ms[j], p.table.foreign[ScanBest(p.table.foreign, p.table.number, p.Context(ms[i].rt))])
    ensures var q := Decision(ms[i].rt, true, p);
            && q.table == p.table.(best := ScanBest(p.table.foreign, p.table.number, p.Context(ms[i].rt)))
            && q.portState == Recommended(ms[i], ms[j])
            && !q.recordUpdate && q.defaultDS == p.defaultDS && q.portIdentity == p.portIdentity
            && (q.portState != Master ==> q.parentDS.parentPortIdentity == ms[j].id)
  {
    hide DataSetComparison, CopyD0, TimePropertiesFrom, Rank, LexCompare, ScanBest;
    var rt := ms[i].rt;
    var p' := p.(recordUpdate := false);
    var best := ScanBest(p'.table.foreign, p'.table.number, p'.Context(rt));
    var chosen := p'.(table := p'.table.(best := best), bestMaster := Some(best));
    OwnRankDecides(ms[i], ms[j], chosen, p.table.foreign[best]);
    RanksDiffer(ms[i], ms[j]);
  }

  lemma DecisionKeeps(ms: seq<Member>, i: nat, p: Port)
    requires ValidMembers(ms) && i < |ms| && p.Ready() && PortKeeps(ms, i, p)
    ensures var q := Decision(ms[i].rt, true, p);
            && PortKeeps(ms, i, q) && !q.recordUpdate
            && q.table.foreign == p.table.foreign && q.table.number == p.table.number
            && (p.portState in {Passive, Slave} ==> q.portState in {Passive, Slave})
            && (p.portState == Master ==> q.portState != Listening)
  {
    hide Decision, ScanBest, RecordOf, Rank, LexCompare, ByLeader;
    DecisionSkips(ms[i].rt, p);
    if p.recordUpdate && p.table.number > 0 {
      var best := ScanBest(p.table.foreign, p.table.number, p.Context(ms[i].rt));
      assert ByLeader(ms, i, p.table.foreign[best]);
      var j := LeaderOf(ms, i, p.table.foreign[best]);
      DecidesByRank(ms, i, j, p);
      RanksDiffer(ms[i], ms[j]);
      if p.portState in {Passive, Slave} && !ms[i].ds.slaveOnly {
        var k :| 0 <= k < |ms| && k != i && RecordOf(ms[k], p.table.foreign[p.table.best]) && Better(ms[k], ms[i]);
        ScanFindsBestMember(ms, i, p.table, p.Context(ms[i].rt), j, k, p.table.best);
        LexTransitive(Rank(ms[j]), Rank(ms[k]), Rank(ms[i]));
      }
    }
  }

  lemma LeaderOf(ms: seq<Member>, i: nat, r: ForeignMasterRecord) returns (j: nat)
    requires ByLeader(ms, i, r)
    ensures j < |ms| && j != i && !ms[j].ds.slaveOnly && RecordOf(ms[j], r)
  {
    j :| 0 <= j < |ms| && j != i && !ms[j].ds.slaveOnly && RecordOf(ms[j], r);
  }

  /** Nothing to decide, or a MASTER without records, which stays as it is. */
  lemma DecisionSkips(rt: RunTimeOpts, p: Port)
    requires p.Ready() && Operational(p.portState)
    ensures !p.recordUpdate ==> Decision(rt, true, p) == p
    ensures p.recordUpdate && p.table.number == 0 && p.portState == Master ==>
              Decision(rt, true, p) == M1(rt, p.(recordUpdate := false))
  {
  }

  // ---------------------------------------------------------------- one Announce

  /** An Announce that another clock, which may lead, sent of itself. */
  predicate FromLeader(ms: seq<Member>, j: nat, a: Announcement) {
    j < |ms| && !ms[j].ds.slaveOnly && SpeaksFor(ms[j], a.header, a.announce, a.localPreference)
  }

  /** The record that a follower goes by has not changed hands. */
  predicate SameBest(ms: seq<Member>, t: Table, t': Table)
    requires t.InBounds() && t'.InBounds()
  {
    && t'.best == t.best && t'.number >= t.number
    && forall k | 0 <= k < |ms| && RecordOf(ms[k], t.foreign[t.best]) :: RecordOf(ms[k], t'.foreign[t.best])
  }

  lemma InsertionKeeps(ms: seq<Member>, i: nat, j: nat, t: Table, a: Announcement)
    requires ValidMembers(ms) && i < |ms| && i != j && FromLeader(ms, j, a)
    requires WellFormed(t) && KnowsLeaders(ms, i, t)
    ensures var t' := AddForeign(t, a);
            && Usable(t') && t'.number > 0 && KnowsLeaders(ms, i, t')
            && (t.number > 0 ==> WellFormed(t') && SameBest(ms, t, t'))
  {
    hide FindFrom;
    AddForeignShape(t, a);
    FindIsMembership(t, a.Sender());
    InsertSlotFacts(t);
    var t' := AddForeign(t, a);
    var slot := if Find(t, a.Sender()).Some? then Find(t, a.Sender()).value else InsertSlot(t);
    assert RecordOf(ms[j], t'.foreign[slot]);
    hide AddForeign, InsertSlot, SpeaksFor;
    forall k | 0 <= k < t'.number ensures ByLeader(ms, i, t'.foreign[k]) {
      if k != slot {
        assert k < t.number && t'.foreign[k] == t.foreign[k];
      }
    }
    if t.number > 0 && slot == t.best {
      var k := LeaderOf(ms, i, t.foreign[t.best]);
      assert ms[k].id == ms[j].id;
    }
  }

  lemma RefreshKeeps(ms: seq<Member>, i: nat, j: nat, p: Port, a: Announcement)
    requires ValidMembers(ms) && i < |ms| && FromLeader(ms, j, a)
    requires PortKeeps(ms, i, p) && p.Ready() && PointsAtParent(p) && FromParent(p, a.header) && !p.recordUpdate
    ensures var t' := UpdateParent(ms[i].rt, a, p).table;
            && WellFormed(t') && KnowsLeaders(ms, i, t') && SameBest(ms, p.table, t')
  {
    hide TimePropertiesFrom, Rank, LexCompare;
    var k := LeaderOf(ms, i, p.table.foreign[p.table.best]);
    assert ms[k].id == ms[j].id;
    var t' := UpdateParent(ms[i].rt, a, p).table;
    assert RecordOf(ms[j], t'.foreign[t'.best]);
    forall k | 0 <= k < t'.number ensures ByLeader(ms, i, t'.foreign[k]) {
      assert k != t'.best ==> t'.foreign[k] == p.table.foreign[k];
    }
  }

  lemma OutrankedStays(ms: seq<Member>, i: nat, t: Table, t': Table)
    requires i < |ms| && t.InBounds() && t'.InBounds() && Outranked(ms, i, t) && SameBest(ms, t, t')
    ensures Outranked(ms, i, t')
  {
  }

  /** Receiving an Announce of a leader right after a decision. */
  lemma HandleKeeps(ms: seq<Member>, i: nat, j: nat, p: Port, a: Announcement)
    requires ValidMembers(ms) && i < |ms| && FromLeader(ms, j, a)
    requires PortKeeps(ms, i, p) && Coherent(ms[i].rt, p) && !p.recordUpdate
    ensures var q := HandleAnnounce(ms[i].rt, a, p);
            && PortKeeps(ms, i, q) && q.portState == p.portState
            && (p.portState in {Passive, Slave} ==>
                  SameBest(ms, p.table, q.table) &&
                  q.parentDS.parentPortIdentity == p.parentDS.parentPortIdentity)
  {
    hide AddForeign, TimePropertiesFrom, CmpPortIdentity, IsSet, Rank, LexCompare, SpeaksFor, RecordOf, Better,
         DistinctIdentities;
    CmpPortIdentityZero(p.portIdentity, a.Sender());
    SpeakerIsSender(ms[j], a);
    if a.Sender() != p.portIdentity {
      InsertionKeeps(ms, i, j, p.table, a);
      if p.portState in {Passive, Slave} {
        OutrankedStays(ms, i, p.table, p.table);
        OutrankedStays(ms, i, p.table, AddForeign(p.table, a));
        if FromParent(p, a.header) {
          RefreshKeeps(ms, i, j, p, a);
          OutrankedStays(ms, i, p.table, UpdateParent(ms[i].rt, a, p).table);
        }
      }
    }
  }

  lemma SpeakerIsSender(m: Member, a: Announcement)
    requires SpeaksFor(m, a.header, a.announce, a.localPreference)
    ensures a.Sender() == m.id
  {
  }
}
