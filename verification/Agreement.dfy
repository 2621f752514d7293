/** Agreement on one grandmaster: any number of clocks exchange Announce messages over a medium that
    may lose, duplicate and reorder them, and no follower's timer expires. */
module Agreement {
  import opened LexOrder
  import opened PtpTypes
  import opened Bmc
  import opened ForeignTable
  import opened Port
  import opened PortRuns
  import opened Network
  import Codec

  /** Clock `b` outranks every other clock that may lead. */
  predicate IsBest(ms: seq<Member>, b: nat) {
    && b < |ms| && !ms[b].ds.slaveOnly
    && forall j | 0 <= j < |ms| && j != b && !ms[j].ds.slaveOnly :: Better(ms[b], ms[j])
  }

  // ---------------------------------------------------------------- one turn of one port

  /** Nothing fails, no follower's timer expires, and every Announce came over the medium. The announce
      receipt timer may expire on a port that may lead and has not heard of any other leader yet. */
  predicate Quiet(rt: RunTimeOpts, p: Port, i: Input, medium: set<Announcement>)
    requires p.Ready()
  {
    && !i.disabled && !i.receiveError && !i.clockUpdateTimeout && !i.sendError && i.igmpOk
    && (i.announceTimeout ==> !p.defaultDS.slaveOnly && Decision(rt, true, p).portState == Listening)
    && (i.announce.Some? ==> i.announce.value in medium)
  }

  predicate Following(s: PortState) {
    s in {Passive, Slave}
  }

  /** The port follows clock `b`, by its state, its best record and its parent data set. */
  predicate Follows(ms: seq<Member>, b: nat, p: Port)
    requires b < |ms| && p.Ready()
  {
    && Following(p.portState)
    && p.table.best < p.table.number
    && RecordOf(ms[b], p.table.foreign[p.table.best])
    && p.parentDS.parentPortIdentity == ms[b].id
  }

  /** A port that lists the best clock follows it, unless a decision is pending. */
  predicate Settled(ms: seq<Member>, b: nat, p: Port)
    requires b < |ms| && p.Ready()
  {
    Holds(p.table, ms[b].id) ==> p.recordUpdate || Follows(ms, b, p)
  }

  predicate Sound(ms: seq<Member>, b: nat, i: nat, p: Port) {
    && i < |ms| && b < |ms|
    && Coherent(ms[i].rt, p) && PortKeeps(ms, i, p)
    && (i != b ==> Settled(ms, b, p))
  }

  lemma SoundIsReady(ms: seq<Member>, b: nat, i: nat, p: Port)
    requires Sound(ms, b, i, p)
    ensures p.Ready() && !EmptyDecision(p) && i < |ms| && b < |ms|
    ensures p.defaultDS == ms[i].ds && p.portIdentity == ms[i].id && Operational(p.portState)
    ensures p.portState == Master ==> NamesItself(p)
  {
  }

  /** The best clock itself is never a follower. */
  lemma BestNeverFollows(ms: seq<Member>, b: nat, p: Port)
    requires ValidMembers(ms) && IsBest(ms, b) && Sound(ms, b, b, p)
    ensures p.portState in {Listening, Master}
  {
    hide Rank, LexCompare;
    if Following(p.portState) {
      assert ByLeader(ms, b, p.table.foreign[p.table.best]);
      var k := LeaderOf(ms, b, p.table.foreign[p.table.best]);
      var j :| 0 <= j < |ms| && j != b && RecordOf(ms[j], p.table.foreign[p.table.best]) && Better(ms[j], ms[b]);
      SenderIsUnique(ms, j, k, p.table.foreign[p.table.best]);
      RanksDiffer(ms[j], ms[b]);
    }
  }

  /** A decision while the best clock is listed ends in following it. */
  lemma DecidesForBest(ms: seq<Member>, b: nat, i: nat, p: Port)
    requires ValidMembers(ms) && IsBest(ms, b) && i < |ms| && i != b
    requires p.Ready() && PortKeeps(ms, i, p) && p.recordUpdate && Holds(p.table, ms[b].id)
    ensures Decision(ms[i].rt, true, p).Ready() && Follows(ms, b, Decision(ms[i].rt, true, p))
  {
    hide Decision, ScanBest, Rank, LexCompare;
    DecisionStaysReady(ms[i].rt, true, p);
    var ctx := p.Context(ms[i].rt);
    var best := ScanBest(p.table.foreign, p.table.number, ctx);
    assert ByLeader(ms, i, p.table.foreign[best]);
    var j := LeaderOf(ms, i, p.table.foreign[best]);
    var k :| 0 <= k < p.table.number && p.table.foreign[k].foreignMasterPortIdentity == ms[b].id;
    var j' := LeaderOf(ms, i, p.table.foreign[k]);
    assert j' == b;
    ScanFindsBestMember(ms, i, p.table, ctx, j, b, k);
    if j != b {
      RanksDiffer(ms[b], ms[j]);
      LexAntisymmetric(Rank(ms[b]), Rank(ms[j]));
    }
    DecidesByRank(ms, i, j, p);
    assert i != b;
    if !ms[i].ds.slaveOnly {
      RanksDiffer(ms[i], ms[b]);
    }
  }

  lemma FollowerHolds(ms: seq<Member>, b: nat, p: Port)
    requires b < |ms| && p.Ready() && Follows(ms, b, p)
    ensures Holds(p.table, ms[b].id)
  {
    assert p.table.foreign[p.table.best].foreignMasterPortIdentity == ms[b].id;
  }

  lemma HoldsSameRecords(t: Table, t': Table, id: PortIdentity)
    requires t.InBounds() && t'.InBounds() && t.foreign == t'.foreign && t.number == t'.number
    ensures Holds(t, id) <==> Holds(t', id)
  {
  }

  lemma DecisionSound(ms: seq<Member>, b: nat, i: nat, p: Port)
    requires ValidMembers(ms) && IsBest(ms, b) && Sound(ms, b, i, p)
    ensures var d := Decision(ms[i].rt, true, p);
            && Sound(ms, b, i, d) && !d.recordUpdate
            && (Following(p.portState) ==> Following(d.portState))
            && (p.portState == Master ==> d.portState != Listening)
            && (i != b && Holds(p.table, ms[b].id) ==> Follows(ms, b, d))
            && forall id :: Holds(d.table, id) <==> Holds(p.table, id)
  {
    hide Decision, Coherent, EmptyDecision, PortKeeps, Rank, LexCompare, RecordOf, NamesItself;
    SoundIsReady(ms, b, i, p);
    var d := Decision(ms[i].rt, true, p);
    DecisionStaysReady(ms[i].rt, true, p);
    DecisionKeeps(ms, i, p);
    DecisionKeepsIff(ms[i].rt, true, p);
    DecisionSkips(ms[i].rt, p);
    forall id ensures Holds(d.table, id) <==> Holds(p.table, id) {
      HoldsSameRecords(p.table, d.table, id);
    }
    if i != b && Holds(p.table, ms[b].id) && p.recordUpdate {
      DecidesForBest(ms, b, i, p);
    }
  }

  /** What an Announce adds to the table: its sender, or nothing. */
  lemma HandleAdds(rt: RunTimeOpts, p: Port, a: Announcement, id: PortIdentity)
    requires Coherent(rt, p) && WellFormed(p.table)
    ensures var q := HandleAnnounce(rt, a, p);
            && (Holds(q.table, id) ==> Holds(p.table, id) || id == a.Sender())
            && (q.recordUpdate || q == p)
  {
    hide AddForeign, TimePropertiesFrom, CmpPortIdentity, IsSet, DistinctIdentities;
    AddForeignEffect(p.table, a);
    if p.portState == Slave && FromParent(p, a.header) {
      var t' := UpdateParent(rt, a, p).table;
      assert forall k | 0 <= k < t'.number ::
        t'.foreign[k].foreignMasterPortIdentity == p.table.foreign[k].foreignMasterPortIdentity;
    }
  }

  lemma FollowsSameBest(ms: seq<Member>, b: nat, p: Port, q: Port)
    requires b < |ms| && p.Ready() && q.Ready() && Follows(ms, b, p) && SameBest(ms, p.table, q.table)
    requires q.portState == p.portState && q.parentDS.parentPortIdentity == p.parentDS.parentPortIdentity
    ensures Follows(ms, b, q)
  {
  }

  lemma HandleSound(ms: seq<Member>, b: nat, i: nat, j: nat, p: Port, a: Announcement)
    requires ValidMembers(ms) && Sound(ms, b, i, p) && !p.recordUpdate && FromLeader(ms, j, a)
    ensures var q := HandleAnnounce(ms[i].rt, a, p);
            && Sound(ms, b, i, q) && q.portState == p.portState
            && (Follows(ms, b, p) ==> Follows(ms, b, q))
            && forall id | Holds(q.table, id) :: Holds(p.table, id) || id == a.Sender()
  {
    hide HandleAnnounce, Rank, LexCompare, RecordOf, Outranked, DistinctIdentities, SameBest, ConfiguredBy, NamesItself,
         PointsAtParent, CopiesRecord, StoredBySender, KnowsLeaders;
    HandleKeeps(ms, i, j, p, a);
    HandleAnnounceKeeps(ms[i].rt, a, p);
    var q := HandleAnnounce(ms[i].rt, a, p);
    forall id | Holds(q.table, id) ensures Holds(p.table, id) || id == a.Sender() {
      HandleAdds(ms[i].rt, p, a, id);
    }
    HandleAdds(ms[i].rt, p, a, ms[b].id);
    if Follows(ms, b, p) {
      FollowsSameBest(ms, b, p, q);
    }
  }

  /** What a quiet turn does after its decision. */
  function AfterDecision(rt: RunTimeOpts, i: Input, d: Port): Port
    requires d.Ready()
  {
    var q := if d.portState == Master && i.utcOffset != 0
             then d.(timePropertiesDS := d.timePropertiesDS.(
                       currentUtcOffset := i.utcOffset, currentUtcOffsetValid := true))
             else d;
    var r := if i.announce.Some? then ProcessAnnounce(rt, i.announce.value, q) else q;
    if i.announceTimeout && r.portState == Listening
    then Enter(rt, Master, M1(rt, r.(table := Reset(r.table), bestMaster := None))) else r
  }

  lemma QuietTurn(ms: seq<Member>, b: nat, i: nat, p: Port, input: Input, medium: set<Announcement>)
    requires ValidMembers(ms) && Sound(ms, b, i, p) && p.Ready() && Quiet(ms[i].rt, p, input, medium)
    requires Sound(ms, b, i, Decision(ms[i].rt, true, p))
    ensures Decision(ms[i].rt, true, p).Ready()
    ensures Turn(ms[i].rt, input, p) == AfterDecision(ms[i].rt, input, Decision(ms[i].rt, true, p))
  {
    hide Decision, HandleAnnounce, PortKeeps, Settled, M1, Enter, NamesItself, PointsAtParent, CopiesRecord,
         StoredBySender;
    var d := Decision(ms[i].rt, true, p);
    SoundIsReady(ms, b, i, p);
    SoundIsReady(ms, b, i, d);
    ReceiveStaysReady(ms[i].rt, input, d);
    var tp := if input.utcOffset != 0
              then d.timePropertiesDS.(currentUtcOffset := input.utcOffset, currentUtcOffsetValid := true)
              else d.timePropertiesDS;
    MasterReceives(ms[i].rt, input, d.(timePropertiesDS := tp));
    MasterReceives(ms[i].rt, input, d);
    ReceiveKeepsState(ms[i].rt, input, d);
  }

  lemma ReceiveKeepsState(rt: RunTimeOpts, i: Input, p: Port)
    requires p.Ready() && !i.receiveError
    ensures Receive(rt, i, p).portState == p.portState
  {
    hide AddForeign, TimePropertiesFrom, CmpPortIdentity, IsSet;
  }

  /** The announce receipt timer expires on a listening port without records of other leaders. */
  lemma TimeoutSound(ms: seq<Member>, b: nat, i: nat, p: Port)
    requires ValidMembers(ms) && Sound(ms, b, i, p) && p.portState == Listening && !ms[i].ds.slaveOnly
    ensures var q := Enter(ms[i].rt, Master, M1(ms[i].rt, p.(table := Reset(p.table), bestMaster := None)));
            Sound(ms, b, i, q) && q.portState == Master && q.table.number == 0
  {
    hide Rank, LexCompare, RecordOf;
  }

  lemma UtcSound(ms: seq<Member>, b: nat, i: nat, p: Port, tp: TimePropertiesDS)
    requires Sound(ms, b, i, p) && p.portState == Master
    requires tp == p.timePropertiesDS.(currentUtcOffset := tp.currentUtcOffset,
                                       currentUtcOffsetValid := tp.currentUtcOffsetValid)
    ensures Sound(ms, b, i, p.(timePropertiesDS := tp))
  {
    hide Rank, LexCompare, RecordOf;
  }

  /** States only advance, from LISTENING to MASTER to a following state. */
  predicate Advances(s: PortState, s': PortState) {
    && (Following(s) ==> Following(s'))
    && (s == Master ==> s' != Listening)
  }

  predicate Leaders(ms: seq<Member>, medium: set<Announcement>) {
    forall a | a in medium :: exists j: nat :: j < |ms| && FromLeader(ms, j, a)
  }

  predicate Heard(medium: set<Announcement>, id: PortIdentity) {
    exists a :: a in medium && a.Sender() == id
  }

  /** One quiet turn of one port of the network. */
  lemma TurnSound(ms: seq<Member>, b: nat, i: nat, p: Port, input: Input, medium: set<Announcement>)
    requires ValidMembers(ms) && IsBest(ms, b) && Sound(ms, b, i, p) && p.Ready()
    requires Leaders(ms, medium) && Quiet(ms[i].rt, p, input, medium)
    ensures var q := Turn(ms[i].rt, input, p);
            && Sound(ms, b, i, q) && q.Ready() && Advances(p.portState, q.portState)
            && (i != b && Holds(p.table, ms[b].id) ==> Follows(ms, b, q))
            && forall id | Holds(q.table, id) :: Holds(p.table, id) || Heard(medium, id)
  {
    hide Decision, Coherent, EmptyDecision, PortKeeps, HandleAnnounce, Settled, Follows, M1, Enter, Turn, IsBest,
         ValidMembers, FromLeader;
    SoundIsReady(ms, b, i, p);
    DecisionSound(ms, b, i, p);
    QuietTurn(ms, b, i, p, input, medium);
    var d := Decision(ms[i].rt, true, p);
    SoundIsReady(ms, b, i, d);
    var q := if d.portState == Master && input.utcOffset != 0
             then d.(timePropertiesDS := d.timePropertiesDS.(
                       currentUtcOffset := input.utcOffset, currentUtcOffsetValid := true))
             else d;
    if d.portState == Master {
      UtcSound(ms, b, i, d, q.timePropertiesDS);
      LeaderDoesNotFollow(ms, b, d);
    }
    var r := q;
    if input.announce.Some? {
      var a := input.announce.value;
      var j :| FromLeader(ms, j, a);
      HandleSound(ms, b, i, j, q, a);
      r := ProcessAnnounce(ms[i].rt, a, q);
    }
    SoundIsReady(ms, b, i, r);
    if r.portState == Listening && input.announceTimeout {
      TimeoutSound(ms, b, i, r);
      LeaderDoesNotFollow(ms, b, d);
    }
    SoundIsReady(ms, b, i, AfterDecision(ms[i].rt, input, d));
  }

  lemma LeaderDoesNotFollow(ms: seq<Member>, b: nat, p: Port)
    requires b < |ms| && p.Ready() && p.portState in {Master, Listening}
    ensures !Follows(ms, b, p)
  {
  }

  // ---------------------------------------------------------------- the network

  /** All ports, and every Announce that was ever sent: delivery may pick any of them, any number of
      times and in any order, or none. */
  datatype Net = Net(ports: seq<Port>, medium: set<Announcement>)

  datatype Step = Send(port: nat, a: Announcement) | Take(port: nat, input: Input)

  /** What an Announce takes from the data sets of its sender; the receiver of a multicast Announce
      gives it the lowest local preference. */
  predicate Announces(p: Port, a: Announcement) {
    && a.header.sourcePortIdentity == p.portIdentity
    && a.localPreference == LOWEST_LOCALPREFERENCE
    && a.announce.grandmasterPriority1 == p.parentDS.grandmasterPriority1
    && a.announce.grandmasterClockQuality == p.defaultDS.clockQuality
    && a.announce.grandmasterPriority2 == p.parentDS.grandmasterPriority2
    && a.announce.grandmasterIdentity == p.parentDS.grandmasterIdentity
    && a.announce.stepsRemoved == p.stepsRemoved
  }

  /** The sender that a port packs its messages as. */
  predicate PacksFor(s: Codec.Sender, p: Port) {
    && s.portIdentity == p.portIdentity && s.defaultDS == p.defaultDS && s.parentDS == p.parentDS
    && s.timePropertiesDS == p.timePropertiesDS && s.stepsRemoved == p.stepsRemoved
  }

  /** The Announce that comes off the wire is one of those that the network lets the port send, and a
      follower takes over exactly the time properties of the sender. */
  lemma PackedAnnounceIsSent(p: Port, s: Codec.Sender, sequenceId: uint16, origin: Timestamp, sourceAddr: uint32)
    requires PacksFor(s, p)
    ensures var a := Announcement(Codec.AnnounceHeaderOf(s, sequenceId), Codec.AnnounceOf(s, origin),
                                  LOWEST_LOCALPREFERENCE, sourceAddr);
            Announces(p, a) && TimePropertiesFrom(a.header, a.announce) == p.timePropertiesDS
  {
    hide Codec.AnnounceFlags, IsSet;
    Codec.FlagsReadBack(s);
  }

  predicate Enabled(ms: seq<Member>, net: Net, s: Step)
    requires |net.ports| == |ms|
  {
    s.port < |ms| &&
    var p := net.ports[s.port];
    match s
    case Send(_, a) => p.portState == Master && Announces(p, a)
    case Take(_, input) => p.Ready() && Quiet(ms[s.port].rt, p, input, net.medium)
  }

  function Next(ms: seq<Member>, net: Net, s: Step): (net': Net)
    requires |net.ports| == |ms|
    ensures |net'.ports| == |ms|
  {
    if !Enabled(ms, net, s) then net
    else match s
      case Send(_, a) => net.(medium := net.medium + {a})
      case Take(i, input) => net.(ports := net.ports[i := Turn(ms[i].rt, input, net.ports[i])])
  }

  function NetRun(ms: seq<Member>, net: Net, steps: seq<Step>): (net': Net)
    requires |net.ports| == |ms|
    ensures |net'.ports| == |ms|
    decreases |steps|
  {
    if steps == [] then net else NetRun(ms, Next(ms, net, steps[0]), steps[1..])
  }

  /** Someone has heard of the best clock only if that clock leads. */
  predicate HeardOnlyIfLeading(ms: seq<Member>, b: nat, net: Net)
    requires |net.ports| == |ms| && b < |ms|
  {
    net.ports[b].portState == Master ||
    (!Heard(net.medium, ms[b].id) &&
     forall i | 0 <= i < |ms| && i != b ::
       net.ports[i].Ready() && !Holds(net.ports[i].table, ms[b].id))
  }

  predicate PortsSound(ms: seq<Member>, b: nat, net: Net) {
    |net.ports| == |ms| && forall i | 0 <= i < |ms| :: Sound(ms, b, i, net.ports[i]) && net.ports[i].Ready()
  }

  predicate NetSound(ms: seq<Member>, b: nat, net: Net) {
    && b < |ms| && PortsSound(ms, b, net)
    && Leaders(ms, net.medium)
    && HeardOnlyIfLeading(ms, b, net)
  }

  /** A port that has just been initialised. */
  predicate Starting(m: Member, p: Port) {
    && p.Ready() && StoredBySender(p.table) && p.table.number == 0 && p.table.next == 0
    && p.defaultDS == m.ds && p.portIdentity == m.id && p.portState == Listening && !p.recordUpdate
  }

  predicate NetStarts(ms: seq<Member>, net: Net) {
    |net.ports| == |ms| && net.medium == {} && forall i | 0 <= i < |ms| :: Starting(ms[i], net.ports[i])
  }

  /** Such ports come out of the initialisation of a cleared clock. */
  lemma InitialisedPortStarts(rt: RunTimeOpts, i: Input, p: Port)
    requires JustStarted(p) && p.table.number == 0 && p.table.next == 0 && !p.recordUpdate
    requires !i.disabled && i.initOk && i.igmpOk && !rt.disableBMCA
    ensures var q := Turn(rt, i, p);
            && Starting(Member(rt, q.defaultDS, q.portIdentity), q)
            && q.defaultDS.clockIdentity == p.defaultDS.clockIdentity && ConfiguredBy(rt, q)
            && q.defaultDS.domainNumber == rt.domainNumber
  {
  }

  lemma StartIsSound(ms: seq<Member>, b: nat, net: Net)
    requires ValidMembers(ms) && b < |ms| && NetStarts(ms, net)
    ensures NetSound(ms, b, net)
  {
  }

  /** A MASTER announces itself, and it is allowed to lead. */
  lemma MasterSpeaksForItself(ms: seq<Member>, b: nat, i: nat, p: Port, a: Announcement)
    requires ValidMembers(ms) && Sound(ms, b, i, p) && p.portState == Master && Announces(p, a)
    ensures FromLeader(ms, i, a)
  {
    hide Rank, LexCompare, RecordOf;
  }

  lemma SendSound(ms: seq<Member>, b: nat, net: Net, s: Step)
    requires ValidMembers(ms) && IsBest(ms, b) && NetSound(ms, b, net) && s.Send? && Enabled(ms, net, s)
    ensures NetSound(ms, b, Next(ms, net, s))
  {
    hide Sound, IsBest, SpeaksFor, Announces;
    MasterSpeaksForItself(ms, b, s.port, net.ports[s.port], s.a);
    SpeakerIsSender(ms[s.port], s.a);
    assert s.port != b ==> ms[s.port].ds.clockIdentity != ms[b].ds.clockIdentity;
  }

  lemma TakeSound(ms: seq<Member>, b: nat, net: Net, s: Step)
    requires ValidMembers(ms) && IsBest(ms, b) && NetSound(ms, b, net) && s.Take? && Enabled(ms, net, s)
    ensures NetSound(ms, b, Next(ms, net, s))
    ensures Next(ms, net, s).ports == net.ports[s.port := Turn(ms[s.port].rt, s.input, net.ports[s.port])]
    ensures Advances(net.ports[s.port].portState, Next(ms, net, s).ports[s.port].portState)
    ensures s.port != b && Holds(net.ports[s.port].table, ms[b].id) ==>
              Follows(ms, b, Next(ms, net, s).ports[s.port])
  {
    hide Sound, IsBest, FromLeader, Announces, Quiet, Turn, Holds, Follows;
    var p := net.ports[s.port];
    TurnSound(ms, b, s.port, p, s.input, net.medium);
    if s.port == b {
      BestNeverFollows(ms, b, Turn(ms[b].rt, s.input, p));
    }
  }

  lemma NextSound(ms: seq<Member>, b: nat, net: Net, s: Step)
    requires ValidMembers(ms) && IsBest(ms, b) && NetSound(ms, b, net)
    ensures NetSound(ms, b, Next(ms, net, s))
    ensures forall i | 0 <= i < |ms| :: Advances(net.ports[i].portState, Next(ms, net, s).ports[i].portState)
  {
    hide NetSound, IsBest, Enabled, Quiet, Turn, ValidMembers;
    NetSoundShape(ms, b, net);
    if Enabled(ms, net, s) {
      if s.Send? {
        SendSound(ms, b, net, s);
      } else {
        TakeSound(ms, b, net, s);
      }
    }
  }

  lemma NetSoundShape(ms: seq<Member>, b: nat, net: Net)
    requires NetSound(ms, b, net)
    ensures b < |ms| && |net.ports| == |ms|
    ensures forall i | 0 <= i < |ms| :: net.ports[i].Ready() && Operational(net.ports[i].portState)
  {
    forall i | 0 <= i < |ms| ensures net.ports[i].Ready() && Operational(net.ports[i].portState) {
      SoundIsReady(ms, b, i, net.ports[i]);
    }
  }

  // ---------------------------------------------------------------- main theorems

  /** Every run of the network: each port only advances, so a follower never leads again. */
  lemma {:induction false} StatesAdvance(ms: seq<Member>, b: nat, net: Net, steps: seq<Step>)
    requires ValidMembers(ms) && IsBest(ms, b) && NetSound(ms, b, net)
    ensures NetSound(ms, b, NetRun(ms, net, steps))
    ensures forall i | 0 <= i < |ms| ::
              Advances(net.ports[i].portState, NetRun(ms, net, steps).ports[i].portState)
    decreases |steps|
  {
    hide NetSound, IsBest, ValidMembers, Next;
    NetSoundShape(ms, b, net);
    if steps != [] {
      var net' := Next(ms, net, steps[0]);
      NextSound(ms, b, net, steps[0]);
      NetSoundShape(ms, b, net');
      StatesAdvance(ms, b, net', steps[1..]);
    }
  }

  /** From the start and through any further steps: the best clock that may lead never stops leading
      once it does, and a clock that follows never leads again. */
  lemma BestKeepsLeading(ms: seq<Member>, b: nat, start: Net, before: seq<Step>, after: seq<Step>)
    requires ValidMembers(ms) && IsBest(ms, b) && NetStarts(ms, start)
    ensures var net := NetRun(ms, start, before);
            var net' := NetRun(ms, net, after);
            && net.ports[b].portState in {Listening, Master}
            && (net.ports[b].portState == Master ==> net'.ports[b].portState == Master)
            && forall i | 0 <= i < |ms| && Following(net.ports[i].portState) :: Following(net'.ports[i].portState)
  {
    hide Sound, Next, ValidMembers;
    StartIsSound(ms, b, start);
    StatesAdvance(ms, b, start, before);
    var net := NetRun(ms, start, before);
    StatesAdvance(ms, b, net, after);
    BestNeverFollows(ms, b, net.ports[b]);
    BestNeverFollows(ms, b, NetRun(ms, net, after).ports[b]);
  }

  /** Port `i` takes at least one turn. */
  predicate TakesTurn(ms: seq<Member>, net: Net, steps: seq<Step>, i: nat)
    requires |net.ports| == |ms|
    decreases |steps|
  {
    steps != [] &&
    (|| (steps[0].Take? && steps[0].port == i && Enabled(ms, net, steps[0]))
     || TakesTurn(ms, Next(ms, net, steps[0]), steps[1..], i))
  }

  /** A port that lists the best clock keeps listing it, and follows it from its next turn on. */
  lemma NextKeepsFollower(ms: seq<Member>, b: nat, i: nat, net: Net, s: Step)
    requires ValidMembers(ms) && IsBest(ms, b) && NetSound(ms, b, net) && i < |ms| && i != b
    requires net.ports[i].Ready() && Holds(net.ports[i].table, ms[b].id)
    ensures var net' := Next(ms, net, s);
            && net'.ports[i].Ready() && Holds(net'.ports[i].table, ms[b].id)
            && ((s.Take? && s.port == i && Enabled(ms, net, s)) || Follows(ms, b, net.ports[i]) ==>
                  Follows(ms, b, net'.ports[i]))
  {
    hide Sound, IsBest, Enabled, Holds, Follows, Turn, ValidMembers, Leaders, HeardOnlyIfLeading;
    NextSound(ms, b, net, s);
    NetSoundShape(ms, b, Next(ms, net, s));
    if s.Take? && s.port == i && Enabled(ms, net, s) {
      TakeSound(ms, b, net, s);
      FollowerHolds(ms, b, Next(ms, net, s).ports[i]);
    }
  }

  lemma {:induction false} ListedIsFollowed(ms: seq<Member>, b: nat, i: nat, net: Net, steps: seq<Step>)
    requires ValidMembers(ms) && IsBest(ms, b) && NetSound(ms, b, net) && i < |ms| && i != b
    requires net.ports[i].Ready() && Holds(net.ports[i].table, ms[b].id)
    requires TakesTurn(ms, net, steps, i) || Follows(ms, b, net.ports[i])
    ensures NetRun(ms, net, steps).ports[i].Ready() && Follows(ms, b, NetRun(ms, net, steps).ports[i])
    decreases |steps|
  {
    hide NetSound, IsBest, Enabled, Holds, Follows, ValidMembers, Next;
    NetSoundShape(ms, b, net);
    if steps != [] {
      NextKeepsFollower(ms, b, i, net, steps[0]);
      NextSound(ms, b, net, steps[0]);
      ListedIsFollowed(ms, b, i, Next(ms, net, steps[0]), steps[1..]);
    }
  }

  lemma HandleLists(rt: RunTimeOpts, p: Port, a: Announcement)
    requires Coherent(rt, p) && Operational(p.portState) && WellFormed(p.table) && !rt.disableBMCA
    requires a.Sender() != p.portIdentity && (rt.requireUtcValid ==> IsSet(a.header.flagField1, UTCV))
    ensures Holds(HandleAnnounce(rt, a, p).table, a.Sender())
  {
    hide AddForeign, TimePropertiesFrom, CmpPortIdentity, IsSet, DistinctIdentities;
    CmpPortIdentityZero(p.portIdentity, a.Sender());
    AddForeignEffect(p.table, a);
    if p.portState in {Passive, Slave} && FromParent(p, a.header) {
      assert HandleAnnounce(rt, a, p).table.foreign[p.table.best].foreignMasterPortIdentity == a.Sender();
    }
  }

  /** One accepted Announce of the best clock is enough to list it, however full the table is. */
  lemma HearingIsListing(ms: seq<Member>, b: nat, i: nat, p: Port, input: Input, medium: set<Announcement>,
                         a: Announcement)
    requires ValidMembers(ms) && IsBest(ms, b) && Sound(ms, b, i, p) && p.Ready() && i != b
    requires Quiet(ms[i].rt, p, input, medium) && input.announce == Some(a) && !input.announceTimeout
    requires a.Sender() == ms[b].id && a.header.domainNumber == ms[i].ds.domainNumber
    requires ms[i].rt.requireUtcValid ==> IsSet(a.header.flagField1, UTCV)
    ensures Turn(ms[i].rt, input, p).Ready() && Holds(Turn(ms[i].rt, input, p).table, ms[b].id)
  {
    hide Decision, Coherent, EmptyDecision, PortKeeps, HandleAnnounce, Settled, Turn, IsBest, IsSet, NamesItself;
    TurnStaysReady(ms[i].rt, input, p);
    DecisionSound(ms, b, i, p);
    QuietTurn(ms, b, i, p, input, medium);
    var d := Decision(ms[i].rt, true, p);
    SoundIsReady(ms, b, i, d);
    var q := if d.portState == Master && input.utcOffset != 0
             then d.(timePropertiesDS := d.timePropertiesDS.(
                       currentUtcOffset := input.utcOffset, currentUtcOffsetValid := true))
             else d;
    if d.portState == Master {
      UtcSound(ms, b, i, d, q.timePropertiesDS);
    }
    DecidedIsWellFormed(ms, b, i, d);
    HandleLists(ms[i].rt, q, a);
  }

  lemma DecidedIsWellFormed(ms: seq<Member>, b: nat, i: nat, p: Port)
    requires Sound(ms, b, i, p) && !p.recordUpdate
    ensures WellFormed(p.table)
  {
  }

  lemma BetterTransitive(a: Member, b: Member, c: Member)
    requires Better(a, b) && Better(b, c)
    ensures Better(a, c)
  {
    LexTransitive(Rank(a), Rank(b), Rank(c));
  }

  lemma {:induction false} BestExistsUpTo(ms: seq<Member>, n: nat, leader: nat) returns (b: nat)
    requires ValidMembers(ms) && leader < n <= |ms| && !ms[leader].ds.slaveOnly
    ensures b < n && !ms[b].ds.slaveOnly
    ensures forall j | 0 <= j < n && j != b && !ms[j].ds.slaveOnly :: Better(ms[b], ms[j])
  {
    hide Better, ValidMember;
    if forall j | 0 <= j < n - 1 :: ms[j].ds.slaveOnly {
      b := n - 1;
    } else {
      var l: nat :| l < n - 1 && !ms[l].ds.slaveOnly;
      b := BestExistsUpTo(ms, n - 1, l);
      RanksDiffer(ms[b], ms[n - 1]);
      if !ms[n - 1].ds.slaveOnly && !Better(ms[b], ms[n - 1]) {
        var c := b;
        b := n - 1;
        forall j | 0 <= j < n - 1 && !ms[j].ds.slaveOnly ensures Better(ms[b], ms[j]) {
          if j != c {
            BetterTransitive(ms[b], ms[c], ms[j]);
          }
        }
      }
    }
  }

  /** Unless every clock is slave-only, one of them is the best. */
  lemma BestExists(ms: seq<Member>, leader: nat) returns (b: nat)
    requires ValidMembers(ms) && leader < |ms| && !ms[leader].ds.slaveOnly
    ensures IsBest(ms, b)
  {
    b := BestExistsUpTo(ms, |ms|, leader);
  }

  predicate AllOthersList(ms: seq<Member>, b: nat, net: Net)
    requires |net.ports| == |ms| && b < |ms|
  {
    forall i | 0 <= i < |ms| && i != b :: net.ports[i].Ready() && Holds(net.ports[i].table, ms[b].id)
  }

  /** Agreement: once every other port lists the best clock and has taken one more turn, the best clock
      is the only MASTER and everybody else follows it, from then on in every run. */
  lemma AgreementOnBest(ms: seq<Member>, b: nat, start: Net, before: seq<Step>, after: seq<Step>)
    requires ValidMembers(ms) && IsBest(ms, b) && NetStarts(ms, start) && |ms| >= 2
    requires AllOthersList(ms, b, NetRun(ms, start, before))
    requires forall i | 0 <= i < |ms| && i != b :: TakesTurn(ms, NetRun(ms, start, before), after, i)
    ensures var net := NetRun(ms, NetRun(ms, start, before), after);
            && net.ports[b].portState == Master
            && forall i | 0 <= i < |ms| && i != b :: net.ports[i].Ready() && Follows(ms, b, net.ports[i])
    ensures var net := NetRun(ms, NetRun(ms, start, before), after);
            forall i | 0 <= i < |ms| :: net.ports[i].portState == Master <==> i == b
  {
    hide Sound, Next, Holds, ValidMembers, Starting, TakesTurn;
    StartIsSound(ms, b, start);
    StatesAdvance(ms, b, start, before);
    var net := NetRun(ms, start, before);
    StatesAdvance(ms, b, net, after);
    BestNeverFollows(ms, b, NetRun(ms, net, after).ports[b]);
    var other := if b == 0 then 1 else 0;
    assert net.ports[other].Ready() && Holds(net.ports[other].table, ms[b].id);
    forall i | 0 <= i < |ms| && i != b
      ensures NetRun(ms, net, after).ports[i].Ready() && Follows(ms, b, NetRun(ms, net, after).ports[i])
    {
      ListedIsFollowed(ms, b, i, net, after);
    }
  }

  // ---------------------------------------------------------------- from hearing to agreement

  /** In this step port `i` takes a turn in which it accepts an Announce of the best clock. */
  predicate Hears(ms: seq<Member>, b: nat, net: Net, s: Step, i: nat)
    requires |net.ports| == |ms| && b < |ms| && i < |ms|
  {
    && s.Take? && s.port == i && Enabled(ms, net, s)
    && s.input.announce.Some? && !s.input.announceTimeout
    && s.input.announce.value.Sender() == ms[b].id
    && s.input.announce.value.header.domainNumber == ms[i].ds.domainNumber
    && (ms[i].rt.requireUtcValid ==> IsSet(s.input.announce.value.header.flagField1, UTCV))
  }

  /** Port `i` hears the best clock at least once. */
  predicate HearsBest(ms: seq<Member>, b: nat, net: Net, steps: seq<Step>, i: nat)
    requires |net.ports| == |ms| && b < |ms| && i < |ms|
    decreases |steps|
  {
    steps != [] && (Hears(ms, b, net, steps[0], i) || HearsBest(ms, b, Next(ms, net, steps[0]), steps[1..], i))
  }

  lemma HearingStep(ms: seq<Member>, b: nat, net: Net, s: Step, i: nat)
    requires ValidMembers(ms) && IsBest(ms, b) && NetSound(ms, b, net) && i < |ms| && i != b
    requires Hears(ms, b, net, s, i)
    ensures var p := Next(ms, net, s).ports[i];
            p.Ready() && Holds(p.table, ms[b].id)
  {
    hide Sound, IsBest, Holds, ValidMembers, Turn, Quiet, IsSet, Follows;
    NetSoundShape(ms, b, net);
    TakeSound(ms, b, net, s);
    HearingIsListing(ms, b, i, net.ports[i], s.input, net.medium, s.input.announce.value);
  }

  lemma {:induction false} ListedStays(ms: seq<Member>, b: nat, i: nat, net: Net, steps: seq<Step>)
    requires ValidMembers(ms) && IsBest(ms, b) && NetSound(ms, b, net) && i < |ms| && i != b
    requires net.ports[i].Ready() && Holds(net.ports[i].table, ms[b].id)
    ensures NetRun(ms, net, steps).ports[i].Ready() && Holds(NetRun(ms, net, steps).ports[i].table, ms[b].id)
    decreases |steps|
  {
    hide NetSound, IsBest, Holds, ValidMembers, Next, Enabled, Follows;
    NetSoundShape(ms, b, net);
    if steps != [] {
      NextKeepsFollower(ms, b, i, net, steps[0]);
      NextSound(ms, b, net, steps[0]);
      ListedStays(ms, b, i, Next(ms, net, steps[0]), steps[1..]);
    }
  }

  /** A port that heard the best clock once lists it from then on, however many others it hears. */
  lemma {:induction false} HeardIsListed(ms: seq<Member>, b: nat, i: nat, net: Net, steps: seq<Step>)
    requires ValidMembers(ms) && IsBest(ms, b) && NetSound(ms, b, net) && i < |ms| && i != b
    requires HearsBest(ms, b, net, steps, i)
    ensures NetRun(ms, net, steps).ports[i].Ready() && Holds(NetRun(ms, net, steps).ports[i].table, ms[b].id)
    decreases |steps|
  {
    hide NetSound, IsBest, Holds, ValidMembers, Next, Hears;
    NetSoundShape(ms, b, net);
    NextSound(ms, b, net, steps[0]);
    if Hears(ms, b, net, steps[0], i) {
      HearingStep(ms, b, net, steps[0], i);
      ListedStays(ms, b, i, Next(ms, net, steps[0]), steps[1..]);
    } else {
      HeardIsListed(ms, b, i, Next(ms, net, steps[0]), steps[1..]);
    }
  }

  /** From cleared clocks to agreement: when every other port has accepted one Announce of the best clock at
      some time, and then has taken one more turn, the best clock is the only MASTER, for good. */
  lemma AgreementAfterHearing(ms: seq<Member>, b: nat, start: Net, before: seq<Step>, after: seq<Step>)
    requires ValidMembers(ms) && IsBest(ms, b) && NetStarts(ms, start) && |ms| >= 2
    requires forall i | 0 <= i < |ms| && i != b :: HearsBest(ms, b, start, before, i)
    ensures var net := NetRun(ms, start, before);
            (forall i | 0 <= i < |ms| && i != b :: TakesTurn(ms, net, after, i)) ==>
              var end := NetRun(ms, net, after);
              && (forall i | 0 <= i < |ms| :: end.ports[i].portState == Master <==> i == b)
              && (forall i | 0 <= i < |ms| && i != b :: end.ports[i].Ready() && Follows(ms, b, end.ports[i]))
  {
    hide Sound, Next, Holds, ValidMembers, Starting, TakesTurn, HearsBest;
    StartIsSound(ms, b, start);
    forall i | 0 <= i < |ms| && i != b
      ensures NetRun(ms, start, before).ports[i].Ready() && Holds(NetRun(ms, start, before).ports[i].table, ms[b].id)
    {
      HeardIsListed(ms, b, i, start, before);
    }
    if forall i | 0 <= i < |ms| && i != b :: TakesTurn(ms, NetRun(ms, start, before), after, i) {
      AgreementOnBest(ms, b, start, before, after);
    }
  }
}
