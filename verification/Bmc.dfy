/** Data set comparison and best record selection of section 9.3 of IEEE 1588-2008,
    as coded: a negative result means that the first record is the better one. */
module Bmc {
  import opened LexOrder
  import opened PtpTypes

  /** What the comparison reads besides the two records. */
  datatype Context = Context(
    parentClock: ClockIdentity, currentDomain: byte, configuredDomain: byte,
    anyDomain: bool, preferUtcValid: bool)

  /** A comparison result, with a second criterion to break a tie. */
  function Then(first: int, second: int): int {
    if first != 0 then first else second
  }

  function CmpPortIdentity(a: PortIdentity, b: PortIdentity): int {
    Then(LexCompare(a.clockIdentity, b.clockIdentity), Sign(a.portNumber, b.portNumber))
  }

  lemma CmpPortIdentityZero(a: PortIdentity, b: PortIdentity)
    ensures CmpPortIdentity(a, b) == 0 <==> a == b
  {
    LexAntisymmetric(a.clockIdentity, b.clockIdentity);
  }

  /** Both records name the same grandmaster: the topology decides. */
  function CompareTopology(a: ForeignMasterRecord, b: ForeignMasterRecord, ctx: Context): int {
    if a.announce.stepsRemoved > b.announce.stepsRemoved + 1 then 1
    else if a.announce.stepsRemoved + 1 < b.announce.stepsRemoved then -1
    else if a.announce.stepsRemoved > b.announce.stepsRemoved then
      LexCompare(a.header.sourcePortIdentity.clockIdentity, ctx.parentClock)
    else if a.announce.stepsRemoved < b.announce.stepsRemoved then
      LexCompare(b.header.sourcePortIdentity.clockIdentity, ctx.parentClock)
    else
      CmpPortIdentity(a.header.sourcePortIdentity, b.header.sourcePortIdentity)
  }

  /** The preferred domain wins, then the lower one. The code tests one record against the
      configured domain and the other against the current one. */
  function CompareDomains(a: byte, b: byte, ctx: Context): int {
    if a == ctx.configuredDomain && b != ctx.currentDomain then -1
    else if a != ctx.configuredDomain && b == ctx.currentDomain then 1
    else Sign(a, b)
  }

  /** The records name different grandmasters: their attributes decide. */
  function CompareGrandmasters(a: ForeignMasterRecord, b: ForeignMasterRecord, ctx: Context): int {
    var (qa, qb) := (a.announce.grandmasterClockQuality, b.announce.grandmasterClockQuality);
    var (utcA, utcB) := (Bit(IsSet(a.header.flagField1, UTCV)), Bit(IsSet(b.header.flagField1, UTCV)));
    Then(if ctx.anyDomain then CompareDomains(a.header.domainNumber, b.header.domainNumber, ctx) else 0,
    Then(Sign(a.localPreference, b.localPreference),
    Then(Sign(a.announce.grandmasterPriority1, b.announce.grandmasterPriority1),
    Then(if ctx.preferUtcValid then Sign(utcB, utcA) else 0,
    Then(Sign(qa.clockClass, qb.clockClass),
    Then(Sign(qa.clockAccuracy, qb.clockAccuracy),
    Then(Sign(qa.offsetScaledLogVariance, qb.offsetScaledLogVariance),
    Then(Sign(a.announce.grandmasterPriority2, b.announce.grandmasterPriority2),
    LexCompare(a.announce.grandmasterIdentity, b.announce.grandmasterIdentity)))))))))
  }

  /** `bmcDataSetComparison`: a disqualified record ranks before a qualified one. */
  function DataSetComparison(a: ForeignMasterRecord, b: ForeignMasterRecord, ctx: Context): int {
    if a.disqualified && !b.disqualified then -1
    else if !a.disqualified && b.disqualified then 1
    else if a.announce.grandmasterIdentity == b.announce.grandmasterIdentity then
      CompareTopology(a, b, ctx)
    else
      CompareGrandmasters(a, b, ctx)
  }

  // ---------------------------------------------------------------- antisymmetry

  /** Same grandmaster, exactly one step apart, and the farther sender is not the parent clock:
      the code then compares the same two identities whichever record comes first. */
  predicate StepsClash(a: ForeignMasterRecord, b: ForeignMasterRecord, ctx: Context) {
    && a.announce.grandmasterIdentity == b.announce.grandmasterIdentity
    && (|| (a.announce.stepsRemoved == b.announce.stepsRemoved + 1 &&
            a.header.sourcePortIdentity.clockIdentity != ctx.parentClock)
        || (b.announce.stepsRemoved == a.announce.stepsRemoved + 1 &&
            b.header.sourcePortIdentity.clockIdentity != ctx.parentClock))
  }

  /** Different grandmasters while the configured and the current domain differ, and the two
      domain tests of the code answer for the same side twice. */
  predicate DomainsClash(a: ForeignMasterRecord, b: ForeignMasterRecord, ctx: Context) {
    var special := {ctx.configuredDomain, ctx.currentDomain};
    var (x, y) := (a.header.domainNumber, b.header.domainNumber);
    && ctx.anyDomain
    && a.announce.grandmasterIdentity != b.announce.grandmasterIdentity
    && ctx.configuredDomain != ctx.currentDomain
    && (|| (x == y && x in special)
        || (x in special && y !in special && y < x)
        || (y in special && x !in special && x < y))
  }

  lemma DomainsAntisymmetricIff(a: ForeignMasterRecord, b: ForeignMasterRecord, ctx: Context)
    requires ctx.anyDomain && a.announce.grandmasterIdentity != b.announce.grandmasterIdentity
    ensures CompareDomains(a.header.domainNumber, b.header.domainNumber, ctx) ==
            -CompareDomains(b.header.domainNumber, a.header.domainNumber, ctx)
            <==> !DomainsClash(a, b, ctx)
  {
  }

  lemma TopologyAntisymmetricIff(a: ForeignMasterRecord, b: ForeignMasterRecord, ctx: Context)
    requires a.announce.grandmasterIdentity == b.announce.grandmasterIdentity
    ensures CompareTopology(a, b, ctx) == -CompareTopology(b, a, ctx) <==> !StepsClash(a, b, ctx)
  {
    hide LexCompare;
    var (srcA, srcB) := (a.header.sourcePortIdentity.clockIdentity, b.header.sourcePortIdentity.clockIdentity);
    LexAntisymmetric(srcA, srcB);
    LexAntisymmetric(srcA, ctx.parentClock);
    LexAntisymmetric(srcB, ctx.parentClock);
  }

  lemma GrandmastersAntisymmetricIff(a: ForeignMasterRecord, b: ForeignMasterRecord, ctx: Context)
    requires a.announce.grandmasterIdentity != b.announce.grandmasterIdentity
    ensures CompareGrandmasters(a, b, ctx) == -CompareGrandmasters(b, a, ctx) <==> !DomainsClash(a, b, ctx)
  {
    hide LexCompare, CompareDomains, IsSet;
    LexAntisymmetric(a.announce.grandmasterIdentity, b.announce.grandmasterIdentity);
    if ctx.anyDomain {
      DomainsAntisymmetricIff(a, b, ctx);
      DomainsUndecided(a.header.domainNumber, b.header.domainNumber, ctx);
      DomainsUndecided(b.header.domainNumber, a.header.domainNumber, ctx);
    }
  }

  lemma DomainsUndecided(x: byte, y: byte, ctx: Context)
    ensures CompareDomains(x, y, ctx) == 0 ==> x == y && CompareDomains(y, x, ctx) == 0
  {
  }

  /** Exactly when swapping the records flips the verdict. */
  lemma AntisymmetricIff(a: ForeignMasterRecord, b: ForeignMasterRecord, ctx: Context)
    ensures DataSetComparison(a, b, ctx) == -DataSetComparison(b, a, ctx) <==>
            a.disqualified != b.disqualified || (!StepsClash(a, b, ctx) && !DomainsClash(a, b, ctx))
  {
    hide CompareTopology, CompareGrandmasters;
    if a.announce.grandmasterIdentity == b.announce.grandmasterIdentity {
      TopologyAntisymmetricIff(a, b, ctx);
    } else {
      GrandmastersAntisymmetricIff(a, b, ctx);
    }
  }

  // ---------------------------------------------------------------- one explicit key

  /** Domains are not compared, or the configured one is the current one, so that the comparison cannot clash. */
  predicate OneDomain(ctx: Context) {
    ctx.anyDomain ==> ctx.configuredDomain == ctx.currentDomain
  }

  /** Everything that ranks one grandmaster against another: the preferred domain and then the lower one, if
      domains are compared, and the attributes. */
  function AttributeKey(r: ForeignMasterRecord, ctx: Context): (k: seq<int>)
    ensures |k| == 9
  {
    [if ctx.anyDomain && r.header.domainNumber != ctx.configuredDomain then 1 else 0,
     if ctx.anyDomain then r.header.domainNumber else 0,
     r.localPreference, r.announce.grandmasterPriority1,
     if ctx.preferUtcValid && !IsSet(r.header.flagField1, UTCV) then 1 else 0,
     r.announce.grandmasterClockQuality.clockClass,
     r.announce.grandmasterClockQuality.clockAccuracy,
     r.announce.grandmasterClockQuality.offsetScaledLogVariance,
     r.announce.grandmasterPriority2]
  }

  function TopologyKey(r: ForeignMasterRecord): (k: seq<int>)
    ensures |k| == 10
  {
    [r.announce.stepsRemoved] + r.header.sourcePortIdentity.clockIdentity + [r.header.sourcePortIdentity.portNumber]
  }

  function GrandmasterKey(r: ForeignMasterRecord, ctx: Context): (k: seq<int>)
    ensures |k| == 17
  {
    AttributeKey(r, ctx) + r.announce.grandmasterIdentity
  }

  /** The whole rank of a record. */
  function Key(r: ForeignMasterRecord, ctx: Context): (k: seq<int>)
    ensures |k| == 28
  {
    [if r.disqualified then 0 else 1] + (GrandmasterKey(r, ctx) + TopologyKey(r))
  }

  /** Two records of one grandmaster that agree on what they say of it and are not one step apart. */
  predicate Comparable(a: ForeignMasterRecord, b: ForeignMasterRecord, ctx: Context) {
    a.announce.grandmasterIdentity == b.announce.grandmasterIdentity ==>
      && AttributeKey(a, ctx) == AttributeKey(b, ctx)
      && a.announce.stepsRemoved != b.announce.stepsRemoved + 1
      && b.announce.stepsRemoved != a.announce.stepsRemoved + 1
  }

  lemma LexNine(a: seq<int>, b: seq<int>)
    requires |a| == |b| == 9
    ensures LexCompare(a, b) ==
            Then(Sign(a[0], b[0]), Then(Sign(a[1], b[1]), Then(Sign(a[2], b[2]), Then(Sign(a[3], b[3]),
            Then(Sign(a[4], b[4]), Then(Sign(a[5], b[5]), Then(Sign(a[6], b[6]), Then(Sign(a[7], b[7]),
            Sign(a[8], b[8])))))))))
  {
    forall i | 0 <= i < 9
      ensures LexCompare(a[i..], b[i..]) == Then(Sign(a[i], b[i]), LexCompare(a[i + 1..], b[i + 1..]))
    {
      assert a[i..][1..] == a[i + 1..] && b[i..][1..] == b[i + 1..];
    }
    assert a[0..] == a && b[0..] == b;
    assert a[9..] == b[9..] == [];
  }

  lemma GrandmastersFollowKey(a: ForeignMasterRecord, b: ForeignMasterRecord, ctx: Context)
    requires OneDomain(ctx)
    ensures CompareGrandmasters(a, b, ctx) == LexCompare(GrandmasterKey(a, ctx), GrandmasterKey(b, ctx))
  {
    LexNine(AttributeKey(a, ctx), AttributeKey(b, ctx));
    LexConcat(AttributeKey(a, ctx), AttributeKey(b, ctx),
              a.announce.grandmasterIdentity, b.announce.grandmasterIdentity);
  }

  lemma TopologyFollowsKey(a: ForeignMasterRecord, b: ForeignMasterRecord, ctx: Context)
    requires a.announce.stepsRemoved != b.announce.stepsRemoved + 1
    requires b.announce.stepsRemoved != a.announce.stepsRemoved + 1
    ensures CompareTopology(a, b, ctx) == LexCompare(TopologyKey(a), TopologyKey(b))
  {
    var (pa, pb) := (a.header.sourcePortIdentity, b.header.sourcePortIdentity);
    var (na, nb) := ([pa.portNumber], [pb.portNumber]);
    LexConcat([a.announce.stepsRemoved] + pa.clockIdentity, [b.announce.stepsRemoved] + pb.clockIdentity, na, nb);
    LexConcat([a.announce.stepsRemoved], [b.announce.stepsRemoved], pa.clockIdentity, pb.clockIdentity);
    assert na[1..] == nb[1..] == [] && LexCompare(na, nb) == Sign(na[0], nb[0]);
    var (sa, sb) := ([a.announce.stepsRemoved], [b.announce.stepsRemoved]);
    assert sa[1..] == sb[1..] == [] && LexCompare(sa, sb) == Sign(sa[0], sb[0]);
  }

  /** On comparable records the branching comparison is the lexicographic order on one key,
      hence antisymmetric, transitive and total by `LexAntisymmetric` and `LexTransitive`. */
  lemma ComparisonFollowsKey(a: ForeignMasterRecord, b: ForeignMasterRecord, ctx: Context)
    requires OneDomain(ctx) && Comparable(a, b, ctx)
    ensures DataSetComparison(a, b, ctx) == LexCompare(Key(a, ctx), Key(b, ctx))
  {
    var (da, db) := ([if a.disqualified then 0 else 1], [if b.disqualified then 0 else 1]);
    assert da[1..] == db[1..] == [] && LexCompare(da, db) == Sign(da[0], db[0]);
    var (ga, gb) := (GrandmasterKey(a, ctx), GrandmasterKey(b, ctx));
    LexConcat(da, db, ga + TopologyKey(a), gb + TopologyKey(b));
    LexConcat(ga, gb, TopologyKey(a), TopologyKey(b));
    LexAntisymmetric(ga, gb);
    LexAntisymmetric(a.announce.grandmasterIdentity, b.announce.grandmasterIdentity);
    GrandmastersFollowKey(a, b, ctx);
    assert ga[9..] == a.announce.grandmasterIdentity && gb[9..] == b.announce.grandmasterIdentity;
    if a.announce.grandmasterIdentity == b.announce.grandmasterIdentity {
      TopologyFollowsKey(a, b, ctx);
      assert ga == gb;
    }
  }

  /** So on comparable records the comparison is a total order up to equal keys. */
  lemma ComparisonIsAnOrder(a: ForeignMasterRecord, b: ForeignMasterRecord, c: ForeignMasterRecord, ctx: Context)
    requires OneDomain(ctx) && Comparable(a, b, ctx) && Comparable(b, c, ctx) && Comparable(a, c, ctx)
    ensures DataSetComparison(a, b, ctx) == -DataSetComparison(b, a, ctx)
    ensures DataSetComparison(a, b, ctx) == 0 <==> Key(a, ctx) == Key(b, ctx)
    ensures DataSetComparison(a, b, ctx) <= 0 && DataSetComparison(b, c, ctx) <= 0 ==> DataSetComparison(a, c, ctx) <= 0
    ensures DataSetComparison(a, b, ctx) < 0 && DataSetComparison(b, c, ctx) <= 0 ==> DataSetComparison(a, c, ctx) < 0
  {
    hide DataSetComparison, Key, LexCompare, AttributeKey;
    ComparisonFollowsKey(a, b, ctx);
    ComparisonFollowsKey(b, a, ctx);
    ComparisonFollowsKey(b, c, ctx);
    ComparisonFollowsKey(a, c, ctx);
    LexAntisymmetric(Key(a, ctx), Key(b, ctx));
    if LexCompare(Key(a, ctx), Key(b, ctx)) <= 0 && LexCompare(Key(b, ctx), Key(c, ctx)) <= 0 {
      LexTransitive(Key(a, ctx), Key(b, ctx), Key(c, ctx));
    }
  }

  lemma KeyNamesPort(a: ForeignMasterRecord, b: ForeignMasterRecord, ctx: Context)
    requires Key(a, ctx) == Key(b, ctx)
    ensures a.header.sourcePortIdentity == b.header.sourcePortIdentity
  {
    assert Key(a, ctx)[19..27] == a.header.sourcePortIdentity.clockIdentity;
    assert Key(b, ctx)[19..27] == b.header.sourcePortIdentity.clockIdentity;
    assert Key(a, ctx)[27] == a.header.sourcePortIdentity.portNumber;
    assert Key(b, ctx)[27] == b.header.sourcePortIdentity.portNumber;
  }

  // ---------------------------------------------------------------- the scan

  /** The index that the scan of `bmc` holds after looking at the first `k` records. */
  function ScanBest(records: seq<ForeignMasterRecord>, k: nat, ctx: Context): (best: nat)
    requires k <= |records|
    ensures k > 0 ==> best < k
    ensures k == 0 ==> best == 0
  {
    if k <= 1 then 0
    else
      var best := ScanBest(records, k - 1, ctx);
      if DataSetComparison(records[k - 1], records[best], ctx) < 0 then k - 1 else best
  }

  predicate PairwiseComparable(records: seq<ForeignMasterRecord>, k: nat, ctx: Context)
    requires k <= |records|
  {
    forall i, j | 0 <= i < k && 0 <= j < k :: Comparable(records[i], records[j], ctx)
  }

  predicate DistinctSenders(records: seq<ForeignMasterRecord>, k: nat)
    requires k <= |records|
  {
    forall i, j | 0 <= i < j < k ::
      records[i].header.sourcePortIdentity != records[j].header.sourcePortIdentity
  }

  /** The scan ends on the first record with the least key. */
  lemma {:induction false} ScanFindsMinimum(records: seq<ForeignMasterRecord>, k: nat, ctx: Context)
    requires 0 < k <= |records|
    requires OneDomain(ctx) && PairwiseComparable(records, k, ctx)
    ensures forall j | 0 <= j < k ::
              LexCompare(Key(records[ScanBest(records, k, ctx)], ctx), Key(records[j], ctx)) <= 0
    ensures forall j | 0 <= j < ScanBest(records, k, ctx) ::
              LexCompare(Key(records[ScanBest(records, k, ctx)], ctx), Key(records[j], ctx)) < 0
  {
    hide DataSetComparison, Key, Comparable, LexCompare;
    var best := ScanBest(records, k, ctx);
    if k == 1 {
      LexAntisymmetric(Key(records[0], ctx), Key(records[0], ctx));
    } else {
      ScanFindsMinimum(records, k - 1, ctx);
      var before := ScanBest(records, k - 1, ctx);
      var (kBest, kBefore, kNew) := (Key(records[best], ctx), Key(records[before], ctx), Key(records[k - 1], ctx));
      ComparisonFollowsKey(records[k - 1], records[before], ctx);
      LexAntisymmetric(kNew, kBefore);
      LexAntisymmetric(kNew, kNew);
      forall j | 0 <= j < k - 1
        ensures LexCompare(kBest, Key(records[j], ctx)) <= 0
        ensures best == k - 1 ==> LexCompare(kBest, Key(records[j], ctx)) < 0
      {
        if best == k - 1 {
          LexTransitive(kNew, kBefore, Key(records[j], ctx));
        }
      }
    }
  }

  lemma ComparableEverywhere(a: seq<ForeignMasterRecord>, b: seq<ForeignMasterRecord>, ctx: Context)
    requires PairwiseComparable(a, |a|, ctx) && forall j | 0 <= j < |b| :: b[j] in a
    ensures PairwiseComparable(b, |b|, ctx)
  {
    hide Comparable;
    forall i, j | 0 <= i < |b| && 0 <= j < |b| ensures Comparable(b[i], b[j], ctx) {
      assert b[i] in a && b[j] in a;
    }
  }

  lemma ChosenIsLeast(a: seq<ForeignMasterRecord>, r: ForeignMasterRecord, ctx: Context)
    requires r in a && OneDomain(ctx) && PairwiseComparable(a, |a|, ctx)
    ensures LexCompare(Key(a[ScanBest(a, |a|, ctx)], ctx), Key(r, ctx)) <= 0
  {
    hide Key, Comparable, LexCompare, ScanBest;
    ScanFindsMinimum(a, |a|, ctx);
  }

  lemma MutuallyLeast(ra: ForeignMasterRecord, rb: ForeignMasterRecord, ctx: Context)
    requires LexCompare(Key(ra, ctx), Key(rb, ctx)) <= 0 && LexCompare(Key(rb, ctx), Key(ra, ctx)) <= 0
    ensures ra.header.sourcePortIdentity == rb.header.sourcePortIdentity
  {
    hide Key, LexCompare;
    LexAntisymmetric(Key(ra, ctx), Key(rb, ctx));
    KeyNamesPort(ra, rb, ctx);
  }

  /** The chosen record does not depend on where the records are stored. */
  lemma ScanIgnoresOrder(a: seq<ForeignMasterRecord>, b: seq<ForeignMasterRecord>, ctx: Context)
    requires a != [] && b != []
    requires (forall j | 0 <= j < |b| :: b[j] in a) && (forall i | 0 <= i < |a| :: a[i] in b)
    requires OneDomain(ctx)
    requires PairwiseComparable(a, |a|, ctx) && DistinctSenders(a, |a|)
    ensures a[ScanBest(a, |a|, ctx)] == b[ScanBest(b, |b|, ctx)]
  {
    hide Key, Comparable, LexCompare, ScanBest;
    ComparableEverywhere(a, b, ctx);
    var i := ScanBest(a, |a|, ctx);
    var rb := b[ScanBest(b, |b|, ctx)];
    ChosenIsLeast(a, rb, ctx);
    ChosenIsLeast(b, a[i], ctx);
    MutuallyLeast(a[i], rb, ctx);
    var k :| 0 <= k < |a| && a[k] == rb;
    assert i == k;
  }

  /** Among qualified records a single disqualified one is always chosen: a master that stopped
      announcing keeps its place for as long as it stays in the table. */
  lemma {:induction false} DisqualifiedIsChosen(records: seq<ForeignMasterRecord>, k: nat, dead: nat, ctx: Context)
    requires dead < k <= |records|
    requires forall j | 0 <= j < k :: records[j].disqualified <==> j == dead
    ensures ScanBest(records, k, ctx) == dead
  {
    if dead < k - 1 {
      DisqualifiedIsChosen(records, k - 1, dead, ctx);
    }
  }

  // ---------------------------------------------------------------- where no order exists

  function SampleRecord(grandmaster: byte, priority1: byte, steps: uint16, sender: byte): ForeignMasterRecord {
    var source := PortIdentity([0, 0, 0, 0, 0, 0, 0, sender], 1);
    ForeignMasterRecord(source, 0,
      MsgAnnounce(Timestamp(0, 0, 0), 0, priority1, ClockQuality(248, 254, 65535), 128,
                  [0, 0, 0, 0, 0, 0, 0, grandmaster], steps, 160),
      MsgHeader(0, 11, 2, 64, 0, 0, 0, Integer64(0, 0), source, 0, 5, 1),
      LOWEST_LOCALPREFERENCE, 0, false)
  }

  /** Two senders that disagree on their common grandmaster, and a third clock ranked between
      the two: each of the three beats the next one. */
  lemma ComparisonCanCycle(ctx: Context)
    requires OneDomain(ctx)
    ensures var (a, b, c) := (SampleRecord(9, 100, 3, 1), SampleRecord(8, 150, 0, 2), SampleRecord(9, 200, 0, 3));
            && DataSetComparison(a, b, ctx) < 0
            && DataSetComparison(b, c, ctx) < 0
            && DataSetComparison(c, a, ctx) < 0
  {
    var (a, b, c) := (SampleRecord(9, 100, 3, 1), SampleRecord(8, 150, 0, 2), SampleRecord(9, 200, 0, 3));
    assert a.announce.grandmasterIdentity[7] != b.announce.grandmasterIdentity[7];
    assert c.announce.grandmasterIdentity[7] != b.announce.grandmasterIdentity[7];
  }

  // ---------------------------------------------------------------- when a cycle closes

  /** Nothing ranks after the greatest identity, and nothing before the least one. */
  lemma {:induction false} LexExtremes(id: seq<byte>, high: seq<byte>, low: seq<byte>)
    requires |id| == |high| == |low| && forall i | 0 <= i < |id| :: high[i] == 255 && low[i] == 0
    ensures LexCompare(id, high) <= 0 && LexCompare(low, id) <= 0
  {
    if id != [] {
      LexExtremes(id[1..], high[1..], low[1..]);
    }
  }

  /** A record with the attributes of another one, for a given grandmaster. */
  function WithGrandmaster(r: ForeignMasterRecord, id: ClockIdentity): ForeignMasterRecord {
    r.(announce := r.announce.(grandmasterIdentity := id))
  }

  /** A record of another grandmaster whose attributes rank it between the two. */
  predicate Between(a: ForeignMasterRecord, b: ForeignMasterRecord, c: ForeignMasterRecord, ctx: Context) {
    && b.announce.grandmasterIdentity != a.announce.grandmasterIdentity
    && DataSetComparison(a, b, ctx) < 0 && DataSetComparison(b, c, ctx) < 0
  }

  lemma AcrossGrandmasters(a: ForeignMasterRecord, b: ForeignMasterRecord, ctx: Context)
    requires OneDomain(ctx) && a.disqualified == b.disqualified
    requires a.announce.grandmasterIdentity != b.announce.grandmasterIdentity
    ensures DataSetComparison(a, b, ctx) ==
            if AttributeKey(a, ctx) != AttributeKey(b, ctx) then LexCompare(AttributeKey(a, ctx), AttributeKey(b, ctx))
            else LexCompare(a.announce.grandmasterIdentity, b.announce.grandmasterIdentity)
  {
    hide CompareGrandmasters, LexCompare, AttributeKey;
    GrandmastersFollowKey(a, b, ctx);
    LexConcat(AttributeKey(a, ctx), AttributeKey(b, ctx),
              a.announce.grandmasterIdentity, b.announce.grandmasterIdentity);
    LexAntisymmetric(AttributeKey(a, ctx), AttributeKey(b, ctx));
  }

  lemma BetweenOrders(a: ForeignMasterRecord, b: ForeignMasterRecord, c: ForeignMasterRecord, ctx: Context)
    requires OneDomain(ctx) && a.disqualified == b.disqualified == c.disqualified
    requires a.announce.grandmasterIdentity == c.announce.grandmasterIdentity && Between(a, b, c, ctx)
    ensures LexCompare(AttributeKey(a, ctx), AttributeKey(c, ctx)) < 0
  {
    hide DataSetComparison, LexCompare, AttributeKey;
    AcrossGrandmasters(a, b, ctx);
    AcrossGrandmasters(b, c, ctx);
    LexAntisymmetric(AttributeKey(a, ctx), AttributeKey(b, ctx));
    LexAntisymmetric(AttributeKey(b, ctx), AttributeKey(c, ctx));
    LexAntisymmetric(a.announce.grandmasterIdentity, b.announce.grandmasterIdentity);
    LexTransitive(AttributeKey(a, ctx), AttributeKey(b, ctx), AttributeKey(c, ctx));
  }

  /** The attributes of the better record with the greatest identity, or those of the worse one with
      the least. */
  function Separator(a: ForeignMasterRecord, c: ForeignMasterRecord): ForeignMasterRecord {
    if a.announce.grandmasterIdentity != ALL_ONES_IDENTITY then WithGrandmaster(a, ALL_ONES_IDENTITY)
    else WithGrandmaster(c, ZERO_IDENTITY)
  }

  lemma SeparatorIsBetween(a: ForeignMasterRecord, c: ForeignMasterRecord, ctx: Context)
    requires OneDomain(ctx) && a.disqualified == c.disqualified
    requires a.announce.grandmasterIdentity == c.announce.grandmasterIdentity
    requires LexCompare(AttributeKey(a, ctx), AttributeKey(c, ctx)) < 0
    ensures Between(a, Separator(a, c), c, ctx)
  {
    hide DataSetComparison, LexCompare;
    var b := Separator(a, c);
    var id := a.announce.grandmasterIdentity;
    LexExtremes(id, ALL_ONES_IDENTITY, ZERO_IDENTITY);
    LexAntisymmetric(id, ALL_ONES_IDENTITY);
    LexAntisymmetric(ZERO_IDENTITY, id);
    LexAntisymmetric(AttributeKey(a, ctx), AttributeKey(c, ctx));
    assert ZERO_IDENTITY[0] != ALL_ONES_IDENTITY[0];
    AcrossGrandmasters(a, b, ctx);
    AcrossGrandmasters(b, c, ctx);
  }

  lemma DisqualifiedDoNotCycle(a: ForeignMasterRecord, b: ForeignMasterRecord, c: ForeignMasterRecord, ctx: Context)
    requires DataSetComparison(a, b, ctx) < 0 && DataSetComparison(b, c, ctx) < 0 && DataSetComparison(c, a, ctx) < 0
    ensures a.disqualified == b.disqualified == c.disqualified
  {
    hide CompareTopology, CompareGrandmasters;
  }

  /** For two records of one grandmaster some third one of another makes the comparison go round in a
      circle exactly when the one that ranks first, by steps or by identity, announces worse attributes of
      their grandmaster, and they do not differ in being disqualified. */
  lemma CycleClosesIff(a: ForeignMasterRecord, c: ForeignMasterRecord, ctx: Context)
    requires OneDomain(ctx) && a.announce.grandmasterIdentity == c.announce.grandmasterIdentity
    ensures (exists b: ForeignMasterRecord :: Between(a, b, c, ctx) && DataSetComparison(c, a, ctx) < 0)
            <==> (&& a.disqualified == c.disqualified
                  && CompareTopology(c, a, ctx) < 0
                  && LexCompare(AttributeKey(a, ctx), AttributeKey(c, ctx)) < 0)
  {
    hide LexCompare, AttributeKey, CompareTopology, CompareGrandmasters;
    if b: ForeignMasterRecord :| Between(a, b, c, ctx) && DataSetComparison(c, a, ctx) < 0 {
      DisqualifiedDoNotCycle(a, b, c, ctx);
      BetweenOrders(a, b, c, ctx);
    }
    if a.disqualified == c.disqualified && LexCompare(AttributeKey(a, ctx), AttributeKey(c, ctx)) < 0 {
      SeparatorIsBetween(a, c, ctx);
    }
  }
}
