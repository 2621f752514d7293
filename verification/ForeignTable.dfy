/** The foreign master data set: a ring of records from which the current best one is never
    evicted (`addForeign`), and the three ways in which the code empties or re-decides it. */
module ForeignTable {
  import opened PtpTypes
  import opened Bmc

  /** `number` records are in use, `next` is the slot the next new record is meant for. */
  datatype Table = Table(foreign: seq<ForeignMasterRecord>, number: nat, next: nat, best: nat) {
    predicate InBounds() {
      number <= |foreign| && next < |foreign| && best < |foreign|
    }
  }

  /** A received Announce message as `addForeign` sees it. */
  datatype Announcement = Announcement(
    header: MsgHeader, announce: MsgAnnounce, localPreference: byte, sourceAddr: uint32)
  {
    function Sender(): PortIdentity { header.sourcePortIdentity }
  }

  /** The slot of a known master: at most `fuel` slots are tried, from `j` on, around the ring. */
  function FindFrom(t: Table, id: PortIdentity, j: nat, fuel: nat): (r: Option<nat>)
    requires t.InBounds() && j < |t.foreign| && fuel <= t.number
    ensures r.Some? ==> r.value < |t.foreign| && t.foreign[r.value].foreignMasterPortIdentity == id
    decreases fuel
  {
    if fuel == 0 then None
    else if t.foreign[j].foreignMasterPortIdentity == id then Some(j)
    else FindFrom(t, id, (j + 1) % t.number, fuel - 1)
  }

  function Find(t: Table, id: PortIdentity): (r: Option<nat>)
    requires t.InBounds()
    ensures r.Some? ==> r.value < |t.foreign| && t.foreign[r.value].foreignMasterPortIdentity == id
  {
    FindFrom(t, id, t.best, t.number)
  }

  function Refreshed(record: ForeignMasterRecord, a: Announcement): ForeignMasterRecord {
    record.(foreignMasterAnnounceMessages := (record.foreignMasterAnnounceMessages + 1) % 0x1_0000,
         header := a.header, announce := a.announce,
         localPreference := a.localPreference, disqualified := false)
  }

  function NewRecord(a: Announcement): ForeignMasterRecord {
    ForeignMasterRecord(a.Sender(), 0, a.announce, a.header, a.localPreference, a.sourceAddr, false)
  }

  function NumberAfterInsert(t: Table): nat {
    if t.number < |t.foreign| then t.number + 1 else t.number
  }

  /** The slot a new record goes to: the next one, unless that holds the best record. */
  function InsertSlot(t: Table): (slot: nat)
    requires t.InBounds()
    ensures slot < |t.foreign|
  {
    if t.next == t.best then (t.next + 1) % NumberAfterInsert(t) else t.next
  }

  function AddForeign(t: Table, a: Announcement): (t': Table)
    requires t.InBounds()
    ensures t'.InBounds() && |t'.foreign| == |t.foreign| && t'.best == t.best
  {
    match Find(t, a.Sender())
    case Some(j) => t.(foreign := t.foreign[j := Refreshed(t.foreign[j], a)])
    case None =>
      var slot := InsertSlot(t);
      Table(t.foreign[slot := NewRecord(a)], NumberAfterInsert(t), (slot + 1) % |t.foreign|, t.best)
  }

  /** The decision that follows an insertion chooses the best record anew. */
  function Decide(t: Table, ctx: Context): (t': Table)
    requires t.InBounds() && t.number > 0
    ensures t'.InBounds()
  {
    t.(best := ScanBest(t.foreign, t.number, ctx))
  }

  /** The paired reset after an announce timeout; the best index is left alone. */
  function Reset(t: Table): Table {
    t.(number := 0, next := 0)
  }

  // ---------------------------------------------------------------- what every run keeps

  predicate DistinctIdentities(t: Table)
    requires t.InBounds()
  {
    forall i, j | 0 <= i < j < t.number ::
      t.foreign[i].foreignMasterPortIdentity != t.foreign[j].foreignMasterPortIdentity
  }

  /** A ring of at least two slots, filled from the front, with a best index inside the used part
      and no master listed twice. */
  predicate WellFormed(t: Table) {
    && |t.foreign| >= 2
    && t.InBounds()
    && (t.number > 0 ==> t.best < t.number)
    && (t.number < |t.foreign| ==> t.next == t.number)
    && DistinctIdentities(t)
  }

  /** The same, but for the best index of a table that a decision is still pending on. */
  predicate Usable(t: Table) {
    && |t.foreign| >= 2 && t.InBounds() && DistinctIdentities(t)
    && (t.number < |t.foreign| ==> t.next == t.number)
  }

  predicate Holds(t: Table, id: PortIdentity)
    requires t.InBounds()
  {
    exists k :: 0 <= k < t.number && t.foreign[k].foreignMasterPortIdentity == id
  }

  /** Position `k` of a walk that goes round the used slots once. */
  function RingSlot(t: Table, k: nat): int {
    if k < t.number then k else k - t.number
  }

  lemma {:induction false} FindFromScansRing(t: Table, id: PortIdentity, j: nat, fuel: nat)
    requires t.InBounds() && j < t.number && fuel <= t.number
    ensures FindFrom(t, id, j, fuel).Some? ==> FindFrom(t, id, j, fuel).value < t.number
    ensures FindFrom(t, id, j, fuel).None? ==>
              forall k | j <= k < j + fuel :: t.foreign[RingSlot(t, k)].foreignMasterPortIdentity != id
    decreases fuel
  {
    if fuel > 0 && t.foreign[j].foreignMasterPortIdentity != id {
      WrapAround(j + 1, t.number);
      var j' := if j + 1 < t.number then j + 1 else 0;
      FindFromScansRing(t, id, j', fuel - 1);
      if FindFrom(t, id, j', fuel - 1).None? {
        forall k | j <= k < j + fuel ensures t.foreign[RingSlot(t, k)].foreignMasterPortIdentity != id {
          if k > j {
            var k' := if j + 1 < t.number then k else k - t.number;
            assert RingSlot(t, k) == RingSlot(t, k');
          }
        }
      }
    }
  }

  /** The circular search finds a master exactly when some used slot holds it. */
  lemma FindIsMembership(t: Table, id: PortIdentity)
    requires t.InBounds() && (t.number > 0 ==> t.best < t.number)
    ensures Find(t, id).Some? <==> Holds(t, id)
    ensures Find(t, id).Some? ==> Find(t, id).value < t.number
  {
    if t.number > 0 {
      FindFromScansRing(t, id, t.best, t.number);
      if Find(t, id).None? {
        forall k | 0 <= k < t.number ensures t.foreign[k].foreignMasterPortIdentity != id {
          assert k == RingSlot(t, if k < t.best then k + t.number else k);
        }
      }
    }
  }

  /** Where a new record goes, without the modulo operations. */
  lemma InsertSlotFacts(t: Table)
    requires WellFormed(t)
    ensures InsertSlot(t) ==
            if t.number == 0 then 0
            else if t.number < |t.foreign| then t.number
            else if t.next != t.best then t.next
            else if t.best + 1 < |t.foreign| then t.best + 1 else 0
    ensures (InsertSlot(t) + 1) % |t.foreign| == if InsertSlot(t) + 1 < |t.foreign| then InsertSlot(t) + 1 else 0
    ensures t.number > 0 ==> InsertSlot(t) != t.best
  {
    WrapAround(InsertSlot(t) + 1, |t.foreign|);
    if t.next == t.best {
      WrapAround(t.next + 1, NumberAfterInsert(t));
    }
  }

  lemma WrapAround(x: nat, n: nat)
    requires 0 < n && x <= n
    ensures x % n == if x < n then x else 0
  {
  }

  /** What an insertion does, in terms of masters rather than slots: the sender is listed, nobody
      else is added, a table with room loses nobody, and the best record stays in its slot. */
  lemma AddForeignEffect(t: Table, a: Announcement)
    requires WellFormed(t)
    ensures var t' := AddForeign(t, a);
            && Holds(t', a.Sender())
            && (forall id | Holds(t', id) :: id == a.Sender() || Holds(t, id))
            && (t.number < |t.foreign| || Holds(t, a.Sender()) ==>
                  forall id | Holds(t, id) :: Holds(t', id))
            && t'.number <= |t.foreign|
            && (t.number > 0 && t.foreign[t.best].foreignMasterPortIdentity != a.Sender() ==>
                  t'.foreign[t.best] == t.foreign[t.best])
            && (t.number > 0 ==>
                  t'.foreign[t.best].foreignMasterPortIdentity == t.foreign[t.best].foreignMasterPortIdentity)
  {
    hide FindFrom;
    FindIsMembership(t, a.Sender());
    InsertSlotFacts(t);
    var t' := AddForeign(t, a);
    hide AddForeign, InsertSlot, Refreshed, NewRecord;
    var slot := if Find(t, a.Sender()).Some? then Find(t, a.Sender()).value else InsertSlot(t);
    assert slot < t'.number && t'.foreign[slot].foreignMasterPortIdentity == a.Sender();
    forall id | Holds(t', id) && id != a.Sender() ensures Holds(t, id) {
      var k :| 0 <= k < t'.number && t'.foreign[k].foreignMasterPortIdentity == id;
      assert k < t.number;
    }
    if t.number < |t.foreign| || Holds(t, a.Sender()) {
      forall id | Holds(t, id) ensures Holds(t', id) {
        var k :| 0 <= k < t.number && t.foreign[k].foreignMasterPortIdentity == id;
        assert t'.foreign[k].foreignMasterPortIdentity == id;
      }
    }
  }

  /** What an insertion writes: the one used slot of the sender says what this Announce says, counts it if the
      sender was known, and keeps the address it was first heard from; no other slot changes. */
  lemma AddForeignStores(t: Table, a: Announcement)
    requires WellFormed(t)
    ensures var t' := AddForeign(t, a);
            forall k | 0 <= k < t'.number && t'.foreign[k].foreignMasterPortIdentity == a.Sender() ::
              var (r, known) := (t'.foreign[k], Holds(t, a.Sender()));
              && r.header == a.header && r.announce == a.announce && r.localPreference == a.localPreference
              && !r.disqualified
              && r.sourceAddr == (if known then t.foreign[k].sourceAddr else a.sourceAddr)
              && r.foreignMasterAnnounceMessages ==
                 (if known then (t.foreign[k].foreignMasterAnnounceMessages + 1) % 0x1_0000 else 0)
    ensures var t' := AddForeign(t, a);
            forall k | 0 <= k < |t.foreign| && t'.foreign[k] != t.foreign[k] ::
              k < t'.number && t'.foreign[k].foreignMasterPortIdentity == a.Sender()
  {
    hide FindFrom;
    FindIsMembership(t, a.Sender());
    InsertSlotFacts(t);
  }

  /** An insertion keeps the table well formed, up to the best index of a table that was empty. */
  lemma AddForeignShape(t: Table, a: Announcement)
    requires WellFormed(t)
    ensures var t' := AddForeign(t, a);
            && t'.number > 0 && DistinctIdentities(t')
            && (t'.number < |t'.foreign| ==> t'.next == t'.number)
            && (t.number > 0 ==> WellFormed(t'))
  {
    FindIsMembership(t, a.Sender());
    InsertSlotFacts(t);
    var t' := AddForeign(t, a);
    forall i, j | 0 <= i < j < t'.number
      ensures t'.foreign[i].foreignMasterPortIdentity != t'.foreign[j].foreignMasterPortIdentity
    {
      if Find(t, a.Sender()).None? {
        assert i != InsertSlot(t) ==> i < t.number && t.foreign[i].foreignMasterPortIdentity != a.Sender();
        assert j != InsertSlot(t) ==> j < t.number && t.foreign[j].foreignMasterPortIdentity != a.Sender();
      }
    }
  }

  /** An insertion followed by its decision keeps the table well formed. */
  lemma InsertKeepsWellFormed(t: Table, a: Announcement, ctx: Context)
    requires WellFormed(t)
    ensures AddForeign(t, a).number > 0 && WellFormed(Decide(AddForeign(t, a), ctx))
  {
    AddForeignShape(t, a);
  }

  datatype Event = Insert(a: Announcement, ctx: Context) | TimedOut

  function Step(t: Table, e: Event): Table
    requires t.InBounds()
  {
    match e
    case Insert(a, ctx) =>
      var t' := AddForeign(t, a);
      if t'.number > 0 then Decide(t', ctx) else t'
    case TimedOut => Reset(t)
  }

  function Run(t: Table, events: seq<Event>): Table
    requires WellFormed(t)
    decreases |events|
  {
    if events == [] then t
    else
      StepKeepsWellFormed(t, events[0]);
      Run(Step(t, events[0]), events[1..])
  }

  lemma StepKeepsWellFormed(t: Table, e: Event)
    requires WellFormed(t)
    ensures WellFormed(Step(t, e)) && |Step(t, e).foreign| == |t.foreign|
  {
    if e.Insert? {
      InsertKeepsWellFormed(t, e.a, e.ctx);
    }
  }

  /** After every run of insertions, decisions and paired resets. */
  lemma {:induction false} RunKeepsWellFormed(t: Table, events: seq<Event>)
    requires WellFormed(t)
    ensures WellFormed(Run(t, events)) && |Run(t, events).foreign| == |t.foreign|
    decreases |events|
  {
    if events != [] {
      StepKeepsWellFormed(t, events[0]);
      RunKeepsWellFormed(Step(t, events[0]), events[1..]);
    }
  }

  // ---------------------------------------------------------------- how long a record lasts

  predicate Full(t: Table) {
    WellFormed(t) && t.number == |t.foreign|
  }

  /** Place of a slot in the rotation that starts right after the best slot. */
  function Place(best: nat, slot: nat, capacity: nat): int {
    if slot > best then slot - best - 1 else slot - best - 1 + capacity
  }

  /** The slot that a full table fills next: the ring index, moved past the best slot. */
  function Skip(best: nat, next: nat, capacity: nat): nat {
    if next != best then next else if best + 1 < capacity then best + 1 else 0
  }

  /** How many new masters must arrive before the record in `slot` is overwritten. */
  function Lifetime(best: nat, next: nat, slot: nat, capacity: nat): int {
    var d := Place(best, slot, capacity) - Place(best, Skip(best, next, capacity), capacity);
    if d >= 0 then d else d + capacity - 1
  }

  function LifetimeIn(t: Table, slot: nat): int {
    Lifetime(t.best, t.next, slot, |t.foreign|)
  }

  lemma LifetimeStep(best: nat, next: nat, slot: nat, capacity: nat)
    requires best < capacity && next < capacity && slot < capacity && slot != best && capacity >= 2
    ensures var filled := Skip(best, next, capacity);
            var life' := Lifetime(best, if filled + 1 < capacity then filled + 1 else 0, slot, capacity);
            if slot == filled then Lifetime(best, next, slot, capacity) == 0 && life' == capacity - 2
            else Lifetime(best, next, slot, capacity) > 0 && life' == Lifetime(best, next, slot, capacity) - 1
  {
  }

  /** With the best slot fixed, a known master costs no other record anything; a new one costs
      every other record one step of its lifetime and starts its own with the longest one. */
  lemma AddForeignAges(t: Table, a: Announcement, slot: nat)
    requires Full(t) && slot < |t.foreign| && slot != t.best
    ensures Full(AddForeign(t, a))
    ensures Holds(t, a.Sender()) ==> LifetimeIn(AddForeign(t, a), slot) == LifetimeIn(t, slot)
    ensures !Holds(t, a.Sender()) && slot == InsertSlot(t) ==>
              LifetimeIn(t, slot) == 0 && LifetimeIn(AddForeign(t, a), slot) == |t.foreign| - 2
    ensures !Holds(t, a.Sender()) && slot != InsertSlot(t) ==>
              LifetimeIn(t, slot) > 0 && LifetimeIn(AddForeign(t, a), slot) == LifetimeIn(t, slot) - 1
    ensures Holds(t, a.Sender()) || slot != InsertSlot(t) ==>
              AddForeign(t, a).foreign[slot].foreignMasterPortIdentity == t.foreign[slot].foreignMasterPortIdentity
  {
    hide Lifetime;
    FindIsMembership(t, a.Sender());
    AddForeignShape(t, a);
    InsertSlotFacts(t);
    LifetimeStep(t.best, t.next, slot, |t.foreign|);
  }

  function AddAll(t: Table, arrivals: seq<Announcement>): (t': Table)
    requires t.InBounds()
    ensures t'.InBounds() && |t'.foreign| == |t.foreign| && t'.best == t.best
    decreases |arrivals|
  {
    if arrivals == [] then t else AddAll(AddForeign(t, arrivals[0]), arrivals[1..])
  }

  lemma {:induction false} RecordOutlives(t: Table, arrivals: seq<Announcement>, slot: nat)
    requires Full(t) && slot < |t.foreign| && slot != t.best
    requires |arrivals| <= LifetimeIn(t, slot)
    ensures AddAll(t, arrivals).foreign[slot].foreignMasterPortIdentity == t.foreign[slot].foreignMasterPortIdentity
    decreases |arrivals|
  {
    if arrivals != [] {
      var (t', rest) := (AddForeign(t, arrivals[0]), arrivals[1..]);
      AddForeignAges(t, arrivals[0], slot);
      assert Full(t') && slot < |t'.foreign| && slot != t'.best && |rest| <= LifetimeIn(t', slot);
      RecordOutlives(t', rest, slot);
    }
  }

  /** In a full table whose best slot stays the same, a new master survives the next
      capacity minus two announcements, whoever sends them. */
  lemma NewMasterSurvives(t: Table, newcomer: Announcement, arrivals: seq<Announcement>)
    requires Full(t) && !Holds(t, newcomer.Sender())
    requires |arrivals| <= |t.foreign| - 2
    ensures Holds(AddAll(AddForeign(t, newcomer), arrivals), newcomer.Sender())
  {
    var slot := InsertSlot(t);
    InsertSlotFacts(t);
    FindIsMembership(t, newcomer.Sender());
    var t' := AddForeign(t, newcomer);
    assert t'.foreign[slot].foreignMasterPortIdentity == newcomer.Sender();
    hide AddForeign, LifetimeIn, InsertSlot, Find;
    AddForeignAges(t, newcomer, slot);
    RecordOutlives(t', arrivals, slot);
    AddAllKeepsFull(t', arrivals);
    assert AddAll(t', arrivals).foreign[slot].foreignMasterPortIdentity == newcomer.Sender();
  }

  lemma {:induction false} AddAllKeepsFull(t: Table, arrivals: seq<Announcement>)
    requires Full(t)
    ensures Full(AddAll(t, arrivals))
    decreases |arrivals|
  {
    if arrivals != [] {
      AddForeignAges(t, arrivals[0], if t.best == 0 then 1 else 0);
      AddAllKeepsFull(AddForeign(t, arrivals[0]), arrivals[1..]);
    }
  }

  /** Every announcement comes from a master that the table does not list at that time. */
  predicate AllNew(t: Table, arrivals: seq<Announcement>)
    requires t.InBounds()
    decreases |arrivals|
  {
    arrivals == [] ||
    (!Holds(t, arrivals[0].Sender()) && AllNew(AddForeign(t, arrivals[0]), arrivals[1..]))
  }

  lemma LifetimeZero(t: Table, slot: nat)
    requires Full(t) && slot < |t.foreign| && slot != t.best
    ensures LifetimeIn(t, slot) == 0 <==> InsertSlot(t) == slot
  {
    InsertSlotFacts(t);
    LifetimeStep(t.best, t.next, slot, |t.foreign|);
  }

  /** The bound is exact: after that many new masters the next one takes the same slot. */
  lemma {:induction false} RotationIsExact(t: Table, arrivals: seq<Announcement>, slot: nat)
    requires Full(t) && slot < |t.foreign| && slot != t.best
    requires |arrivals| == LifetimeIn(t, slot) && AllNew(t, arrivals)
    ensures InsertSlot(AddAll(t, arrivals)) == slot
    decreases |arrivals|
  {
    hide AddForeign, Holds, LifetimeIn, InsertSlot;
    LifetimeZero(t, slot);
    if arrivals != [] {
      AddForeignAges(t, arrivals[0], slot);
      RotationIsExact(AddForeign(t, arrivals[0]), arrivals[1..], slot);
    }
  }

  /** The slot that newcomer number `i` of a series takes. */
  function SlotOf(t: Table, arrivals: seq<Announcement>, i: nat): nat
    requires t.InBounds() && i <= |arrivals|
  {
    InsertSlot(AddAll(t, arrivals[..i]))
  }

  lemma {:induction false} AddAllSplit(t: Table, arrivals: seq<Announcement>, i: nat)
    requires t.InBounds() && i <= |arrivals|
    ensures AddAll(t, arrivals) == AddAll(AddAll(t, arrivals[..i]), arrivals[i..])
    ensures AllNew(t, arrivals) ==> AllNew(t, arrivals[..i]) && AllNew(AddAll(t, arrivals[..i]), arrivals[i..])
    decreases |arrivals|
  {
    hide AddForeign, Holds;
    if i == 0 {
      assert arrivals[..0] == [] && arrivals[0..] == arrivals;
    } else {
      AddAllSplit(AddForeign(t, arrivals[0]), arrivals[1..], i - 1);
      assert arrivals[..i][1..] == arrivals[1..][..i - 1] && arrivals[i..] == arrivals[1..][i - 1..];
    }
  }

  /** Every new master brings the others one step closer to being overwritten. */
  lemma {:induction false} NewMastersAge(t: Table, arrivals: seq<Announcement>, slot: nat)
    requires Full(t) && slot < |t.foreign| && slot != t.best
    requires |arrivals| <= LifetimeIn(t, slot) && AllNew(t, arrivals)
    ensures Full(AddAll(t, arrivals)) && LifetimeIn(AddAll(t, arrivals), slot) == LifetimeIn(t, slot) - |arrivals|
    decreases |arrivals|
  {
    hide AddForeign, Holds, LifetimeIn, InsertSlot;
    LifetimeZero(t, slot);
    if arrivals != [] {
      AddForeignAges(t, arrivals[0], slot);
      NewMastersAge(AddForeign(t, arrivals[0]), arrivals[1..], slot);
    }
  }

  /** With the best slot fixed, any capacity minus one consecutive new masters take pairwise different
      slots, and the one after them takes the slot of the first again. */
  lemma RotationVisitsAll(t: Table, arrivals: seq<Announcement>, i: nat, j: nat)
    requires Full(t) && i < j < |arrivals| && j - i <= |t.foreign| - 1
    ensures AllNew(t, arrivals) ==>
              (SlotOf(t, arrivals, i) == SlotOf(t, arrivals, j) <==> j - i == |t.foreign| - 1)
  {
    hide AddForeign, Holds, LifetimeIn, InsertSlot, AllNew;
    if AllNew(t, arrivals) {
      var (u, rest) := (AddAll(t, arrivals[..i]), arrivals[i..]);
      AddAllSplit(t, arrivals, i);
      AddAllKeepsFull(t, arrivals[..i]);
      FirstArrival(u, rest);
      var (slot, v) := (InsertSlot(u), AddForeign(u, rest[0]));
      InsertSlotFacts(u);
      AddForeignAges(u, rest[0], slot);
      var between := arrivals[i + 1..j];
      AddAllSplit(v, rest[1..], j - i - 1);
      assert rest[1..][..j - i - 1] == between;
      NewMastersAge(v, between, slot);
      LifetimeZero(AddAll(v, between), slot);
      AddAllSplit(t, arrivals[..j], i);
      assert arrivals[..j][..i] == arrivals[..i] && arrivals[..j][i..] == [rest[0]] + between;
      AfterFirst(u, rest[0], between);
    }
  }

  lemma FirstArrival(t: Table, arrivals: seq<Announcement>)
    requires t.InBounds() && AllNew(t, arrivals) && arrivals != []
    ensures !Holds(t, arrivals[0].Sender()) && AllNew(AddForeign(t, arrivals[0]), arrivals[1..])
  {
  }

  lemma AfterFirst(t: Table, a: Announcement, arrivals: seq<Announcement>)
    requires t.InBounds()
    ensures AddAll(t, [a] + arrivals) == AddAll(AddForeign(t, a), arrivals)
  {
    hide AddForeign;
    assert ([a] + arrivals)[1..] == arrivals;
  }

  // ---------------------------------------------------------------- the unpaired reset

  /** Data initialisation clears the count only. The next new master is then among the listed records
      exactly when the ring index is at the front, or moved there because it is at the best record, or
      the stale record at the front is of that same master; otherwise that stale record is listed. */
  lemma UnpairedResetHidesNewMaster(t: Table, a: Announcement)
    requires WellFormed(t)
    ensures var t' := AddForeign(t.(number := 0), a);
            && t'.number == 1
            && (Holds(t', a.Sender()) <==>
                  t.next == 0 || t.next == t.best || t.foreign[0].foreignMasterPortIdentity == a.Sender())
            && (!Holds(t', a.Sender()) ==> t'.foreign[0] == t.foreign[0])
  {
    var t' := AddForeign(t.(number := 0), a);
    assert t'.number == 1 && t'.foreign[if t.next == t.best then 0 else t.next] == NewRecord(a);
    if t'.foreign[0].foreignMasterPortIdentity == a.Sender() {
      assert Holds(t', a.Sender());
    }
  }
}
