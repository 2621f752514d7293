/** Unicast grants of a master (clause 16.1 of IEEE 1588-2008): the table of nodes, the hash index over
    it, requests, cancels and the refresh that ages leases, with signalling messages sent successfully. */
module Grants {
  import opened PtpTypes

  const MAX_MESSAGE_INDEXED: nat := 5
  const SIGNALING_INDEXED: nat := 4
  const UNICAST_MAX_DESTINATIONS: nat := 16
  const GRANT_CANCEL_ACK_TIMEOUT: nat := 3
  const ALL_ONES_PORT: PortIdentity := PortIdentity(ALL_ONES_IDENTITY, 0xFFFF)
  const EMPTY_PORT: PortIdentity := PortIdentity(ZERO_IDENTITY, 0)

  datatype Grant = Grant(
    requestable: bool, requested: bool, canceled: bool, cancelCount: nat, granted: bool, expired: bool,
    timeLeft: uint32, duration: uint32, logInterval: int8, logMinInterval: int8, logMaxInterval: int8,
    sentSeqId: uint16, intervalCounter: uint32)

  datatype Entry = Entry(
    transportAddress: int32, portIdentity: PortIdentity, grants: seq<Grant>, timeLeft: uint32)

  /** For every hash value the entry that was last updated under it. */
  datatype Index = Index(data: seq<Option<nat>>, portMask: uint16)

  /** The grant table and its index. The hash function is a parameter, because everything below holds
      for any of them. */
  datatype Node = Node(table: seq<Entry>, index: Index)

  type Hash = PortIdentity -> nat

  predicate WellSized(n: Node) {
    && |n.index.data| == UNICAST_MAX_DESTINATIONS
    && (forall k | 0 <= k < |n.table| :: |n.table[k].grants| == MAX_MESSAGE_INDEXED)
    && (forall s | 0 <= s < UNICAST_MAX_DESTINATIONS ::
          n.index.data[s].Some? ==> n.index.data[s].value < |n.table|)
  }

  // ---------------------------------------------------------------- finding an entry

  function Masked(id: PortIdentity, mask: uint16): PortIdentity {
    SixteenBits();
    id.(portNumber := Or(id.portNumber, mask, 16))
  }

  /** The bits that are set in either number, of the last `n`. */
  function Or(x: nat, y: nat, n: nat): (r: nat)
    ensures r < Pow2(n)
  {
    if n == 0 then 0 else 2 * Or(x / 2, y / 2, n - 1) + (if x % 2 == 1 || y % 2 == 1 then 1 else 0)
  }

  lemma SixteenBits()
    ensures Pow2(16) == 0x1_0000
  {
    assert Pow2(8) == 256;
  }

  function Slot(hash: Hash, id: PortIdentity): (s: nat)
    ensures s < UNICAST_MAX_DESTINATIONS
  {
    hash(id) % UNICAST_MAX_DESTINATIONS
  }

  function Lookup(n: Node, hash: Hash, id: PortIdentity): (r: Option<nat>)
    requires WellSized(n)
    ensures r.Some? ==> r.value < |n.table| && n.table[r.value].portIdentity == id
  {
    var hit := n.index.data[Slot(hash, id)];
    if hit.Some? && n.table[hit.value].portIdentity == id then hit else None
  }

  predicate Matches(e: Entry, id: PortIdentity, address: int32) {
    e.portIdentity == id || (e.transportAddress != 0 && e.transportAddress == address)
  }

  predicate IsFree(e: Entry) {
    e.portIdentity == EMPTY_PORT || e.timeLeft == 0
  }

  /** The first entry from `i` on that matches, by identity or by address. */
  function Scan(table: seq<Entry>, id: PortIdentity, address: int32, i: nat, count: nat): (r: Option<nat>)
    requires i <= count <= |table|
    ensures r.Some? ==> i <= r.value < count && Matches(table[r.value], id, address)
    decreases count - i
  {
    if i == count then None
    else if Matches(table[i], id, address) then Some(i)
    else Scan(table, id, address, i + 1, count)
  }

  function FirstFree(table: seq<Entry>, i: nat, count: nat): (r: Option<nat>)
    requires i <= count <= |table|
    ensures r.Some? ==> i <= r.value < count && IsFree(table[r.value])
    decreases count - i
  {
    if i == count then None else if IsFree(table[i]) then Some(i) else FirstFree(table, i + 1, count)
  }

  /** The entry goes to the node: its identity, its address when it has one, and its place in the index.
      An entry found by its address keeps that address. */
  function Taken(n: Node, hash: Hash, k: nat, id: PortIdentity, address: int32): Node
    requires WellSized(n) && k < |n.table|
  {
    var e := n.table[k];
    var newAddress := if e.portIdentity == id && address != 0 then address else e.transportAddress;
    n.(table := n.table[k := e.(portIdentity := id, transportAddress := newAddress)],
       index := n.index.(data := n.index.data[Slot(hash, id) := Some(k)]))
  }

  /** A free entry starts anew for the node. */
  function Claimed(n: Node, hash: Hash, k: nat, id: PortIdentity, address: int32): Node
    requires WellSized(n) && k < |n.table|
  {
    var e := n.table[k];
    var grants := seq(|e.grants|, i requires 0 <= i < |e.grants| => e.grants[i].(sentSeqId := 0));
    n.(table := n.table[k := e.(portIdentity := id, transportAddress := address, grants := grants)],
       index := n.index.(data := n.index.data[Slot(hash, id) := Some(k)]))
  }

  /** `findUnicastGrants`: the entry of a node, or the first free one, and the table after it. */
  function FindUnicastGrants(n: Node, hash: Hash, port: PortIdentity, address: int32, count: nat, update: bool)
    : (r: (Option<nat>, Node))
    requires WellSized(n) && count <= |n.table|
    ensures r.0.Some? ==> r.0.value < |n.table|
    ensures |r.1.table| == |n.table|
  {
    var id := Masked(port, n.index.portMask);
    var hit := Lookup(n, hash, id);
    var found := if hit.Some? then hit else Scan(n.table, id, address, 0, count);
    if found.Some? then (found, if update then Taken(n, hash, found.value, id, address) else n)
    else
      var free := FirstFree(n.table, 0, count);
      (free, if update && free.Some? then Claimed(n, hash, free.value, id, address) else n)
  }

  lemma FindKeepsSize(n: Node, hash: Hash, port: PortIdentity, address: int32, count: nat, update: bool)
    requires WellSized(n) && count <= |n.table|
    ensures WellSized(FindUnicastGrants(n, hash, port, address, count, update).1)
    ensures FindUnicastGrants(n, hash, port, address, count, update).1.index.portMask == n.index.portMask
  {
    hide Masked, Slot, Scan, FirstFree;
  }

  // ---------------------------------------------------------------- the index is a speed-up

  /** The same table without anything in the index. */
  function Unindexed(n: Node): Node {
    n.(index := n.index.(data := seq(UNICAST_MAX_DESTINATIONS, _ => None)))
  }

  lemma {:induction false} ScanFindsFirst(table: seq<Entry>, id: PortIdentity, address: int32, i: nat, count: nat)
    requires i <= count <= |table|
    ensures var r := Scan(table, id, address, i, count);
            forall k | i <= k < count && (r.None? || k < r.value) :: !Matches(table[k], id, address)
    decreases count - i
  {
    if i < count && !Matches(table[i], id, address) {
      ScanFindsFirst(table, id, address, i + 1, count);
    }
  }

  lemma {:induction false} FirstFreeIsFirst(table: seq<Entry>, i: nat, count: nat)
    requires i <= count <= |table|
    ensures var r := FirstFree(table, i, count);
            && (r.Some? ==>
                  && i <= r.value < count
                  && (table[r.value].portIdentity == EMPTY_PORT || table[r.value].timeLeft == 0))
            && forall k | i <= k < count && (r.None? || k < r.value) ::
                 table[k].portIdentity != EMPTY_PORT && table[k].timeLeft != 0
    decreases count - i
  {
    if i < count && !IsFree(table[i]) {
      FirstFreeIsFirst(table, i + 1, count);
    }
  }

  /** Who gets an entry: a node that the index knows or that an entry matches gets that entry, and a new one
      the first entry without an identity or without time left; none is found exactly when all scanned entries
      have both and none matches. */
  lemma FoundIff(n: Node, hash: Hash, port: PortIdentity, address: int32, count: nat, update: bool)
    requires WellSized(n) && count <= |n.table|
    ensures var id := Masked(port, n.index.portMask);
            var found := FindUnicastGrants(n, hash, port, address, count, update).0;
            var known := n.index.data[Slot(hash, id)].Some? &&
                         n.table[n.index.data[Slot(hash, id)].value].portIdentity == id;
            var unknown := !known && forall k | 0 <= k < count :: !Matches(n.table[k], id, address);
            && (known ==> found == n.index.data[Slot(hash, id)])
            && (!known && !unknown ==>
                  && found.Some? && found.value < count && Matches(n.table[found.value], id, address)
                  && forall k | 0 <= k < found.value :: !Matches(n.table[k], id, address))
            && (unknown && found.Some? ==>
                  && found.value < count
                  && (n.table[found.value].portIdentity == EMPTY_PORT || n.table[found.value].timeLeft == 0)
                  && forall k | 0 <= k < found.value ::
                       n.table[k].portIdentity != EMPTY_PORT && n.table[k].timeLeft != 0)
            && (found.None? <==>
                  unknown && forall k | 0 <= k < count ::
                    n.table[k].portIdentity != EMPTY_PORT && n.table[k].timeLeft != 0)
  {
    hide Masked, Slot;
    var id := Masked(port, n.index.portMask);
    ScanFindsFirst(n.table, id, address, 0, count);
    FirstFreeIsFirst(n.table, 0, count);
  }

  /** The index or a scanned entry knows the node, by its identity or by its address. */
  predicate Known(n: Node, hash: Hash, id: PortIdentity, address: int32, count: nat)
    requires WellSized(n) && count <= |n.table|
  {
    Lookup(n, hash, id).Some? || exists k :: 0 <= k < count && Matches(n.table[k], id, address)
  }

  /** What a lookup changes. Without an update it changes nothing. With one, the entry gets the identity, any
      address that is given, and its place in the index; a node that was known keeps its grants, and a new one
      starts with new sequence numbers. No other entry and no other place in the index changes. */
  lemma FindEffect(n: Node, hash: Hash, port: PortIdentity, address: int32, count: nat)
    requires WellSized(n) && count <= |n.table|
    ensures FindUnicastGrants(n, hash, port, address, count, false).1 == n
    ensures var id := Masked(port, n.index.portMask);
            var found := FindUnicastGrants(n, hash, port, address, count, false).0;
            var (found', m) := FindUnicastGrants(n, hash, port, address, count, true);
            && found' == found && (found.None? ==> m == n)
            && (found.Some? ==>
                  var (k, known) := (found.value, Known(n, hash, id, address, count));
                  var (e, e') := (n.table[k], m.table[k]);
                  && e'.portIdentity == id && e'.timeLeft == e.timeLeft && |e'.grants| == |e.grants|
                  && e'.transportAddress == (if known && address == 0 then e.transportAddress else address)
                  && (forall i | 0 <= i < |e.grants| ::
                        e'.grants[i] == if known then e.grants[i] else e.grants[i].(sentSeqId := 0))
                  && |m.table| == |n.table| && (forall j | 0 <= j < |n.table| && j != k :: m.table[j] == n.table[j])
                  && m.index == n.index.(data := n.index.data[Slot(hash, id) := Some(k)]))
  {
    hide Masked, Slot;
    var id := Masked(port, n.index.portMask);
    ScanFindsFirst(n.table, id, address, 0, count);
    hide Scan, FirstFree;
  }

  /** The port mask decides which ports of a clock are one node: with none all are different, with a full one
      all are the same, and applying it twice is applying it once. */
  lemma MaskMerges(a: PortIdentity, b: PortIdentity, mask: uint16)
    ensures Masked(a, 0) == a
    ensures Masked(a, 0xFFFF) == Masked(b, 0xFFFF) <==> a.clockIdentity == b.clockIdentity
    ensures Masked(Masked(a, mask), mask) == Masked(a, mask)
  {
    hide Or, Pow2;
    SixteenBits();
    NoBits(a.portNumber, 16);
    AllBits(a.portNumber, 16);
    AllBits(b.portNumber, 16);
    OrTwice(a.portNumber, mask, 16);
  }

  lemma {:induction false} NoBits(x: nat, n: nat)
    requires x < Pow2(n)
    ensures Or(x, 0, n) == x
  {
    if n > 0 {
      NoBits(x / 2, n - 1);
    }
  }

  lemma {:induction false} AllBits(x: nat, n: nat)
    ensures Or(x, Pow2(n) - 1, n) == Pow2(n) - 1
  {
    if n > 0 {
      AllBits(x / 2, n - 1);
      assert (Pow2(n) - 1) / 2 == Pow2(n - 1) - 1 && (Pow2(n) - 1) % 2 == 1;
    }
  }

  lemma {:induction false} OrTwice(x: nat, y: nat, n: nat)
    ensures Or(Or(x, y, n), y, n) == Or(x, y, n)
  {
    if n > 0 {
      OrTwice(x / 2, y / 2, n - 1);
    }
  }

  /** A hit in the index, stale or not, gives the answer and the table that the scan would give exactly
      when the hit is among the scanned entries and no earlier one matches by identity or by address. */
  lemma IndexIsSpeedUpIff(n: Node, hash: Hash, port: PortIdentity, address: int32, count: nat, update: bool)
    requires WellSized(n) && count <= |n.table|
    ensures WellSized(Unindexed(n))
    ensures var id := Masked(port, n.index.portMask);
            var hit := Lookup(n, hash, id);
            var (with, without) := (FindUnicastGrants(n, hash, port, address, count, update),
                                    FindUnicastGrants(Unindexed(n), hash, port, address, count, update));
            && (hit.None? ==> with.0 == without.0 && with.1.table == without.1.table)
            && (hit.Some? ==>
                  (with.0 == without.0 && with.1.table == without.1.table <==>
                     hit.value < count && forall k | 0 <= k < hit.value :: !Matches(n.table[k], id, address)))
  {
    hide Masked, Slot;
    var id := Masked(port, n.index.portMask);
    var hit := Lookup(n, hash, id);
    ScanFindsFirst(n.table, id, address, 0, count);
    hide Scan, FirstFree;
    assert Lookup(Unindexed(n), hash, id).None?;
    if hit.Some? && hit.value < count && Scan(n.table, id, address, 0, count) != hit {
      assert Matches(n.table[hit.value], id, address);
    }
    if hit.Some? && hit.value >= count {
      HitBehindScan(n.table, id, address, count, hit.value);
    }
  }

  lemma HitBehindScan(table: seq<Entry>, id: PortIdentity, address: int32, count: nat, hit: nat)
    requires count <= |table| && hit >= count
    ensures Scan(table, id, address, 0, count) != Some(hit) && FirstFree(table, 0, count) != Some(hit)
  {
  }

  /** In particular for a node that exactly one scanned entry names and whose address, if given, no
      earlier entry holds. */
  lemma IndexIsSpeedUp(n: Node, hash: Hash, port: PortIdentity, address: int32, count: nat, update: bool, k: nat)
    requires WellSized(n) && k < count == |n.table|
    requires var id := Masked(port, n.index.portMask);
             forall j | 0 <= j < count :: n.table[j].portIdentity == id <==> j == k
    requires address == 0 || forall j | 0 <= j < k :: n.table[j].transportAddress != address
    ensures WellSized(Unindexed(n))
    ensures var (with, without) := (FindUnicastGrants(n, hash, port, address, count, update),
                                    FindUnicastGrants(Unindexed(n), hash, port, address, count, update));
            with.0 == without.0 == Some(k) && with.1.table == without.1.table
  {
    hide Masked, Slot, FindUnicastGrants, FirstFree;
    IndexIsSpeedUpIff(n, hash, port, address, count, update);
    var id := Masked(port, n.index.portMask);
    ScanFindsFirst(n.table, id, address, 0, count);
    assert Matches(n.table[k], id, address);
    FindByScan(Unindexed(n), hash, port, address, count, update, k);
  }

  lemma FindByScan(n: Node, hash: Hash, port: PortIdentity, address: int32, count: nat, update: bool, k: nat)
    requires WellSized(n) && count <= |n.table|
    requires Lookup(n, hash, Masked(port, n.index.portMask)).None?
    requires Scan(n.table, Masked(port, n.index.portMask), address, 0, count) == Some(k)
    ensures FindUnicastGrants(n, hash, port, address, count, update).0 == Some(k)
  {
  }

  /** A node that was given an entry finds it again, and finding it changes nothing more. */
  lemma NodeKeepsEntry(n: Node, hash: Hash, port: PortIdentity, address: int32, count: nat, again: bool)
    requires WellSized(n) && count <= |n.table|
    requires FindUnicastGrants(n, hash, port, address, count, true).0.Some?
    ensures var (k, m) := FindUnicastGrants(n, hash, port, address, count, true);
            && WellSized(m) && m.index.portMask == n.index.portMask
            && Lookup(m, hash, Masked(port, n.index.portMask)) == k
            && FindUnicastGrants(m, hash, port, address, count, again) == (k, m)
  {
    hide Masked, Slot, Scan, FirstFree;
    FindKeepsSize(n, hash, port, address, count, true);
    var (k, m) := FindUnicastGrants(n, hash, port, address, count, true);
    var id := Masked(port, n.index.portMask);
    assert m.index.portMask == n.index.portMask;
    assert m.index.data[Slot(hash, id)] == k && m.table[k.value].portIdentity == id;
    assert Lookup(m, hash, id) == k;
    assert m.table[k.value := m.table[k.value]] == m.table;
    assert m.index.data[Slot(hash, id) := k] == m.index.data;
    assert Taken(m, hash, k.value, id, address) == m;
  }

  // ---------------------------------------------------------------- requests and cancels

  /** The grant that a message of the node is about, if there is one. */
  function GrantFound(n: Node, hash: Hash, port: PortIdentity, address: int32, message: Option<nat>, update: bool)
    : Option<Grant>
    requires WellSized(n) && (message.Some? ==> message.value < MAX_MESSAGE_INDEXED)
  {
    FindKeepsSize(n, hash, port, address, |n.table|, update);
    var (found, m) := FindUnicastGrants(n, hash, port, address, |n.table|, update);
    if found.None? || message.None? then None else Some(m.table[found.value].grants[message.value])
  }

  /** The duration that a master offers: at most the configured one, at least 30 seconds. */
  function Offered(duration: uint32, maximum: uint32): uint32 {
    if duration > maximum then maximum else if duration <= 30 then 30 else duration
  }

  function OfferedInterval(g: Grant, logInterval: int8): int8 {
    if logInterval > g.logMaxInterval then g.logMaxInterval else logInterval
  }

  /** A request is granted unless it asks for no time or for a rate above the maximum; that the message
      type is not requestable only withdraws an earlier grant. */
  predicate Grantable(g: Grant, duration: uint32, logInterval: int8) {
    duration != 0 && logInterval >= g.logMinInterval
  }

  function Requested(g: Grant, duration: uint32, logInterval: int8, maximum: uint32): Grant {
    var asked := g.(requested := true, granted := g.requestable && g.granted);
    if !Grantable(g, duration, logInterval) then asked
    else
      var (d, l) := (Offered(duration, maximum), OfferedInterval(g, logInterval));
      asked.(duration := d, timeLeft := (d as int + 10) % 0x1_0000_0000,
             intervalCounter := if !asked.granted || g.logInterval != l then 0 else g.intervalCounter,
             granted := true, canceled := false, cancelCount := 0, logInterval := l)
  }

  /** A signalling message goes to the node of the entry, with the next sequence number. */
  function Signalled(grants: seq<Grant>): (r: seq<Grant>)
    requires |grants| == MAX_MESSAGE_INDEXED
    ensures |r| == MAX_MESSAGE_INDEXED
  {
    var g := grants[SIGNALING_INDEXED];
    grants[SIGNALING_INDEXED := g.(sentSeqId := (g.sentSeqId as int + 1) % 0x1_0000)]
  }

  /** `handleSMRequestUnicastTransmission`, on the whole table; `message` is the index of the message
      type, if it is supported. */
  function HandleRequest(n: Node, hash: Hash, port: PortIdentity, address: int32, message: Option<nat>,
                         duration: uint32, logInterval: int8, maximum: uint32): (n': Node)
    requires WellSized(n) && (message.Some? ==> message.value < MAX_MESSAGE_INDEXED)
  {
    var (found, m) := FindUnicastGrants(n, hash, port, address, |n.table|, true);
    FindKeepsSize(n, hash, port, address, |n.table|, true);
    if found.None? || message.None? then m
    else
      var e := m.table[found.value];
      var g := Requested(e.grants[message.value], duration, logInterval, maximum);
      var granted := Grantable(e.grants[message.value], duration, logInterval);
      var answered := e.grants[message.value := g];
      m.(table := m.table[found.value := e.(
        grants := if granted then Signalled(answered) else answered,
        timeLeft := if granted && e.timeLeft == 0 then (g.timeLeft as int + 10) % 0x1_0000_0000 else e.timeLeft)])
  }

  predicate Cancelable(g: Grant) {
    g.requestable && g.requested && g.granted
  }

  function Canceled(g: Grant): Grant {
    if !Cancelable(g) then g
    else g.(granted := false, requested := false, sentSeqId := 0, cancelCount := 0, timeLeft := 0, duration := 0)
  }

  /** `handleSMCancelUnicastTransmission`: an unknown node is looked up like a new one, but not stored. */
  function HandleCancel(n: Node, hash: Hash, port: PortIdentity, address: int32, message: Option<nat>): (n': Node)
    requires WellSized(n) && (message.Some? ==> message.value < MAX_MESSAGE_INDEXED)
  {
    var found := FindUnicastGrants(n, hash, port, address, |n.table|, false).0;
    if found.None? || message.None? then n
    else
      var e := n.table[found.value];
      if !Cancelable(e.grants[message.value]) then n
      else
        var acknowledged := Signalled(e.grants);
        n.(table := n.table[found.value := e.(
          grants := acknowledged[message.value := Canceled(acknowledged[message.value])])])
  }

  function Acknowledged(g: Grant): Grant {
    g.(granted := false, requested := false, canceled := false, sentSeqId := 0, cancelCount := 0,
       timeLeft := 0, duration := 0)
  }

  /** `handleSMAcknowledgeCancelUnicastTransmission`: an acknowledgement ends the grant whether it was
      cancelled or not. A node for which the full table has no entry changes nothing here; the code has a
      null pointer then. */
  function HandleAcknowledge(n: Node, hash: Hash, port: PortIdentity, address: int32, message: Option<nat>): (n': Node)
    requires WellSized(n) && (message.Some? ==> message.value < MAX_MESSAGE_INDEXED)
  {
    var found := FindUnicastGrants(n, hash, port, address, |n.table|, false).0;
    if found.None? || message.None? then n
    else
      var e := n.table[found.value];
      n.(table := n.table[found.value := e.(
        grants := e.grants[message.value := Acknowledged(e.grants[message.value])])])
  }

  // ---------------------------------------------------------------- refresh

  /** `prepareSMCancelUnicastTransmission`: the cancel is sent and counted if there is a grant. */
  function CancelSent(g: Grant): Grant {
    var h := g.(requested := false, timeLeft := 0, expired := false);
    if h.requestable && h.granted then h.(canceled := true, cancelCount := h.cancelCount + 1) else h
  }

  /** A grant aged, marked as expired, or cleared when three cancels stayed unanswered. */
  function Checked(g: Grant): Grant {
    var aged := if !g.granted then g
                else if g.timeLeft <= 5 then g.(expired := true)
                else g.(timeLeft := g.timeLeft - 1);
    if aged.canceled && aged.cancelCount >= GRANT_CANCEL_ACK_TIMEOUT
    then aged.(cancelCount := 0, canceled := false, granted := false, requested := false,
               sentSeqId := 0, timeLeft := 0, duration := 0)
    else aged
  }

  /** One grant in one refresh of a master. */
  function RefreshGrant(g: Grant): Grant {
    if !g.requestable then g else if Checked(g).expired then CancelSent(Checked(g)) else Checked(g)
  }

  predicate SendsCancel(g: Grant) {
    g.requestable && Checked(g).expired && Checked(g).granted
  }

  /** The grants of an entry after the first `k` were refreshed; every cancel is one signalling message. */
  function RefreshGrants(grants: seq<Grant>, k: nat): (r: seq<Grant>)
    requires |grants| == MAX_MESSAGE_INDEXED && k <= |grants|
    ensures |r| == MAX_MESSAGE_INDEXED
  {
    if k == 0 then grants
    else
      var before := RefreshGrants(grants, k - 1);
      var after := before[k - 1 := RefreshGrant(before[k - 1])];
      if SendsCancel(before[k - 1]) then Signalled(after) else after
  }

  lemma NotRequestable(g: Grant)
    ensures !g.requestable ==> RefreshGrant(g) == g && !SendsCancel(g)
    ensures !g.granted ==> !RefreshGrant(g).granted
  {
  }

  /** The time left of the first grant in force, whether it ages or not. */
  function FirstInForce(grants: seq<Grant>): uint32
    decreases |grants|
  {
    if grants == [] then 0
    else if grants[0].granted && !grants[0].expired then grants[0].timeLeft
    else FirstInForce(grants[1..])
  }

  /** The maximum over the first `k` grants that still age. */
  function MaxTime(grants: seq<Grant>, k: nat): uint32
    requires k <= |grants|
  {
    if k == 0 then FirstInForce(grants)
    else
      var (t, g) := (MaxTime(grants, k - 1), grants[k - 1]);
      if g.requestable && g.granted && g.timeLeft > 5 && g.timeLeft > t then g.timeLeft else t
  }

  function RefreshEntry(e: Entry): Entry
    requires |e.grants| == MAX_MESSAGE_INDEXED
  {
    var t := MaxTime(e.grants, |e.grants|);
    e.(grants := RefreshGrants(e.grants, |e.grants|),
       timeLeft := t, portIdentity := if t == 0 then ALL_ONES_PORT else e.portIdentity)
  }

  /** Refreshing is for clocks that are masters only or slave-only, by their class. */
  predicate Refreshes(clockClass: byte) {
    clockClass <= 127 || clockClass == SLAVE_ONLY_CLOCK_CLASS
  }

  /** The first `count` entries are refreshed: all of them, or as many as destinations are configured.
      A slave-only clock requests where this one cancels; its refresh is not part of this model. */
  function Refresh(n: Node, clockClass: byte, count: nat): Node
    requires WellSized(n) && count <= |n.table|
  {
    if !Refreshes(clockClass) then n
    else n.(table := seq(|n.table|, k requires 0 <= k < |n.table| =>
                           if k < count then RefreshEntry(n.table[k]) else n.table[k]))
  }
}
