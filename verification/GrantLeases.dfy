/** How long a granted lease lasts, and who may take over the entry it is in, over every run of requests,
    cancels, acknowledgements and refreshes of a master. */
module GrantLeases {
  import opened PtpTypes
  import opened Grants

  // ---------------------------------------------------------------- one lease

  /** A cancel counter that runs only after the lease has expired. */
  predicate LeaseSound(g: Grant) {
    && g.cancelCount <= GRANT_CANCEL_ACK_TIMEOUT
    && (g.cancelCount > 0 ==> g.canceled)
    && (g.granted && g.timeLeft > 5 ==> g.cancelCount == 0)
    && !g.expired
  }

  /** How many refreshes a lease has left: down to 5 seconds, three cancels, and the forced clear. */
  function RefreshesLeft(g: Grant): nat
    requires LeaseSound(g)
  {
    if !g.granted then 0
    else if g.timeLeft > 5 then g.timeLeft - 5 + 4
    else 4 - g.cancelCount
  }

  lemma RefreshUsesLease(g: Grant)
    requires g.requestable && LeaseSound(g)
    ensures var g' := RefreshGrant(g);
            && g'.requestable && LeaseSound(g')
            && RefreshesLeft(g') == (if RefreshesLeft(g) == 0 then 0 else RefreshesLeft(g) - 1)
            && (g'.granted <==> RefreshesLeft(g') > 0)
  {
  }

  lemma LeaseInForce(g: Grant)
    requires LeaseSound(g)
    ensures g.granted <==> RefreshesLeft(g) > 0
  {
  }

  /** A fresh lease of `d` seconds lasts for `d + 9` refreshes. */
  lemma FreshLease(g: Grant, duration: uint32, logInterval: int8, maximum: uint32)
    requires Grantable(g, duration, logInterval) && 30 <= maximum <= 604800 && !g.expired
    ensures var g' := Requested(g, duration, logInterval, maximum);
            && LeaseSound(g') && g'.granted && 30 <= g'.duration <= maximum
            && g'.duration == (if duration < 30 then 30 else if duration < maximum then duration else maximum)
            && RefreshesLeft(g') == g'.duration + 9
  {
  }

  /** What a request changes in a grant. If it can be granted, the terms are the ones asked for, within the limits
      of the master; the message counter goes on if the grant was in force at the same interval; a cancel under way
      is forgotten. If not, it withdraws a grant of a message type that is not requestable, and only that. */
  lemma RequestEffect(g: Grant, duration: uint32, logInterval: int8, maximum: uint32)
    requires 30 <= maximum <= 604800
    ensures var g' := Requested(g, duration, logInterval, maximum);
            if duration == 0 || logInterval < g.logMinInterval then
              g' == g.(requested := true, granted := g.granted && g.requestable)
            else
              var goesOn := g.granted && g.requestable && g'.logInterval == g.logInterval;
              && g'.logInterval == (if logInterval < g.logMaxInterval then logInterval else g.logMaxInterval)
              && 30 <= g'.duration <= maximum && g'.timeLeft == g'.duration + 10
              && g' == g.(requested := true, granted := true, canceled := false, cancelCount := 0,
                          duration := g'.duration, timeLeft := g'.timeLeft, logInterval := g'.logInterval,
                          intervalCounter := if goesOn then g.intervalCounter else 0)
  {
  }

  /** What a refresh changes in a sound lease, stage by stage: it counts down to 5 seconds, then asks the node
      three times to give it up, and then forgets it. */
  lemma RefreshStages(g: Grant)
    requires g.requestable && LeaseSound(g) && g.granted
    ensures var (g', left) := (RefreshGrant(g), RefreshesLeft(g));
            g' ==
            if left > 4 then g.(timeLeft := g.timeLeft - 1)
            else if left > 1 then
              g.(requested := false, timeLeft := 0, canceled := true, cancelCount := g.cancelCount + 1)
            else
              g.(requested := false, granted := false, canceled := false, cancelCount := 0, timeLeft := 0,
                 duration := 0, sentSeqId := 0)
    ensures SendsCancel(g) <==> 1 < RefreshesLeft(g) <= 4
  {
  }

  /** A grant that is not in force is left alone, but for the rest of a cancel that nobody answered. */
  lemma IdleGrantStays(g: Grant)
    requires g.requestable && LeaseSound(g) && !g.granted
    ensures !SendsCancel(g)
    ensures RefreshGrant(g) ==
            if g.canceled && g.cancelCount == 3
            then g.(requested := false, canceled := false, cancelCount := 0, timeLeft := 0, duration := 0,
                    sentSeqId := 0)
            else g
  {
  }

  /** A clock refreshes grants if it never follows, or is slave-only. */
  lemma RefreshesIff(clockClass: byte)
    ensures Refreshes(clockClass) <==> clockClass < 128 || clockClass == 255
  {
  }

  /** How many of the first `k` grants are cancelled by a refresh. */
  function Cancels(grants: seq<Grant>, k: nat): nat
    requires k <= |grants|
  {
    if k == 0 then 0 else Cancels(grants, k - 1) + (if SendsCancel(grants[k - 1]) then 1 else 0)
  }

  /** Every cancel of a refresh has a signalling number of its own: the numbers of the node go on by as many as
      grants are cancelled, modulo 2^16. */
  lemma {:induction false} CancelsAreNumbered(grants: seq<Grant>, k: nat)
    requires |grants| == MAX_MESSAGE_INDEXED && k <= |grants| && !grants[SIGNALING_INDEXED].requestable
    ensures !RefreshGrants(grants, k)[SIGNALING_INDEXED].requestable
    ensures RefreshGrants(grants, k)[SIGNALING_INDEXED].sentSeqId ==
            (grants[SIGNALING_INDEXED].sentSeqId as int + Cancels(grants, k)) % 0x1_0000
  {
    hide RefreshGrant, SendsCancel, SameLease;
    if k > 0 {
      CancelsAreNumbered(grants, k - 1);
      var before := RefreshGrants(grants, k - 1);
      RefreshGrantsAt(grants, k - 1, k - 1);
      SameLeaseRefreshed(grants[k - 1], before[k - 1]);
      NotRequestable(before[SIGNALING_INDEXED]);
    }
  }

  // ---------------------------------------------------------------- runs of the table

  datatype Event =
    | Request(port: PortIdentity, address: int32, message: Option<nat>, duration: uint32, logInterval: int8)
    | Cancel(port: PortIdentity, address: int32, message: Option<nat>)
    | Acknowledge(port: PortIdentity, address: int32, message: Option<nat>)
    | Tick

  /** What does not change during a run. */
  datatype Setting = Setting(hash: Hash, maximum: uint32, clockClass: byte, slaveOnly: bool, count: nat)

  predicate ValidEvent(e: Event) {
    match e
    case Request(_, _, message, _, _) => message.Some? ==> message.value < MAX_MESSAGE_INDEXED
    case Cancel(_, _, message) => message.Some? ==> message.value < MAX_MESSAGE_INDEXED
    case Acknowledge(_, _, message) => message.Some? ==> message.value < MAX_MESSAGE_INDEXED
    case Tick => true
  }

  /** A table of the right shape, and a clock that grants rather than requests. */
  predicate Granting(n: Node, s: Setting) {
    WellSized(n) && s.count <= |n.table| && !s.slaveOnly
  }

  function Step(n: Node, s: Setting, e: Event): Node
    requires Granting(n, s) && ValidEvent(e)
  {
    match e
    case Request(port, address, message, duration, logInterval) =>
      HandleRequest(n, s.hash, port, address, message, duration, logInterval, s.maximum)
    case Cancel(port, address, message) => HandleCancel(n, s.hash, port, address, message)
    case Acknowledge(port, address, message) => HandleAcknowledge(n, s.hash, port, address, message)
    case Tick => Refresh(n, s.clockClass, s.count)
  }

  lemma StepKeepsSize(n: Node, s: Setting, e: Event)
    requires Granting(n, s) && ValidEvent(e)
    ensures WellSized(Step(n, s, e)) && |Step(n, s, e).table| == |n.table|
    ensures Step(n, s, e).index.portMask == n.index.portMask
  {
    hide Masked, Slot, Scan, FirstFree, Requested, Canceled, RefreshGrant, MaxTime, FindUnicastGrants;
    if e.Request? {
      FindKeepsSize(n, s.hash, e.port, e.address, |n.table|, true);
    }
  }

  function Run(n: Node, s: Setting, events: seq<Event>): (n': Node)
    requires Granting(n, s) && forall t | 0 <= t < |events| :: ValidEvent(events[t])
    ensures WellSized(n') && |n'.table| == |n.table|
    decreases |events|
  {
    if events == [] then n
    else
      StepKeepsSize(n, s, events[0]);
      Run(Step(n, s, events[0]), s, events[1..])
  }

  /** The event is about message `i` of entry `k`. */
  predicate Concerns(n: Node, s: Setting, e: Event, k: nat, i: nat)
    requires WellSized(n)
  {
    match e
    case Request(port, address, message, _, _) =>
      message == Some(i) && FindUnicastGrants(n, s.hash, port, address, |n.table|, true).0 == Some(k)
    case Cancel(port, address, message) =>
      message == Some(i) && FindUnicastGrants(n, s.hash, port, address, |n.table|, false).0 == Some(k)
    case Acknowledge(port, address, message) =>
      message == Some(i) && FindUnicastGrants(n, s.hash, port, address, |n.table|, false).0 == Some(k)
    case Tick => false
  }

  /** The same lease; only the sequence number of the messages sent under it may have been reset. */
  predicate SameLease(g: Grant, g': Grant) {
    g' == g.(sentSeqId := g'.sentSeqId)
  }

  lemma FindKeepsLeases(n: Node, hash: Hash, port: PortIdentity, address: int32, count: nat, k: nat, i: nat)
    requires WellSized(n) && count <= |n.table| && k < |n.table| && i < MAX_MESSAGE_INDEXED
    ensures var m := FindUnicastGrants(n, hash, port, address, count, true).1;
            |m.table[k].grants| == MAX_MESSAGE_INDEXED && SameLease(n.table[k].grants[i], m.table[k].grants[i])
  {
    hide Masked, Slot, Scan, FirstFree;
  }

  /** Only events about a lease and refreshes change it. */
  lemma OthersKeepLease(n: Node, s: Setting, e: Event, k: nat, i: nat)
    requires Granting(n, s) && ValidEvent(e) && !e.Tick?
    requires k < |n.table| && i < MAX_MESSAGE_INDEXED && !Concerns(n, s, e, k, i)
    ensures var n' := Step(n, s, e);
            k < |n'.table| && i < |n'.table[k].grants| && SameLease(n.table[k].grants[i], n'.table[k].grants[i])
  {
    hide Masked, Slot, Scan, FirstFree, Requested, Canceled, FindUnicastGrants, Grantable;
    StepKeepsSize(n, s, e);
    if e.Request? {
      FindKeepsLeases(n, s.hash, e.port, e.address, |n.table|, k, i);
    }
  }

  lemma SignalledKeepsLeases(grants: seq<Grant>)
    requires |grants| == MAX_MESSAGE_INDEXED
    ensures forall i | 0 <= i < |grants| :: SameLease(grants[i], Signalled(grants)[i])
  {
  }

  lemma SameLeaseRefreshed(g: Grant, g': Grant)
    requires SameLease(g, g')
    ensures SameLease(RefreshGrant(g), RefreshGrant(g')) && SendsCancel(g) == SendsCancel(g')
  {
  }

  /** A refresh ages every lease of the entry by itself; only signalling moves sequence numbers on. */
  lemma {:induction false} RefreshGrantsAt(grants: seq<Grant>, k: nat, i: nat)
    requires |grants| == MAX_MESSAGE_INDEXED && k <= |grants| && i < |grants|
    ensures SameLease(if i < k then RefreshGrant(grants[i]) else grants[i], RefreshGrants(grants, k)[i])
  {
    hide RefreshGrant, SendsCancel;
    if k > 0 {
      RefreshGrantsAt(grants, k - 1, i);
      var before := RefreshGrants(grants, k - 1);
      SignalledKeepsLeases(before[k - 1 := RefreshGrant(before[k - 1])]);
      if i == k - 1 {
        SameLeaseRefreshed(grants[i], before[i]);
      }
    }
  }

  lemma RefreshAt(n: Node, clockClass: byte, count: nat, k: nat, i: nat)
    requires WellSized(n) && k < count <= |n.table| && i < MAX_MESSAGE_INDEXED && Refreshes(clockClass)
    ensures SameLease(RefreshGrant(n.table[k].grants[i]), Refresh(n, clockClass, count).table[k].grants[i])
  {
    hide RefreshGrant, MaxTime;
    RefreshGrantsAt(n.table[k].grants, MAX_MESSAGE_INDEXED, i);
  }

  predicate Untouched(n: Node, s: Setting, events: seq<Event>, k: nat, i: nat)
    requires Granting(n, s) && forall t | 0 <= t < |events| :: ValidEvent(events[t])
    decreases |events|
  {
    events == [] ||
    (&& !Concerns(n, s, events[0], k, i)
     && (StepKeepsSize(n, s, events[0]); Untouched(Step(n, s, events[0]), s, events[1..], k, i)))
  }

  function Ticks(events: seq<Event>): nat
    decreases |events|
  {
    if events == [] then 0 else (if events[0].Tick? then 1 else 0) + Ticks(events[1..])
  }

  /** Bounded lease: whatever happens to other grants, a lease that nobody asks about any more is in force
      for exactly as many refreshes as it has left, which is `d + 9` for a fresh lease of `d` seconds. */
  lemma {:induction false} LeaseIsBounded(n: Node, s: Setting, events: seq<Event>, k: nat, i: nat)
    requires Granting(n, s) && forall t | 0 <= t < |events| :: ValidEvent(events[t])
    requires k < s.count && i < MAX_MESSAGE_INDEXED && Refreshes(s.clockClass)
    requires n.table[k].grants[i].requestable && LeaseSound(n.table[k].grants[i])
    requires Untouched(n, s, events, k, i)
    ensures var n' := Run(n, s, events);
            n'.table[k].grants[i].granted <==> Ticks(events) < RefreshesLeft(n.table[k].grants[i])
    decreases |events|
  {
    hide Concerns, RefreshGrant, Step;
    LeaseInForce(n.table[k].grants[i]);
    if events != [] {
      StepKeepsSize(n, s, events[0]);
      LeaseStep(n, s, events[0], k, i);
      LeaseIsBounded(Step(n, s, events[0]), s, events[1..], k, i);
    }
  }

  lemma LeaseStep(n: Node, s: Setting, e: Event, k: nat, i: nat)
    requires Granting(n, s) && ValidEvent(e) && !Concerns(n, s, e, k, i)
    requires k < s.count && i < MAX_MESSAGE_INDEXED && Refreshes(s.clockClass)
    requires n.table[k].grants[i].requestable && LeaseSound(n.table[k].grants[i])
    ensures WellSized(Step(n, s, e)) && |Step(n, s, e).table| == |n.table|
    ensures var (g, g') := (n.table[k].grants[i], Step(n, s, e).table[k].grants[i]);
            && g'.requestable && LeaseSound(g')
            && RefreshesLeft(g') == if e.Tick? && RefreshesLeft(g) > 0 then RefreshesLeft(g) - 1 else RefreshesLeft(g)
  {
    hide Concerns, RefreshGrant, Refresh, HandleRequest, HandleCancel;
    StepKeepsSize(n, s, e);
    if e.Tick? {
      RefreshAt(n, s.clockClass, s.count, k, i);
      RefreshUsesLease(n.table[k].grants[i]);
    } else {
      OthersKeepLease(n, s, e, k, i);
    }
  }

  /** The grant that a request was about, after it. */
  lemma RequestedAt(n: Node, s: Setting, e: Event, k: nat, i: nat)
    requires Granting(n, s) && e.Request? && ValidEvent(e) && e.message == Some(i)
    requires FindUnicastGrants(n, s.hash, e.port, e.address, |n.table|, true).0 == Some(k)
    ensures var (f, m) := (FindUnicastGrants(n, s.hash, e.port, e.address, |n.table|, true).1, Step(n, s, e));
            && WellSized(f) && WellSized(m) && |m.table| == |f.table| == |n.table| && m.index == f.index
            && m.table[k].portIdentity == f.table[k].portIdentity
            && SameLease(n.table[k].grants[i], f.table[k].grants[i])
            && SameLease(Requested(f.table[k].grants[i], e.duration, e.logInterval, s.maximum), m.table[k].grants[i])
  {
    hide FindUnicastGrants, Requested, Grantable;
    StepKeepsSize(n, s, e);
    FindKeepsSize(n, s.hash, e.port, e.address, |n.table|, true);
    FindKeepsLeases(n, s.hash, e.port, e.address, |n.table|, k, i);
    var g := FindUnicastGrants(n, s.hash, e.port, e.address, |n.table|, true).1.table[k];
    SignalledKeepsLeases(g.grants[i := Requested(g.grants[i], e.duration, e.logInterval, s.maximum)]);
  }

  /** What a request changes in the table: nothing at all if no entry can be had; otherwise the entry given to the
      node, in the grant asked for, in the number of the signalling messages if one is granted, and in its time
      left if that was used up. */
  lemma HandleRequestEffect(n: Node, s: Setting, e: Event, k: nat)
    requires Granting(n, s) && e.Request? && ValidEvent(e) && e.message.Some? && k < |n.table|
    ensures var ((found, f), m) := (FindUnicastGrants(n, s.hash, e.port, e.address, |n.table|, true), Step(n, s, e));
            && |m.table| == |f.table| && m.index == f.index && |m.table[k].grants| == MAX_MESSAGE_INDEXED
            && (found != Some(k) ==> m.table[k] == f.table[k])
            && (found == Some(k) ==>
                  var (i, was, now) := (e.message.value, f.table[k], m.table[k]);
                  var granted := e.duration != 0 && e.logInterval >= was.grants[i].logMinInterval;
                  var asked := Requested(was.grants[i], e.duration, e.logInterval, s.maximum);
                  && now.portIdentity == was.portIdentity && now.transportAddress == was.transportAddress
                  && now.timeLeft == (if granted && was.timeLeft == 0 then (asked.timeLeft as int + 10) % 0x1_0000_0000
                                      else was.timeLeft)
                  && (forall j | 0 <= j < MAX_MESSAGE_INDEXED && j != SIGNALING_INDEXED ::
                        now.grants[j] == if j == i then asked else was.grants[j])
                  && var (x, y) := (if i == SIGNALING_INDEXED then asked else was.grants[SIGNALING_INDEXED],
                                    now.grants[SIGNALING_INDEXED]);
                     y == x.(sentSeqId := if granted then (x.sentSeqId as int + 1) % 0x1_0000 else x.sentSeqId))
  {
    hide FindUnicastGrants, Requested;
    StepKeepsSize(n, s, e);
    FindKeepsSize(n, s.hash, e.port, e.address, |n.table|, true);
  }

  /** What a cancel or an acknowledgement changes in the table: the grant it is about is cleared, by a cancel only
      if it was requested and is in force; an accepted cancel is answered under the next signalling number. */
  lemma ClearingEffect(n: Node, s: Setting, e: Event, k: nat)
    requires Granting(n, s) && (e.Cancel? || e.Acknowledge?) && ValidEvent(e) && e.message.Some? && k < |n.table|
    ensures var (found, m) := (FindUnicastGrants(n, s.hash, e.port, e.address, |n.table|, false).0, Step(n, s, e));
            && |m.table| == |n.table| && m.index == n.index && |m.table[k].grants| == MAX_MESSAGE_INDEXED
            && (found != Some(k) ==> m.table[k] == n.table[k])
            && (found == Some(k) ==>
                  var (i, was, now) := (e.message.value, n.table[k], m.table[k]);
                  var g := was.grants[i];
                  var clears := e.Acknowledge? || (g.requestable && g.requested && g.granted);
                  var cleared := g.(granted := false, requested := false, sentSeqId := 0, cancelCount := 0,
                                    timeLeft := 0, duration := 0, canceled := e.Cancel? && g.canceled);
                  && now == was.(grants := now.grants)
                  && now.grants[i] == (if clears then cleared else g)
                  && (forall j | 0 <= j < MAX_MESSAGE_INDEXED && j != i && j != SIGNALING_INDEXED ::
                        now.grants[j] == was.grants[j])
                  && (i != SIGNALING_INDEXED ==>
                        var (x, y) := (was.grants[SIGNALING_INDEXED], now.grants[SIGNALING_INDEXED]);
                        y == x.(sentSeqId := if clears && e.Cancel? then (x.sentSeqId as int + 1) % 0x1_0000
                                             else x.sentSeqId)))
  {
    hide FindUnicastGrants;
    StepKeepsSize(n, s, e);
  }

  /** From the request on: granted for `d` seconds, the lease ends with refresh number `d + 9`. */
  lemma GrantedLeaseEnds(n: Node, s: Setting, e: Event, k: nat, i: nat, events: seq<Event>)
    requires TableSound(n) && Granting(n, s) && 30 <= s.maximum <= 604800 && Refreshes(s.clockClass)
    requires e.Request? && ValidEvent(e) && Identified(n, e) && e.message == Some(i)
    requires FindUnicastGrants(n, s.hash, e.port, e.address, |n.table|, true).0 == Some(k) && k < s.count
    requires n.table[k].grants[i].requestable && Grantable(n.table[k].grants[i], e.duration, e.logInterval)
    requires WellSized(Step(n, s, e)) && |Step(n, s, e).table| == |n.table|
    requires forall t | 0 <= t < |events| :: ValidEvent(events[t])
    requires Untouched(Step(n, s, e), s, events, k, i)
    ensures Run(Step(n, s, e), s, events).table[k].grants[i].granted <==>
            Ticks(events) < Offered(e.duration, s.maximum) + 9
  {
    hide FindUnicastGrants, Untouched, Concerns, Identified, Grantable, Requested, Step, Run;
    RequestedAt(n, s, e, k, i);
    var g := FindUnicastGrants(n, s.hash, e.port, e.address, |n.table|, true).1.table[k].grants[i];
    SameGrantable(n.table[k].grants[i], g, e.duration, e.logInterval);
    FreshLease(g, e.duration, e.logInterval, s.maximum);
    RequestedTerms(g, e.duration, e.logInterval, s.maximum);
    LeaseIsBounded(Step(n, s, e), s, events, k, i);
  }

  lemma RequestedTerms(g: Grant, duration: uint32, logInterval: int8, maximum: uint32)
    ensures var (g', grants) := (Requested(g, duration, logInterval, maximum), Grantable(g, duration, logInterval));
            && g'.requested && g'.requestable == g.requestable
            && (grants ==> g'.granted && g'.duration == Offered(duration, maximum))
            && (!grants && !g.requestable ==> !g'.granted)
  {
  }

  /** A cancel by the same node undoes its request: the grant is no longer in force. */
  lemma CancelUndoesRequest(n: Node, s: Setting, e: Event, k: nat, i: nat)
    requires Granting(n, s) && e.Request? && ValidEvent(e) && e.message == Some(i)
    requires FindUnicastGrants(n, s.hash, e.port, e.address, |n.table|, true).0 == Some(k)
    requires n.table[k].grants[i].requestable && Grantable(n.table[k].grants[i], e.duration, e.logInterval)
    requires WellSized(Step(n, s, e)) && |Step(n, s, e).table| == |n.table|
    ensures var (m, c) := (Step(n, s, e), Cancel(e.port, e.address, e.message));
            && m.table[k].grants[i].granted
            && Concerns(m, s, c, k, i)
            && WellSized(Step(m, s, c))
            && !Step(m, s, c).table[k].grants[i].granted && Step(m, s, c).table[k].grants[i].timeLeft == 0
  {
    hide Masked, Slot, Scan, FirstFree, Grantable, Requested, FindUnicastGrants;
    RequestedAt(n, s, e, k, i);
    var f := FindUnicastGrants(n, s.hash, e.port, e.address, |n.table|, true).1;
    SameGrantable(n.table[k].grants[i], f.table[k].grants[i], e.duration, e.logInterval);
    NodeKeepsEntry(n, s.hash, e.port, e.address, |n.table|, false);
    var m := Step(n, s, e);
    RequestedTerms(f.table[k].grants[i], e.duration, e.logInterval, s.maximum);
    FoundByIdentity(f, m, s.hash, e.port, e.address, k);
    CancelAt(m, s, Cancel(e.port, e.address, e.message), k, i);
  }

  /** The grant that an accepted cancel was about, after it. */
  lemma CancelAt(n: Node, s: Setting, e: Event, k: nat, i: nat)
    requires Granting(n, s) && e.Cancel? && ValidEvent(e) && e.message == Some(i)
    requires FindUnicastGrants(n, s.hash, e.port, e.address, |n.table|, false).0 == Some(k)
    requires Cancelable(n.table[k].grants[i])
    ensures WellSized(Step(n, s, e)) && |Step(n, s, e).table| == |n.table|
    ensures !Step(n, s, e).table[k].grants[i].granted && Step(n, s, e).table[k].grants[i].timeLeft == 0
  {
    hide FindUnicastGrants;
    StepKeepsSize(n, s, e);
    SignalledKeepsLeases(n.table[k].grants);
  }

  lemma SameGrantable(g: Grant, g': Grant, duration: uint32, logInterval: int8)
    requires SameLease(g, g')
    ensures Grantable(g, duration, logInterval) == Grantable(g', duration, logInterval)
    ensures g'.requestable == g.requestable && g'.expired == g.expired
  {
  }

  /** Changes to the grants of an entry do not hide it from its node. */
  lemma FoundByIdentity(f: Node, m: Node, hash: Hash, port: PortIdentity, address: int32, k: nat)
    requires WellSized(f) && WellSized(m) && |m.table| == |f.table| && m.index == f.index && k < |f.table|
    requires m.table[k].portIdentity == f.table[k].portIdentity
    requires Lookup(f, hash, Masked(port, f.index.portMask)) == Some(k)
    ensures FindUnicastGrants(m, hash, port, address, |m.table|, false).0 == Some(k)
  {
    hide Masked, Slot, Scan, FirstFree;
  }

  // ---------------------------------------------------------------- leases that never end

  /** Refreshes reach the grant: its entry is among those refreshed, and its message type is requestable. */
  predicate Ages(n: Node, s: Setting, k: nat, i: nat)
    requires WellSized(n) && k < |n.table| && i < MAX_MESSAGE_INDEXED
  {
    n.table[k].grants[i].requestable && k < s.count && Refreshes(s.clockClass)
  }

  /** A refresh that does not reach the grant leaves it as it is. */
  lemma TickKeepsLease(n: Node, s: Setting, k: nat, i: nat)
    requires Granting(n, s) && k < |n.table| && i < MAX_MESSAGE_INDEXED && !Ages(n, s, k, i)
    ensures SameLease(n.table[k].grants[i], Step(n, s, Tick).table[k].grants[i])
  {
    hide RefreshGrant, RefreshEntry;
    if k < s.count && Refreshes(s.clockClass) {
      RefreshAt(n, s.clockClass, s.count, k, i);
      NotRequestable(n.table[k].grants[i]);
    }
  }

  /** A lease outside the refreshed entries, of a clock that may be master or slave, or of a message type
      that is not requestable, stays as it is over every run in which no event concerns it: it never ends
      by itself. */
  lemma {:induction false} UnrefreshedLeaseStays(n: Node, s: Setting, events: seq<Event>, k: nat, i: nat)
    requires Granting(n, s) && forall t | 0 <= t < |events| :: ValidEvent(events[t])
    requires k < |n.table| && i < MAX_MESSAGE_INDEXED && !Ages(n, s, k, i)
    requires Untouched(n, s, events, k, i)
    ensures SameLease(n.table[k].grants[i], Run(n, s, events).table[k].grants[i])
    decreases |events|
  {
    hide Concerns, Step;
    if events != [] {
      StepKeepsSize(n, s, events[0]);
      if events[0].Tick? {
        TickKeepsLease(n, s, k, i);
      } else {
        OthersKeepLease(n, s, events[0], k, i);
      }
      UnrefreshedLeaseStays(Step(n, s, events[0]), s, events[1..], k, i);
    }
  }

  /** When exactly a lease that no event concerns is still in force. */
  lemma LeaseEndsIff(n: Node, s: Setting, events: seq<Event>, k: nat, i: nat)
    requires Granting(n, s) && forall t | 0 <= t < |events| :: ValidEvent(events[t])
    requires k < |n.table| && i < MAX_MESSAGE_INDEXED
    requires LeaseSound(n.table[k].grants[i]) && Untouched(n, s, events, k, i)
    ensures var g := n.table[k].grants[i];
            Run(n, s, events).table[k].grants[i].granted <==>
              g.granted && (Ages(n, s, k, i) ==> Ticks(events) < RefreshesLeft(g))
  {
    hide Untouched, Step;
    LeaseInForce(n.table[k].grants[i]);
    if Ages(n, s, k, i) {
      LeaseIsBounded(n, s, events, k, i);
    } else {
      UnrefreshedLeaseStays(n, s, events, k, i);
    }
  }

  /** What an event says about a grant of a message type that is not requestable. A cancel says nothing. */
  function Verdict(n: Node, s: Setting, e: Event, k: nat, i: nat): Option<bool>
    requires WellSized(n) && k < |n.table| && i < MAX_MESSAGE_INDEXED
  {
    if !Concerns(n, s, e, k, i) || e.Cancel? then None
    else Some(e.Request? && Grantable(n.table[k].grants[i], e.duration, e.logInterval))
  }

  /** The last of these verdicts in a run, or else what held before it. */
  function LastVerdict(n: Node, s: Setting, events: seq<Event>, k: nat, i: nat, before: bool): bool
    requires Granting(n, s) && forall t | 0 <= t < |events| :: ValidEvent(events[t])
    requires k < |n.table| && i < MAX_MESSAGE_INDEXED
    decreases |events|
  {
    if events == [] then before
    else
      StepKeepsSize(n, s, events[0]);
      var v := Verdict(n, s, events[0], k, i);
      LastVerdict(Step(n, s, events[0]), s, events[1..], k, i, if v.Some? then v.value else before)
  }

  lemma NotRequestableStep(n: Node, s: Setting, e: Event, k: nat, i: nat)
    requires Granting(n, s) && ValidEvent(e) && k < |n.table| && i < MAX_MESSAGE_INDEXED
    requires !n.table[k].grants[i].requestable
    ensures WellSized(Step(n, s, e)) && |Step(n, s, e).table| == |n.table|
    ensures var (g, v) := (Step(n, s, e).table[k].grants[i], Verdict(n, s, e, k, i));
            !g.requestable && g.granted == if v.Some? then v.value else n.table[k].grants[i].granted
  {
    hide FindUnicastGrants, Requested, Grantable, Refresh, HandleRequest;
    StepKeepsSize(n, s, e);
    if e.Tick? {
      TickKeepsLease(n, s, k, i);
    } else if !Concerns(n, s, e, k, i) {
      OthersKeepLease(n, s, e, k, i);
    } else if e.Request? {
      RequestedAt(n, s, e, k, i);
      var g := FindUnicastGrants(n, s.hash, e.port, e.address, |n.table|, true).1.table[k].grants[i];
      SameGrantable(n.table[k].grants[i], g, e.duration, e.logInterval);
      RequestedTerms(g, e.duration, e.logInterval, s.maximum);
    }
  }

  /** A message type that is not requestable is granted like any other, and over every run the grant is in
      force exactly if the last request or acknowledgement about it was a request that asked for some time
      and not for too high a rate. Neither refreshes nor cancels end it. */
  lemma {:induction false} NotRequestableLease(n: Node, s: Setting, events: seq<Event>, k: nat, i: nat)
    requires Granting(n, s) && forall t | 0 <= t < |events| :: ValidEvent(events[t])
    requires k < |n.table| && i < MAX_MESSAGE_INDEXED && !n.table[k].grants[i].requestable
    ensures Run(n, s, events).table[k].grants[i].granted <==>
            LastVerdict(n, s, events, k, i, n.table[k].grants[i].granted)
    decreases |events|
  {
    hide Step, Verdict;
    if events != [] {
      NotRequestableStep(n, s, events[0], k, i);
      NotRequestableLease(Step(n, s, events[0]), s, events[1..], k, i);
    }
  }

  // ---------------------------------------------------------------- live leases are protected

  predicate LiveGrant(g: Grant) {
    g.requestable && g.granted && g.timeLeft > 5
  }

  predicate Live(e: Entry) {
    exists i :: 0 <= i < |e.grants| && LiveGrant(e.grants[i])
  }

  /** An entry with a live lease is not free, and all its leases are sound. */
  predicate EntrySound(e: Entry) {
    && (Live(e) ==> e.timeLeft != 0 && e.portIdentity != EMPTY_PORT)
    && forall i | 0 <= i < |e.grants| :: LeaseSound(e.grants[i])
  }

  predicate TableSound(n: Node) {
    WellSized(n) && forall k | 0 <= k < |n.table| :: EntrySound(n.table[k])
  }

  /** The node has an identity. */
  predicate Identified(n: Node, e: Event) {
    e.Request? ==> Masked(e.port, n.index.portMask) != EMPTY_PORT
  }

  lemma {:induction false} MaxTimeCovers(grants: seq<Grant>, k: nat, i: nat)
    requires i < k <= |grants| && LiveGrant(grants[i])
    ensures MaxTime(grants, k) >= grants[i].timeLeft > 0
  {
    hide FirstInForce;
    if i < k - 1 {
      MaxTimeCovers(grants, k - 1, i);
    }
  }

  lemma RefreshGrantSound(g: Grant)
    requires LeaseSound(g)
    ensures LeaseSound(RefreshGrant(g)) && (LiveGrant(RefreshGrant(g)) ==> LiveGrant(g))
  {
  }

  lemma SameLeaseSound(g: Grant, g': Grant)
    requires SameLease(g, g')
    ensures LeaseSound(g) == LeaseSound(g') && LiveGrant(g) == LiveGrant(g')
  {
  }

  lemma RefreshEntrySound(e: Entry)
    requires |e.grants| == MAX_MESSAGE_INDEXED && EntrySound(e)
    ensures EntrySound(RefreshEntry(e))
  {
    hide RefreshGrant, RefreshGrants, MaxTime, LeaseSound, LiveGrant, SameLease;
    var e' := RefreshEntry(e);
    forall i | 0 <= i < |e.grants|
      ensures LeaseSound(e'.grants[i]) && (LiveGrant(e'.grants[i]) ==> LiveGrant(e.grants[i]))
    {
      RefreshGrantSound(e.grants[i]);
      RefreshGrantsAt(e.grants, MAX_MESSAGE_INDEXED, i);
      SameLeaseSound(RefreshGrant(e.grants[i]), e'.grants[i]);
    }
    if Live(e') {
      var i :| 0 <= i < |e'.grants| && LiveGrant(e'.grants[i]);
      MaxTimeCovers(e.grants, |e.grants|, i);
    }
  }

  /** Giving an entry to an identified node keeps it sound. */
  lemma FindKeepsSound(n: Node, hash: Hash, port: PortIdentity, address: int32)
    requires TableSound(n) && Masked(port, n.index.portMask) != EMPTY_PORT
    ensures var (found, m) := FindUnicastGrants(n, hash, port, address, |n.table|, true);
            && TableSound(m)
            && (found.Some? ==> m.table[found.value].portIdentity != EMPTY_PORT)
  {
    hide Masked, Slot, Scan, FirstFree, LiveGrant;
    FindKeepsSize(n, hash, port, address, |n.table|, true);
    var m := FindUnicastGrants(n, hash, port, address, |n.table|, true).1;
    forall k | 0 <= k < |m.table| ensures EntrySound(m.table[k]) {
      ResetSequencesSound(n.table[k], m.table[k]);
    }
  }

  lemma ResetSequencesSound(e: Entry, e': Entry)
    requires EntrySound(e) && e'.timeLeft == e.timeLeft && |e'.grants| == |e.grants|
    requires e'.portIdentity == e.portIdentity || e'.portIdentity != EMPTY_PORT
    requires forall i | 0 <= i < |e.grants| :: SameLease(e.grants[i], e'.grants[i])
    ensures EntrySound(e')
  {
    if Live(e') {
      var i :| 0 <= i < |e'.grants| && LiveGrant(e'.grants[i]);
      assert LiveGrant(e.grants[i]);
    }
  }

  lemma RequestedSound(g: Grant, duration: uint32, logInterval: int8, maximum: uint32)
    requires LeaseSound(g) && 30 <= maximum <= 604800
    ensures var g' := Requested(g, duration, logInterval, maximum);
            && LeaseSound(g')
            && (Grantable(g, duration, logInterval) ==> 0 < g'.timeLeft <= 604810)
            && (!Grantable(g, duration, logInterval) ==> LiveGrant(g') ==> LiveGrant(g))
  {
  }

  lemma RequestSound(n: Node, s: Setting, e: Event)
    requires TableSound(n) && e.Request? && ValidEvent(e) && Identified(n, e) && 30 <= s.maximum <= 604800
    requires Granting(n, s)
    ensures TableSound(Step(n, s, e))
  {
    hide Requested, EntrySound, Grantable, FindUnicastGrants, Masked, Signalled;
    StepKeepsSize(n, s, e);
    FindKeepsSound(n, s.hash, e.port, e.address);
    var (found, m) := FindUnicastGrants(n, s.hash, e.port, e.address, |n.table|, true);
    if found.Some? && e.message.Some? {
      var (entry, i) := (m.table[found.value], e.message.value);
      var g := Requested(entry.grants[i], e.duration, e.logInterval, s.maximum);
      var granted := Grantable(entry.grants[i], e.duration, e.logInterval);
      var timeLeft := if granted && entry.timeLeft == 0 then (g.timeLeft as int + 10) % 0x1_0000_0000
                      else entry.timeLeft;
      var answered := entry.(grants := entry.grants[i := g], timeLeft := timeLeft);
      AnsweredSound(entry, i, e.duration, e.logInterval, s.maximum, answered);
      SignalledKeepsLeases(answered.grants);
      ResetSequencesSound(answered, answered.(grants := Signalled(answered.grants)));
    }
  }

  /** The entry between the answer and the message that carries it. */
  lemma AnsweredSound(e: Entry, i: nat, duration: uint32, logInterval: int8, maximum: uint32, e': Entry)
    requires EntrySound(e) && e.portIdentity != EMPTY_PORT && i < |e.grants| && 30 <= maximum <= 604800
    requires var g := Requested(e.grants[i], duration, logInterval, maximum);
             e' == e.(grants := e.grants[i := g],
                      timeLeft := if Grantable(e.grants[i], duration, logInterval) && e.timeLeft == 0
                                  then (g.timeLeft as int + 10) % 0x1_0000_0000 else e.timeLeft)
    ensures EntrySound(e')
  {
    hide Requested, LiveGrant, LeaseSound, Grantable;
    RequestedSound(e.grants[i], duration, logInterval, maximum);
    if Live(e') && !Grantable(e.grants[i], duration, logInterval) {
      var j :| 0 <= j < |e'.grants| && LiveGrant(e'.grants[j]);
      assert LiveGrant(e.grants[j]);
    }
  }

  lemma CanceledSound(g: Grant)
    requires LeaseSound(g)
    ensures LeaseSound(Canceled(g)) && (LiveGrant(Canceled(g)) ==> LiveGrant(g))
  {
  }

  lemma CancelSound(n: Node, s: Setting, e: Event)
    requires TableSound(n) && Granting(n, s) && e.Cancel? && ValidEvent(e)
    ensures TableSound(Step(n, s, e))
  {
    hide Canceled, EntrySound, FindUnicastGrants, Masked, Signalled;
    StepKeepsSize(n, s, e);
    var found := FindUnicastGrants(n, s.hash, e.port, e.address, |n.table|, false).0;
    if found.Some? && e.message.Some? {
      var entry := n.table[found.value];
      SignalledKeepsLeases(entry.grants);
      var acknowledged := entry.(grants := Signalled(entry.grants));
      ResetSequencesSound(entry, acknowledged);
      CanceledEntrySound(acknowledged, e.message.value);
    }
  }

  lemma CanceledEntrySound(e: Entry, i: nat)
    requires EntrySound(e) && i < |e.grants|
    ensures EntrySound(e.(grants := e.grants[i := Canceled(e.grants[i])]))
  {
    hide Canceled, LiveGrant, LeaseSound;
    CanceledSound(e.grants[i]);
    var e' := e.(grants := e.grants[i := Canceled(e.grants[i])]);
    if Live(e') {
      var j :| 0 <= j < |e'.grants| && LiveGrant(e'.grants[j]);
      assert LiveGrant(e.grants[j]);
    }
  }

  lemma AcknowledgeSound(n: Node, s: Setting, e: Event)
    requires TableSound(n) && Granting(n, s) && e.Acknowledge? && ValidEvent(e)
    ensures TableSound(Step(n, s, e))
  {
    hide EntrySound, FindUnicastGrants, Masked;
    StepKeepsSize(n, s, e);
    var found := FindUnicastGrants(n, s.hash, e.port, e.address, |n.table|, false).0;
    if found.Some? && e.message.Some? {
      AcknowledgedEntrySound(n.table[found.value], e.message.value);
    }
  }

  lemma AcknowledgedEntrySound(e: Entry, i: nat)
    requires EntrySound(e) && i < |e.grants|
    ensures EntrySound(e.(grants := e.grants[i := Acknowledged(e.grants[i])]))
  {
    var e' := e.(grants := e.grants[i := Acknowledged(e.grants[i])]);
    if Live(e') {
      var j :| 0 <= j < |e'.grants| && LiveGrant(e'.grants[j]);
      assert LiveGrant(e.grants[j]);
    }
  }

  lemma RefreshSound(n: Node, s: Setting)
    requires TableSound(n) && Granting(n, s)
    ensures TableSound(Step(n, s, Tick))
  {
    hide RefreshEntry, EntrySound;
    StepKeepsSize(n, s, Tick);
    forall k | 0 <= k < s.count ensures EntrySound(RefreshEntry(n.table[k])) {
      RefreshEntrySound(n.table[k]);
    }
  }

  lemma StepKeepsSound(n: Node, s: Setting, e: Event)
    requires TableSound(n) && Granting(n, s) && ValidEvent(e) && Identified(n, e) && 30 <= s.maximum <= 604800
    ensures TableSound(Step(n, s, e))
  {
    hide Step;
    match e
    case Request(_, _, _, _, _) => RequestSound(n, s, e);
    case Cancel(_, _, _) => CancelSound(n, s, e);
    case Acknowledge(_, _, _) => AcknowledgeSound(n, s, e);
    case Tick => RefreshSound(n, s);
  }

  lemma {:induction false} RunKeepsSound(n: Node, s: Setting, events: seq<Event>)
    requires TableSound(n) && Granting(n, s) && 30 <= s.maximum <= 604800
    requires forall t | 0 <= t < |events| :: ValidEvent(events[t]) && Identified(n, events[t])
    ensures TableSound(Run(n, s, events))
    ensures Run(n, s, events).index.portMask == n.index.portMask
    decreases |events|
  {
    hide Step, EntrySound, Masked;
    if events != [] {
      StepKeepsSize(n, s, events[0]);
      StepKeepsSound(n, s, events[0]);
      RunKeepsSound(Step(n, s, events[0]), s, events[1..]);
    }
  }

  // ---------------------------------------------------------------- entries that are never freed

  lemma {:induction false} MaxTimeZeroIff(grants: seq<Grant>, k: nat)
    requires k <= |grants|
    ensures MaxTime(grants, k) == 0 <==>
            FirstInForce(grants) == 0 && forall i | 0 <= i < k :: !LiveGrant(grants[i])
  {
    hide FirstInForce;
    if k > 0 {
      MaxTimeZeroIff(grants, k - 1);
    }
  }

  /** A refresh frees an entry exactly when the first grant in force has no time left, or there is none,
      and no grant of a requestable message type has more than 5 seconds. */
  lemma EntryFreedIff(e: Entry)
    requires |e.grants| == MAX_MESSAGE_INDEXED
    ensures RefreshEntry(e).timeLeft == 0 <==> FirstInForce(e.grants) == 0 && !Live(e)
    ensures RefreshEntry(e).timeLeft == 0 ==> RefreshEntry(e).portIdentity == ALL_ONES_PORT
    ensures RefreshEntry(e).timeLeft != 0 ==> RefreshEntry(e).portIdentity == e.portIdentity
  {
    hide RefreshGrants, FirstInForce, LiveGrant;
    MaxTimeZeroIff(e.grants, |e.grants|);
  }

  /** The first grant in force is one that refreshes do not reach, with time left. */
  predicate Stuck(e: Entry, i: nat) {
    && i < |e.grants| && e.timeLeft > 0 && e.portIdentity != EMPTY_PORT
    && (forall j | 0 <= j < i :: !e.grants[j].granted)
    && !e.grants[i].requestable && e.grants[i].granted && !e.grants[i].expired && e.grants[i].timeLeft > 0
  }

  lemma {:induction false} FirstIs(grants: seq<Grant>, i: nat)
    requires i < |grants| && grants[i].granted && !grants[i].expired
    requires forall j | 0 <= j < i :: !grants[j].granted || grants[j].expired
    ensures FirstInForce(grants) == grants[i].timeLeft
  {
    if i > 0 {
      FirstIs(grants[1..], i - 1);
    }
  }

  lemma StuckRefreshed(e: Entry, i: nat)
    requires |e.grants| == MAX_MESSAGE_INDEXED && Stuck(e, i)
    ensures Stuck(RefreshEntry(e), i)
  {
    hide RefreshGrant, RefreshGrants, FirstInForce, MaxTime;
    FirstIs(e.grants, i);
    EntryFreedIff(e);
    forall j | 0 <= j <= i
      ensures SameLease(RefreshGrant(e.grants[j]), RefreshEntry(e).grants[j])
    {
      RefreshGrantsAt(e.grants, MAX_MESSAGE_INDEXED, j);
    }
    forall j | 0 <= j < i ensures !RefreshEntry(e).grants[j].granted {
      NotRequestable(e.grants[j]);
    }
    NotRequestable(e.grants[i]);
  }

  /** Only a refresh takes the time or the identity away from an entry that is taken. */
  lemma OthersKeepTaken(n: Node, s: Setting, e: Event, k: nat)
    requires Granting(n, s) && ValidEvent(e) && !e.Tick? && Identified(n, e)
    requires k < |n.table| && n.table[k].timeLeft > 0 && n.table[k].portIdentity != EMPTY_PORT
    ensures var n' := Step(n, s, e);
            && |n'.table| == |n.table|
            && n'.table[k].timeLeft == n.table[k].timeLeft && n'.table[k].portIdentity != EMPTY_PORT
  {
    hide Masked, Slot, Scan, FirstFree, Requested, Grantable, Canceled, Acknowledged, Cancelable;
    StepKeepsSize(n, s, e);
  }

  /** No event of the run is about message `i` of the entry, or about one before it. */
  predicate UntouchedUpTo(n: Node, s: Setting, events: seq<Event>, k: nat, i: nat)
    requires Granting(n, s) && forall t | 0 <= t < |events| :: ValidEvent(events[t])
    decreases |events|
  {
    events == [] ||
    (&& (forall j | 0 <= j <= i :: !Concerns(n, s, events[0], k, j))
     && (StepKeepsSize(n, s, events[0]); UntouchedUpTo(Step(n, s, events[0]), s, events[1..], k, i)))
  }

  lemma StuckStep(n: Node, s: Setting, e: Event, k: nat, i: nat)
    requires Granting(n, s) && ValidEvent(e) && Identified(n, e) && k < |n.table| && Stuck(n.table[k], i)
    requires forall j | 0 <= j <= i :: !Concerns(n, s, e, k, j)
    ensures |Step(n, s, e).table| == |n.table| && Stuck(Step(n, s, e).table[k], i)
  {
    hide Concerns, HandleRequest, HandleCancel, HandleAcknowledge, RefreshEntry, Masked;
    StepKeepsSize(n, s, e);
    if e.Tick? {
      StuckRefreshed(n.table[k], i);
    } else {
      OthersKeepTaken(n, s, e, k);
      forall j | 0 <= j <= i ensures SameLease(n.table[k].grants[j], Step(n, s, e).table[k].grants[j]) {
        OthersKeepLease(n, s, e, k, j);
      }
    }
  }

  /** An entry whose first grant in force is of a message type that is not requestable is never freed: over
      every run without an event about that grant or an earlier one the entry is not free. */
  lemma {:induction false} StuckEntryStays(n: Node, s: Setting, events: seq<Event>, k: nat, i: nat)
    requires Granting(n, s) && forall t | 0 <= t < |events| :: ValidEvent(events[t]) && Identified(n, events[t])
    requires k < |n.table| && Stuck(n.table[k], i) && UntouchedUpTo(n, s, events, k, i)
    ensures Stuck(Run(n, s, events).table[k], i) && !IsFree(Run(n, s, events).table[k])
    decreases |events|
  {
    hide Step, Concerns, Masked;
    if events != [] {
      StepKeepsSize(n, s, events[0]);
      StuckStep(n, s, events[0], k, i);
      StuckEntryStays(Step(n, s, events[0]), s, events[1..], k, i);
    }
  }

  // ---------------------------------------------------------------- entries are used again

  /** Every lease of the entry ends after at most this many refreshes. */
  predicate EndsWithin(e: Entry, ticks: nat) {
    |e.grants| == MAX_MESSAGE_INDEXED &&
    forall i | 0 <= i < |e.grants| ::
      && LeaseSound(e.grants[i]) && RefreshesLeft(e.grants[i]) <= ticks
      && (e.grants[i].granted ==> e.grants[i].requestable)
  }

  lemma {:induction false} NothingInForce(grants: seq<Grant>)
    requires forall i | 0 <= i < |grants| :: !grants[i].granted
    ensures FirstInForce(grants) == 0
  {
    if grants != [] {
      NothingInForce(grants[1..]);
    }
  }

  lemma RefreshEndsWithin(e: Entry, ticks: nat)
    requires EndsWithin(e, ticks)
    ensures EndsWithin(RefreshEntry(e), if ticks == 0 then 0 else ticks - 1)
    ensures ticks == 0 ==> RefreshEntry(e).timeLeft == 0
  {
    hide RefreshEntry, RefreshGrant, RefreshGrants, LeaseSound, FirstInForce;
    RefreshedWithin(e, 0, ticks);
    forall i | 0 <= i < |e.grants|
      ensures var g := RefreshEntry(e).grants[i];
              && LeaseSound(g) && (g.granted ==> g.requestable)
              && RefreshesLeft(g) <= if ticks == 0 then 0 else ticks - 1
    {
      RefreshedWithin(e, i, ticks);
    }
    if ticks == 0 {
      forall i | 0 <= i < |e.grants| ensures !e.grants[i].granted {
        LeaseInForce(e.grants[i]);
      }
      NothingInForce(e.grants);
      EntryFreedIff(e);
    }
  }

  lemma RefreshedWithin(e: Entry, i: nat, ticks: nat)
    requires EndsWithin(e, ticks) && i < |e.grants|
    ensures |RefreshEntry(e).grants| == |e.grants|
    ensures var g := RefreshEntry(e).grants[i];
            && LeaseSound(g) && (g.granted ==> g.requestable)
            && RefreshesLeft(g) <= if ticks == 0 then 0 else ticks - 1
  {
    hide RefreshGrant, RefreshGrants;
    var g := e.grants[i];
    RefreshGrantsAt(e.grants, MAX_MESSAGE_INDEXED, i);
    LeaseInForce(g);
    if g.requestable {
      RefreshUsesLease(g);
    } else {
      NotRequestable(g);
    }
  }

  /** No event of the run is about a grant of the entry. */
  predicate UntouchedEntry(n: Node, s: Setting, events: seq<Event>, k: nat)
    requires Granting(n, s) && forall t | 0 <= t < |events| :: ValidEvent(events[t])
  {
    UntouchedUpTo(n, s, events, k, MAX_MESSAGE_INDEXED - 1)
  }

  lemma OthersKeepEntryTime(n: Node, s: Setting, e: Event, k: nat)
    requires Granting(n, s) && ValidEvent(e) && !e.Tick? && k < |n.table|
    requires forall i | 0 <= i < MAX_MESSAGE_INDEXED :: !Concerns(n, s, e, k, i)
    ensures |Step(n, s, e).table| == |n.table| && Step(n, s, e).table[k].timeLeft == n.table[k].timeLeft
  {
    hide Masked, Slot, Scan, FirstFree, Requested, Grantable, Canceled, Acknowledged, Cancelable;
    StepKeepsSize(n, s, e);
    if e.Request? && e.message.Some? {
      assert !Concerns(n, s, e, k, e.message.value);
    }
  }

  lemma EndsWithinStep(n: Node, s: Setting, e: Event, k: nat, ticks: nat)
    requires Granting(n, s) && ValidEvent(e) && Refreshes(s.clockClass) && k < s.count && EndsWithin(n.table[k], ticks)
    requires forall i | 0 <= i < MAX_MESSAGE_INDEXED :: !Concerns(n, s, e, k, i)
    ensures |Step(n, s, e).table| == |n.table|
    ensures var e' := Step(n, s, e).table[k];
            if e.Tick? then EndsWithin(e', if ticks == 0 then 0 else ticks - 1) && (ticks == 0 ==> e'.timeLeft == 0)
            else EndsWithin(e', ticks) && e'.timeLeft == n.table[k].timeLeft
  {
    hide Concerns, HandleRequest, HandleCancel, HandleAcknowledge, RefreshEntry;
    StepKeepsSize(n, s, e);
    if e.Tick? {
      RefreshEndsWithin(n.table[k], ticks);
    } else {
      OthersKeepEntryTime(n, s, e, k);
      forall i | 0 <= i < MAX_MESSAGE_INDEXED
        ensures SameLease(n.table[k].grants[i], Step(n, s, e).table[k].grants[i])
      {
        OthersKeepLease(n, s, e, k, i);
      }
    }
  }

  lemma {:induction false} EntryRunsOut(n: Node, s: Setting, events: seq<Event>, k: nat, ticks: nat)
    requires Granting(n, s) && forall t | 0 <= t < |events| :: ValidEvent(events[t])
    requires Refreshes(s.clockClass) && k < s.count && EndsWithin(n.table[k], ticks) && UntouchedEntry(n, s, events, k)
    requires Ticks(events) > ticks || (ticks == 0 && n.table[k].timeLeft == 0)
    ensures Run(n, s, events).table[k].timeLeft == 0
    decreases |events|
  {
    hide Step, Concerns, EndsWithin;
    if events != [] {
      StepKeepsSize(n, s, events[0]);
      EndsWithinStep(n, s, events[0], k, ticks);
      EntryRunsOut(Step(n, s, events[0]), s, events[1..], k,
                   if events[0].Tick? && ticks > 0 then ticks - 1 else ticks);
    }
  }

  /** When all leases of an entry have run out and one more refresh took place, the entry has no time left,
      and a new node, whose identity and address nobody has, is given it or an earlier one. */
  lemma EntryIsUsedAgain(n: Node, s: Setting, events: seq<Event>, k: nat, ticks: nat, port: PortIdentity,
                         address: int32)
    requires Granting(n, s) && forall t | 0 <= t < |events| :: ValidEvent(events[t])
    requires Refreshes(s.clockClass) && k < s.count && EndsWithin(n.table[k], ticks) && UntouchedEntry(n, s, events, k)
    requires Ticks(events) > ticks
    ensures var n' := Run(n, s, events);
            var id := Masked(port, n'.index.portMask);
            n'.table[k].timeLeft == 0 &&
            ((forall j | 0 <= j < |n'.table| :: !Matches(n'.table[j], id, address)) ==>
               var (found, m) := FindUnicastGrants(n', s.hash, port, address, |n'.table|, true);
               && found.Some? && found.value <= k
               && m.table[found.value].portIdentity == id && m.table[found.value].transportAddress == address)
  {
    hide Masked, Slot, Step, Concerns, EndsWithin, Scan, FirstFree;
    EntryRunsOut(n, s, events, k, ticks);
    var n' := Run(n, s, events);
    FoundIff(n', s.hash, port, address, |n'.table|, true);
    FirstFreeIsFirst(n'.table, 0, |n'.table|);
  }

  /** A table after initialisation on a master: no grant, nothing to age. */
  predicate Initialised(n: Node) {
    && WellSized(n)
    && forall k | 0 <= k < |n.table| :: forall i | 0 <= i < |n.table[k].grants| ::
         var g := n.table[k].grants[i];
         !g.granted && !g.canceled && !g.expired && g.cancelCount == 0 && g.timeLeft == 0
  }

  /** After every run from an initialised table, an entry with a lease of more than 5 seconds is given
      only to the node that has its identity or its address. */
  lemma LiveLeaseIsProtected(start: Node, s: Setting, events: seq<Event>, port: PortIdentity, address: int32,
                             update: bool, k: nat)
    requires Initialised(start) && Granting(start, s) && 30 <= s.maximum <= 604800
    requires forall t | 0 <= t < |events| :: ValidEvent(events[t]) && Identified(start, events[t])
    requires var n := Run(start, s, events);
             k < |n.table| && Live(n.table[k]) &&
             FindUnicastGrants(n, s.hash, port, address, |n.table|, update).0 == Some(k)
    ensures var n := Run(start, s, events);
            Matches(n.table[k], Masked(port, start.index.portMask), address)
  {
    hide Step, Masked, FirstFree, Scan, Slot;
    InitialisedIsSound(start);
    RunKeepsSound(start, s, events);
    assert EntrySound(Run(start, s, events).table[k]);
  }

  lemma InitialisedIsSound(n: Node)
    requires Initialised(n)
    ensures TableSound(n)
  {
  }
}
