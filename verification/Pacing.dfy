/** Rate division for granted unicast destinations: every round of `issueSync` or `issueAnnounce` goes over
    the grant table, and a modulo counter per grant divides the port's rate down to the granted one. */
module Pacing {
  import opened PtpTypes
  import opened Grants
  import opened Division

  /** How many rounds of the port one granted interval takes. */
  function Ratio(g: Grant, portInterval: int8): (n: nat)
    ensures n > 0
  {
    if g.logInterval > portInterval then Pow2(g.logInterval - portInterval) else 1
  }

  /** The powers of two that the code's 32-bit counter can divide by. */
  predicate Divisible(g: Grant, portInterval: int8) {
    g.logInterval - portInterval <= 31
  }

  lemma {:induction false} Pow2Bound(k: nat)
    requires k <= 31
    ensures Pow2(k) <= 0x8000_0000
    decreases 31 - k
  {
    if k == 31 {
      assert Pow2(31) == 0x8000_0000 by { Pow2Exact(); }
    } else {
      Pow2Bound(k + 1);
    }
  }

  lemma Pow2Exact()
    ensures Pow2(31) == 0x8000_0000
  {
    assert Pow2(8) == 256;
    assert Pow2(16) == 65536;
    assert Pow2(24) == 0x100_0000;
  }

  lemma RatioFits(g: Grant, portInterval: int8)
    requires Divisible(g, portInterval)
    ensures Ratio(g, portInterval) <= 0x8000_0000
  {
    if g.logInterval > portInterval {
      Pow2Bound(g.logInterval - portInterval);
    }
  }

  /** One grant in one round: the grant after it, and the sequence number if a message is sent. While a
      leap second passes, Sync messages are held back although the counter moves on. */
  function Round(g: Grant, portInterval: int8, paused: bool): (r: (Grant, Option<uint16>))
    requires Divisible(g, portInterval)
  {
    var n := Ratio(g, portInterval);
    var divided := g.logInterval > portInterval;
    RatioFits(g, portInterval);
    var ok := !divided || g.intervalCounter % n == 0;
    var h := if divided then g.(intervalCounter := g.intervalCounter % n + 1) else g;
    if g.granted && ok && !paused then (h.(sentSeqId := (g.sentSeqId as int + 1) % 0x1_0000), Some(g.sentSeqId))
    else (h, None)
  }

  /** A message is due: its grant is in force, the round is not paused, and the counter is at a multiple of
      the ratio, if there is one. */
  predicate IsDue(g: Grant, portInterval: int8, paused: bool) {
    && g.granted && !paused
    && (g.logInterval <= portInterval || g.intervalCounter % Pow2(g.logInterval - portInterval) == 0)
  }

  /** Exactly when a message goes out, and under which number; the counter of a divided rate moves on in any
      case, and nothing else about the grant changes. */
  lemma SendsIffDue(g: Grant, portInterval: int8, paused: bool)
    requires Divisible(g, portInterval)
    ensures var (g', sent) := Round(g, portInterval, paused);
            var next := (g.sentSeqId as int + 1) % 0x1_0000;
            && sent == (if IsDue(g, portInterval, paused) then Some(g.sentSeqId) else None)
            && g'.sentSeqId == (if IsDue(g, portInterval, paused) then next else g.sentSeqId)
            && (g.logInterval <= portInterval ==> g'.intervalCounter == g.intervalCounter)
            && (g.logInterval > portInterval ==>
                  g'.intervalCounter == g.intervalCounter % Pow2(g.logInterval - portInterval) + 1)
            && g' == g.(sentSeqId := g'.sentSeqId, intervalCounter := g'.intervalCounter)
  {
    hide Pow2;
  }

  // ---------------------------------------------------------------- runs of one grant

  datatype Event = Send | Pause | Renew(duration: uint32, logInterval: int8, maximum: uint32) | Age

  /** The grant stays in force on the same terms: renewals ask for the same interval, ageing does not reach
      the expiry, and no round is paused. */
  predicate KeepsTerms(g: Grant, e: Event) {
    g.granted && g.requestable &&
    match e
    case Send => true
    case Pause => false
    case Renew(duration, logInterval, maximum) =>
      Grantable(g, duration, logInterval) && OfferedInterval(g, logInterval) == g.logInterval
    case Age => g.timeLeft > 5 && !g.canceled && !g.expired
  }

  function Step(g: Grant, portInterval: int8, e: Event): (r: (Grant, Option<uint16>))
    requires Divisible(g, portInterval)
  {
    match e
    case Send => Round(g, portInterval, false)
    case Pause => Round(g, portInterval, true)
    case Renew(duration, logInterval, maximum) => (Requested(g, duration, logInterval, maximum), None)
    case Age => (RefreshGrant(g), None)
  }

  predicate AllKeepTerms(g: Grant, portInterval: int8, events: seq<Event>)
    requires Divisible(g, portInterval)
    decreases |events|
  {
    events == [] ||
    (KeepsTerms(g, events[0]) &&
     (StepKeepsTerms(g, portInterval, events[0]);
      AllKeepTerms(Step(g, portInterval, events[0]).0, portInterval, events[1..])))
  }

  lemma StepKeepsTerms(g: Grant, portInterval: int8, e: Event)
    requires Divisible(g, portInterval) && KeepsTerms(g, e)
    ensures var g' := Step(g, portInterval, e).0;
            && g'.logInterval == g.logInterval && g'.granted && g'.requestable && Divisible(g', portInterval)
            && (e != Send ==> g'.intervalCounter == g.intervalCounter && g'.sentSeqId == g.sentSeqId)
  {
  }

  function Rounds(events: seq<Event>): nat
    decreases |events|
  {
    if events == [] then 0 else (if events[0] == Send then 1 else 0) + Rounds(events[1..])
  }

  /** The sequence numbers of the messages sent. */
  function Sent(g: Grant, portInterval: int8, events: seq<Event>): seq<uint16>
    requires Divisible(g, portInterval) && AllKeepTerms(g, portInterval, events)
    decreases |events|
  {
    if events == [] then []
    else
      StepKeepsTerms(g, portInterval, events[0]);
      var (g', sent) := Step(g, portInterval, events[0]);
      (if sent.Some? then [sent.value] else []) + Sent(g', portInterval, events[1..])
  }

  /** The number of multiples of `n` below `x`. */
  function Multiples(x: nat, n: nat): nat
    requires n > 0
  {
    (x + n - 1) / n
  }

  lemma MultiplesStep(x: nat, n: nat)
    requires n > 0
    ensures Multiples(x + 1, n) == Multiples(x, n) + (if x % n == 0 then 1 else 0)
  {
    var (q, r) := (x / n, x % n);
    assert x == q * n + r;
    DivOf(q, r + n, x + n, n);
    DivOf(q, r + n - 1, x + n - 1, n);
  }

  lemma DivOf(q: nat, r: nat, x: nat, n: nat)
    requires n > 0 && r < 2 * n && x == q * n + r
    ensures x / n == if r < n then q else q + 1
  {
    if r < n {
      DivUnique(q, r, x, n);
    } else {
      assert (q + 1) * n == q * n + n;
      DivUnique(q + 1, r - n, x, n);
    }
  }

  lemma MultiplesShift(x: nat, n: nat, m: nat)
    requires n > 0
    ensures Multiples(x % n + 1 + m, n) - Multiples(x % n + 1, n) ==
            Multiples((x % n + 1) % n + m, n) - Multiples((x % n + 1) % n, n)
  {
    hide Multiples;
    var r := x % n;
    if r + 1 < n {
      SmallMod(r + 1, n);
    } else {
      ModuloStep(r, n);
      SmallMod(r, n);
      AddOne(m, n);
      AddOne(0, n);
      assert r + 1 + m == m + n && r + 1 == 0 + n;
    }
  }

  lemma AddOne(x: nat, n: nat)
    requires n > 0
    ensures Multiples(x + n, n) == Multiples(x, n) + 1
  {
    var (q, r) := ((x + n - 1) / n, (x + n - 1) % n);
    assert x + n - 1 == q * n + r;
    assert (q + 1) * n == q * n + n;
    DivUnique(q + 1, r, x + n + n - 1, n);
  }

  /** The number of messages sent in any run, whatever the counter was: one for every multiple of the ratio
      that the counter passes. */
  lemma {:induction false} SentCount(g: Grant, portInterval: int8, events: seq<Event>)
    requires Divisible(g, portInterval) && AllKeepTerms(g, portInterval, events)
    ensures var (n, c) := (Ratio(g, portInterval), g.intervalCounter % Ratio(g, portInterval));
            |Sent(g, portInterval, events)| == Multiples(c + Rounds(events), n) - Multiples(c, n)
    decreases |events|
  {
    hide Multiples, Requested, RefreshGrant, Round, Pow2;
    if events != [] {
      StepKeepsTerms(g, portInterval, events[0]);
      var g' := Step(g, portInterval, events[0]).0;
      SentCount(g', portInterval, events[1..]);
      if events[0] == Send {
        SendCounts(g, portInterval, Rounds(events[1..]));
      }
    }
  }

  lemma SendCounts(g: Grant, portInterval: int8, more: nat)
    requires Divisible(g, portInterval) && g.granted
    ensures var (n, c) := (Ratio(g, portInterval), g.intervalCounter % Ratio(g, portInterval));
            var (g', sent) := Round(g, portInterval, false);
            Multiples(c + 1 + more, n) - Multiples(c, n) ==
            (if sent.Some? then 1 else 0) +
            Multiples(g'.intervalCounter % n + more, n) - Multiples(g'.intervalCounter % n, n)
  {
    hide Multiples, Pow2;
    var (n, c) := (Ratio(g, portInterval), g.intervalCounter % Ratio(g, portInterval));
    MultiplesStep(c, n);
    if g.logInterval > portInterval {
      MultiplesShift(g.intervalCounter, n, more);
      SmallMod(c, n);
    } else {
      MultiplesOfOne(c + 1 + more);
      MultiplesOfOne(c + more);
      MultiplesOfOne(c);
    }
  }

  lemma SmallMod(c: nat, n: nat)
    requires c < n
    ensures c % n == c
  {
  }

  lemma MultiplesOfOne(x: nat)
    ensures Multiples(x, 1) == x
  {
  }

  /** Rate division: in any stretch of the run with as many rounds as the ratio of the intervals, exactly
      one message is sent, across renewals of the lease. */
  lemma OnePerInterval(g: Grant, portInterval: int8, events: seq<Event>)
    requires Divisible(g, portInterval) && AllKeepTerms(g, portInterval, events)
    requires Rounds(events) == Ratio(g, portInterval)
    ensures |Sent(g, portInterval, events)| == 1
  {
    SentCount(g, portInterval, events);
    AddOne(g.intervalCounter % Ratio(g, portInterval), Ratio(g, portInterval));
  }

  lemma StepNumbers(g: Grant, portInterval: int8, e: Event)
    requires Divisible(g, portInterval) && KeepsTerms(g, e)
    ensures var (g', sent) := Step(g, portInterval, e);
            if sent.Some? then sent.value == g.sentSeqId && g'.sentSeqId == (g.sentSeqId as int + 1) % 0x1_0000
            else g'.sentSeqId == g.sentSeqId
  {
    hide Ratio;
  }

  /** The messages sent carry consecutive sequence numbers modulo 2^16. */
  lemma {:induction false} SentAreConsecutive(g: Grant, portInterval: int8, events: seq<Event>, j: nat)
    requires Divisible(g, portInterval) && AllKeepTerms(g, portInterval, events)
    requires j < |Sent(g, portInterval, events)|
    ensures Sent(g, portInterval, events)[j] == (g.sentSeqId as int + j) % 0x1_0000
    decreases |events|
  {
    hide Step, KeepsTerms;
    StepKeepsTerms(g, portInterval, events[0]);
    StepNumbers(g, portInterval, events[0]);
    var (g', sent) := Step(g, portInterval, events[0]);
    if sent.Some? {
      if j > 0 {
        SentAreConsecutive(g', portInterval, events[1..], j - 1);
      }
    } else {
      SentAreConsecutive(g', portInterval, events[1..], j);
    }
  }

  // ---------------------------------------------------------------- runs without a grant

  /** Neither the terms granted nor those that may be granted overrun the counter. */
  predicate Bounded(g: Grant, portInterval: int8) {
    g.logInterval - portInterval <= 31 && g.logMaxInterval - portInterval <= 31
  }

  lemma StepKeepsBounded(g: Grant, portInterval: int8, e: Event)
    requires Bounded(g, portInterval)
    ensures Bounded(Step(g, portInterval, e).0, portInterval)
    ensures Step(g, portInterval, e).0.logMinInterval == g.logMinInterval
  {
    hide Ratio;
  }

  /** The sequence numbers of the messages sent in any run. */
  function AnySent(g: Grant, portInterval: int8, events: seq<Event>): seq<uint16>
    requires Bounded(g, portInterval)
    decreases |events|
  {
    if events == [] then []
    else
      StepKeepsBounded(g, portInterval, events[0]);
      var (g', sent) := Step(g, portInterval, events[0]);
      (if sent.Some? then [sent.value] else []) + AnySent(g', portInterval, events[1..])
  }

  /** Every request of the run is for no time or for too high a rate. */
  predicate AllDenied(events: seq<Event>, logMinInterval: int8) {
    forall t | 0 <= t < |events| && events[t].Renew? ::
      events[t].duration == 0 || events[t].logInterval < logMinInterval
  }

  lemma NotGrantedStep(g: Grant, portInterval: int8, e: Event)
    requires Bounded(g, portInterval) && !g.granted && AllDenied([e], g.logMinInterval)
    ensures var (g', sent) := Step(g, portInterval, e);
            !g'.granted && sent == None
  {
    hide Ratio;
    assert e == [e][0];
  }

  /** As long as no grant is in force, no message is sent, whatever rounds, refreshes and requests come. */
  lemma {:induction false} NothingWithoutGrant(g: Grant, portInterval: int8, events: seq<Event>)
    requires Bounded(g, portInterval) && !g.granted && AllDenied(events, g.logMinInterval)
    ensures AnySent(g, portInterval, events) == []
    decreases |events|
  {
    hide Step;
    if events != [] {
      assert [events[0]][0] == events[0];
      NotGrantedStep(g, portInterval, events[0]);
      StepKeepsBounded(g, portInterval, events[0]);
      NothingWithoutGrant(Step(g, portInterval, events[0]).0, portInterval, events[1..]);
    }
  }

  // ---------------------------------------------------------------- a round over the table

  predicate RoundReady(table: seq<Entry>, message: nat, portInterval: int8) {
    forall k | 0 <= k < |table| :: message < |table[k].grants| && Divisible(table[k].grants[message], portInterval)
  }

  /** The messages of one round over the first `k` entries: address and sequence number. */
  function RoundSends(table: seq<Entry>, message: nat, portInterval: int8, paused: bool, k: nat): seq<(int32, uint16)>
    requires k <= |table| && RoundReady(table, message, portInterval)
  {
    if k == 0 then []
    else
      var e := table[k - 1];
      var sent := Round(e.grants[message], portInterval, paused).1;
      RoundSends(table, message, portInterval, paused, k - 1) +
      (if sent.Some? then [(e.transportAddress, sent.value)] else [])
  }

  function RoundEntry(e: Entry, message: nat, portInterval: int8, paused: bool): Entry
    requires message < |e.grants| && Divisible(e.grants[message], portInterval)
  {
    e.(grants := e.grants[message := Round(e.grants[message], portInterval, paused).0])
  }

  /** What a round changes in an entry: the number of the grant if it is due, and the counter of a divided
      rate; nothing else. */
  lemma RoundChanges(e: Entry, message: nat, portInterval: int8, paused: bool)
    requires message < |e.grants| && Divisible(e.grants[message], portInterval)
    ensures var e' := RoundEntry(e, message, portInterval, paused);
            && |e'.grants| == |e.grants| && e' == e.(grants := e'.grants)
            && (forall j | 0 <= j < |e.grants| && j != message :: e'.grants[j] == e.grants[j])
            && var (g, g') := (e.grants[message], e'.grants[message]);
               && g' == g.(sentSeqId := g'.sentSeqId, intervalCounter := g'.intervalCounter)
               && g'.sentSeqId == (if IsDue(g, portInterval, paused) then (g.sentSeqId as int + 1) % 0x1_0000
                                   else g.sentSeqId)
               && g'.intervalCounter == if g.logInterval <= portInterval then g.intervalCounter
                                        else g.intervalCounter % Pow2(g.logInterval - portInterval) + 1
  {
    hide Round, IsDue, Pow2;
    SendsIffDue(e.grants[message], portInterval, paused);
  }

  /** How many of the first `k` entries get a message. */
  function Served(table: seq<Entry>, message: nat, portInterval: int8, paused: bool, k: nat): (n: nat)
    requires k <= |table| && RoundReady(table, message, portInterval)
  {
    if k == 0 then 0
    else
      Served(table, message, portInterval, paused, k - 1) +
      (if IsDue(table[k - 1].grants[message], portInterval, paused) then 1 else 0)
  }

  /** A round sends, in the order of the table, one message to the address of every entry that is due, with the
      number of its grant, and no others. */
  lemma {:induction false} RoundServesDue(table: seq<Entry>, message: nat, portInterval: int8, paused: bool, k: nat)
    requires k <= |table| && RoundReady(table, message, portInterval)
    ensures var sent := RoundSends(table, message, portInterval, paused, k);
            && |sent| == Served(table, message, portInterval, paused, k)
            && forall j | 0 <= j < k && IsDue(table[j].grants[message], portInterval, paused) ::
                 Served(table, message, portInterval, paused, j) < |sent| &&
                 sent[Served(table, message, portInterval, paused, j)] ==
                 (table[j].transportAddress, table[j].grants[message].sentSeqId)
  {
    hide Round, IsDue, Divisible;
    if k > 0 {
      RoundServesDue(table, message, portInterval, paused, k - 1);
      SendsIffDue(table[k - 1].grants[message], portInterval, paused);
    }
  }

  /** The counter and the sending of one grant. */
  method IssueSingle(grant: Grant, portInterval: int8, paused: bool) returns (g: Grant, sent: Option<uint16>)
    requires Divisible(grant, portInterval)
    ensures (g, sent) == Round(grant, portInterval, paused)
    ensures sent == if IsDue(grant, portInterval, paused) then Some(grant.sentSeqId) else None
  {
    hide Pow2;
    RatioFits(grant, portInterval);
    g, sent := grant, None;
    var okToSend := true;
    if g.logInterval > portInterval {
      g := g.(intervalCounter := g.intervalCounter % Pow2(g.logInterval - portInterval));
      if g.intervalCounter != 0 {
        okToSend := false;
      }
      g := g.(intervalCounter := g.intervalCounter + 1);
    }
    if g.granted {
      if okToSend {
        if !paused {
          sent := Some(g.sentSeqId);
          g := g.(sentSeqId := (g.sentSeqId as int + 1) % 0x1_0000);
        }
      }
    }
  }

  /** `issueSync` or `issueAnnounce` with unicast negotiation: every granted destination whose counter is
      due gets its message, and nobody else. */
  method IssueRound(table: array<Entry>, message: nat, portInterval: int8, paused: bool)
    returns (sent: seq<(int32, uint16)>)
    requires RoundReady(table[..], message, portInterval)
    modifies table
    ensures forall k | 0 <= k < table.Length ::
              table[k] == RoundEntry(old(table[..])[k], message, portInterval, paused)
    ensures sent == RoundSends(old(table[..]), message, portInterval, paused, table.Length)
  {
    hide Round, Divisible;
    ghost var was := table[..];
    sent := [];
    var i := 0;
    while i < table.Length
      invariant 0 <= i <= table.Length
      invariant forall k | 0 <= k < i :: table[k] == RoundEntry(was[k], message, portInterval, paused)
      invariant forall k | i <= k < table.Length :: table[k] == was[k]
      invariant sent == RoundSends(was, message, portInterval, paused, i)
    {
      assert table[i] == was[i];
      var g, one := IssueSingle(table[i].grants[message], portInterval, paused);
      if one.Some? {
        sent := sent + [(table[i].transportAddress, one.value)];
      }
      table[i] := table[i].(grants := table[i].grants[message := g]);
      i := i + 1;
    }
  }
}
