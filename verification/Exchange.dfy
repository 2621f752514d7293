/** Sync and delay measurement of a port that stays a SLAVE of one parent. Messages may be lost,
    duplicated and reordered; times are nanosecond counts, which `TimeArith` shows the code computes with. */
module Exchange {
  import opened PtpTypes

  const MAX_FOLLOWUP_GAP: nat := 3
  const MAX_SEQ_ERRORS: nat := 50

  datatype Config = Config(syncSequenceChecking: bool, outboundLatency: int)

  datatype State = State(
    syncWaiting: bool, consecutiveSequenceErrors: nat, waitingForFollow: bool, followUpGap: nat,
    recvSyncSequenceId: uint16, syncReceiveTime: int, lastSyncCorrection: int, twoStepFlag: bool,
    waitingForDelayResp: bool, sentDelayReqSequenceId: uint16, delayReqSendTime: int, delayReqReceiveTime: int)

  /** What arrives at the port or is done by it, in this order. A Delay_Req is not sent while a leap
      second passes; its transmit time comes with the send or, later, with the looped back copy. */
  datatype Event =
    | Sync(fromParent: bool, sequenceId: uint16, twoStep: bool, originTime: int, receiveTime: int, correction: int)
    | FollowUp(fromParent: bool, sequenceId: uint16, preciseOriginTime: int, correction: int)
    | IssueDelayReq(paused: bool, sendTime: Option<int>)
    | OwnDelayReq(sequenceId: uint16, loopTime: int)
    | DelayResp(forThisPort: bool, sequenceId: uint16, receiptTime: int, correction: int)

  datatype Update =
    | OffsetUpdate(sendTime: int, receiveTime: int, correction: int)
    | DelayUpdate(sendTime: int, receiveTime: int, correction: int)

  function Next16(x: uint16): uint16 {
    (x as int + 1) % 0x1_0000
  }

  lemma Next16Injective(x: uint16, y: uint16)
    ensures Next16(x) == Next16(y) ==> x == y
  {
  }

  // ---------------------------------------------------------------- Sync

  /** The sequence check as coded, with 16-bit casts on one side of each comparison only. */
  predicate OutOfSequence(s: State, sequenceId: uint16) {
    || (s.recvSyncSequenceId as int + 32768) % 0x1_0000 > sequenceId + 32767
    || (s.recvSyncSequenceId as int + 1) % 0x1_0000 > sequenceId
  }

  predicate RejectsSync(c: Config, s: State, sequenceId: uint16) {
    && !s.syncWaiting && c.syncSequenceChecking
    && s.consecutiveSequenceErrors < MAX_SEQ_ERRORS && OutOfSequence(s, sequenceId)
  }

  /** While a Follow_Up is awaited, the next two Sync messages are passed over. */
  predicate PassesOver(s: State) {
    s.waitingForFollow && s.followUpGap + 1 < MAX_FOLLOWUP_GAP
  }

  function HandleSync(c: Config, s: State, e: Event): (r: (State, Option<Update>))
    requires e.Sync?
  {
    if !e.fromParent then (s, None)
    else if RejectsSync(c, s, e.sequenceId) then
      (s.(consecutiveSequenceErrors := s.consecutiveSequenceErrors + 1), None)
    else
      var t := s.(syncWaiting := false,
                  consecutiveSequenceErrors :=
                    if !s.syncWaiting && c.syncSequenceChecking then 0 else s.consecutiveSequenceErrors);
      if e.twoStep then
        var g := t.(twoStepFlag := true,
                    followUpGap := if t.waitingForFollow then t.followUpGap + 1 else t.followUpGap);
        if PassesOver(t) then (g, None)
        else (g.(syncReceiveTime := e.receiveTime, waitingForFollow := true,
                 lastSyncCorrection := e.correction, recvSyncSequenceId := e.sequenceId), None)
      else
        (t.(syncReceiveTime := e.receiveTime, recvSyncSequenceId := e.sequenceId,
            waitingForFollow := false, twoStepFlag := false),
         Some(OffsetUpdate(e.originTime, e.receiveTime, e.correction)))
  }

  /** This Sync is the one whose Follow_Up the port awaits from now on. */
  predicate Latches(c: Config, s: State, e: Event) {
    e.Sync? && e.fromParent && e.twoStep && !RejectsSync(c, s, e.sequenceId) && !PassesOver(s)
  }

  function HandleFollowUp(s: State, e: Event): (r: (State, Option<Update>))
    requires e.FollowUp?
  {
    if e.fromParent && s.waitingForFollow && s.recvSyncSequenceId == e.sequenceId then
      (s.(followUpGap := 0, waitingForFollow := false),
       Some(OffsetUpdate(e.preciseOriginTime, s.syncReceiveTime, e.correction + s.lastSyncCorrection)))
    else (s, None)
  }

  // ---------------------------------------------------------------- delay requests

  function ProcessDelayReqFromSelf(c: Config, s: State, sendTime: int): State {
    s.(waitingForDelayResp := true, delayReqSendTime := sendTime + c.outboundLatency)
  }

  function HandleIssue(c: Config, s: State, e: Event): State
    requires e.IssueDelayReq?
  {
    if e.paused then s
    else
      var armed := if e.sendTime.Some? then ProcessDelayReqFromSelf(c, s, e.sendTime.value) else s;
      armed.(sentDelayReqSequenceId := Next16(s.sentDelayReqSequenceId))
  }

  function HandleOwnDelayReq(c: Config, s: State, e: Event): State
    requires e.OwnDelayReq?
  {
    if Next16(e.sequenceId) != s.sentDelayReqSequenceId then s else ProcessDelayReqFromSelf(c, s, e.loopTime)
  }

  function HandleDelayResp(s: State, e: Event): (r: (State, Option<Update>))
    requires e.DelayResp?
  {
    if !e.forThisPort || !s.waitingForDelayResp || s.sentDelayReqSequenceId != Next16(e.sequenceId) then (s, None)
    else
      (s.(waitingForDelayResp := false, delayReqReceiveTime := e.receiptTime),
       Some(DelayUpdate(s.delayReqSendTime, e.receiptTime, e.correction)))
  }

  function Step(c: Config, s: State, e: Event): (r: (State, Option<Update>)) {
    match e
    case Sync(_, _, _, _, _, _) => HandleSync(c, s, e)
    case FollowUp(_, _, _, _) => HandleFollowUp(s, e)
    case IssueDelayReq(_, _) => (HandleIssue(c, s, e), None)
    case OwnDelayReq(_, _) => (HandleOwnDelayReq(c, s, e), None)
    case DelayResp(_, _, _, _) => HandleDelayResp(s, e)
  }

  /** The port after the first `t` events. */
  function After(c: Config, s: State, events: seq<Event>, t: nat): State
    requires t <= |events|
  {
    if t == 0 then s else Step(c, After(c, s, events, t - 1), events[t - 1]).0
  }

  /** The update that event number `t` drives, if it drives one. */
  function UpdateAt(c: Config, s: State, events: seq<Event>, t: nat): Option<Update>
    requires t < |events|
  {
    Step(c, After(c, s, events, t), events[t]).1
  }

  /** The port has just become a SLAVE. */
  predicate Entered(s: State) {
    !s.waitingForFollow && !s.waitingForDelayResp
  }

  // ---------------------------------------------------------------- pairing of Sync and Follow_Up

  /** The last Sync latched before event number `t`. */
  function LastLatch(c: Config, s: State, events: seq<Event>, t: nat): (r: Option<nat>)
    requires t <= |events|
    ensures r.Some? ==> r.value < t && Latches(c, After(c, s, events, r.value), events[r.value])
  {
    if t == 0 then None
    else if Latches(c, After(c, s, events, t - 1), events[t - 1]) then Some(t - 1)
    else LastLatch(c, s, events, t - 1)
  }

  lemma OnlyLatchAwaits(c: Config, s: State, e: Event)
    ensures var (s', u) := Step(c, s, e);
            && (Latches(c, s, e) ==>
                  u == None && s'.recvSyncSequenceId == e.sequenceId && s'.syncReceiveTime == e.receiveTime
                  && s'.lastSyncCorrection == e.correction)
            && (s'.waitingForFollow && !Latches(c, s, e) ==>
                  && s.waitingForFollow && (u.Some? ==> e.DelayResp?)
                  && s'.recvSyncSequenceId == s.recvSyncSequenceId && s'.syncReceiveTime == s.syncReceiveTime
                  && s'.lastSyncCorrection == s.lastSyncCorrection)
  {
  }

  /** An awaited Follow_Up belongs to the last latched Sync, and none was used since that Sync. */
  lemma {:induction false} AwaitedSync(c: Config, s: State, events: seq<Event>, t: nat)
    requires Entered(s) && t <= |events| && After(c, s, events, t).waitingForFollow
    ensures var (l, now) := (LastLatch(c, s, events, t), After(c, s, events, t));
            && l.Some?
            && now.recvSyncSequenceId == events[l.value].sequenceId
            && now.syncReceiveTime == events[l.value].receiveTime
            && now.lastSyncCorrection == events[l.value].correction
            && forall u | l.value <= u < t :: !(events[u].FollowUp? && UpdateAt(c, s, events, u).Some?)
  {
    hide Step, Latches;
    if t > 0 {
      var before := After(c, s, events, t - 1);
      OnlyLatchAwaits(c, before, events[t - 1]);
      if !Latches(c, before, events[t - 1]) {
        AwaitedSync(c, s, events, t - 1);
      }
    }
  }

  /** Nor was any other offset update driven since that Sync. */
  lemma {:induction false} NoUpdateSinceLatch(c: Config, s: State, events: seq<Event>, t: nat)
    requires Entered(s) && t <= |events| && After(c, s, events, t).waitingForFollow
    ensures var l := LastLatch(c, s, events, t);
            l.Some? && forall u | l.value <= u < t && UpdateAt(c, s, events, u).Some? :: events[u].DelayResp?
  {
    hide Step, Latches;
    if t > 0 {
      var before := After(c, s, events, t - 1);
      OnlyLatchAwaits(c, before, events[t - 1]);
      if !Latches(c, before, events[t - 1]) {
        NoUpdateSinceLatch(c, s, events, t - 1);
      }
    }
  }

  /** Exchange pairing: an update driven by a Follow_Up takes receive time and correction from one Sync
      of the parent with the same sequence number, and no other such update takes them from that Sync. */
  lemma FollowUpUsesOneSync(c: Config, s: State, events: seq<Event>, t: nat)
    requires Entered(s) && t < |events| && events[t].FollowUp? && UpdateAt(c, s, events, t).Some?
    ensures var l := LastLatch(c, s, events, t);
            && l.Some? && events[l.value].fromParent && events[l.value].sequenceId == events[t].sequenceId
            && UpdateAt(c, s, events, t).value ==
               OffsetUpdate(events[t].preciseOriginTime, events[l.value].receiveTime,
                            events[t].correction + events[l.value].correction)
            && forall u | 0 <= u < t && events[u].FollowUp? && UpdateAt(c, s, events, u).Some? :: u < l.value
  {
    AwaitedSync(c, s, events, t);
  }

  predicate UpdatesOffset(c: Config, s: State, events: seq<Event>, t: nat) {
    t < |events| && UpdateAt(c, s, events, t).Some? && UpdateAt(c, s, events, t).value.OffsetUpdate?
  }

  /** The Sync behind an offset update: the message itself if it is a one-step Sync. */
  function SourceSync(c: Config, s: State, events: seq<Event>, t: nat): Option<nat>
    requires t < |events|
  {
    if events[t].Sync? then Some(t) else LastLatch(c, s, events, t)
  }

  /** Every offset update, one-step or two-step, is measured with one Sync of the parent, and each Sync
      that arrives is used for at most one update. */
  lemma EachSyncUsedOnce(c: Config, s: State, events: seq<Event>, t: nat)
    requires Entered(s) && UpdatesOffset(c, s, events, t)
    ensures var (l, u) := (SourceSync(c, s, events, t), UpdateAt(c, s, events, t).value);
            && l.Some? && l.value < |events| && events[l.value].Sync? && events[l.value].fromParent
            && u.receiveTime == events[l.value].receiveTime
            && (l.value == t ==>
                  !events[t].twoStep && u.sendTime == events[t].originTime && u.correction == events[t].correction)
            && forall v | 0 <= v < t && UpdatesOffset(c, s, events, v) :: SourceSync(c, s, events, v) != l
  {
    hide HandleIssue, HandleOwnDelayReq, HandleDelayResp, After;
    OffsetUpdatesBySync(c, After(c, s, events, t), events[t]);
    if events[t].FollowUp? {
      FollowUpUsesOneSync(c, s, events, t);
    }
    forall v | 0 <= v < t && UpdatesOffset(c, s, events, v)
      ensures SourceSync(c, s, events, v) != SourceSync(c, s, events, t)
    {
      OffsetUpdatesBySync(c, After(c, s, events, v), events[v]);
      if events[v].FollowUp? {
        FollowUpUsesOneSync(c, s, events, v);
      }
    }
  }

  lemma OffsetUpdatesBySync(c: Config, s: State, e: Event)
    requires Step(c, s, e).1.Some? && Step(c, s, e).1.value.OffsetUpdate?
    ensures e.FollowUp? || (e.Sync? && e.fromParent && !e.twoStep &&
              Step(c, s, e).1 == Some(OffsetUpdate(e.originTime, e.receiveTime, e.correction)))
  {
  }

  // ---------------------------------------------------------------- duplicated Sync messages

  /** Without sequence checking a Sync and a Follow_Up that both arrive twice are measured twice. */
  lemma DuplicateIsMeasuredTwice(c: Config, s: State, sync: Event, follow: Event)
    requires Entered(s) && !c.syncSequenceChecking
    requires sync.Sync? && sync.fromParent && sync.twoStep
    requires follow.FollowUp? && follow.fromParent && follow.sequenceId == sync.sequenceId
    ensures var events := [sync, follow, sync, follow];
            && UpdatesOffset(c, s, events, 1) && UpdatesOffset(c, s, events, 3)
            && UpdateAt(c, s, events, 1) == UpdateAt(c, s, events, 3)
  {
    var events := [sync, follow, sync, follow];
    var s1 := Step(c, s, sync).0;
    var s2 := Step(c, s1, follow).0;
    var s3 := Step(c, s2, sync).0;
    assert After(c, s, events, 0) == s;
    assert After(c, s, events, 1) == s1;
    assert After(c, s, events, 2) == s2;
    assert After(c, s, events, 3) == s3;
  }

  predicate IsRejected(c: Config, s: State, e: Event) {
    e.Sync? && e.fromParent && RejectsSync(c, s, e.sequenceId)
  }

  /** The Sync passes the check and its number becomes the last one received. */
  predicate Records(c: Config, s: State, e: Event) {
    e.Sync? && e.fromParent && !RejectsSync(c, s, e.sequenceId) && (e.twoStep ==> !PassesOver(s))
  }

  /** A Sync with the number before the wrap-around is recorded. */
  predicate RecordsLast(c: Config, s: State, e: Event) {
    e.Sync? && e.sequenceId == 65535 && Records(c, s, e)
  }

  /** How many Sync messages were rejected from event number `begin` up to `end`. */
  function Rejected(c: Config, s: State, events: seq<Event>, begin: nat, end: nat): nat
    requires begin <= end <= |events|
    decreases end
  {
    if begin == end then 0
    else
      Rejected(c, s, events, begin, end - 1) +
      (if IsRejected(c, After(c, s, events, end - 1), events[end - 1]) then 1 else 0)
  }

  /** What an event does to the sequence check. */
  lemma CheckStep(c: Config, s: State, e: Event)
    requires c.syncSequenceChecking && !s.syncWaiting
    requires s.recvSyncSequenceId != 65535 && s.consecutiveSequenceErrors < MAX_SEQ_ERRORS
    ensures var s' := Step(c, s, e).0;
            && !s'.syncWaiting
            && s'.recvSyncSequenceId >= s.recvSyncSequenceId
            && (s'.recvSyncSequenceId != s.recvSyncSequenceId ==>
                  Records(c, s, e) && s'.recvSyncSequenceId == e.sequenceId)
            && s'.consecutiveSequenceErrors <= s.consecutiveSequenceErrors + (if IsRejected(c, s, e) then 1 else 0)
            && (Records(c, s, e) ==> e.sequenceId > s.recvSyncSequenceId)
  {
  }

  /** As long as no Sync numbered 65535 was recorded and no fifty were rejected, the last number grows. */
  lemma {:induction false} NumbersGrow(c: Config, s: State, events: seq<Event>, begin: nat, end: nat)
    requires c.syncSequenceChecking && begin <= end <= |events| && !After(c, s, events, begin).syncWaiting
    requires After(c, s, events, begin).recvSyncSequenceId != 65535
    requires forall w | begin <= w < end :: !RecordsLast(c, After(c, s, events, w), events[w])
    requires After(c, s, events, begin).consecutiveSequenceErrors + Rejected(c, s, events, begin, end) < MAX_SEQ_ERRORS
    ensures var (a, b) := (After(c, s, events, begin), After(c, s, events, end));
            && !b.syncWaiting && a.recvSyncSequenceId <= b.recvSyncSequenceId != 65535
            && b.consecutiveSequenceErrors <= a.consecutiveSequenceErrors + Rejected(c, s, events, begin, end)
    decreases end
  {
    hide Step, Records, IsRejected;
    if end > begin {
      NumbersGrow(c, s, events, begin, end - 1);
      CheckStep(c, After(c, s, events, end - 1), events[end - 1]);
    }
  }

  /** The Sync behind an update passed the check, and its number was the last one when it was used. */
  lemma SourceIsRecorded(c: Config, s: State, events: seq<Event>, t: nat)
    requires Entered(s) && UpdatesOffset(c, s, events, t)
    ensures var l := SourceSync(c, s, events, t);
            && l.Some? && l.value <= t && events[l.value].Sync? && events[l.value].sequenceId == events[t].sequenceId
            && Records(c, After(c, s, events, l.value), events[l.value])
            && forall u | 0 <= u < t && UpdatesOffset(c, s, events, u) :: u < l.value
  {
    hide HandleIssue, HandleOwnDelayReq, HandleDelayResp, After;
    OffsetUpdatesBySync(c, After(c, s, events, t), events[t]);
    if events[t].FollowUp? {
      FollowUpUsesOneSync(c, s, events, t);
      NoUpdateSinceLatch(c, s, events, t);
      forall u | 0 <= u < t && UpdatesOffset(c, s, events, u) ensures u < LastLatch(c, s, events, t).value {
        OffsetUpdatesBySync(c, After(c, s, events, u), events[u]);
      }
    }
  }

  lemma SourceSetsNumber(c: Config, s: State, events: seq<Event>, l: nat)
    requires l < |events| && Records(c, After(c, s, events, l), events[l])
    ensures var (b, a) := (After(c, s, events, l), After(c, s, events, l + 1));
            && a.recvSyncSequenceId == events[l].sequenceId && !a.syncWaiting
            && (c.syncSequenceChecking ==>
                  a.consecutiveSequenceErrors == if b.syncWaiting then b.consecutiveSequenceErrors else 0)
  {
  }

  /** With sequence checking, two offset updates of one number have an accepted Sync numbered 65535 or
      fifty rejections between their Sync messages; errors from before the first Sync count as well. */
  lemma SameNumberTwice(c: Config, s: State, events: seq<Event>, t: nat, u: nat)
    requires Entered(s) && c.syncSequenceChecking && t < u
    requires UpdatesOffset(c, s, events, t) && UpdatesOffset(c, s, events, u)
    requires events[t].sequenceId == events[u].sequenceId
    ensures var (l, m) := (SourceSync(c, s, events, t), SourceSync(c, s, events, u));
            && l.Some? && m.Some? && l.value <= t < m.value <= u
            && var before := if After(c, s, events, l.value).syncWaiting
                             then After(c, s, events, l.value).consecutiveSequenceErrors else 0;
               (|| before + Rejected(c, s, events, l.value + 1, m.value) >= MAX_SEQ_ERRORS
                || exists w :: l.value <= w < m.value && RecordsLast(c, After(c, s, events, w), events[w]))
  {
    hide Step, Records, UpdateAt;
    SourceIsRecorded(c, s, events, t);
    SourceIsRecorded(c, s, events, u);
    var (l, m) := (SourceSync(c, s, events, t).value, SourceSync(c, s, events, u).value);
    SourceSetsNumber(c, s, events, l);
    var a := After(c, s, events, l + 1);
    if a.consecutiveSequenceErrors + Rejected(c, s, events, l + 1, m) < MAX_SEQ_ERRORS
       && forall w | l <= w < m :: !RecordsLast(c, After(c, s, events, w), events[w]) {
      NumbersGrow(c, s, events, l + 1, m);
      CheckStep(c, After(c, s, events, m), events[m]);
    }
  }

  // ---------------------------------------------------------------- when exactly the offset is updated

  predicate UsesOneStep(c: Config, s: State, e: Event) {
    e.Sync? && e.fromParent && !e.twoStep && !RejectsSync(c, s, e.sequenceId)
  }

  predicate FollowsUp(sync: Event, e: Event)
    requires sync.Sync?
  {
    e.FollowUp? && e.fromParent && e.sequenceId == sync.sequenceId
  }

  /** Event number `v` ends the wait for the Follow_Up of Sync number `m`: it is that Follow_Up, or a later
      Sync that is used or latched. */
  predicate EndsWait(c: Config, s: State, events: seq<Event>, m: nat, v: nat)
    requires m < |events| && v < |events| && events[m].Sync?
  {
    var now := After(c, s, events, v);
    FollowsUp(events[m], events[v]) || UsesOneStep(c, now, events[v]) || Latches(c, now, events[v])
  }

  /** Sync number `m` and event number `u` together make an offset update: a one-step Sync that passes the
      check, or a latched one and the first Follow_Up with its number before any later Sync counts. */
  predicate Drives(c: Config, s: State, events: seq<Event>, m: nat, u: nat) {
    && m <= u < |events| && events[m].Sync?
    && (|| (m == u && UsesOneStep(c, After(c, s, events, m), events[m]))
        || (&& m < u && Latches(c, After(c, s, events, m), events[m]) && FollowsUp(events[m], events[u])
            && forall v | m < v < u :: !EndsWait(c, s, events, m, v)))
  }

  /** A latched Sync is the one whose Follow_Up is awaited until the wait ends. */
  lemma {:induction false} LatchedUntil(c: Config, s: State, events: seq<Event>, m: nat, t: nat)
    requires Entered(s) && m < t <= |events| && events[m].Sync? && Latches(c, After(c, s, events, m), events[m])
    ensures LastLatch(c, s, events, t).Some? && LastLatch(c, s, events, t).value >= m
    ensures LastLatch(c, s, events, t) == Some(m) && After(c, s, events, t).waitingForFollow <==>
            forall v | m < v < t :: !EndsWait(c, s, events, m, v)
  {
    hide Step, Latches, UsesOneStep, FollowsUp;
    var before := After(c, s, events, t - 1);
    WaitStep(c, before, events[t - 1]);
    if t > m + 1 {
      LatchedUntil(c, s, events, m, t - 1);
      if LastLatch(c, s, events, t - 1) == Some(m) && before.waitingForFollow {
        AwaitedSync(c, s, events, t - 1);
        FollowsUpByNumber(events[m], events[t - 1], before.recvSyncSequenceId);
      }
      assert (forall v | m < v < t :: !EndsWait(c, s, events, m, v)) <==>
             (forall v | m < v < t - 1 :: !EndsWait(c, s, events, m, v)) && !EndsWait(c, s, events, m, t - 1);
    }
  }

  lemma FollowsUpByNumber(sync: Event, e: Event, sequenceId: uint16)
    requires sync.Sync? && sync.sequenceId == sequenceId
    ensures FollowsUp(sync, e) <==> e.FollowUp? && e.fromParent && e.sequenceId == sequenceId
  {
  }

  lemma WaitStep(c: Config, s: State, e: Event)
    ensures var s' := Step(c, s, e).0;
            && (Latches(c, s, e) ==> s'.waitingForFollow)
            && (!Latches(c, s, e) ==>
                  (s'.waitingForFollow <==>
                     && s.waitingForFollow && !UsesOneStep(c, s, e)
                     && !(e.FollowUp? && e.fromParent && e.sequenceId == s.recvSyncSequenceId)))
  {
  }

  lemma UpdateStep(c: Config, s: State, e: Event)
    ensures var u := Step(c, s, e).1;
            u.Some? && u.value.OffsetUpdate? <==>
              || UsesOneStep(c, s, e)
              || (s.waitingForFollow && e.FollowUp? && e.fromParent && e.sequenceId == s.recvSyncSequenceId)
  {
  }

  /** Over every run: an event updates the offset exactly when some Sync drives it together with it. */
  lemma UpdatesOffsetIff(c: Config, s: State, events: seq<Event>, u: nat)
    requires Entered(s)
    ensures UpdatesOffset(c, s, events, u) <==> exists m: nat :: Drives(c, s, events, m, u)
    ensures UpdatesOffset(c, s, events, u) ==>
              var m := SourceSync(c, s, events, u);
              m.Some? && Drives(c, s, events, m.value, u)
  {
    hide Step, Latches, UsesOneStep, After;
    if u < |events| {
      UpdateStep(c, After(c, s, events, u), events[u]);
      if After(c, s, events, u).waitingForFollow {
        AwaitedSync(c, s, events, u);
        SyncUses(c, After(c, s, events, LastLatch(c, s, events, u).value), events[LastLatch(c, s, events, u).value]);
        LatchedUntil(c, s, events, LastLatch(c, s, events, u).value, u);
      }
      SyncUses(c, After(c, s, events, u), events[u]);
      if UpdatesOffset(c, s, events, u) {
        assert Drives(c, s, events, SourceSync(c, s, events, u).value, u);
      }
    }
    forall m: nat | Drives(c, s, events, m, u) ensures UpdatesOffset(c, s, events, u) {
      DrivesUpdates(c, s, events, m, u);
    }
  }

  lemma DrivesUpdates(c: Config, s: State, events: seq<Event>, m: nat, u: nat)
    requires Entered(s) && Drives(c, s, events, m, u)
    ensures UpdatesOffset(c, s, events, u)
  {
    hide Step, Latches, UsesOneStep, After;
    UpdateStep(c, After(c, s, events, u), events[u]);
    if m < u {
      LatchedUntil(c, s, events, m, u);
      AwaitedSync(c, s, events, u);
    }
  }

  lemma SyncUses(c: Config, s: State, e: Event)
    ensures UsesOneStep(c, s, e) || Latches(c, s, e) ==> e.Sync?
  {
  }

  /** After an update of some number, a later event is another one of that number exactly when a Sync of that
      number arrives in between, or is that event, and drives it: it passes the sequence check, as
      `SameNumberTwice` restricts it, and its Follow_Up comes before any later Sync counts. */
  lemma SecondUpdateIff(c: Config, s: State, events: seq<Event>, t: nat, u: nat)
    requires Entered(s) && UpdatesOffset(c, s, events, t) && t < u < |events|
    ensures UpdatesOffset(c, s, events, u) && events[u].sequenceId == events[t].sequenceId <==>
            exists m: nat :: t < m <= u && Drives(c, s, events, m, u) && events[m].sequenceId == events[t].sequenceId
  {
    hide Step, Latches, UsesOneStep, UpdatesOffset, EndsWait, After;
    UpdatesOffsetIff(c, s, events, u);
    UpdatesOffsetIff(c, s, events, t);
    if UpdatesOffset(c, s, events, u) {
      SourceIsRecorded(c, s, events, u);
    }
    forall m: nat | Drives(c, s, events, m, u) ensures events[m].sequenceId == events[u].sequenceId {
    }
  }

  // ---------------------------------------------------------------- recovery after a loss

  /** A two-step Sync of the parent that passes the sequence check. */
  predicate PassesCheck(c: Config, s: State, e: Event) {
    e.Sync? && e.fromParent && e.twoStep && !RejectsSync(c, s, e.sequenceId)
  }

  lemma GapStep(c: Config, s: State, e: Event)
    ensures var s' := Step(c, s, e).0;
            !Latches(c, s, e) && s'.waitingForFollow ==>
              && s.waitingForFollow
              && s'.followUpGap >= s.followUpGap + (if PassesCheck(c, s, e) then 1 else 0)
    ensures PassesCheck(c, s, e) && !Latches(c, s, e) ==> s.waitingForFollow && s.followUpGap + 1 < MAX_FOLLOWUP_GAP
  {
  }

  /** Without a latched Sync the gap only grows, for as long as a Follow_Up is awaited. */
  lemma {:induction false} GapGrows(c: Config, s: State, events: seq<Event>, x: nat, t: nat)
    requires x <= t <= |events| && After(c, s, events, t).waitingForFollow
    requires forall v | x <= v < t :: !Latches(c, After(c, s, events, v), events[v])
    ensures After(c, s, events, x).waitingForFollow
    ensures After(c, s, events, x).followUpGap <= After(c, s, events, t).followUpGap
  {
    hide Step, Latches;
    if x < t {
      GapStep(c, After(c, s, events, t - 1), events[t - 1]);
      GapGrows(c, s, events, x, t - 1);
    }
  }

  /** Over every run, whatever arrives in between: from the first to the last of any three two-step Sync
      messages that pass the sequence check at least one Sync is latched. */
  lemma ThirdSyncIsLatched(c: Config, s: State, events: seq<Event>, i: nat, j: nat, k: nat)
    requires i < j < k < |events|
    requires PassesCheck(c, After(c, s, events, i), events[i]) && PassesCheck(c, After(c, s, events, j), events[j])
    requires PassesCheck(c, After(c, s, events, k), events[k])
    ensures exists v :: i <= v <= k && Latches(c, After(c, s, events, v), events[v])
  {
    hide Latches, PassesCheck, After;
    if forall v | i <= v <= k :: !Latches(c, After(c, s, events, v), events[v]) {
      PassedOver(c, s, events, i);
      PassedOver(c, s, events, j);
      PassedOver(c, s, events, k);
      GapGrows(c, s, events, j + 1, k);
      GapGrows(c, s, events, i + 1, j);
      assert false;
    }
  }

  lemma PassedOver(c: Config, s: State, events: seq<Event>, t: nat)
    requires t < |events| && PassesCheck(c, After(c, s, events, t), events[t])
    requires !Latches(c, After(c, s, events, t), events[t])
    ensures var (now, next) := (After(c, s, events, t), After(c, s, events, t + 1));
            && now.waitingForFollow && now.followUpGap + 1 < MAX_FOLLOWUP_GAP
            && (next.waitingForFollow ==> next.followUpGap >= now.followUpGap + 1)
  {
    hide Step, Latches, PassesCheck;
    GapStep(c, After(c, s, events, t), events[t]);
  }

  /** The first two-step Sync is latched and none of the next two: without lost Follow_Ups and with the gap
      closed, a port waits for exactly two more Sync messages before it gives up on a Follow_Up, and then
      latches every Sync until a Follow_Up closes the gap. */
  lemma {:induction false} LatchedInARow(c: Config, s: State, events: seq<Event>, t: nat)
    requires !s.waitingForFollow && s.followUpGap == 0 && t < |events|
    requires forall v | 0 <= v <= t :: PassesCheck(c, After(c, s, events, v), events[v])
    ensures Latches(c, After(c, s, events, t), events[t]) <==> t == 0 || t >= 3
    ensures t > 0 ==> After(c, s, events, t).waitingForFollow && After(c, s, events, t).followUpGap == t - 1
  {
    hide RejectsSync;
    if t > 0 {
      LatchedInARow(c, s, events, t - 1);
    }
  }

  /** What the casts amount to: every number is in sequence after 65535, and otherwise only a greater one. */
  lemma OutOfSequenceIff(s: State, sequenceId: uint16)
    ensures OutOfSequence(s, sequenceId) <==> s.recvSyncSequenceId != 65535 && sequenceId <= s.recvSyncSequenceId
  {
  }

  /** So if the Sync numbered 65535 is lost, the numbers after the wrap-around are rejected until fifty of
      them were: here the first fifty of any such messages, and the fifty-first is taken. */
  lemma {:induction false} WrapAroundRejects(c: Config, s: State, events: seq<Event>, t: nat)
    requires c.syncSequenceChecking && !s.syncWaiting && s.consecutiveSequenceErrors == 0
    requires s.recvSyncSequenceId != 65535 && t <= |events| && t <= MAX_SEQ_ERRORS
    requires forall u | 0 <= u < |events| ::
               events[u].Sync? && events[u].fromParent && events[u].sequenceId <= s.recvSyncSequenceId
    ensures After(c, s, events, t) == s.(consecutiveSequenceErrors := t)
    ensures t < |events| ==> (RejectsSync(c, After(c, s, events, t), events[t].sequenceId) <==> t < MAX_SEQ_ERRORS)
  {
    if t > 0 {
      WrapAroundRejects(c, s, events, t - 1);
      OutOfSequenceIff(s, events[t - 1].sequenceId);
      assert OutOfSequence(After(c, s, events, t - 1), events[t - 1].sequenceId);
    }
    if t < |events| {
      OutOfSequenceIff(After(c, s, events, t), events[t].sequenceId);
    }
  }

  // ---------------------------------------------------------------- what the port remembers

  /** The last event before number `t` that the predicate holds of. */
  function LastOf(c: Config, s: State, events: seq<Event>, t: nat, holds: (State, Event) -> bool): (r: Option<nat>)
    requires t <= |events|
    ensures r.Some? ==> r.value < t && holds(After(c, s, events, r.value), events[r.value])
  {
    if t == 0 then None
    else if holds(After(c, s, events, t - 1), events[t - 1]) then Some(t - 1)
    else LastOf(c, s, events, t - 1, holds)
  }

  lemma RemembersStep(c: Config, s: State, e: Event)
    ensures Step(c, s, e).1.Some? && Step(c, s, e).1.value.DelayUpdate? ==> e.DelayResp?
    ensures var (s', u) := Step(c, s, e);
            var checked := e.Sync? && e.fromParent && !RejectsSync(c, s, e.sequenceId);
            && s'.twoStepFlag == (if checked then e.twoStep else s.twoStepFlag)
            && (Latches(c, s, e) || UsesOneStep(c, s, e) ==>
                  s'.syncReceiveTime == e.receiveTime && s'.recvSyncSequenceId == e.sequenceId)
            && (!Latches(c, s, e) && !UsesOneStep(c, s, e) ==>
                  s'.syncReceiveTime == s.syncReceiveTime && s'.recvSyncSequenceId == s.recvSyncSequenceId)
            && s'.delayReqReceiveTime ==
               (if u.Some? && u.value.DelayUpdate? then e.receiptTime else s.delayReqReceiveTime)
            && (!c.syncSequenceChecking ==> s'.consecutiveSequenceErrors == s.consecutiveSequenceErrors)
  {
  }

  /** Over every run: the mode is that of the last Sync of the parent that passed the check, the receive time and
      the number are those of the last Sync that was latched or used, the time of the last response is that of the
      last one accepted, and without checking no errors are counted. */
  lemma {:induction false} RemembersLast(c: Config, s: State, events: seq<Event>, t: nat)
    requires t <= |events|
    ensures var now := After(c, s, events, t);
            var checked := LastOf(c, s, events, t, (x: State, e: Event) =>
              e.Sync? && e.fromParent && !RejectsSync(c, x, e.sequenceId));
            var counted := LastOf(c, s, events, t, (x, e) => Latches(c, x, e) || UsesOneStep(c, x, e));
            var accepted := LastOf(c, s, events, t, (x, e) =>
              Step(c, x, e).1.Some? && Step(c, x, e).1.value.DelayUpdate?);
            && now.twoStepFlag == (if checked.Some? then events[checked.value].twoStep else s.twoStepFlag)
            && (counted.Some? ==>
                  && events[counted.value].Sync?
                  && now.syncReceiveTime == events[counted.value].receiveTime
                  && now.recvSyncSequenceId == events[counted.value].sequenceId)
            && (counted.None? ==>
                  now.syncReceiveTime == s.syncReceiveTime && now.recvSyncSequenceId == s.recvSyncSequenceId)
            && (accepted.Some? ==>
                  && events[accepted.value].DelayResp?
                  && now.delayReqReceiveTime == events[accepted.value].receiptTime)
            && (accepted.None? ==> now.delayReqReceiveTime == s.delayReqReceiveTime)
            && (!c.syncSequenceChecking ==> now.consecutiveSequenceErrors == s.consecutiveSequenceErrors)
  {
    hide Step, RejectsSync;
    if t > 0 {
      RemembersLast(c, s, events, t - 1);
      RemembersStep(c, After(c, s, events, t - 1), events[t - 1]);
    }
  }

  // ---------------------------------------------------------------- delay responses

  /** A transmit time becomes known, and with it a response is awaited. */
  predicate Arms(s: State, e: Event) {
    || (e.IssueDelayReq? && !e.paused && e.sendTime.Some?)
    || (e.OwnDelayReq? && Next16(e.sequenceId) == s.sentDelayReqSequenceId)
  }

  function ArmTime(e: Event): int
    requires (e.IssueDelayReq? && e.sendTime.Some?) || e.OwnDelayReq?
  {
    if e.IssueDelayReq? then e.sendTime.value else e.loopTime
  }

  function LastArming(c: Config, s: State, events: seq<Event>, t: nat): (r: Option<nat>)
    requires t <= |events|
    ensures r.Some? ==> r.value < t && Arms(After(c, s, events, r.value), events[r.value])
  {
    if t == 0 then None
    else if Arms(After(c, s, events, t - 1), events[t - 1]) then Some(t - 1)
    else LastArming(c, s, events, t - 1)
  }

  predicate IsRequest(e: Event) {
    e.IssueDelayReq? && !e.paused
  }

  /** The last own Delay_Req sent before event number `t`. */
  function LastRequest(events: seq<Event>, t: nat): (r: Option<nat>)
    requires t <= |events|
    ensures r.Some? ==> r.value < t && IsRequest(events[r.value])
  {
    if t == 0 then None else if IsRequest(events[t - 1]) then Some(t - 1) else LastRequest(events, t - 1)
  }

  predicate AcceptsResponse(c: Config, s: State, events: seq<Event>, t: nat) {
    t < |events| && events[t].DelayResp? && UpdateAt(c, s, events, t).Some?
  }

  lemma OnlyArmingAwaits(c: Config, s: State, e: Event)
    ensures var (s', u) := Step(c, s, e);
            && (Arms(s, e) ==> u == None && s'.delayReqSendTime == ArmTime(e) + c.outboundLatency)
            && (s'.waitingForDelayResp && !Arms(s, e) ==>
                  s.waitingForDelayResp && !(e.DelayResp? && u.Some?) && s'.delayReqSendTime == s.delayReqSendTime)
            && s'.sentDelayReqSequenceId ==
               (if IsRequest(e) then Next16(s.sentDelayReqSequenceId) else s.sentDelayReqSequenceId)
  {
  }

  lemma {:induction false} AwaitedResponse(c: Config, s: State, events: seq<Event>, t: nat)
    requires Entered(s) && t <= |events| && After(c, s, events, t).waitingForDelayResp
    ensures var (a, now) := (LastArming(c, s, events, t), After(c, s, events, t));
            && a.Some?
            && now.delayReqSendTime == ArmTime(events[a.value]) + c.outboundLatency
            && forall u | a.value <= u < t :: !AcceptsResponse(c, s, events, u)
  {
    hide Step, Arms;
    if t > 0 {
      var before := After(c, s, events, t - 1);
      OnlyArmingAwaits(c, before, events[t - 1]);
      if !Arms(before, events[t - 1]) {
        AwaitedResponse(c, s, events, t - 1);
      }
    }
  }

  lemma {:induction false} ExpectedNumber(c: Config, s: State, events: seq<Event>, t: nat)
    requires t <= |events|
    ensures var (r, now) := (LastRequest(events, t), After(c, s, events, t));
            now.sentDelayReqSequenceId ==
            if r.Some? then Next16(After(c, s, events, r.value).sentDelayReqSequenceId) else s.sentDelayReqSequenceId
  {
    hide Step;
    if t > 0 {
      OnlyArmingAwaits(c, After(c, s, events, t - 1), events[t - 1]);
      ExpectedNumber(c, s, events, t - 1);
    }
  }

  /** An accepted response carries the number of the latest request; its send time was learnt at one
      arming event, and no other accepted response uses that event. */
  lemma ResponseAnswersLatestRequest(c: Config, s: State, events: seq<Event>, t: nat)
    requires Entered(s) && AcceptsResponse(c, s, events, t)
    ensures var (a, r) := (LastArming(c, s, events, t), LastRequest(events, t));
            && a.Some?
            && UpdateAt(c, s, events, t).value ==
               DelayUpdate(ArmTime(events[a.value]) + c.outboundLatency, events[t].receiptTime, events[t].correction)
            && (r.Some? ==> events[t].sequenceId == After(c, s, events, r.value).sentDelayReqSequenceId)
            && forall u | 0 <= u < t && AcceptsResponse(c, s, events, u) :: u < a.value
  {
    hide HandleSync, HandleFollowUp, HandleIssue, HandleOwnDelayReq, Arms, ArmTime, After;
    AwaitedResponse(c, s, events, t);
    ExpectedNumber(c, s, events, t);
    if LastRequest(events, t).Some? {
      Next16Injective(events[t].sequenceId, After(c, s, events, LastRequest(events, t).value).sentDelayReqSequenceId);
    }
  }

  /** No two accepted responses use the same arming event. */
  lemma EachArmingAnsweredOnce(c: Config, s: State, events: seq<Event>, t: nat, u: nat)
    requires Entered(s) && u < t && AcceptsResponse(c, s, events, t) && AcceptsResponse(c, s, events, u)
    ensures LastArming(c, s, events, u) != LastArming(c, s, events, t)
  {
    ResponseAnswersLatestRequest(c, s, events, t);
    ResponseAnswersLatestRequest(c, s, events, u);
  }

  // ---------------------------------------------------------------- which request a response is measured by

  /** The request that an arming event belongs to: itself, or the latest one when a copy loops back. */
  function RequestOf(events: seq<Event>, a: nat): Option<nat>
    requires a < |events|
  {
    if events[a].IssueDelayReq? then Some(a) else LastRequest(events, a)
  }

  lemma {:induction false} LatestBetween(events: seq<Event>, u: nat, t: nat)
    requires u <= t <= |events|
    ensures LastRequest(events, t).Some? && LastRequest(events, t).value < u ==>
              LastRequest(events, u) == LastRequest(events, t)
    ensures LastRequest(events, t).None? ==> LastRequest(events, u).None?
    ensures LastRequest(events, u).Some? ==>
              LastRequest(events, t).Some? && LastRequest(events, u).value <= LastRequest(events, t).value
  {
    if t > u {
      LatestBetween(events, u, t - 1);
    }
  }

  /** The send time of an accepted response is that of the request it answers exactly when the last arming
      event is not older than that request; the event is then the request itself or its own looped back
      copy, by number. Requests sent before the run count as one. */
  lemma SendTimeIsOwnIff(c: Config, s: State, events: seq<Event>, t: nat)
    requires Entered(s) && AcceptsResponse(c, s, events, t)
    ensures var (a, r) := (LastArming(c, s, events, t), LastRequest(events, t));
            && a.Some?
            && UpdateAt(c, s, events, t).value.sendTime == ArmTime(events[a.value]) + c.outboundLatency
            && (RequestOf(events, a.value) == r <==> r.None? || a.value >= r.value)
            && (r.Some? && a.value >= r.value ==>
                  a == r || (events[a.value].OwnDelayReq? && events[a.value].sequenceId == events[t].sequenceId))
  {
    hide After, UpdateAt;
    ResponseAnswersLatestRequest(c, s, events, t);
    var (a, r) := (LastArming(c, s, events, t).value, LastRequest(events, t));
    LatestBetween(events, a, t);
    LatestBetween(events, a + 1, t);
    if r.Some? && a > r.value {
      ExpectedNumber(c, s, events, a);
      Next16Injective(events[t].sequenceId, events[a].sequenceId);
    }
  }

  /** A response is awaited exactly when no accepted response followed the last arming event. */
  lemma {:induction false} AwaitsIff(c: Config, s: State, events: seq<Event>, t: nat)
    requires Entered(s) && t <= |events|
    ensures var a := LastArming(c, s, events, t);
            After(c, s, events, t).waitingForDelayResp <==>
              a.Some? && forall u | a.value <= u < t :: !AcceptsResponse(c, s, events, u)
  {
    hide Step, Arms;
    if t > 0 {
      WaitingStep(c, After(c, s, events, t - 1), events[t - 1]);
      AwaitsIff(c, s, events, t - 1);
      assert AcceptsResponse(c, s, events, t - 1) <==>
             events[t - 1].DelayResp? && Step(c, After(c, s, events, t - 1), events[t - 1]).1.Some?;
    }
  }

  lemma WaitingStep(c: Config, s: State, e: Event)
    ensures var (s', u) := Step(c, s, e);
            && (Arms(s, e) ==> s'.waitingForDelayResp && u == None)
            && (e.DelayResp? && u.Some? ==> s.waitingForDelayResp && !s'.waitingForDelayResp)
            && (!Arms(s, e) && !(e.DelayResp? && u.Some?) ==> s'.waitingForDelayResp == s.waitingForDelayResp)
  {
  }

  // ---------------------------------------------------------------- how often a request is answered

  predicate AnswersRequest(c: Config, s: State, events: seq<Event>, r: nat, t: nat) {
    AcceptsResponse(c, s, events, t) && LastRequest(events, t) == Some(r)
  }

  predicate AnsweredAtMostOnce(c: Config, s: State, events: seq<Event>, r: nat) {
    forall t, u | 0 <= u < t < |events| ::
      !(AnswersRequest(c, s, events, r, t) && AnswersRequest(c, s, events, r, u))
  }

  /** All responses accepted for the request use one arming event. */
  predicate OneArmingSpent(c: Config, s: State, events: seq<Event>, r: nat) {
    forall t, u | 0 <= u < t < |events| &&
        AnswersRequest(c, s, events, r, t) && AnswersRequest(c, s, events, r, u) ::
      LastArming(c, s, events, t) == LastArming(c, s, events, u)
  }

  lemma AnsweredOnceIffOneArming(c: Config, s: State, events: seq<Event>, r: nat)
    requires Entered(s)
    ensures AnsweredAtMostOnce(c, s, events, r) <==> OneArmingSpent(c, s, events, r)
  {
    hide LastArming, AcceptsResponse, LastRequest, Entered;
    forall t, u | 0 <= u < t < |events| && AnswersRequest(c, s, events, r, t) && AnswersRequest(c, s, events, r, u)
      ensures LastArming(c, s, events, t) != LastArming(c, s, events, u)
    {
      EachArmingAnsweredOnce(c, s, events, t, u);
    }
  }

  /** A response with the number that is expected when it arrives. */
  predicate HasExpectedNumber(c: Config, s: State, events: seq<Event>, t: nat) {
    && t < |events| && events[t].DelayResp? && events[t].forThisPort
    && Next16(events[t].sequenceId) == After(c, s, events, t).sentDelayReqSequenceId
  }

  /** The first of them since the last arming event. */
  predicate FirstSinceArming(c: Config, s: State, events: seq<Event>, t: nat)
    requires t <= |events|
  {
    var a := LastArming(c, s, events, t);
    a.Some? && forall v | a.value < v < t :: !HasExpectedNumber(c, s, events, v)
  }

  lemma ResponseStep(c: Config, s: State, e: Event)
    ensures var (s', u) := Step(c, s, e);
            var expected := e.DelayResp? && e.forThisPort && Next16(e.sequenceId) == s.sentDelayReqSequenceId;
            && (Arms(s, e) ==> !e.DelayResp? && s'.waitingForDelayResp)
            && (!Arms(s, e) ==> (s'.waitingForDelayResp <==> s.waitingForDelayResp && !expected))
            && (e.DelayResp? && u.Some? <==> s.waitingForDelayResp && expected)
  {
  }

  lemma {:induction false} AwaitsFirst(c: Config, s: State, events: seq<Event>, t: nat)
    requires Entered(s) && t <= |events|
    ensures After(c, s, events, t).waitingForDelayResp <==> FirstSinceArming(c, s, events, t)
  {
    hide Step, Arms;
    if t > 0 {
      ResponseStep(c, After(c, s, events, t - 1), events[t - 1]);
      AwaitsFirst(c, s, events, t - 1);
      if !Arms(After(c, s, events, t - 1), events[t - 1]) {
        assert FirstSinceArming(c, s, events, t) <==>
               FirstSinceArming(c, s, events, t - 1) && !HasExpectedNumber(c, s, events, t - 1);
      }
    }
  }

  /** In terms of what arrives: a response is accepted exactly when it is the first one with the expected
      number since the last arming event. */
  lemma AcceptsIffFirst(c: Config, s: State, events: seq<Event>, t: nat)
    requires Entered(s) && t < |events|
    ensures AcceptsResponse(c, s, events, t) <==>
            HasExpectedNumber(c, s, events, t) && FirstSinceArming(c, s, events, t)
  {
    hide Step, Arms, After, FirstSinceArming;
    ResponseStep(c, After(c, s, events, t), events[t]);
    AwaitsFirst(c, s, events, t);
  }

  /** A message for the request that the port would take if it waited: the number is the request's. */
  predicate CopyOfResponse(c: Config, s: State, events: seq<Event>, r: nat, t: nat) {
    && r < t < |events| && LastRequest(events, t) == Some(r)
    && events[t].DelayResp? && events[t].forThisPort
    && events[t].sequenceId == After(c, s, events, r).sentDelayReqSequenceId
  }

  predicate CopyOfRequest(c: Config, s: State, events: seq<Event>, r: nat, a: nat) {
    && r < a < |events| && LastRequest(events, a) == Some(r)
    && events[a].OwnDelayReq?
    && events[a].sequenceId == After(c, s, events, r).sentDelayReqSequenceId
  }

  /** The first response to the request since an arming event, then a copy of the request that loops back,
      then another response to it. */
  predicate LoopsBackBetween(c: Config, s: State, events: seq<Event>, r: nat) {
    exists u, a, t :: 0 <= u < a < t < |events| &&
      CopyOfResponse(c, s, events, r, u) && FirstSinceArming(c, s, events, u) &&
      CopyOfRequest(c, s, events, r, a) && CopyOfResponse(c, s, events, r, t)
  }

  lemma AnswersIffFirst(c: Config, s: State, events: seq<Event>, r: nat, t: nat)
    requires Entered(s) && t < |events|
    ensures AnswersRequest(c, s, events, r, t) <==>
            CopyOfResponse(c, s, events, r, t) && FirstSinceArming(c, s, events, t)
  {
    hide After, FirstSinceArming, UpdateAt;
    AcceptsIffFirst(c, s, events, t);
    if AnswersRequest(c, s, events, r, t) {
      AnswerIsCopy(c, s, events, r, t);
    }
    ExpectedNumber(c, s, events, t);
  }

  lemma AnswerIsCopy(c: Config, s: State, events: seq<Event>, r: nat, t: nat)
    requires Entered(s) && AnswersRequest(c, s, events, r, t)
    ensures CopyOfResponse(c, s, events, r, t)
  {
    hide After;
    ResponseAnswersLatestRequest(c, s, events, t);
  }

  lemma CopyArms(c: Config, s: State, events: seq<Event>, r: nat, a: nat)
    requires CopyOfRequest(c, s, events, r, a)
    ensures Arms(After(c, s, events, a), events[a])
  {
    hide After;
    ExpectedNumber(c, s, events, a);
  }

  lemma {:induction false} LastArmingCovers(c: Config, s: State, events: seq<Event>, a: nat, t: nat)
    requires a < t <= |events| && Arms(After(c, s, events, a), events[a])
    ensures LastArming(c, s, events, t).Some? && LastArming(c, s, events, t).value >= a
  {
    hide After, Arms;
    if t > a + 1 {
      LastArmingCovers(c, s, events, a, t - 1);
    }
  }

  /** Between the two answers of one request its own copy has looped back. */
  lemma SecondAnswerNeedsCopy(c: Config, s: State, events: seq<Event>, r: nat, u: nat, t: nat)
    requires Entered(s) && u < t && AnswersRequest(c, s, events, r, t) && AnswersRequest(c, s, events, r, u)
    ensures LoopsBackBetween(c, s, events, r)
  {
    hide After, UpdateAt;
    ResponseAnswersLatestRequest(c, s, events, t);
    var a := LastArming(c, s, events, t).value;
    LatestBetween(events, a, t);
    SendTimeIsOwnIff(c, s, events, t);
    AnswerIsCopy(c, s, events, r, t);
    AnswersIffFirst(c, s, events, r, u);
    assert u < a < t && CopyOfRequest(c, s, events, r, a);
  }

  /** A copy of the request followed by a copy of its response leads to an answer after the copy. */
  lemma CopyLeadsToAnswer(c: Config, s: State, events: seq<Event>, r: nat, a: nat, t: nat)
    requires Entered(s) && a < t && CopyOfRequest(c, s, events, r, a) && CopyOfResponse(c, s, events, r, t)
    ensures exists v: nat :: a < v <= t && t < |events| && AnswersRequest(c, s, events, r, v)
  {
    hide After;
    CopyArms(c, s, events, r, a);
    LastArmingCovers(c, s, events, a, t);
    AwaitsIff(c, s, events, t);
    ExpectedNumber(c, s, events, t);
    var l := LastArming(c, s, events, t).value;
    if After(c, s, events, t).waitingForDelayResp {
      assert AnswersRequest(c, s, events, r, t);
    } else {
      var v: nat :| l <= v < t && AcceptsResponse(c, s, events, v);
      LatestBetween(events, v, t);
      LatestBetween(events, a, v);
      assert v != a && AnswersRequest(c, s, events, r, v);
    }
  }

  /** Each request has at most one accepted response exactly when no copy of the request loops back between
      the first response to it since an arming event and another one that arrives while it is the latest
      request. The condition is about arrivals and their numbers only. */
  lemma EachRequestAnsweredOnce(c: Config, s: State, events: seq<Event>, r: nat)
    requires Entered(s)
    ensures AnsweredAtMostOnce(c, s, events, r) <==> !LoopsBackBetween(c, s, events, r)
  {
    hide AnswersRequest, CopyOfRequest, CopyOfResponse, FirstSinceArming, Entered;
    if LoopsBackBetween(c, s, events, r) {
      var u, a, t :| 0 <= u < a < t < |events| &&
        CopyOfResponse(c, s, events, r, u) && FirstSinceArming(c, s, events, u) &&
        CopyOfRequest(c, s, events, r, a) && CopyOfResponse(c, s, events, r, t);
      AnswersIffFirst(c, s, events, r, u);
      CopyLeadsToAnswer(c, s, events, r, a, t);
      var v: nat :| a < v <= t && AnswersRequest(c, s, events, r, v);
      assert u < v && v < |events|;
    }
    forall t, u | 0 <= u < t < |events| && AnswersRequest(c, s, events, r, t) && AnswersRequest(c, s, events, r, u)
      ensures LoopsBackBetween(c, s, events, r)
    {
      SecondAnswerNeedsCopy(c, s, events, r, u, t);
    }
  }

  /** Every request gets its transmit time when it is sent, and nothing is looped back. */
  predicate TimedAtSend(events: seq<Event>) {
    forall t | 0 <= t < |events| ::
      !events[t].OwnDelayReq? && (IsRequest(events[t]) ==> events[t].sendTime.Some?)
  }

  lemma {:induction false} ArmedByRequest(c: Config, s: State, events: seq<Event>, t: nat)
    requires TimedAtSend(events) && t <= |events|
    ensures LastArming(c, s, events, t) == LastRequest(events, t)
  {
    if t > 0 {
      ArmedByRequest(c, s, events, t - 1);
    }
  }

  /** With transmit times taken at sending, an accepted response is measured against the very request
      that it answers, and each request has at most one accepted response. */
  lemma TimedAtSendAnswersOnce(c: Config, s: State, events: seq<Event>, t: nat)
    requires Entered(s) && TimedAtSend(events) && AcceptsResponse(c, s, events, t)
    ensures var r := LastRequest(events, t);
            && r.Some?
            && events[t].sequenceId == After(c, s, events, r.value).sentDelayReqSequenceId
            && UpdateAt(c, s, events, t).value.sendTime == events[r.value].sendTime.value + c.outboundLatency
            && forall u | 0 <= u < t && AcceptsResponse(c, s, events, u) :: LastRequest(events, u) != r
  {
    ResponseAnswersLatestRequest(c, s, events, t);
    ArmedByRequest(c, s, events, t);
    forall u | 0 <= u < t && AcceptsResponse(c, s, events, u) ensures LastRequest(events, u) != LastRequest(events, t) {
      ResponseAnswersLatestRequest(c, s, events, u);
    }
  }

  /** With looped back requests neither holds: two requests and the loop back of both, where the response
      to the second request overtakes its loop back and arrives twice. */
  function Overtaking(n: uint16, first: int, second: int, receiptTime: int): seq<Event> {
    [IssueDelayReq(false, None), OwnDelayReq(n, first), IssueDelayReq(false, None),
     DelayResp(true, Next16(n), receiptTime, 0), OwnDelayReq(Next16(n), second),
     DelayResp(true, Next16(n), receiptTime, 0)]
  }

  /** From every state just entered: the second request gets two responses, the first of them measured
      against the send time of the first request. */
  lemma ResponseOvertakesLoopback(c: Config, s: State, first: int, second: int, receiptTime: int)
    requires Entered(s)
    ensures var events := Overtaking(s.sentDelayReqSequenceId, first, second, receiptTime);
            && AnswersRequest(c, s, events, 2, 3) && AnswersRequest(c, s, events, 2, 5)
            && UpdateAt(c, s, events, 3) == Some(DelayUpdate(first + c.outboundLatency, receiptTime, 0))
            && UpdateAt(c, s, events, 5) == Some(DelayUpdate(second + c.outboundLatency, receiptTime, 0))
            && LastArming(c, s, events, 3) == Some(1) && RequestOf(events, 1) == Some(0)
  {
    var events := Overtaking(s.sentDelayReqSequenceId, first, second, receiptTime);
    var s1 := HandleIssue(c, s, events[0]);
    var s2 := HandleOwnDelayReq(c, s1, events[1]);
    var s3 := HandleIssue(c, s2, events[2]);
    var s4 := HandleDelayResp(s3, events[3]).0;
    var s5 := HandleOwnDelayReq(c, s4, events[4]);
    assert After(c, s, events, 0) == s && After(c, s, events, 1) == s1 && After(c, s, events, 2) == s2;
    assert After(c, s, events, 3) == s3 && After(c, s, events, 4) == s4 && After(c, s, events, 5) == s5;
    assert LastRequest(events, 1) == Some(0) && LastRequest(events, 3) == Some(2);
    assert LastRequest(events, 4) == Some(2) && LastRequest(events, 5) == Some(2);
    assert LastArming(c, s, events, 2) == Some(1) && LastArming(c, s, events, 3) == Some(1);
  }
}
