/** The measuring part of a slave clock, whose fields the message handlers change in place; what each
    handler hands on to the servo is returned. */
module SlaveClock {
  import opened PtpTypes
  import E = Exchange

  class SlaveClock {
    const config: E.Config
    var syncWaiting: bool
    var consecutiveSequenceErrors: nat
    var waitingForFollow: bool
    var followUpGap: nat
    var recvSyncSequenceId: uint16
    var syncReceiveTime: int
    var lastSyncCorrection: int
    var twoStepFlag: bool
    var waitingForDelayResp: bool
    var sentDelayReqSequenceId: uint16
    var delayReqSendTime: int
    var delayReqReceiveTime: int

    ghost function View(): E.State
      reads this
    {
      E.State(syncWaiting, consecutiveSequenceErrors, waitingForFollow, followUpGap, recvSyncSequenceId,
              syncReceiveTime, lastSyncCorrection, twoStepFlag, waitingForDelayResp, sentDelayReqSequenceId,
              delayReqSendTime, delayReqReceiveTime)
    }

    /** The part of entering the SLAVE state that concerns the measurements. */
    constructor (config: E.Config, recvSyncSequenceId: uint16, sentDelayReqSequenceId: uint16, errors: nat)
      ensures this.config == config && E.Entered(View()) && syncWaiting
      ensures this.sentDelayReqSequenceId == sentDelayReqSequenceId
    {
      this.config := config;
      this.recvSyncSequenceId := recvSyncSequenceId;
      this.sentDelayReqSequenceId := sentDelayReqSequenceId;
      consecutiveSequenceErrors := errors;
      waitingForFollow, waitingForDelayResp, syncWaiting, twoStepFlag := false, false, true, true;
      followUpGap, syncReceiveTime, lastSyncCorrection, delayReqSendTime, delayReqReceiveTime := 0, 0, 0, 0, 0;
    }

    method HandleSync(e: E.Event) returns (u: Option<E.Update>)
      requires e.Sync?
      modifies this
      ensures (View(), u) == E.HandleSync(config, old(View()), e)
    {
      if !e.fromParent {
        return None;
      }
      if syncWaiting {
        syncWaiting := false;
      } else if config.syncSequenceChecking {
        if consecutiveSequenceErrors < E.MAX_SEQ_ERRORS
           && ((recvSyncSequenceId as int + 32768) % 0x1_0000 > e.sequenceId + 32767
               || (recvSyncSequenceId as int + 1) % 0x1_0000 > e.sequenceId) {
          consecutiveSequenceErrors := consecutiveSequenceErrors + 1;
          return None;
        }
        consecutiveSequenceErrors := 0;
      }
      if e.twoStep {
        twoStepFlag := true;
        if waitingForFollow {
          followUpGap := followUpGap + 1;
          if followUpGap < E.MAX_FOLLOWUP_GAP {
            return None;
          }
        }
        syncReceiveTime := e.receiveTime;
        waitingForFollow := true;
        lastSyncCorrection := e.correction;
        recvSyncSequenceId := e.sequenceId;
        return None;
      }
      syncReceiveTime := e.receiveTime;
      recvSyncSequenceId := e.sequenceId;
      waitingForFollow := false;
      twoStepFlag := false;
      return Some(E.OffsetUpdate(e.originTime, syncReceiveTime, e.correction));
    }

    method HandleFollowUp(e: E.Event) returns (u: Option<E.Update>)
      requires e.FollowUp?
      modifies this
      ensures (View(), u) == E.HandleFollowUp(old(View()), e)
    {
      if !e.fromParent || !waitingForFollow || recvSyncSequenceId != e.sequenceId {
        return None;
      }
      followUpGap := 0;
      waitingForFollow := false;
      return Some(E.OffsetUpdate(e.preciseOriginTime, syncReceiveTime, e.correction + lastSyncCorrection));
    }

    method ProcessDelayReqFromSelf(sendTime: int)
      modifies this
      ensures View() == E.ProcessDelayReqFromSelf(config, old(View()), sendTime)
    {
      waitingForDelayResp := true;
      delayReqSendTime := sendTime;
      delayReqSendTime := delayReqSendTime + config.outboundLatency;
    }

    method IssueDelayReq(e: E.Event)
      requires e.IssueDelayReq?
      modifies this
      ensures View() == E.HandleIssue(config, old(View()), e)
    {
      if e.paused {
        return;
      }
      if e.sendTime.Some? {
        ProcessDelayReqFromSelf(e.sendTime.value);
      }
      sentDelayReqSequenceId := (sentDelayReqSequenceId as int + 1) % 0x1_0000;
    }

    method HandleOwnDelayReq(e: E.Event)
      requires e.OwnDelayReq?
      modifies this
      ensures View() == E.HandleOwnDelayReq(config, old(View()), e)
    {
      if (e.sequenceId as int + 1) % 0x1_0000 != sentDelayReqSequenceId {
        return;
      }
      ProcessDelayReqFromSelf(e.loopTime);
    }

    method HandleDelayResp(e: E.Event) returns (u: Option<E.Update>)
      requires e.DelayResp?
      modifies this
      ensures (View(), u) == E.HandleDelayResp(old(View()), e)
    {
      if !e.forThisPort || !waitingForDelayResp {
        return None;
      }
      if sentDelayReqSequenceId != (e.sequenceId as int + 1) % 0x1_0000 {
        return None;
      }
      waitingForDelayResp := false;
      delayReqReceiveTime := e.receiptTime;
      return Some(E.DelayUpdate(delayReqSendTime, delayReqReceiveTime, e.correction));
    }

    method Handle(e: E.Event) returns (u: Option<E.Update>)
      modifies this
      ensures (View(), u) == E.Step(config, old(View()), e)
    {
      u := None;
      match e
      case Sync(_, _, _, _, _, _) => u := HandleSync(e);
      case FollowUp(_, _, _, _) => u := HandleFollowUp(e);
      case IssueDelayReq(_, _) => IssueDelayReq(e);
      case OwnDelayReq(_, _) => HandleOwnDelayReq(e);
      case DelayResp(_, _, _, _) => u := HandleDelayResp(e);
    }
  }
}
