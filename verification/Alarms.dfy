/** The alarm array that conditions are set in and that one pass updates in place. */
module Alarms {
  import opened PtpTypes
  import A = AlarmMachine

  /** The notices of one pass, in the order of the alarms. */
  function NoticesOf(alarms: seq<A.Alarm>, k: nat): seq<(nat, A.Notice)>
    requires k <= |alarms|
  {
    if k == 0 then [] else NoticesOf(alarms, k - 1) + Tagged(k - 1, A.Update(alarms[k - 1]).1)
  }

  function Tagged(i: nat, notices: seq<A.Notice>): seq<(nat, A.Notice)> {
    seq(|notices|, j requires 0 <= j < |notices| => (i, notices[j]))
  }

  class Alarms {
    const alarms: array<A.Alarm>
    /** Every notice that was handed to the handlers, with the alarm it is about. */
    var log: seq<(nat, A.Notice)>

    constructor (list: seq<A.Alarm>)
      ensures fresh(alarms) && alarms[..] == list && log == []
    {
      alarms := new A.Alarm[|list|](i requires 0 <= i < |list| => list[i]);
      log := [];
      new;
      assert alarms[..] == list;
    }

    method SetAlarmCondition(i: nat, condition: bool)
      requires i < alarms.Length
      modifies alarms
      ensures alarms[..] == old(alarms[..])[i := A.SetCondition(old(alarms[i]), condition)]
    {
      if !alarms[i].enabled {
        return;
      }
      var change := condition != alarms[i].condition;
      if !change {
        return;
      }
      if !condition && alarms[i].unhandled {
        return;
      }
      alarms[i] := alarms[i].(age := 0, condition := condition, unhandled := true);
    }

    /** One alarm of the pass. */
    method UpdateAt(i: nat)
      requires i < alarms.Length
      modifies alarms, this`log
      ensures alarms[..] == old(alarms[..])[i := A.Update(old(alarms[i])).0]
      ensures log == old(log) + Tagged(i, A.Update(old(alarms[i])).1)
    {
      var a := alarms[i];
      if !a.enabled {
        return;
      }
      if a.eventOnly {
        if a.condition {
          log := log + [(i, A.NoticeEvent)];
          a := a.(condition := false);
        }
      } else {
        if !a.condition {
          if a.state == A.Cleared && a.age >= a.minAge {
            a := a.(state := A.Unset);
            log := log + [(i, A.NoticeCleared)];
          } else if a.state == A.Set {
            a := a.(state := A.Cleared);
          }
        } else if a.age == 0 {
          if a.state == A.Unset {
            log := log + [(i, A.NoticeSet)];
          }
          a := a.(state := A.Set);
        }
        a := a.(age := (a.age + A.ALARM_UPDATE_INTERVAL) % 0x1_0000_0000);
      }
      alarms[i] := a.(unhandled := false);
    }

    method UpdateAlarms()
      modifies alarms, this`log
      ensures forall i | 0 <= i < alarms.Length :: alarms[i] == A.Update(old(alarms[i])).0
      ensures log == old(log) + NoticesOf(old(alarms[..]), alarms.Length)
    {
      hide A.Update;
      ghost var was := alarms[..];
      var i := 0;
      while i < alarms.Length
        invariant 0 <= i <= alarms.Length
        invariant forall k | 0 <= k < i :: alarms[k] == A.Update(was[k]).0
        invariant forall k | i <= k < alarms.Length :: alarms[k] == was[k]
        invariant log == old(log) + NoticesOf(was, i)
      {
        UpdateAt(i);
        i := i + 1;
      }
    }
  }
}
