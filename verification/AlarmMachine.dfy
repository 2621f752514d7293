/** One alarm as a state machine: the condition may flap at will, the notices may not. */
module AlarmMachine {
  import opened PtpTypes

  datatype AlarmState = Unset | Set | Cleared

  datatype Alarm = Alarm(
    enabled: bool, eventOnly: bool, unhandled: bool, age: uint32, minAge: uint32,
    state: AlarmState, condition: bool)

  datatype Notice = NoticeSet | NoticeCleared | NoticeEvent

  const ALARM_UPDATE_INTERVAL: nat := 1

  function SetCondition(a: Alarm, condition: bool): Alarm {
    if !a.enabled || condition == a.condition || (!condition && a.unhandled) then a
    else a.(age := 0, condition := condition, unhandled := true)
  }

  function Aged(a: Alarm): Alarm {
    a.(age := (a.age + ALARM_UPDATE_INTERVAL) % 0x1_0000_0000, unhandled := false)
  }

  /** One update of one alarm, and the notices that its handlers get. */
  function Update(a: Alarm): (r: (Alarm, seq<Notice>)) {
    if !a.enabled then (a, [])
    else if a.eventOnly then
      (a.(condition := false, unhandled := false), if a.condition then [NoticeEvent] else [])
    else if !a.condition then
      if a.state == Cleared && a.age >= a.minAge then (Aged(a.(state := Unset)), [NoticeCleared])
      else if a.state == Set then (Aged(a.(state := Cleared)), [])
      else (Aged(a), [])
    else if a.age == 0 then
      (Aged(a.(state := Set)), if a.state == Unset then [NoticeSet] else [])
    else (Aged(a), [])
  }

  datatype Event = Call(condition: bool) | Tick

  function Step(a: Alarm, e: Event): (r: (Alarm, seq<Notice>)) {
    match e
    case Call(c) => (SetCondition(a, c), [])
    case Tick => Update(a)
  }

  function Run(a: Alarm, events: seq<Event>): Alarm
    decreases |events|
  {
    if events == [] then a else Step(Run(a, events[..|events| - 1]), events[|events| - 1]).0
  }

  function Notices(a: Alarm, events: seq<Event>): seq<Notice>
    decreases |events|
  {
    if events == [] then []
    else
      Notices(a, events[..|events| - 1]) + Step(Run(a, events[..|events| - 1]), events[|events| - 1]).1
  }

  // ---------------------------------------------------------------- what every run keeps

  /** A handled alarm has seen its condition; a condition that was just withdrawn had been seen. */
  predicate Consistent(a: Alarm) {
    && a.enabled && !a.eventOnly
    && (a.unhandled ==> a.age == 0)
    && (!a.unhandled ==> (a.condition <==> a.state == Set))
    && (a.unhandled && !a.condition ==> a.state == Set)
  }

  /** An enabled alarm that nothing has happened to. */
  predicate Idle(a: Alarm) {
    a.enabled && !a.eventOnly && !a.unhandled && !a.condition && a.state == Unset
  }

  lemma StepKeepsConsistent(a: Alarm, e: Event)
    requires Consistent(a)
    ensures Consistent(Step(a, e).0) && Step(a, e).0.minAge == a.minAge
  {
  }

  lemma {:induction false} RunKeepsConsistent(a: Alarm, events: seq<Event>)
    requires Consistent(a)
    ensures Consistent(Run(a, events)) && Run(a, events).minAge == a.minAge
    decreases |events|
  {
    hide Step, Consistent;
    if events != [] {
      RunKeepsConsistent(a, events[..|events| - 1]);
      StepKeepsConsistent(Run(a, events[..|events| - 1]), events[|events| - 1]);
    }
  }

  predicate Alternating(notices: seq<Notice>) {
    forall k | 0 <= k < |notices| :: notices[k] == if k % 2 == 0 then NoticeSet else NoticeCleared
  }

  /** Set and cleared notices strictly alternate, starting with set, and the alarm is unset exactly
      when they are balanced. */
  lemma {:induction false} NoticesAlternate(a: Alarm, events: seq<Event>)
    requires Idle(a)
    ensures Alternating(Notices(a, events))
    ensures |Notices(a, events)| % 2 == 0 <==> Run(a, events).state == Unset
    decreases |events|
  {
    hide Run, Step, Consistent, Alternating, Notices, Idle;
    NothingNoticed(a);
    if events != [] {
      var before := events[..|events| - 1];
      NoticesAlternate(a, before);
      RunKeepsConsistent(a, before);
      StepNotices(Run(a, before), events[|events| - 1]);
      AppendAlternates(Notices(a, before), Step(Run(a, before), events[|events| - 1]).1);
      RunStep(a, events);
    }
  }

  lemma NothingNoticed(a: Alarm)
    requires Idle(a)
    ensures Consistent(a) && Alternating(Notices(a, [])) && |Notices(a, [])| == 0 && Run(a, []).state == Unset
  {
  }

  lemma RunStep(a: Alarm, events: seq<Event>)
    requires events != []
    ensures var (before, last) := (events[..|events| - 1], events[|events| - 1]);
            && Run(a, events) == Step(Run(a, before), last).0
            && Notices(a, events) == Notices(a, before) + Step(Run(a, before), last).1
  {
  }

  /** A notice goes with every change between unset and not unset, and with nothing else. */
  lemma StepNotices(a: Alarm, e: Event)
    requires Consistent(a)
    ensures var (a', notices) := Step(a, e);
            notices == if a.state == Unset && a'.state != Unset then [NoticeSet]
                       else if a.state != Unset && a'.state == Unset then [NoticeCleared] else []
  {
  }

  lemma AppendAlternates(notices: seq<Notice>, more: seq<Notice>)
    requires Alternating(notices)
    requires more == [] || more == [if |notices| % 2 == 0 then NoticeSet else NoticeCleared]
    ensures Alternating(notices + more)
  {
  }

  // ---------------------------------------------------------------- how long a clear notice waits

  /** The updates since the condition was last reported true. */
  function QuietTicks(events: seq<Event>): nat
    decreases |events|
  {
    if events == [] then 0
    else
      var (before, e) := (events[..|events| - 1], events[|events| - 1]);
      if e == Call(true) then 0
      else if e == Tick then QuietTicks(before) + 1
      else QuietTicks(before)
  }

  function Max(a: nat, b: nat): nat {
    if a > b then a else b
  }

  lemma {:induction false} AgeIsQuiet(a: Alarm, events: seq<Event>)
    requires Idle(a)
    ensures var b := Run(a, events);
            && (!b.condition && b.state != Unset ==> b.age <= QuietTicks(events))
            && (b.state == Cleared && !b.condition ==> QuietTicks(events) >= 1)
    decreases |events|
  {
    if events != [] {
      var before := events[..|events| - 1];
      AgeIsQuiet(a, before);
      RunKeepsConsistent(a, before);
    }
  }

  /** In every run, a clear notice comes only after the condition was not reported for as many updates
      as the minimum age says, and at least for one. */
  lemma ClearNoticeWaits(a: Alarm, events: seq<Event>)
    requires Idle(a) && NoticeCleared in Step(Run(a, events), Tick).1
    ensures QuietTicks(events) >= Max(a.minAge, 1)
  {
    AgeIsQuiet(a, events);
    RunKeepsConsistent(a, events);
  }

  predicate Quiet(events: seq<Event>) {
    forall i | 0 <= i < |events| :: events[i] != Call(true)
  }

  function Ticks(events: seq<Event>): nat
    decreases |events|
  {
    if events == [] then 0
    else Ticks(events[..|events| - 1]) + (if events[|events| - 1] == Tick then 1 else 0)
  }

  /** An alarm whose condition was just withdrawn, after `n` further updates in quiet. */
  predicate Waiting(a: Alarm, n: nat, b: Alarm) {
    && b.enabled && !b.eventOnly && !b.condition && b.minAge == a.minAge
    && if n == 0 then b.state == Set && b.age == 0
       else if n <= Max(a.minAge, 1) then b.state == Cleared && b.age == n
       else b.state == Unset
  }

  lemma WaitingStep(a: Alarm, n: nat, b: Alarm, e: Event)
    requires Waiting(a, n, b) && e != Call(true)
    ensures Waiting(a, if e == Tick then n + 1 else n, Step(b, e).0)
    ensures Step(b, e).1 == if e == Tick && n == Max(a.minAge, 1) then [NoticeCleared] else []
  {
  }

  /** The wait is exact: once a seen condition is withdrawn for good, the one clear notice is given at
      update number `max(minAge, 1) + 1`. */
  lemma {:induction false} ClearNoticeComes(a: Alarm, events: seq<Event>)
    requires Consistent(a) && a.condition && !a.unhandled && Quiet(events)
    ensures var withdrawn := SetCondition(a, false);
            Notices(withdrawn, events) == if Ticks(events) > Max(a.minAge, 1) then [NoticeCleared] else []
    ensures Waiting(a, Ticks(events), Run(SetCondition(a, false), events))
    decreases |events|
  {
    if events != [] {
      var (before, e) := (events[..|events| - 1], events[|events| - 1]);
      ClearNoticeComes(a, before);
      WaitingStep(a, Ticks(before), Run(SetCondition(a, false), before), e);
      hide Step, Waiting;
    }
  }

  // ---------------------------------------------------------------- nothing raised is missed

  predicate OnlyCalls(calls: seq<Event>) {
    forall i | 0 <= i < |calls| :: calls[i].Call?
  }

  /** What a sequence of calls amounts to: a condition that is false is raised by any true call, and
      one that is true is withdrawn by a false call unless a later true one raises it again. */
  predicate Raised(condition: bool, calls: seq<Event>)
    requires OnlyCalls(calls)
  {
    if condition then
      || (forall i | 0 <= i < |calls| :: calls[i].condition)
      || (exists i, j :: 0 <= i < j < |calls| && !calls[i].condition && calls[j].condition)
    else exists i :: 0 <= i < |calls| && calls[i].condition
  }

  lemma RaisedStep(condition: bool, calls: seq<Event>)
    requires OnlyCalls(calls) && calls != []
    ensures var (before, last) := (calls[..|calls| - 1], calls[|calls| - 1].condition);
            Raised(condition, calls) <==>
              if last then true
              else Raised(condition, before) && !(condition && forall i | 0 <= i < |before| :: before[i].condition)
  {
    var (before, last) := (calls[..|calls| - 1], calls[|calls| - 1].condition);
    assert forall i | 0 <= i < |before| :: before[i] == calls[i];
    if last && condition && !(forall i | 0 <= i < |calls| :: calls[i].condition) {
      var i :| 0 <= i < |calls| && !calls[i].condition;
      assert i < |calls| - 1 && calls[|calls| - 1].condition;
    }
  }

  /** The alarm after any calls that follow an update. */
  lemma {:induction false} CallsRaise(a: Alarm, calls: seq<Event>)
    requires a.enabled && !a.unhandled && OnlyCalls(calls)
    ensures var b := Run(a, calls);
            && b.condition == Raised(a.condition, calls)
            && b == a.(condition := b.condition, unhandled := b.unhandled, age := b.age)
            && (b.unhandled ==> b.age == 0)
            && (!b.unhandled <==> if a.condition then forall i | 0 <= i < |calls| :: calls[i].condition
                                  else forall i | 0 <= i < |calls| :: !calls[i].condition)
            && (!b.unhandled ==> b == a)
    decreases |calls|
  {
    if calls != [] {
      var before := calls[..|calls| - 1];
      assert forall i | 0 <= i < |before| :: before[i] == calls[i];
      CallsRaise(a, before);
      RaisedStep(a.condition, calls);
    }
  }

  /** A condition that is raised between two updates is seen by the next one, however often it was
      withdrawn in between; and an alarm is set after an update only if its condition was met. */
  lemma RaisedIsSeen(a: Alarm, calls: seq<Event>)
    requires Consistent(a) && !a.unhandled && OnlyCalls(calls)
    ensures Step(Run(a, calls), Tick).0.state == Set <==> Raised(a.condition, calls)
  {
    CallsRaise(a, calls);
    RunKeepsConsistent(a, calls);
  }

  /** A one-off event is reported by an update exactly if it was raised since the last one. */
  lemma EventsAreReportedOnce(a: Alarm, calls: seq<Event>)
    requires a.enabled && a.eventOnly && !a.unhandled && !a.condition && OnlyCalls(calls)
    ensures var (b, notices) := Step(Run(a, calls), Tick);
            && notices == (if exists i :: 0 <= i < |calls| && calls[i].condition then [NoticeEvent] else [])
            && !b.condition && !b.unhandled
  {
    CallsRaise(a, calls);
  }

  /** A disabled alarm is left alone and gives no notice, whatever happens to its condition. */
  lemma {:induction false} DisabledIsQuiet(a: Alarm, events: seq<Event>)
    requires !a.enabled
    ensures Run(a, events) == a && Notices(a, events) == []
    decreases |events|
  {
    if events != [] {
      DisabledIsQuiet(a, events[..|events| - 1]);
    }
  }
}
