/** Election of the service that may steer the clock, over values: one update of the timing domain
    visits every service, elects, releases and acquires. */
module TimingService {
  import opened LexOrder
  import opened PtpTypes

  datatype Service = Service(
    priority1: byte, kind: byte, priority2: byte,
    operational: bool, available: bool, inControl: bool, idle: bool, hold: bool,
    updateInterval: int, lastUpdate: int, minIdleTime: int, idleTime: int, timeout: int,
    holdTime: int, holdTimeLeft: int, updateDue: bool, activity: bool)

  /** What the update function of a service does to it; the control flag is not its business. */
  datatype Report = Report(
    operational: bool, available: bool, idle: bool, hold: bool, activity: bool, holdTimeLeft: int)

  datatype Tally = Tally(available: nat, operational: nat, idle: nat, control: nat)

  datatype Domain = Domain(
    services: seq<Service>, current: Option<nat>, best: Option<nat>, preferred: Option<nat>,
    updateInterval: int, electionDelay: int, electionLeft: int, tally: Tally)
  {
    predicate Indexed() {
      current.Some? ==> current.value < |services|
    }
  }

  // ---------------------------------------------------------------- comparison

  /** `cmpTimingService`: 1 if the first service is at least as good, else -1. */
  function CmpTimingService(a: Service, b: Service, useableOnly: bool): int {
    if useableOnly && a.operational != b.operational then (if a.operational then 1 else -1)
    else if useableOnly && a.available != b.available then (if a.available then 1 else -1)
    else if a.priority1 != b.priority1 then (if a.priority1 < b.priority1 then 1 else -1)
    else if a.kind != b.kind then (if a.kind < b.kind then 1 else -1)
    else if a.priority2 != b.priority2 then (if a.priority2 < b.priority2 then 1 else -1)
    else 1
  }

  /** The lesser rank wins; a service that cannot be used ranks after one that can. */
  function ServiceRank(s: Service, useableOnly: bool): (k: seq<int>)
    ensures |k| == 5
  {
    [if useableOnly && !s.operational then 1 else 0, if useableOnly && !s.available then 1 else 0,
     s.priority1, s.kind, s.priority2]
  }

  lemma CmpFollowsRank(a: Service, b: Service, useableOnly: bool)
    ensures CmpTimingService(a, b, useableOnly) ==
            if LexCompare(ServiceRank(a, useableOnly), ServiceRank(b, useableOnly)) <= 0 then 1 else -1
  {
    var (x, y) := (ServiceRank(a, useableOnly), ServiceRank(b, useableOnly));
    forall i | 0 <= i < 5
      ensures LexCompare(x[i..], y[i..]) ==
              if x[i] != y[i] then Sign(x[i], y[i]) else LexCompare(x[i + 1..], y[i + 1..])
    {
      assert x[i..][1..] == x[i + 1..] && y[i..][1..] == y[i + 1..];
    }
    assert x[0..] == x && y[0..] == y && x[5..] == y[5..] == [];
  }

  lemma NeverATie(a: Service, b: Service, useableOnly: bool)
    ensures CmpTimingService(a, b, useableOnly) != 0
    ensures a == b ==> CmpTimingService(a, b, useableOnly) == 1
  {
  }

  /** The index that an election holds after looking at the first `k` services. */
  function Winner(services: seq<Service>, k: nat, useableOnly: bool): (best: nat)
    requires k <= |services|
    ensures k > 0 ==> best < k
  {
    if k == 0 then 0
    else
      var best := Winner(services, k - 1, useableOnly);
      if CmpTimingService(services[k - 1], services[best], useableOnly) > 0 then k - 1 else best
  }

  /** The election ends on the last service of the best rank. */
  lemma {:induction false} WinnerIsBest(services: seq<Service>, k: nat, useableOnly: bool)
    requires 0 < k <= |services|
    ensures var best := ServiceRank(services[Winner(services, k, useableOnly)], useableOnly);
            && (forall j | 0 <= j < k :: LexCompare(best, ServiceRank(services[j], useableOnly)) <= 0)
            && (forall j | Winner(services, k, useableOnly) < j < k ::
                  LexCompare(best, ServiceRank(services[j], useableOnly)) < 0)
  {
    hide LexCompare, ServiceRank, CmpTimingService;
    var last := ServiceRank(services[k - 1], useableOnly);
    var before := Winner(services, k - 1, useableOnly);
    var champion := ServiceRank(services[before], useableOnly);
    LexAntisymmetric(last, last);
    CmpFollowsRank(services[k - 1], services[before], useableOnly);
    LexAntisymmetric(last, champion);
    if k > 1 {
      WinnerIsBest(services, k - 1, useableOnly);
      forall j | 0 <= j < k - 1 && LexCompare(last, champion) <= 0
        ensures LexCompare(last, ServiceRank(services[j], useableOnly)) <= 0
      {
        LexTransitive(last, champion, ServiceRank(services[j], useableOnly));
      }
    }
  }

  // ---------------------------------------------------------------- first pass

  function Aged(s: Service, interval: int): Service {
    s.(lastUpdate := s.lastUpdate + interval,
       holdTimeLeft := if s.holdTimeLeft > 0 then s.holdTimeLeft - interval else 0)
  }

  predicate IsDue(s: Service) {
    s.lastUpdate >= s.updateInterval
  }

  function Reported(s: Service, r: Report): Service {
    s.(updateDue := true, lastUpdate := 0, operational := r.operational, available := r.available,
       idle := r.idle, hold := r.hold, activity := r.activity, holdTimeLeft := r.holdTimeLeft)
  }

  /** Idle times of an operational service. */
  function Watched(s: Service, isCurrent: bool, interval: int): Service {
    if !s.operational then s
    else
      var t := if s.activity
               then s.(idle := false, idleTime := 0, activity := false,
                       holdTimeLeft := if s.holdTimeLeft > 0 && !s.hold then 0 else s.holdTimeLeft)
               else s.(idleTime := s.idleTime + interval);
      if t.available && !t.hold && t.idleTime > t.minIdleTime && t.idleTime > t.timeout then
        var u := t.(idleTime := 0, idle := true,
                    holdTimeLeft := if !t.idle && isCurrent then t.holdTime else t.holdTimeLeft);
        if isCurrent && u.holdTimeLeft <= 0 then u.(inControl := false) else u
      else t
  }

  /** The watch ends with the current service idle and without hold time. */
  predicate GoneIdle(s: Service, isCurrent: bool, interval: int) {
    && isCurrent && s.operational && s.available && !s.hold
    && (var idleTime := if s.activity then 0 else s.idleTime + interval;
        idleTime > s.minIdleTime && idleTime > s.timeout)
    && Watched(s, isCurrent, interval).holdTimeLeft <= 0
  }

  lemma UnwatchedWhenDown(s: Service, isCurrent: bool, interval: int)
    ensures !s.operational ==> Watched(s, isCurrent, interval) == s && !GoneIdle(s, isCurrent, interval)
    ensures GoneIdle(s, isCurrent, interval) ==> isCurrent && !Watched(s, isCurrent, interval).inControl
  {
  }

  predicate LosesEligibility(s: Service) {
    (!s.available || !s.operational) && s.inControl && s.holdTimeLeft <= 0
  }

  function Visit(d: Domain, i: nat, r: Report): (d': Domain)
    requires i < |d.services|
    ensures |d'.services| == |d.services|
  {
    var aged := Aged(d.services[i], d.updateInterval);
    if !IsDue(aged) then d.(services := d.services[i := aged])
    else
      var isCurrent := d.current == Some(i);
      var reported := Reported(aged, r);
      var watched := Watched(reported, isCurrent, d.updateInterval);
      var done := if LosesEligibility(watched) then watched.(inControl := false) else watched;
      if GoneIdle(reported, isCurrent, d.updateInterval) || (LosesEligibility(watched) && isCurrent)
      then d.(services := d.services[i := done], electionLeft := d.electionDelay, current := None)
      else d.(services := d.services[i := done])
  }

  function FirstPass(d: Domain, reports: seq<Report>, k: nat): (d': Domain)
    requires k <= |d.services| <= |reports|
    ensures |d'.services| == |d.services|
    decreases k
  {
    if k == 0 then d else Visit(FirstPass(d, reports, k - 1), k - 1, reports[k - 1])
  }

  // ---------------------------------------------------------------- election and control

  function Dismissed(s: Service, isCurrent: bool): Service {
    if !isCurrent && s.inControl && s.updateDue && s.holdTimeLeft <= 0 then s.(inControl := false) else s
  }

  /** The third pass: services in control that are not current lose it. */
  function ThirdPass(d: Domain): (services: seq<Service>)
    ensures |services| == |d.services|
  {
    seq(|d.services|, i requires 0 <= i < |d.services| => Dismissed(d.services[i], d.current == Some(i)))
  }

  lemma ThirdPassAt(d: Domain)
    ensures forall i | 0 <= i < |d.services| ::
              ThirdPass(d)[i] == Dismissed(d.services[i], d.current == Some(i))
  {
  }

  function Cleared(services: seq<Service>): (r: seq<Service>)
    ensures |r| == |services|
  {
    seq(|services|, i requires 0 <= i < |services| => services[i].(updateDue := false))
  }

  function Count(b: bool): nat {
    if b then 1 else 0
  }

  function Sums(services: seq<Service>, k: nat): Tally
    requires k <= |services|
  {
    if k == 0 then Tally(0, 0, 0, 0)
    else
      var (t, s) := (Sums(services, k - 1), services[k - 1]);
      Tally(t.available + Count(s.available), t.operational + Count(s.operational),
            t.idle + Count(s.idle), t.control + Count(s.inControl))
  }

  /** The control count is the number of services in control. */
  lemma {:induction false} ControlCount(services: seq<Service>, k: nat)
    requires k <= |services|
    ensures Sums(services, k).control == |set i | 0 <= i < k && services[i].inControl|
  {
    if k > 0 {
      ControlCount(services, k - 1);
      assert (set i | 0 <= i < k && services[i].inControl) ==
             (set i | 0 <= i < k - 1 && services[i].inControl) + (if services[k - 1].inControl then {k - 1} else {});
    }
  }

  function CountIf(services: seq<Service>, k: nat, flag: Service -> bool): nat
    requires k <= |services|
  {
    if k == 0 then 0 else CountIf(services, k - 1, flag) + Count(flag(services[k - 1]))
  }

  lemma {:induction false} CountIfIsCardinality(services: seq<Service>, k: nat, flag: Service -> bool)
    requires k <= |services|
    ensures CountIf(services, k, flag) == |set i | 0 <= i < k && flag(services[i])|
  {
    if k > 0 {
      CountIfIsCardinality(services, k - 1, flag);
      var before := set i | 0 <= i < k - 1 && flag(services[i]);
      var after := set i | 0 <= i < k && flag(services[i]);
      assert k - 1 !in before;
      if flag(services[k - 1]) {
        assert after == before + {k - 1};
      } else {
        assert after == before;
      }
    }
  }

  /** And so for the other counts. */
  lemma {:induction false} FlagCounts(services: seq<Service>, k: nat)
    requires k <= |services|
    ensures Sums(services, k).available == CountIf(services, k, (s: Service) => s.available)
    ensures Sums(services, k).operational == CountIf(services, k, (s: Service) => s.operational)
    ensures Sums(services, k).idle == CountIf(services, k, (s: Service) => s.idle)
  {
    if k > 0 {
      FlagCounts(services, k - 1);
    }
  }

  predicate Usable(s: Service) {
    s.operational && s.available
  }

  function Finish(d: Domain, best: nat): (d': Domain)
    requires best < |d.services| && d.Indexed()
    ensures |d'.services| == |d.services| && d'.Indexed()
  {
    var kept := ThirdPass(d);
    var q := d.(services := Cleared(kept), tally := Sums(kept, |kept|),
                best := if |d.services| == 1 && d.current == None then None else d.best);
    if !Usable(q.services[best]) then q.(current := None)
    else if !q.services[best].inControl && q.electionLeft == 0 then
      q.(services := q.services[best := q.services[best].(inControl := true)])
    else q
  }

  function Elect(d: Domain): (d': Domain)
    requires |d.services| > 0 && d.Indexed()
    ensures |d'.services| == |d.services| && d'.Indexed()
  {
    var best := Winner(d.services, |d.services|, true);
    var q := d.(best := Some(best), preferred := Some(Winner(d.services, |d.services|, false)));
    if Some(best) == q.current || q.electionLeft != 0 then Finish(q, best)
    else if q.current.Some? && q.services[q.current.value].holdTimeLeft <= 0 then
      var c := q.current.value;
      q.(services := q.services[c := q.services[c].(inControl := false)],
         electionLeft := q.electionDelay, current := None)
    else if Usable(q.services[best]) then Finish(q.(current := Some(best)), best)
    else Finish(q.(current := None, best := None), best)
  }

  function CountedDown(d: Domain): Domain {
    if d.electionLeft > 0 then d.(electionLeft := d.electionLeft - d.updateInterval) else d
  }

  lemma {:induction false} FirstPassIndexed(d: Domain, reports: seq<Report>, k: nat)
    requires k <= |d.services| <= |reports| && d.Indexed()
    ensures FirstPass(d, reports, k).Indexed()
  {
    hide Watched, GoneIdle;
    if k > 0 {
      FirstPassIndexed(d, reports, k - 1);
    }
  }

  /** One update of the timing domain, with a report for every service that is due. */
  function Update(d: Domain, reports: seq<Report>): (d': Domain)
    requires d.Indexed() && |reports| == |d.services|
    ensures |d'.services| == |d.services| && d'.Indexed()
  {
    if d.services == [] then CountedDown(d)
    else
      FirstPassIndexed(CountedDown(d), reports, |d.services|);
      Elect(FirstPass(CountedDown(d), reports, |d.services|))
  }

  // ---------------------------------------------------------------- the PTP service

  /** What the PTP service reads from its clock. */
  datatype PtpStatus = PtpStatus(portState: PortState, available: bool, activity: bool, failover: bool)

  /** `ptpServiceUpdate`, as a report. */
  function PtpServiceUpdate(s: Service, c: PtpStatus): Report {
    if !c.failover then Report(true, true, s.idle, s.hold, true, s.holdTimeLeft)
    else
      var operational := c.portState != Initializing && c.portState != Faulty;
      var r :=
        if c.portState != Slave then
          if s.hold then
            if s.holdTimeLeft <= 0 then Report(operational, false, false, false, c.activity, s.holdTimeLeft)
            else Report(operational, s.available, false, true, c.activity, s.holdTimeLeft)
          else if c.available then
            Report(operational, s.available, false, true, c.activity,
                   if s.holdTimeLeft <= 0 then s.holdTime else s.holdTimeLeft)
          else Report(operational, s.available, false, false, c.activity, s.holdTimeLeft)
        else if c.available then
          Report(operational, true, s.idle, false, c.activity, if s.hold then 0 else s.holdTimeLeft)
        else Report(operational, false, s.idle, s.hold, c.activity, s.holdTimeLeft);
      if r.idle && r.holdTimeLeft <= 0 then r.(available := false) else r
  }
}
