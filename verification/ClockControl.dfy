/** Who steers the clock over runs of a timing domain: never two services at once without hold times,
    never again before the election delay has passed, and in the end the best one. */
module ClockControl {
  import opened LexOrder
  import opened PtpTypes
  import opened TimingService
  import opened Division

  /** The current service is the one in control, it can be used, and no election is pending. */
  predicate Exclusive(d: Domain) {
    && d.Indexed()
    && (forall i | 0 <= i < |d.services| :: d.services[i].inControl <==> d.current == Some(i))
    && (d.current.Some? ==> d.electionLeft == 0 && Usable(d.services[d.current.value]))
  }

  /** What holds after `k` services were visited: the current one may live on its hold time. */
  predicate Surveyed(d: Domain, k: nat) {
    && d.Indexed()
    && (forall i | 0 <= i < |d.services| :: d.services[i].inControl <==> d.current == Some(i))
    && (d.current.Some? ==>
          var s := d.services[d.current.value];
          d.electionLeft == 0 && (Usable(s) || (d.current.value < k && s.holdTimeLeft > 0)))
  }

  /** A running hold timer keeps the current service in control although another one was elected or
      it became unusable. */
  predicate HoldInterferes(d: Domain)
    requires d.Indexed() && |d.services| > 0
  {
    d.current.Some? &&
    var c := d.current.value;
    && d.services[c].holdTimeLeft > 0
    && (Winner(d.services, |d.services|, true) != c || !Usable(d.services[c]))
  }

  predicate SharedControl(d: Domain) {
    exists i, j :: 0 <= i < j < |d.services| && d.services[i].inControl && d.services[j].inControl
  }

  /** Watching the idle time changes no flag but the idle flag and the control of a service gone idle. */
  lemma WatchedFlags(s: Service, isCurrent: bool, interval: int)
    ensures var w := Watched(s, isCurrent, interval);
            && w == s.(inControl := w.inControl, idle := w.idle, idleTime := w.idleTime,
                       activity := w.activity, holdTimeLeft := w.holdTimeLeft)
            && w.inControl == (s.inControl && !GoneIdle(s, isCurrent, interval))
            && (GoneIdle(s, isCurrent, interval) ==> isCurrent)
            && (s.holdTime <= 0 && s.holdTimeLeft <= 0 ==> w.holdTimeLeft <= 0)
  {
  }

  lemma VisitKeepsSurveyed(d: Domain, k: nat, r: Report)
    requires k < |d.services| && Surveyed(d, k)
    ensures Surveyed(Visit(d, k, r), k + 1)
  {
    hide Watched, GoneIdle;
    WatchedFlags(Reported(Aged(d.services[k], d.updateInterval), r), d.current == Some(k), d.updateInterval);
  }

  lemma {:induction false} FirstPassSurveys(d: Domain, reports: seq<Report>, k: nat)
    requires k <= |d.services| <= |reports| && Surveyed(d, 0)
    ensures Surveyed(FirstPass(d, reports, k), k)
    decreases k
  {
    hide Surveyed, Visit;
    if k > 0 {
      FirstPassSurveys(d, reports, k - 1);
      VisitKeepsSurveyed(FirstPass(d, reports, k - 1), k - 1, reports[k - 1]);
    }
  }

  /** Equal up to control and to the mark of a due update. */
  predicate SameService(s: Service, s': Service) {
    s' == s.(inControl := s'.inControl, updateDue := s'.updateDue)
  }

  /** Who is in control after the third pass and the acquisition. */
  predicate InControlAfter(d: Domain, best: nat, i: nat)
    requires best < |d.services| && i < |d.services|
  {
    var s := d.services[i];
    || (s.inControl && (d.current == Some(i) || !s.updateDue || s.holdTimeLeft > 0))
    || (i == best && Usable(d.services[best]) && d.electionLeft == 0)
  }

  lemma FinishControls(d: Domain, best: nat)
    requires best < |d.services| && d.Indexed()
    ensures var d' := Finish(d, best);
            && d'.electionLeft == d.electionLeft
            && d'.current == (if Usable(d.services[best]) then d.current else None)
            && forall i | 0 <= i < |d.services| ::
                 SameService(d.services[i], d'.services[i]) &&
                 (d'.services[i].inControl <==> InControlAfter(d, best, i))
  {
    hide Sums, ThirdPass, Dismissed;
    ThirdPassAt(d);
    forall i | 0 <= i < |d.services|
      ensures SameService(d.services[i], Cleared(ThirdPass(d))[i])
      ensures Cleared(ThirdPass(d))[i].inControl <==>
              d.services[i].inControl &&
              (d.current == Some(i) || !d.services[i].updateDue || d.services[i].holdTimeLeft > 0)
    {
      DismissedFlags(d.services[i], d.current == Some(i));
    }
  }

  lemma DismissedFlags(s: Service, isCurrent: bool)
    ensures var t := Dismissed(s, isCurrent);
            && t == s.(inControl := t.inControl)
            && (t.inControl <==> s.inControl && (isCurrent || !s.updateDue || s.holdTimeLeft > 0))
  {
  }

  /** Elections change nothing about a service but its control. */
  lemma ElectionServices(d: Domain)
    requires |d.services| > 0 && d.Indexed()
    ensures forall i | 0 <= i < |d.services| :: SameService(d.services[i], Elect(d).services[i])
  {
    hide Winner, Finish, InControlAfter, Usable;
    var best := Winner(d.services, |d.services|, true);
    var q := d.(best := Some(best), preferred := Some(Winner(d.services, |d.services|, false)));
    FinishControls(q, best);
    FinishControls(q.(current := Some(best)), best);
    FinishControls(q.(current := None, best := None), best);
  }

  /** The election as a table of cases. */
  lemma ElectionCases(d: Domain, best: nat)
    requires |d.services| > 0 && d.Indexed() && best == Winner(d.services, |d.services|, true)
    ensures var d' := Elect(d);
            var e := if Some(best) == d.current || d.electionLeft != 0 then d
                     else d.(current := if Usable(d.services[best]) then Some(best) else None);
            if Some(best) != d.current && d.electionLeft == 0 && d.current.Some? &&
               d.services[d.current.value].holdTimeLeft <= 0
            then d'.current == None && d'.electionLeft == d.electionDelay &&
                 forall i | 0 <= i < |d.services| ::
                   d'.services[i].inControl <==> d.services[i].inControl && d.current != Some(i)
            else d'.electionLeft == d.electionLeft &&
                 d'.current == (if Usable(d.services[best]) then e.current else None) &&
                 forall i | 0 <= i < |d.services| :: d'.services[i].inControl <==> InControlAfter(e, best, i)
  {
    hide Winner, Finish, Usable;
    var q := d.(best := Some(best), preferred := Some(Winner(d.services, |d.services|, false)));
    FinishControls(q, best);
    FinishControls(q.(current := Some(best)), best);
    FinishControls(q.(current := None, best := None), best);
  }

  lemma ElectionKeepsIff(d: Domain)
    requires |d.services| > 0 && Surveyed(d, |d.services|)
    ensures Exclusive(Elect(d)) <==> !HoldInterferes(d)
    ensures SharedControl(Elect(d)) <==>
            HoldInterferes(d) && Winner(d.services, |d.services|, true) != d.current.value &&
            Usable(d.services[Winner(d.services, |d.services|, true)])
  {
    hide Winner, Elect;
    var best := Winner(d.services, |d.services|, true);
    var d' := Elect(d);
    ElectionCases(d, best);
    ElectionServices(d);
    if d.current.Some? {
      var c := d.current.value;
      assert d'.services[c].inControl <==> c == best || d.services[c].holdTimeLeft > 0;
      assert d'.services[best].inControl <==>
             (c == best || (d.services[c].holdTimeLeft > 0 && Usable(d.services[best])));
    }
  }

  /** A due service that reports itself usable: the current one stays in control while it holds. */
  lemma UsableVisit(d: Domain, k: nat, r: Report)
    requires k < |d.services| && d.Indexed() && IsDue(Aged(d.services[k], d.updateInterval))
    requires r.operational && r.available
    requires d.current == Some(k) ==> r.hold && r.holdTimeLeft > 0
    ensures var d' := Visit(d, k, r);
            var s' := d'.services[k];
            && d' == d.(services := d.services[k := s'])
            && Usable(s') && s'.inControl == d.services[k].inControl
            && s'.priority1 == d.services[k].priority1 && s'.kind == d.services[k].kind
            && s'.priority2 == d.services[k].priority2
            && (d.current == Some(k) ==> s'.holdTimeLeft == (if r.activity && !r.hold then 0 else r.holdTimeLeft))
  {
    WatchedFlags(Reported(Aged(d.services[k], d.updateInterval), r), d.current == Some(k), d.updateInterval);
  }

  /** With a hold timer two services may steer the clock at the same time: the service in control
      leaves but holds on, and a preferred one becomes usable. */
  lemma HoldTimerSharesControl(d: Domain, reports: seq<Report>)
    requires Exclusive(d) && |d.services| == |reports| == 2 && d.current == Some(0)
    requires forall i | 0 <= i < 2 ::
               IsDue(Aged(d.services[i], d.updateInterval)) && reports[i].operational && reports[i].available
    requires reports[0].hold && reports[0].holdTimeLeft > 0
    requires CmpTimingService(d.services[1], d.services[0], false) > 0
    ensures SharedControl(Update(d, reports))
  {
    hide Visit, Elect, SharedControl;
    UpdateKeepsIffShape(d, reports);
    UsableVisit(d, 0, reports[0]);
    var one := Visit(d, 0, reports[0]);
    assert one.services[1] == d.services[1];
    UsableVisit(one, 1, reports[1]);
    var two := Visit(one, 1, reports[1]);
    assert FirstPass(d, reports, 1) == Visit(FirstPass(d, reports, 0), 0, reports[0]) == one;
    assert FirstPass(d, reports, 2) == two;
    assert Winner(two.services, 1, true) == 0;
    assert CmpTimingService(two.services[1], two.services[0], true) > 0;
    assert Winner(two.services, 2, true) == 1;
    ElectionKeepsIff(two);
  }

  lemma UpdateKeepsIffShape(d: Domain, reports: seq<Report>)
    requires Exclusive(d) && |reports| == |d.services| && d.current.Some?
    ensures CountedDown(d) == d && Surveyed(FirstPass(d, reports, |d.services|), |d.services|)
  {
    hide FirstPass;
    FirstPassSurveys(d, reports, |d.services|);
  }

  // ---------------------------------------------------------------- without hold times

  predicate ZeroHold(d: Domain) {
    forall i | 0 <= i < |d.services| :: d.services[i].holdTime <= 0 && d.services[i].holdTimeLeft <= 0
  }

  predicate NoHold(reports: seq<Report>) {
    forall i | 0 <= i < |reports| :: reports[i].holdTimeLeft <= 0
  }

  lemma {:induction false} FirstPassZeroHold(d: Domain, reports: seq<Report>, k: nat)
    requires k <= |d.services| <= |reports| && ZeroHold(d) && NoHold(reports)
    ensures ZeroHold(FirstPass(d, reports, k))
    decreases k
  {
    hide Visit;
    if k > 0 {
      FirstPassZeroHold(d, reports, k - 1);
      VisitZeroHold(FirstPass(d, reports, k - 1), k - 1, reports[k - 1]);
    }
  }

  lemma VisitZeroHold(d: Domain, k: nat, r: Report)
    requires k < |d.services| && ZeroHold(d) && r.holdTimeLeft <= 0
    ensures ZeroHold(Visit(d, k, r))
  {
    hide Watched, GoneIdle;
    WatchedFlags(Reported(Aged(d.services[k], d.updateInterval), r), d.current == Some(k), d.updateInterval);
  }

  lemma ElectionZeroHold(d: Domain)
    requires |d.services| > 0 && d.Indexed() && ZeroHold(d)
    ensures ZeroHold(Elect(d)) && !HoldInterferes(d)
  {
    hide Winner, Elect;
    ElectionServices(d);
  }

  /** One update keeps control exclusive exactly when no hold timer interferes. */
  lemma UpdateKeepsExclusiveIff(d: Domain, reports: seq<Report>)
    requires Exclusive(d) && |reports| == |d.services| > 0
    ensures var p := FirstPass(CountedDown(d), reports, |d.services|);
            && p.Indexed() && Surveyed(p, |d.services|)
            && (Exclusive(Update(d, reports)) <==> !HoldInterferes(p))
  {
    hide Elect, HoldInterferes, Visit;
    FirstPassIndexed(CountedDown(d), reports, |d.services|);
    FirstPassSurveys(CountedDown(d), reports, |d.services|);
    ElectionKeepsIff(FirstPass(CountedDown(d), reports, |d.services|));
  }

  lemma UpdateKeepsExclusive(d: Domain, reports: seq<Report>)
    requires Exclusive(d) && ZeroHold(d) && NoHold(reports) && |reports| == |d.services|
    ensures Exclusive(Update(d, reports)) && ZeroHold(Update(d, reports))
  {
    hide Elect, HoldInterferes, FirstPass;
    if d.services != [] {
      UpdateKeepsExclusiveIff(d, reports);
      FirstPassZeroHold(CountedDown(d), reports, |d.services|);
      ElectionZeroHold(FirstPass(CountedDown(d), reports, |d.services|));
    }
  }

  // ---------------------------------------------------------------- runs

  predicate FitsDomain(d: Domain, history: seq<seq<Report>>) {
    forall t | 0 <= t < |history| :: |history[t]| == |d.services| && NoHold(history[t])
  }

  function Run(d: Domain, history: seq<seq<Report>>): (d': Domain)
    requires d.Indexed() && FitsDomain(d, history)
    ensures |d'.services| == |d.services| && d'.Indexed()
    decreases |history|
  {
    if history == [] then d else Run(Update(d, history[0]), history[1..])
  }

  /** Nobody is in control yet. */
  predicate Started(d: Domain) {
    d.current == None && forall i | 0 <= i < |d.services| :: !d.services[i].inControl
  }

  /** Exclusive control over every run: at most one service is in control, and it is the current one. */
  lemma {:induction false} ControlIsExclusive(d: Domain, history: seq<seq<Report>>)
    requires Exclusive(d) && ZeroHold(d) && FitsDomain(d, history)
    ensures Exclusive(Run(d, history)) && ZeroHold(Run(d, history))
    decreases |history|
  {
    hide Exclusive, ZeroHold, Update, NoHold;
    ExclusiveIsIndexed(d);
    if history != [] {
      UpdateKeepsExclusive(d, history[0]);
      ControlIsExclusive(Update(d, history[0]), history[1..]);
    }
  }

  lemma ExclusiveIsIndexed(d: Domain)
    requires Exclusive(d)
    ensures d.Indexed()
  {
  }

  lemma AtMostOneCounted(services: seq<Service>, c: Option<nat>)
    requires forall i | 0 <= i < |services| && services[i].inControl :: c == Some(i)
    ensures Sums(services, |services|).control <= 1
  {
    ControlCount(services, |services|);
    var counted := set i | 0 <= i < |services| && services[i].inControl;
    if c.Some? {
      assert counted <= {c.value};
      CardinalityOfSubset(counted, {c.value});
    } else {
      assert counted == {};
    }
  }

  lemma {:induction false} CardinalityOfSubset<T>(a: set<T>, b: set<T>)
    requires a <= b
    ensures |a| <= |b|
  {
    if a != {} {
      var x :| x in a;
      CardinalityOfSubset(a - {x}, b - {x});
    }
  }

  lemma FinishCounts(d: Domain, best: nat)
    requires best < |d.services| && d.Indexed()
    requires forall i | 0 <= i < |d.services| && d.services[i].inControl && d.current != Some(i) ::
               d.services[i].updateDue && d.services[i].holdTimeLeft <= 0
    ensures Finish(d, best).tally.control <= 1
  {
    hide Sums;
    AtMostOneCounted(ThirdPass(d), d.current);
  }

  lemma ElectionCounts(d: Domain)
    requires |d.services| > 0 && Surveyed(d, |d.services|) && ZeroHold(d)
    ensures Elect(d).tally == d.tally || Elect(d).tally.control <= 1
  {
    hide Winner, Finish;
    var best := Winner(d.services, |d.services|, true);
    var q := d.(best := Some(best), preferred := Some(Winner(d.services, |d.services|, false)));
    FinishCounts(q, best);
    if d.current.None? {
      FinishCounts(q.(current := Some(best)), best);
      FinishCounts(q.(current := None, best := None), best);
    }
  }

  lemma {:induction false} FirstPassKeepsTally(d: Domain, reports: seq<Report>, k: nat)
    requires k <= |d.services| <= |reports|
    ensures FirstPass(d, reports, k).tally == d.tally
    decreases k
  {
    hide Watched, LosesEligibility, GoneIdle;
    if k > 0 {
      FirstPassKeepsTally(d, reports, k - 1);
    }
  }

  /** The domain never counts more than one service in control. */
  lemma CountsAtMostOne(d: Domain, reports: seq<Report>)
    requires Exclusive(d) && ZeroHold(d) && NoHold(reports) && |reports| == |d.services| && d.tally.control <= 1
    ensures Update(d, reports).tally.control <= 1
  {
    hide FirstPass, Elect;
    if d.services != [] {
      FirstPassIndexed(CountedDown(d), reports, |d.services|);
      FirstPassZeroHold(CountedDown(d), reports, |d.services|);
      FirstPassSurveys(CountedDown(d), reports, |d.services|);
      FirstPassKeepsTally(CountedDown(d), reports, |d.services|);
      ElectionCounts(FirstPass(CountedDown(d), reports, |d.services|));
    }
  }

  /** The service in control after an update is a maximum of that update's election. */
  lemma ControllerIsBest(d: Domain, reports: seq<Report>, j: nat)
    requires Exclusive(d) && ZeroHold(d) && NoHold(reports) && |reports| == |d.services| && j < |d.services|
    requires Update(d, reports).current.Some?
    ensures var d' := Update(d, reports);
            LexCompare(ServiceRank(d'.services[d'.current.value], true), ServiceRank(d'.services[j], true)) <= 0
  {
    hide LexCompare, Sums, Winner;
    FirstPassIndexed(CountedDown(d), reports, |d.services|);
    FirstPassZeroHold(CountedDown(d), reports, |d.services|);
    FirstPassSurveys(CountedDown(d), reports, |d.services|);
    var p := FirstPass(CountedDown(d), reports, |d.services|);
    hide FirstPass;
    WinnerIsBest(p.services, |p.services|, true);
    RanksAfterElection(p);
  }

  lemma RanksAfterElection(p: Domain)
    requires |p.services| > 0 && Surveyed(p, |p.services|) && ZeroHold(p)
    ensures forall i | 0 <= i < |p.services| ::
              ServiceRank(Elect(p).services[i], true) == ServiceRank(p.services[i], true)
    ensures Elect(p).current.Some? ==> Elect(p).current.value == Winner(p.services, |p.services|, true)
  {
    hide Winner, Elect, InControlAfter;
    ElectionServices(p);
    ElectionCases(p, Winner(p.services, |p.services|, true));
  }

  // ---------------------------------------------------------------- when services are visited

  /** The seconds since the last visit, after an update with or without one. */
  function NextVisit(s: Service, interval: int): int {
    if s.lastUpdate + interval >= s.updateInterval then 0 else s.lastUpdate + interval
  }

  lemma VisitSchedules(d: Domain, k: nat, r: Report)
    requires k < |d.services|
    ensures var (s, d') := (d.services[k], Visit(d, k, r));
            var t := d'.services[k];
            && t.lastUpdate == NextVisit(s, d.updateInterval) && t.updateInterval == s.updateInterval
            && (t.updateDue <==> s.updateDue || s.lastUpdate + d.updateInterval >= s.updateInterval)
            && d'.updateInterval == d.updateInterval
            && forall i | 0 <= i < |d.services| && i != k :: d'.services[i] == d.services[i]
  {
    hide Watched, GoneIdle;
    WatchedFlags(Reported(Aged(d.services[k], d.updateInterval), r), d.current == Some(k), d.updateInterval);
  }

  lemma {:induction false} FirstPassSchedules(d: Domain, reports: seq<Report>, k: nat)
    requires k <= |d.services| <= |reports|
    ensures var p := FirstPass(d, reports, k);
            && p.updateInterval == d.updateInterval
            && (forall i | k <= i < |d.services| :: p.services[i] == d.services[i])
            && forall i | 0 <= i < k ::
                 var (s, t) := (d.services[i], p.services[i]);
                 && t.lastUpdate == NextVisit(s, d.updateInterval) && t.updateInterval == s.updateInterval
                 && (t.updateDue <==> s.updateDue || s.lastUpdate + d.updateInterval >= s.updateInterval)
    decreases k
  {
    hide Visit, NextVisit;
    if k > 0 {
      FirstPassSchedules(d, reports, k - 1);
      VisitSchedules(FirstPass(d, reports, k - 1), k - 1, reports[k - 1]);
    }
  }

  lemma UpdateSchedules(d: Domain, reports: seq<Report>)
    requires d.Indexed() && |reports| == |d.services|
    ensures var d' := Update(d, reports);
            && d'.updateInterval == d.updateInterval
            && forall i | 0 <= i < |d.services| ::
                 var (s, t) := (d.services[i], d'.services[i]);
                 t.lastUpdate == NextVisit(s, d.updateInterval) && t.updateInterval == s.updateInterval
  {
    hide FirstPass, Elect, NextVisit;
    if d.services != [] {
      FirstPassIndexed(CountedDown(d), reports, |d.services|);
      FirstPassSchedules(CountedDown(d), reports, |d.services|);
      ElectionServices(FirstPass(CountedDown(d), reports, |d.services|));
      ElectionKeepsTimers(FirstPass(CountedDown(d), reports, |d.services|));
    }
  }

  /** Every service has its own interval: over every run of updates a second apart, a service with an interval of
      `n` seconds is visited in exactly every `n`-th update. */
  lemma {:induction false} VisitedEvery(d: Domain, history: seq<seq<Report>>, i: nat, x: nat)
    requires d.Indexed() && FitsDomain(d, history) && i < |d.services| && d.updateInterval == 1
    requires d.services[i].updateInterval > 0 && d.services[i].lastUpdate == x % d.services[i].updateInterval
    ensures Run(d, history).services[i].lastUpdate == (x + |history|) % d.services[i].updateInterval
    decreases |history|
  {
    hide Update, NoHold;
    if history != [] {
      UpdateSchedules(d, history[0]);
      ModuloStep(x, d.services[i].updateInterval);
      UpdateKeepsTimers(d, history[0]);
      VisitedEvery(Update(d, history[0]), history[1..], i, x + 1);
    }
  }

  /** A service that was visited and lost the election loses control in the same update, unless a hold timer runs
      or the election releases the current service first. */
  lemma OutvotedIsDismissed(d: Domain, reports: seq<Report>, i: nat)
    requires d.Indexed() && |reports| == |d.services| && i < |d.services|
    requires d.services[i].lastUpdate + d.updateInterval >= d.services[i].updateInterval
    ensures FirstPass(CountedDown(d), reports, |d.services|).Indexed()
    ensures var (p, d') := (FirstPass(CountedDown(d), reports, |d.services|), Update(d, reports));
            var best := Winner(p.services, |p.services|, true);
            var releases := Some(best) != p.current && p.electionLeft == 0 && p.current.Some? &&
                            p.services[p.current.value].holdTimeLeft <= 0;
            i != best && p.current != Some(i) && d'.services[i].holdTimeLeft <= 0 && !releases ==>
              !d'.services[i].inControl
  {
    hide FirstPass, Elect, Winner, Usable;
    FirstPassIndexed(CountedDown(d), reports, |d.services|);
    FirstPassSchedules(CountedDown(d), reports, |d.services|);
    var p := FirstPass(CountedDown(d), reports, |d.services|);
    ElectionServices(p);
    ElectionCases(p, Winner(p.services, |p.services|, true));
  }

  // ---------------------------------------------------------------- idle services

  /** A service that reports itself usable, but shows no activity. */
  const INACTIVE: Report := Report(true, true, false, false, false, 0)

  function Visits(d: Domain, i: nat, r: Report, k: nat): (d': Domain)
    requires i < |d.services|
    ensures |d'.services| == |d.services|
  {
    if k == 0 then d else Visit(Visits(d, i, r, k - 1), i, r)
  }

  function Max(a: int, b: int): int {
    if a > b then a else b
  }

  /** The longer of the two idle limits of a service. */
  function Patience(s: Service): int {
    Max(s.timeout, s.minIdleTime)
  }

  /** In control, active until just now, and due in every update. */
  predicate JustActive(d: Domain, i: nat) {
    && i < |d.services| && d.current == Some(i) && d.updateInterval == 1
    && var s := d.services[i];
       s.idleTime == 0 && s.holdTime <= 0 && s.updateInterval <= 1 && s.lastUpdate >= 0 && Patience(s) >= 0
  }

  lemma InactiveVisit(d: Domain, i: nat)
    requires i < |d.services| && d.current == Some(i) && d.updateInterval == 1
    requires d.services[i].holdTime <= 0 && d.services[i].updateInterval <= 1 && d.services[i].lastUpdate >= 0
    ensures var (s, d') := (d.services[i], Visit(d, i, INACTIVE));
            && d'.updateInterval == 1
            && (s.idleTime + 1 <= Patience(s) ==>
                  && d'.current == d.current && d'.services[i].idleTime == s.idleTime + 1
                  && d'.services[i].holdTime == s.holdTime && d'.services[i].timeout == s.timeout
                  && d'.services[i].minIdleTime == s.minIdleTime
                  && d'.services[i].updateInterval == s.updateInterval && d'.services[i].lastUpdate == 0)
            && (s.idleTime + 1 > Patience(s) ==>
                  d'.current == None && d'.electionLeft == d.electionDelay && !d'.services[i].inControl)
  {
  }

  /** Without a hold time an inactive service stays current for exactly as many updates as the longer of
      its two idle limits, and the next update releases it and starts the election delay. */
  lemma {:induction false} IdleServiceIsReleased(d: Domain, i: nat, k: nat)
    requires JustActive(d, i) && k <= Patience(d.services[i]) + 1
    ensures var d' := Visits(d, i, INACTIVE, k);
            && d'.updateInterval == 1
            && (k <= Patience(d.services[i]) ==>
                  var (s, s') := (d.services[i], d'.services[i]);
                  && d'.current == Some(i) && s'.idleTime == k && s'.holdTime == s.holdTime
                  && s'.timeout == s.timeout && s'.minIdleTime == s.minIdleTime
                  && s'.updateInterval == s.updateInterval && s'.lastUpdate >= 0)
            && (k == Patience(d.services[i]) + 1 ==> d'.current == None && !d'.services[i].inControl)
  {
    hide Visit;
    if k > 0 {
      IdleServiceIsReleased(d, i, k - 1);
      InactiveVisit(Visits(d, i, INACTIVE, k - 1), i);
    }
  }

  // ---------------------------------------------------------------- the hold timer of the PTP service

  /** One visit of the PTP service, which reads the state of its clock. */
  function PtpVisit(d: Domain, i: nat, c: PtpStatus): (d': Domain)
    requires i < |d.services|
    ensures |d'.services| == |d.services|
  {
    Visit(d, i, PtpServiceUpdate(Aged(d.services[i], d.updateInterval), c))
  }

  function PtpVisits(d: Domain, i: nat, statuses: seq<PtpStatus>, k: nat): (d': Domain)
    requires i < |d.services| && k <= |statuses|
    ensures |d'.services| == |d.services|
  {
    if k == 0 then d else PtpVisit(PtpVisits(d, i, statuses, k - 1), i, statuses[k - 1])
  }

  /** The clock is not, or no longer, a slave, with failover to other services on. */
  predicate Unsynchronised(c: PtpStatus) {
    c.failover && c.portState != Slave
  }

  /** In control of the clock and usable, without a hold timer running, and due in every update. */
  predicate Steering(d: Domain, i: nat) {
    && i < |d.services| && d.current == Some(i) && d.updateInterval == 1
    && var s := d.services[i];
       s.inControl && s.available && !s.hold && s.holdTimeLeft <= 0 && s.updateInterval <= 1 && s.lastUpdate >= 0
  }

  /** For how many visits a service is still available after its clock lost the slave state. */
  function HoldVisits(s: Service): nat {
    Max(s.holdTime, 1)
  }

  /** What visit number `k` leaves behind while the hold lasts, and after it. */
  predicate Held(d: Domain, i: nat, holdTime: int, k: nat) {
    && i < |d.services| && d.updateInterval == 1
    && var s := d.services[i];
       && s.holdTime == holdTime && s.updateInterval <= 1 && s.lastUpdate == 0 && !s.idle
       && (s.available <==> k <= Max(holdTime, 1))
       && (s.available ==> s.hold && s.holdTimeLeft == holdTime - k + 1)
       && (s.inControl <==> d.current == Some(i))
       && (s.inControl ==> s.available)
       && (holdTime >= 1 && s.available ==> s.inControl)
       && (holdTime <= 0 ==> s.holdTimeLeft <= 0)
  }

  lemma HoldStarts(d: Domain, i: nat, c: PtpStatus)
    requires Steering(d, i) && Unsynchronised(c) && c.available
    ensures var d' := PtpVisit(d, i, c);
            && Held(d', i, d.services[i].holdTime, 1)
            && (d'.services[i].inControl <==> d.services[i].holdTime >= 1 || c.portState !in {Initializing, Faulty})
  {
  }

  lemma HoldGoesOn(d: Domain, i: nat, c: PtpStatus, k: nat)
    requires k >= 1 && i < |d.services| && Held(d, i, d.services[i].holdTime, k) && Unsynchronised(c)
    ensures Held(PtpVisit(d, i, c), i, d.services[i].holdTime, k + 1)
  {
  }

  /** The hold time over every run: when the clock stops being a slave, its service stays available and in
      control for exactly as many visits as its hold time says, but at least one, whatever state the clock is
      in meanwhile. Without a hold time a clock that fails loses control at once. */
  lemma {:induction false} HoldKeepsControl(d: Domain, i: nat, statuses: seq<PtpStatus>, k: nat)
    requires Steering(d, i) && 1 <= k <= |statuses| && statuses[0].available
    requires forall t | 0 <= t < |statuses| :: Unsynchronised(statuses[t])
    ensures var (s, d') := (d.services[i], PtpVisits(d, i, statuses, k));
            && Held(d', i, s.holdTime, k)
            && (d'.services[i].available <==> k <= HoldVisits(s))
            && (d'.services[i].inControl <==>
                  k <= HoldVisits(s) && (s.holdTime >= 1 || statuses[0].portState !in {Initializing, Faulty}))
            && (d'.current == Some(i) <==> d'.services[i].inControl)
  {
    hide PtpVisit, Unsynchronised;
    if k == 1 {
      assert PtpVisits(d, i, statuses, 0) == d;
      HoldStarts(d, i, statuses[0]);
    } else {
      HoldKeepsControl(d, i, statuses, k - 1);
      HoldGoesOn(PtpVisits(d, i, statuses, k - 1), i, statuses[k - 1], k - 1);
    }
  }

  /** If the clock becomes an active slave again while the hold lasts, the hold is cancelled and its service
      goes on steering as if nothing had happened. */
  lemma HoldIsCancelled(d: Domain, i: nat, statuses: seq<PtpStatus>, k: nat, c: PtpStatus)
    requires Steering(d, i) && 1 <= k <= |statuses| && statuses[0].available
    requires forall t | 0 <= t < |statuses| :: Unsynchronised(statuses[t])
    requires k <= HoldVisits(d.services[i])
    requires d.services[i].holdTime >= 1 || statuses[0].portState !in {Initializing, Faulty}
    requires c.failover && c.portState == Slave && c.available && c.activity
    requires PatienceIsNat(d.services[i])
    ensures Steering(PtpVisit(PtpVisits(d, i, statuses, k), i, c), i)
  {
    hide PtpVisits, Unsynchronised;
    HoldKeepsControl(d, i, statuses, k);
    LimitsStay(d, i, statuses, k);
  }

  predicate PatienceIsNat(s: Service) {
    Patience(s) >= 0
  }

  lemma {:induction false} LimitsStay(d: Domain, i: nat, statuses: seq<PtpStatus>, k: nat)
    requires i < |d.services| && k <= |statuses|
    ensures Patience(PtpVisits(d, i, statuses, k).services[i]) == Patience(d.services[i])
  {
    hide Visit, PtpServiceUpdate;
    if k > 0 {
      LimitsStay(d, i, statuses, k - 1);
      var before := PtpVisits(d, i, statuses, k - 1);
      VisitKeepsLimits(before, i, PtpServiceUpdate(Aged(before.services[i], before.updateInterval), statuses[k - 1]));
    }
  }

  lemma VisitKeepsLimits(d: Domain, i: nat, r: Report)
    requires i < |d.services|
    ensures var (s, t) := (d.services[i], Visit(d, i, r).services[i]);
            t.timeout == s.timeout && t.minIdleTime == s.minIdleTime
  {
    hide Watched, GoneIdle, LosesEligibility;
    var aged := Aged(d.services[i], d.updateInterval);
    var w := Watched(Reported(aged, r), d.current == Some(i), d.updateInterval);
    WatchedKeepsLimits(Reported(aged, r), d.current == Some(i), d.updateInterval);
    var t := Visit(d, i, r).services[i];
    assert t == aged || t == w || t == w.(inControl := false);
  }

  lemma WatchedKeepsLimits(s: Service, isCurrent: bool, interval: int)
    ensures var t := Watched(s, isCurrent, interval);
            t.timeout == s.timeout && t.minIdleTime == s.minIdleTime
  {
  }

  /** A slave that is not available for control loses it at once, and the election delay starts. */
  lemma UnavailableSlaveLosesControl(d: Domain, i: nat, c: PtpStatus)
    requires Steering(d, i) && c.failover && c.portState == Slave && !c.available
    ensures var d' := PtpVisit(d, i, c);
            !d'.services[i].inControl && d'.current == None && d'.electionLeft == d.electionDelay
  {
  }

  /** Without failover the service steers the clock in whatever state the port is. */
  lemma WithoutFailoverSteers(d: Domain, i: nat, c: PtpStatus)
    requires Steering(d, i) && PatienceIsNat(d.services[i]) && !c.failover
    ensures var d' := PtpVisit(d, i, c);
            Steering(d', i) && d'.services[i].operational && !d'.services[i].idle
  {
  }

  // ---------------------------------------------------------------- no flapping

  /** With nobody in control the first pass has nothing to release. */
  lemma {:induction false} NothingToRelease(d: Domain, reports: seq<Report>, k: nat)
    requires k <= |d.services| <= |reports| && d.current == None
    ensures var p := FirstPass(d, reports, k);
            p.current == None && p.electionLeft == d.electionLeft && p.electionDelay == d.electionDelay
    decreases k
  {
    hide Watched, LosesEligibility;
    if k > 0 {
      NothingToRelease(d, reports, k - 1);
    }
  }

  /** A release in the first pass starts the election delay; otherwise nothing about it changes. */
  lemma {:induction false} ReleaseStartsDelay(d: Domain, reports: seq<Report>, k: nat)
    requires k <= |d.services| <= |reports|
    ensures var p := FirstPass(d, reports, k);
            && p.electionDelay == d.electionDelay
            && ((p.current == d.current && p.electionLeft == d.electionLeft)
                || (p.current == None && p.electionLeft == d.electionDelay))
    decreases k
  {
    hide Watched, LosesEligibility, GoneIdle;
    if k > 0 {
      ReleaseStartsDelay(d, reports, k - 1);
    }
  }

  lemma ElectionKeepsTimers(p: Domain)
    requires |p.services| > 0 && p.Indexed()
    ensures Elect(p).electionDelay == p.electionDelay && Elect(p).updateInterval == p.updateInterval
  {
    hide Winner, Sums;
  }

  lemma {:induction false} FirstPassKeepsInterval(d: Domain, reports: seq<Report>, k: nat)
    requires k <= |d.services| <= |reports|
    ensures FirstPass(d, reports, k).updateInterval == d.updateInterval
    decreases k
  {
    hide Watched, LosesEligibility, GoneIdle;
    if k > 0 {
      FirstPassKeepsInterval(d, reports, k - 1);
    }
  }

  lemma UpdateKeepsTimers(d: Domain, reports: seq<Report>)
    requires d.Indexed() && |reports| == |d.services|
    ensures Update(d, reports).electionDelay == d.electionDelay
    ensures Update(d, reports).updateInterval == d.updateInterval
  {
    hide FirstPass, Elect;
    if d.services != [] {
      FirstPassIndexed(CountedDown(d), reports, |d.services|);
      ReleaseStartsDelay(CountedDown(d), reports, |d.services|);
      FirstPassKeepsInterval(CountedDown(d), reports, |d.services|);
      ElectionKeepsTimers(FirstPass(CountedDown(d), reports, |d.services|));
    }
  }

  lemma WaitingUpdate(d: Domain, reports: seq<Report>)
    requires |reports| == |d.services| && d.current == None && d.updateInterval == 1 && d.electionLeft > 1
    ensures Update(d, reports).current == None && Update(d, reports).electionLeft == d.electionLeft - 1
  {
    hide FirstPass, Elect, Winner, InControlAfter;
    if d.services != [] {
      NothingToRelease(CountedDown(d), reports, |d.services|);
      var p := FirstPass(CountedDown(d), reports, |d.services|);
      ElectionCases(p, Winner(p.services, |p.services|, true));
    }
  }

  /** While the election delay runs, nobody gets control, whatever the services report. */
  lemma {:induction false} NobodyWhileWaiting(d: Domain, history: seq<seq<Report>>)
    requires d.current == None && d.updateInterval == 1 && FitsDomain(d, history)
    requires |history| < d.electionLeft
    ensures Run(d, history).current == None
    ensures Run(d, history).electionLeft == d.electionLeft - |history|
    decreases |history|
  {
    hide Update, NoHold;
    if history != [] {
      WaitingUpdate(d, history[0]);
      UpdateKeepsTimers(d, history[0]);
      NobodyWhileWaiting(Update(d, history[0]), history[1..]);
    }
  }

  /** A service that loses control leaves the domain with the full election delay ahead. */
  lemma LosingControl(d: Domain, reports: seq<Report>)
    requires Exclusive(d) && ZeroHold(d) && NoHold(reports) && |reports| == |d.services|
    requires d.current.Some? && Update(d, reports).current != d.current && d.electionDelay > 0
    ensures Update(d, reports).current == None && Update(d, reports).electionLeft == d.electionDelay
  {
    hide FirstPass, Elect, Winner, InControlAfter;
    FirstPassIndexed(CountedDown(d), reports, |d.services|);
    FirstPassZeroHold(CountedDown(d), reports, |d.services|);
    FirstPassSurveys(CountedDown(d), reports, |d.services|);
    ReleaseStartsDelay(CountedDown(d), reports, |d.services|);
    var p := FirstPass(CountedDown(d), reports, |d.services|);
    ElectionCases(p, Winner(p.services, |p.services|, true));
  }

  /** Anti-flapping over every run: from the update in which a service loses control, nobody is in
      control for as many updates as the election delay says. */
  lemma NoFlapping(start: Domain, before: seq<seq<Report>>, loss: seq<Report>, after: seq<seq<Report>>)
    requires Started(start) && ZeroHold(start) && start.updateInterval == 1
    requires FitsDomain(start, before) && FitsDomain(start, after)
    requires |loss| == |start.services| && NoHold(loss)
    ensures FitsDomain(Update(Run(start, before), loss), after)
    ensures var d := Run(start, before);
            var released := Update(d, loss);
            d.current.Some? && released.current != d.current && |after| < start.electionDelay ==>
              NobodyInControl(Run(released, after))
  {
    hide Update, ZeroHold, NoHold, NobodyInControl;
    assert Exclusive(start);
    ControlIsExclusive(start, before);
    RunKeepsTimers(start, before);
    var d := Run(start, before);
    UpdateKeepsExclusive(d, loss);
    UpdateKeepsTimers(d, loss);
    if d.current.Some? && Update(d, loss).current != d.current && |after| < start.electionDelay {
      LosingControl(d, loss);
      NobodyWhileWaiting(Update(d, loss), after);
      ControlIsExclusive(Update(d, loss), after);
      ExclusiveNobody(Run(Update(d, loss), after));
    }
  }

  predicate NobodyInControl(d: Domain) {
    d.current == None && forall i | 0 <= i < |d.services| :: !d.services[i].inControl
  }

  lemma ExclusiveNobody(d: Domain)
    requires Exclusive(d) && d.current == None
    ensures NobodyInControl(d)
  {
  }

  lemma {:induction false} RunKeepsTimers(d: Domain, history: seq<seq<Report>>)
    requires d.Indexed() && FitsDomain(d, history)
    ensures Run(d, history).electionDelay == d.electionDelay && Run(d, history).updateInterval == d.updateInterval
    decreases |history|
  {
    hide Update, NoHold;
    if history != [] {
      UpdateKeepsTimers(d, history[0]);
      RunKeepsTimers(Update(d, history[0]), history[1..]);
    }
  }

  // ---------------------------------------------------------------- convergence

  /** The reports confirm the flags that the services have, and every service is active. */
  predicate Confirms(s: Service, r: Report) {
    && r.operational == s.operational && r.available == s.available && r.activity && r.holdTimeLeft <= 0
    && (s.timeout >= 0 || s.minIdleTime >= 0)
  }

  predicate Steady(d: Domain, reports: seq<Report>) {
    |reports| == |d.services| && forall i | 0 <= i < |d.services| :: Confirms(d.services[i], reports[i])
  }

  /** Equal in everything that elections look at, and in the configuration. */
  predicate SameCandidate(s: Service, s': Service) {
    && s'.operational == s.operational && s'.available == s.available
    && s'.priority1 == s.priority1 && s'.kind == s.kind && s'.priority2 == s.priority2
    && s'.timeout == s.timeout && s'.minIdleTime == s.minIdleTime
  }

  predicate SameCandidates(a: seq<Service>, b: seq<Service>) {
    |a| == |b| && forall i | 0 <= i < |a| :: SameCandidate(a[i], b[i])
  }

  lemma {:induction false} SameWinner(a: seq<Service>, b: seq<Service>, k: nat)
    requires SameCandidates(a, b) && k <= |a|
    ensures Winner(a, k, true) == Winner(b, k, true)
  {
    if k > 0 {
      SameWinner(a, b, k - 1);
    }
  }

  lemma SteadyVisit(d: Domain, k: nat, r: Report)
    requires k < |d.services| && d.Indexed() && Confirms(d.services[k], r) && ZeroHold(d)
    requires d.current == Some(k) ==> Usable(d.services[k])
    ensures var d' := Visit(d, k, r);
            && d'.current == d.current && d'.electionLeft == d.electionLeft
            && SameCandidate(d.services[k], d'.services[k])
            && forall i | 0 <= i < |d.services| && i != k :: d'.services[i] == d.services[i]
  {
    var reported := Reported(Aged(d.services[k], d.updateInterval), r);
    WatchedFlags(reported, d.current == Some(k), d.updateInterval);
    assert !GoneIdle(reported, d.current == Some(k), d.updateInterval);
  }

  lemma SteadyIsQuiet(d: Domain, reports: seq<Report>)
    requires Steady(d, reports)
    ensures NoHold(reports) && |reports| == |d.services|
  {
  }

  /** The next service is still as it was, and the current one can be used. */
  predicate Undisturbed(d: Domain, p: Domain, k: nat) {
    && |p.services| == |d.services| && p.Indexed() && ZeroHold(p)
    && p.current == d.current && p.electionLeft == d.electionLeft
    && SameCandidates(d.services, p.services)
    && forall i | k <= i < |d.services| :: p.services[i] == d.services[i]
  }

  lemma VisitUndisturbed(d: Domain, p: Domain, k: nat, r: Report)
    requires k < |d.services| && Exclusive(d) && Confirms(d.services[k], r) && Undisturbed(d, p, k)
    ensures Undisturbed(d, Visit(p, k, r), k + 1)
  {
    hide Visit, SameCandidate;
    SteadyVisit(p, k, r);
    VisitZeroHold(p, k, r);
    VisitIndexed(p, k, r);
  }

  lemma VisitIndexed(d: Domain, k: nat, r: Report)
    requires k < |d.services| && d.Indexed()
    ensures Visit(d, k, r).Indexed()
  {
    hide Watched, GoneIdle;
  }

  lemma {:induction false} SteadyFirstPass(d: Domain, reports: seq<Report>, k: nat)
    requires k <= |d.services| && Exclusive(d) && ZeroHold(d) && Steady(d, reports)
    ensures Undisturbed(d, FirstPass(d, reports, k), k)
    decreases k
  {
    if k == 0 {
      hide Visit, Usable, Steady, Confirms;
      assert SameCandidates(d.services, d.services);
    } else {
      hide Visit, Confirms, Undisturbed;
      SteadyFirstPass(d, reports, k - 1);
      VisitUndisturbed(d, FirstPass(d, reports, k - 1), k - 1, reports[k - 1]);
    }
  }

  /** How many steady updates it takes until service `b` is in control. */
  function Wait(d: Domain, b: nat): int {
    if d.current == Some(b) then 0
    else if d.current.Some? then 1 + Max(d.electionDelay, 1)
    else Max(d.electionLeft, 1)
  }

  predicate Candidate(d: Domain, b: nat) {
    |d.services| > 0 && b == Winner(d.services, |d.services|, true) && Usable(d.services[b])
  }

  predicate Timed(d: Domain) {
    d.updateInterval == 1 && d.electionDelay >= 0 && d.electionLeft >= 0
  }

  lemma SteadyPass(d: Domain, reports: seq<Report>, b: nat)
    requires Exclusive(d) && ZeroHold(d) && Steady(d, reports) && Candidate(d, b)
    ensures var p := FirstPass(CountedDown(d), reports, |d.services|);
            && p.current == d.current && p.electionLeft == CountedDown(d).electionLeft
            && p.electionDelay == d.electionDelay
            && SameCandidates(d.services, p.services) && Candidate(p, b)
            && Surveyed(p, |p.services|) && ZeroHold(p)
            && d.Indexed() && |reports| == |d.services|
  {
    hide FirstPass, Winner;
    SteadyIsQuiet(d, reports);
    assert d.electionLeft > 0 ==> d.current == None;
    SteadyFirstPass(CountedDown(d), reports, |d.services|);
    FirstPassSurveys(CountedDown(d), reports, |d.services|);
    FirstPassZeroHold(CountedDown(d), reports, |d.services|);
    ReleaseStartsDelay(CountedDown(d), reports, |d.services|);
    SameWinner(d.services, FirstPass(CountedDown(d), reports, |d.services|).services, |d.services|);
  }

  /** One steady update brings the best candidate one step closer to control. */
  lemma SteadyUpdate(d: Domain, reports: seq<Report>, b: nat)
    requires Exclusive(d) && ZeroHold(d) && Steady(d, reports) && Candidate(d, b) && Timed(d)
    ensures var d' := Update(d, reports);
            && SameCandidates(d.services, d'.services) && Candidate(d', b) && Timed(d')
            && Wait(d', b) == Max(Wait(d, b) - 1, 0)
  {
    hide FirstPass, Elect, Winner, Steady, Exclusive, Surveyed, ZeroHold, InControlAfter;
    SteadyPass(d, reports, b);
    UpdateKeepsTimers(d, reports);
    var p := FirstPass(CountedDown(d), reports, |d.services|);
    SurveyedShape(p);
    ElectionServices(p);
    ElectionCases(p, b);
    SameWinner(p.services, Elect(p).services, |p.services|);
  }

  lemma SurveyedShape(p: Domain)
    requires Surveyed(p, |p.services|) && ZeroHold(p)
    ensures p.Indexed() && (p.current.Some? ==> p.electionLeft == 0 && p.services[p.current.value].holdTimeLeft <= 0)
  {
  }

  lemma UpdateKeepsTimed(d: Domain, reports: seq<Report>)
    requires d.Indexed() && |reports| == |d.services| && Timed(d)
    ensures Timed(Update(d, reports))
  {
    hide FirstPass, Elect, Winner, InControlAfter, Usable;
    UpdateKeepsTimers(d, reports);
    if d.services != [] {
      FirstPassIndexed(CountedDown(d), reports, |d.services|);
      ReleaseStartsDelay(CountedDown(d), reports, |d.services|);
      var p := FirstPass(CountedDown(d), reports, |d.services|);
      ElectionCases(p, Winner(p.services, |p.services|, true));
    }
  }

  lemma {:induction false} RunKeepsTimed(d: Domain, history: seq<seq<Report>>)
    requires d.Indexed() && FitsDomain(d, history) && Timed(d)
    ensures Timed(Run(d, history))
    decreases |history|
  {
    hide Update, NoHold, Timed;
    if history != [] {
      UpdateKeepsTimed(d, history[0]);
      RunKeepsTimed(Update(d, history[0]), history[1..]);
    }
  }

  /** Every update of the run confirms the flags that the services had at its start. */
  predicate SteadyRun(d: Domain, history: seq<seq<Report>>) {
    forall t | 0 <= t < |history| :: Steady(d, history[t])
  }

  lemma SteadyAfter(d: Domain, d': Domain, reports: seq<Report>)
    requires SameCandidates(d.services, d'.services) && Steady(d, reports)
    ensures Steady(d', reports)
  {
  }

  lemma {:induction false} SteadyRunWaits(d: Domain, history: seq<seq<Report>>, b: nat)
    requires Exclusive(d) && ZeroHold(d) && Candidate(d, b) && Timed(d) && SteadyRun(d, history)
    ensures FitsDomain(d, history) && d.Indexed()
    ensures Candidate(Run(d, history), b) && Wait(Run(d, history), b) == Max(Wait(d, b) - |history|, 0)
    decreases |history|
  {
    hide Exclusive, ZeroHold, Candidate, Timed, Steady, NoHold, Update, SameCandidates, Wait;
    ExclusiveIsIndexed(d);
    WaitIsNat(d, b);
    forall t | 0 <= t < |history| ensures |history[t]| == |d.services| && NoHold(history[t]) {
      SteadyIsQuiet(d, history[t]);
    }
    if history != [] {
      var d' := Update(d, history[0]);
      SteadyUpdate(d, history[0], b);
      UpdateKeepsExclusive(d, history[0]);
      forall t | 0 <= t < |history| ensures Steady(d', history[t]) {
        SteadyAfter(d, d', history[t]);
      }
      SteadyRunWaits(d', history[1..], b);
    }
  }

  lemma WaitIsNat(d: Domain, b: nat)
    ensures Wait(d, b) >= 0 && (Wait(d, b) == 0 <==> d.current == Some(b))
  {
  }

  /** Convergence: with steady flags and activity the best usable service is in control exactly from
      update number `Wait` on, which is at most the two delays plus two. */
  lemma BestGetsControl(start: Domain, before: seq<seq<Report>>, history: seq<seq<Report>>, b: nat)
    requires Started(start) && ZeroHold(start) && Timed(start) && FitsDomain(start, before)
    ensures var d := Run(start, before);
            Candidate(d, b) && SteadyRun(d, history) ==>
              && FitsDomain(d, history) && b < |Run(d, history).services|
              && (Run(d, history).current == Some(b) <==> |history| >= Wait(d, b))
              && (Run(d, history).current == Some(b) <==> Run(d, history).services[b].inControl)
              && Wait(d, b) <= d.electionLeft + d.electionDelay + 2
  {
    hide Candidate, SteadyRun, Update, NoHold;
    assert Exclusive(start);
    ControlIsExclusive(start, before);
    RunKeepsTimed(start, before);
    var d := Run(start, before);
    if Candidate(d, b) && SteadyRun(d, history) {
      SteadyRunWaits(d, history, b);
      WaitIsNat(Run(d, history), b);
      ControlIsExclusive(d, history);
      CandidateInDomain(Run(d, history), b);
      assert Timed(d);
    }
  }

  lemma CandidateInDomain(d: Domain, b: nat)
    requires Candidate(d, b)
    ensures b < |d.services|
  {
  }
}
