/** The timing domain as the object whose services and counters one update changes in place. */
module TimingDomain {
  import opened PtpTypes
  import T = TimingService

  class TimingDomain {
    const services: array<T.Service>
    var current: Option<nat>
    var best: Option<nat>
    var preferred: Option<nat>
    var updateInterval: int
    var electionDelay: int
    var electionLeft: int
    var tally: T.Tally

    ghost function View(): T.Domain
      reads this, services
    {
      T.Domain(services[..], current, best, preferred, updateInterval, electionDelay, electionLeft, tally)
    }

    constructor (list: seq<T.Service>, electionDelay: int)
      ensures fresh(services)
      ensures View() == T.Domain(list, None, None, None, 1, electionDelay, 10, T.Tally(0, 0, 0, 0))
    {
      services := new T.Service[|list|](i requires 0 <= i < |list| => list[i]);
      current, best, preferred := None, None, None;
      updateInterval, electionLeft := 1, 10;
      this.electionDelay := electionDelay;
      tally := T.Tally(0, 0, 0, 0);
      new;
      assert services[..] == list;
    }

    /** `ptpServiceAcquire` and `ptpServiceRelease`, which always succeed. */
    method SetControl(i: nat, granted: bool)
      requires i < services.Length
      modifies services
      ensures View() == old(View()).(services := old(services[..])[i := old(services[i]).(inControl := granted)])
    {
      services[i] := services[i].(inControl := granted);
    }

    /** Idle times of a service that was just updated; an idle current service is released. */
    method WatchIdle(i: nat)
      requires i < services.Length && services[i].operational
      modifies this, services
      ensures var isCurrent := old(current) == Some(i);
              var idle := T.GoneIdle(old(services[i]), isCurrent, updateInterval);
              View() == old(View()).(
                services := old(services[..])[i := T.Watched(old(services[i]), isCurrent, updateInterval)],
                current := if idle then None else old(current),
                electionLeft := if idle then electionDelay else old(electionLeft))
    {
      var s := services[i];
      if !s.activity {
        s := s.(idleTime := s.idleTime + updateInterval);
      } else {
        s := s.(idle := false, idleTime := 0);
        if s.holdTimeLeft > 0 && !s.hold {
          s := s.(holdTimeLeft := 0);
        }
      }
      s := s.(activity := false);
      if s.available && !s.hold && s.idleTime > s.minIdleTime && s.idleTime > s.timeout {
        s := s.(idleTime := 0);
        if !s.idle && current == Some(i) {
          s := s.(holdTimeLeft := s.holdTime);
        }
        s := s.(idle := true);
        if current == Some(i) && s.holdTimeLeft <= 0 {
          s := s.(inControl := false);
          electionLeft := electionDelay;
          current := None;
        }
      }
      services[i] := s;
    }

    /** One round of the first pass. */
    method Visit(i: nat, report: T.Report)
      requires i < services.Length && View().Indexed()
      modifies this, services
      ensures View() == T.Visit(old(View()), i, report)
    {
      hide T.Watched, T.GoneIdle;
      var s := services[i];
      s := s.(lastUpdate := s.lastUpdate + updateInterval,
              holdTimeLeft := if s.holdTimeLeft > 0 then s.holdTimeLeft - updateInterval else 0);
      if s.lastUpdate < s.updateInterval {
        services[i] := s;
        return;
      }
      ghost var wasCurrent := current == Some(i);
      s := T.Reported(s, report);
      services[i] := s;
      T.UnwatchedWhenDown(s, wasCurrent, updateInterval);
      if s.operational {
        WatchIdle(i);
      }
      if (!services[i].available || !services[i].operational) && services[i].inControl {
        if services[i].holdTimeLeft <= 0 {
          SetControl(i, false);
          if current == Some(i) {
            electionLeft := electionDelay;
            current := None;
          }
        }
      }
    }

    /** The second pass: the best usable service and the one preferred by configuration. */
    method FindBest() returns (winner: nat, favourite: nat)
      requires services.Length > 0
      ensures winner == T.Winner(services[..], services.Length, true) && winner < services.Length
      ensures favourite == T.Winner(services[..], services.Length, false)
    {
      hide T.CmpTimingService;
      ghost var list := services[..];
      winner, favourite := 0, 0;
      var i := 0;
      while i < services.Length
        invariant 0 <= i <= services.Length && winner < services.Length && favourite < services.Length
        invariant i == 0 ==> winner == favourite == 0
        invariant winner == T.Winner(list, i, true) && favourite == T.Winner(list, i, false)
      {
        T.NeverATie(services[i], services[winner], true);
        if T.CmpTimingService(services[i], services[winner], true) >= 0 {
          winner := i;
        }
        if T.CmpTimingService(services[i], services[favourite], false) > 0 {
          favourite := i;
        }
        i := i + 1;
      }
    }

    method DismissAt(i: nat)
      requires i < services.Length
      modifies services
      ensures services[i] == T.Dismissed(old(services[i]), current == Some(i))
      ensures forall k | 0 <= k < services.Length && k != i :: services[k] == old(services[k])
    {
      var s := services[i];
      if current != Some(i) && s.inControl {
        if s.updateDue {
          if s.holdTimeLeft <= 0 {
            services[i] := s.(inControl := false);
          }
        }
      }
    }

    /** The third pass: services in control that are not current lose it. */
    method Dismiss()
      modifies services
      ensures services[..] == T.ThirdPass(old(View()))
    {
      hide T.ThirdPass, T.Dismissed;
      T.ThirdPassAt(View());
      ghost var was, kept := services[..], T.ThirdPass(View());
      var i := 0;
      while i < services.Length
        invariant 0 <= i <= services.Length
        invariant forall k | 0 <= k < i :: services[k] == kept[k]
        invariant forall k | i <= k < services.Length :: services[k] == was[k]
      {
        DismissAt(i);
        i := i + 1;
      }
    }

    /** The fourth pass. */
    method CountFlags()
      modifies this`tally
      ensures tally == T.Sums(services[..], services.Length)
    {
      tally := T.Tally(0, 0, 0, 0);
      var i := 0;
      while i < services.Length
        invariant 0 <= i <= services.Length
        invariant tally == T.Sums(services[..], i)
      {
        var s := services[i];
        tally := T.Tally(tally.available + T.Count(s.available), tally.operational + T.Count(s.operational),
                         tally.idle + T.Count(s.idle), tally.control + T.Count(s.inControl));
        i := i + 1;
      }
    }

    method ClearDue()
      modifies services
      ensures services[..] == T.Cleared(old(services[..]))
    {
      var i := 0;
      while i < services.Length
        invariant 0 <= i <= services.Length
        invariant forall k | 0 <= k < i :: services[k] == old(services[k]).(updateDue := false)
        invariant forall k | i <= k < services.Length :: services[k] == old(services[k])
      {
        services[i] := services[i].(updateDue := false);
        i := i + 1;
      }
    }

    method Finish(winner: nat)
      requires winner < services.Length && View().Indexed()
      modifies this, services
      ensures View() == T.Finish(old(View()), winner)
    {
      hide T.ThirdPass, T.Cleared, T.Sums;
      Dismiss();
      CountFlags();
      ClearDue();
      if services.Length == 1 && current == None {
        best := None;
      }
      if !services[winner].operational || !services[winner].available {
        current := None;
        return;
      }
      if !services[winner].inControl && electionLeft == 0 {
        SetControl(winner, true);
      }
    }

    method Elect()
      requires services.Length > 0 && View().Indexed()
      modifies this, services
      ensures View() == T.Elect(old(View()))
    {
      hide T.Winner, T.Finish;
      var winner, favourite := FindBest();
      best, preferred := Some(winner), Some(favourite);
      if Some(winner) != current && electionLeft == 0 {
        if current.Some? && services[current.value].holdTimeLeft <= 0 {
          SetControl(current.value, false);
          electionLeft := electionDelay;
          current := None;
          return;
        }
        current := Some(winner);
        if !(services[winner].operational && services[winner].available) {
          current, best := None, None;
        }
      }
      Finish(winner);
    }

    /** One update, with what each service reports when it is due. */
    method Update(reports: seq<T.Report>)
      requires View().Indexed() && |reports| == services.Length
      modifies this, services
      ensures View() == T.Update(old(View()), reports)
    {
      hide T.Visit, T.Elect;
      if electionLeft > 0 {
        electionLeft := electionLeft - updateInterval;
      }
      if services.Length < 1 {
        return;
      }
      ghost var start := View();
      assert start == T.CountedDown(old(View()));
      var i := 0;
      while i < services.Length
        invariant 0 <= i <= services.Length
        invariant View() == T.FirstPass(start, reports, i)
      {
        T.FirstPassIndexed(start, reports, i);
        Visit(i, reports[i]);
        i := i + 1;
      }
      T.FirstPassIndexed(start, reports, services.Length);
      Elect();
    }
  }
}
