/** The outlier filter as an automaton over samples. Peirce's test, the step test and the position in
    the sample window come with each sample; the means and deviations behind them are not modelled. */
module FilterAutomaton {

  datatype Config = Config(
    enabled: bool, discard: bool, autoTune: bool, stepDelay: bool, capacity: nat,
    threshold: real, minPercent: int, maxPercent: int, thresholdStep: real,
    minThreshold: real, maxThreshold: real, delayCredit: nat, creditIncrement: nat, maxDelay: nat)

  datatype Filter = Filter(
    config: Config, lastOutlier: bool, threshold: real,
    autoTuneSamples: int, autoTuneOutliers: int, autoTuneScore: int,
    consecutiveOutliers: int, delay: int, totalDelay: int, delayCredit: int, blocking: bool)

  /** How a sample looks to the statistics: an outlier; a step away from a small accepted mean; and
      whether it completes half a window or a whole one. */
  datatype Sample = Sample(outlier: bool, step: bool, halfWindow: bool, window: bool)

  function Percentage(part: int, whole: int): int
    requires whole > 0
  {
    (200 * part + whole) / (2 * whole)
  }

  function Tune(f: Filter): Filter {
    if !f.config.autoTune || f.autoTuneSamples < 1 then f
    else
      var score := Percentage(f.autoTuneOutliers, f.autoTuneSamples);
      var tightened :=
        if score < f.config.minPercent then
          var lower := f.threshold - f.config.thresholdStep;
          if lower < f.config.minThreshold then f.config.minThreshold else lower
        else f.threshold;
      var loosened :=
        if score > f.config.maxPercent then
          var higher := tightened + f.config.thresholdStep;
          if higher > f.config.maxThreshold then f.config.maxThreshold else higher
        else tightened;
      f.(autoTuneScore := score, threshold := loosened, autoTuneSamples := 0, autoTuneOutliers := 0)
  }

  function Refill(f: Filter): Filter {
    var credit := f.delayCredit + f.config.creditIncrement;
    f.(delayCredit := if credit >= f.config.delayCredit then f.config.delayCredit else credit)
  }

  /** What happens after a sample was fed to the statistics. */
  function Maintain(f: Filter, s: Sample): Filter {
    var g := if s.halfWindow then Tune(f) else f;
    if g.config.stepDelay && s.window then Refill(g) else g
  }

  /** Entering a block takes twice the credit that staying in it takes, but only staying in it is
      limited by the maximum delay. */
  predicate CanBlock(f: Filter) {
    if f.blocking then f.config.maxDelay > f.totalDelay && f.delayCredit >= f.consecutiveOutliers
    else f.delayCredit >= 2 * f.consecutiveOutliers
  }

  function Block(f: Filter): Filter {
    f.(delay := f.consecutiveOutliers, totalDelay := f.totalDelay + f.consecutiveOutliers,
       delayCredit := f.delayCredit - f.consecutiveOutliers, blocking := true, lastOutlier := true)
  }

  /** Autotuning counts every sample. */
  function Sampled(f: Filter): Filter {
    if f.config.autoTune then f.(autoTuneSamples := f.autoTuneSamples + 1) else f
  }

  /** A good sample ends a row of outliers, and the blocking period unless it looked like a step. */
  function WithGood(f: Filter, s: Sample): Filter {
    f.(lastOutlier := false, consecutiveOutliers := 0,
       blocking := if f.consecutiveOutliers != 0 && !(f.config.stepDelay && s.step) then false else f.blocking,
       totalDelay := if f.consecutiveOutliers != 0 then 0 else f.totalDelay)
  }

  function WithOutlier(f: Filter): Filter {
    f.(lastOutlier := true, autoTuneOutliers := f.autoTuneOutliers + 1,
       consecutiveOutliers := f.consecutiveOutliers + 1)
  }

  /** `outlierFilterFilter`: whether the sample is accepted, and the filter after it. */
  function FilterSample(f: Filter, s: Sample): (r: (bool, Filter)) {
    if !f.config.enabled then (true, f)
    else
      var g := Sampled(f);
      if !s.outlier && g.delay == 0 then
        if g.consecutiveOutliers != 0 && g.config.stepDelay && s.step && CanBlock(g) then (false, Block(g))
        else
          (true, Maintain(WithGood(g, s), s))
      else if g.delay != 0 then (false, g.(lastOutlier := true, delay := g.delay - 1))
      else
        (!g.config.discard, Maintain(WithOutlier(g), s))
  }

  function Reset(f: Filter): Filter {
    f.(lastOutlier := false, threshold := f.config.threshold, delay := 0, totalDelay := 0,
       delayCredit := f.config.delayCredit, blocking := false)
  }

  /** True means that a restart is needed and nothing was changed. */
  function Configure(f: Filter, config: Config): (r: (bool, Filter)) {
    if f.config.capacity != config.capacity then (true, f) else (false, Reset(f.(config := config)))
  }

  /** The filter after set-up (all zero) and initialisation. */
  function Init(config: Config): Filter {
    Filter(config, false, if config.enabled then config.threshold else 0.0, 0, 0, 0, 0, 0, 0, config.delayCredit, false)
  }

  /** A reset makes the filter as good as new, but for what autotuning counted and the outliers in a row. */
  lemma ResetIsFresh(f: Filter)
    requires f.config.enabled
    ensures var initial := Init(f.config);
            && Reset(f) == initial.(autoTuneSamples := f.autoTuneSamples, autoTuneOutliers := f.autoTuneOutliers,
                                  autoTuneScore := f.autoTuneScore, consecutiveOutliers := f.consecutiveOutliers)
            && !initial.lastOutlier && !initial.blocking && initial.delay == initial.totalDelay == 0
            && initial.delayCredit == f.config.delayCredit && initial.threshold == f.config.threshold
    ensures Init(f.config.(enabled := false)).threshold == 0.0
  {
  }

  /** A restart is asked for exactly when the window changes, and then the old configuration stays; otherwise
      the new one is in force, with the filter reset. */
  lemma RestartIff(f: Filter, config: Config)
    ensures var (restart, f') := Configure(f, config);
            && (restart <==> config.capacity != f.config.capacity)
            && (restart ==> f' == f)
            && (!restart ==> f'.config == config && Reset(f') == f')
  {
  }

  // ---------------------------------------------------------------- every run

  predicate Valid(f: Filter) {
    && 0 <= f.delayCredit <= f.config.delayCredit
    && 0 <= f.delay <= f.totalDelay
    && 0 <= f.consecutiveOutliers
    && (f.totalDelay > 0 ==> f.blocking && f.consecutiveOutliers > 0)
    && f.totalDelay <= f.config.maxDelay + f.consecutiveOutliers
  }

  datatype Event = Feed(s: Sample) | Restart | Reconfigure(config: Config)

  function Step(f: Filter, e: Event): Filter {
    match e
    case Feed(s) => FilterSample(f, s).1
    case Restart => Reset(f)
    case Reconfigure(config) => Configure(f, config).1
  }

  function Run(f: Filter, events: seq<Event>): Filter
    decreases |events|
  {
    if events == [] then f else Run(Step(f, events[0]), events[1..])
  }

  lemma MaintainKeepsValid(f: Filter, s: Sample)
    requires Valid(f)
    ensures Valid(Maintain(f, s))
  {
    hide Percentage;
  }

  lemma StepKeepsValid(f: Filter, e: Event)
    requires Valid(f)
    ensures Valid(Step(f, e))
  {
    hide Maintain;
    if e.Feed? && f.config.enabled {
      var g := Sampled(f);
      if !e.s.outlier && g.delay == 0 {
        MaintainKeepsValid(WithGood(g, e.s), e.s);
      } else if g.delay == 0 {
        MaintainKeepsValid(WithOutlier(g), e.s);
      }
    }
  }

  /** Credit and delays keep their bounds over every run of samples, resets and reconfigurations. */
  lemma RunKeepsValid(config: Config, events: seq<Event>)
    ensures Valid(Run(Init(config), events))
  {
    RunFromKeepsValid(Init(config), events);
  }

  lemma {:induction false} RunFromKeepsValid(f: Filter, events: seq<Event>)
    requires Valid(f)
    ensures Valid(Run(f, events))
    decreases |events|
  {
    hide Step;
    if events != [] {
      StepKeepsValid(f, events[0]);
      RunFromKeepsValid(Step(f, events[0]), events[1..]);
    }
  }

  // ---------------------------------------------------------------- which samples are accepted

  /** The verdict on a sample: a disabled filter accepts everything and one in a delay nothing; otherwise an
      outlier is accepted exactly if outliers are not discarded, and any other sample is rejected exactly if
      it looks like a step after outliers and the credit pays for a delay. */
  lemma VerdictIff(f: Filter, s: Sample)
    ensures var (ok, k) := (FilterSample(f, s).0, f.consecutiveOutliers);
            && (!f.config.enabled ==> ok)
            && (f.config.enabled && f.delay != 0 ==> !ok)
            && (f.config.enabled && f.delay == 0 && s.outlier ==> (ok <==> !f.config.discard))
            && (f.config.enabled && f.delay == 0 && !s.outlier ==>
                  (!ok <==> && f.config.stepDelay && s.step && k != 0
                            && (if f.blocking then f.config.maxDelay > f.totalDelay && f.delayCredit >= k
                                else f.delayCredit >= 2 * k)))
  {
    hide Maintain;
  }

  /** The sample went into the statistics: no delay held it back. */
  predicate IsFed(f: Filter, s: Sample) {
    f.config.enabled && f.delay == 0 && (s.outlier || FilterSample(f, s).0)
  }

  /** A sample that went into the statistics changes nothing more but threshold, score, counts and credit. */
  lemma MaintainTouches(f: Filter, s: Sample)
    ensures var g := Maintain(f, s);
            g == f.(threshold := g.threshold, autoTuneScore := g.autoTuneScore, autoTuneSamples := g.autoTuneSamples,
                    autoTuneOutliers := g.autoTuneOutliers, delayCredit := g.delayCredit)
    ensures Maintain(f, s).delayCredit ==
            if !(s.window && f.config.stepDelay) then f.delayCredit
            else if f.delayCredit + f.config.creditIncrement < f.config.delayCredit
            then f.delayCredit + f.config.creditIncrement
            else f.config.delayCredit
    ensures var (g, t) := (Maintain(f, s), Tune(f));
            if s.halfWindow then g.threshold == t.threshold && g.autoTuneScore == t.autoTuneScore &&
                                 g.autoTuneSamples == t.autoTuneSamples && g.autoTuneOutliers == t.autoTuneOutliers
            else g.threshold == f.threshold && g.autoTuneScore == f.autoTuneScore &&
                 g.autoTuneSamples == f.autoTuneSamples && g.autoTuneOutliers == f.autoTuneOutliers
  {
    hide Percentage;
  }

  /** What a sample does to delays and blocking. A rejected sample and an outlier both show in `lastOutlier`; the
      outliers in a row are counted until a good sample ends them; a delay counts down, and a new one lasts as
      long as there were outliers. */
  lemma SampleBlocks(f: Filter, s: Sample)
    requires f.config.enabled
    ensures var ((ok, f'), k) := (FilterSample(f, s), f.consecutiveOutliers);
            var counted := f.delay == 0 && s.outlier;
            var blocked := f.delay == 0 && !s.outlier && !ok;
            var ended := f.delay == 0 && !s.outlier && ok && k != 0;
            && f'.config == f.config
            && (f'.lastOutlier <==> s.outlier || !ok)
            && f'.consecutiveOutliers == (if counted then k + 1 else if ended then 0 else k)
            && f'.delay == (if f.delay != 0 then f.delay - 1 else if blocked then k else 0)
            && f'.totalDelay == (if blocked then f.totalDelay + k else if ended then 0 else f.totalDelay)
            && f'.blocking == (blocked || (f.blocking && !(ended && !(f.config.stepDelay && s.step))))
  {
    MaintainTouches(WithGood(Sampled(f), s), s);
    MaintainTouches(WithOutlier(Sampled(f)), s);
    hide Maintain;
  }

  /** A new delay is paid for with as much credit as it lasts, and credit comes back, up to the configured
      amount, with every sample in the statistics that completes a window. */
  lemma SampleCredit(f: Filter, s: Sample)
    ensures var (ok, f') := FilterSample(f, s);
            f'.delayCredit ==
            if f.config.enabled && f.delay == 0 && !s.outlier && !ok then f.delayCredit - f.consecutiveOutliers
            else if !(IsFed(f, s) && s.window && f.config.stepDelay) then f.delayCredit
            else if f.delayCredit + f.config.creditIncrement < f.config.delayCredit
            then f.delayCredit + f.config.creditIncrement
            else f.config.delayCredit
  {
    MaintainTouches(WithGood(Sampled(f), s), s);
    MaintainTouches(WithOutlier(Sampled(f)), s);
    hide Maintain;
  }

  /** Autotuning counts samples, even in a delay, and outliers; half a window of statistics tunes with these
      counts. */
  lemma SampleTunes(f: Filter, s: Sample)
    requires f.config.enabled
    ensures var f' := FilterSample(f, s).1;
            var counted := f.(
              autoTuneSamples := if f.config.autoTune then f.autoTuneSamples + 1 else f.autoTuneSamples,
              autoTuneOutliers := if f.delay == 0 && s.outlier then f.autoTuneOutliers + 1 else f.autoTuneOutliers);
            var t := if IsFed(f, s) && s.halfWindow then Tune(counted) else counted;
            && f'.threshold == t.threshold && f'.autoTuneScore == t.autoTuneScore
            && f'.autoTuneSamples == t.autoTuneSamples && f'.autoTuneOutliers == t.autoTuneOutliers
  {
    MaintainTouches(WithGood(Sampled(f), s), s);
    MaintainTouches(WithOutlier(Sampled(f)), s);
    hide Maintain, Percentage;
  }

  /** How many outliers a run lets through. */
  function OutliersAccepted(f: Filter, events: seq<Event>): nat
    decreases |events|
  {
    if events == [] then 0
    else
      (if events[0].Feed? && events[0].s.outlier && FilterSample(f, events[0].s).0 then 1 else 0) +
      OutliersAccepted(Step(f, events[0]), events[1..])
  }

  predicate Discards(c: Config) {
    c.enabled && c.discard
  }

  lemma StepConfig(f: Filter, e: Event)
    ensures var f' := Step(f, e);
            f'.config == f.config || (e.Reconfigure? && f'.config == e.config)
  {
    hide Maintain;
    if e.Feed? && f.config.enabled {
      var g := Sampled(f);
      MaintainTouches(WithGood(g, e.s), e.s);
      MaintainTouches(WithOutlier(g), e.s);
    }
  }

  /** A filter that discards outliers under every configuration of a run lets none of them through. */
  lemma {:induction false} NoOutlierAccepted(f: Filter, events: seq<Event>)
    requires Discards(f.config) && forall t | 0 <= t < |events| && events[t].Reconfigure? :: Discards(events[t].config)
    ensures OutliersAccepted(f, events) == 0
    decreases |events|
  {
    hide FilterSample, Step;
    if events != [] {
      StepConfig(f, events[0]);
      if events[0].Feed? {
        VerdictIff(f, events[0].s);
      }
      NoOutlierAccepted(Step(f, events[0]), events[1..]);
    }
  }

  // ---------------------------------------------------------------- how long it may block

  /** How often the filter extends a block, with this much credit, outliers per extension and room. */
  function Extensions(credit: int, k: int, room: int): nat
    requires k > 0
    decreases credit
  {
    if credit < k || room <= 0 || credit < 0 then 0 else 1 + Extensions(credit - k, k, room - k)
  }

  /** How many samples in a row the filter rejects from here if each of them looks like a step. */
  function WorstCase(f: Filter): int {
    var k := f.consecutiveOutliers;
    if !f.config.enabled then 0
    else if k <= 0 || !f.config.stepDelay then f.delay
    else if f.blocking then
      f.delay + (1 + k) * Extensions(f.delayCredit, k, f.config.maxDelay - f.totalDelay)
    else if f.delayCredit >= 2 * k then
      f.delay + (1 + k) * (1 + Extensions(f.delayCredit - k, k, f.config.maxDelay - f.totalDelay - k))
    else f.delay
  }

  /** The number of samples rejected before the first accepted one. */
  function Rejections(f: Filter, samples: seq<Sample>): (n: nat)
    ensures n <= |samples|
    decreases |samples|
  {
    if samples == [] || FilterSample(f, samples[0]).0 then 0
    else 1 + Rejections(FilterSample(f, samples[0]).1, samples[1..])
  }

  predicate NoOutliers(samples: seq<Sample>) {
    forall i | 0 <= i < |samples| :: !samples[i].outlier
  }

  predicate AllSteps(samples: seq<Sample>) {
    forall i | 0 <= i < |samples| :: samples[i].step
  }

  /** A rejected sample uses up one step of the worst case; with a step in every sample, the filter
      accepts only when the worst case is used up. */
  lemma RejectionCounts(f: Filter, s: Sample)
    requires Valid(f) && !s.outlier
    ensures var (ok, f') := FilterSample(f, s);
            && (!ok ==> WorstCase(f') == WorstCase(f) - 1)
            && (ok && s.step ==> WorstCase(f) == 0)
  {
    var k := f.consecutiveOutliers;
    if f.delay == 0 && k > 0 && f.config.stepDelay && s.step && CanBlock(f) {
      var x := Extensions(f.delayCredit - k, k, f.config.maxDelay - f.totalDelay - k);
      assert (1 + k) * (1 + x) == (1 + k) + (1 + k) * x;
    }
  }

  lemma WorstCaseIsNat(f: Filter)
    requires Valid(f)
    ensures WorstCase(f) >= 0
  {
  }

  /** Without outliers the filter rejects at most `WorstCase` samples before it accepts one, and exactly
      that many if all of them look like a step and there are enough of them. */
  lemma {:induction false} RejectionsAreBounded(f: Filter, samples: seq<Sample>)
    requires Valid(f) && NoOutliers(samples)
    ensures Rejections(f, samples) <= WorstCase(f)
    ensures AllSteps(samples) && |samples| >= WorstCase(f) ==> Rejections(f, samples) == WorstCase(f)
    decreases |samples|
  {
    hide FilterSample, WorstCase, Valid;
    WorstCaseIsNat(f);
    if samples != [] {
      RejectionCounts(f, samples[0]);
      StepKeepsValid(f, Feed(samples[0]));
      if !FilterSample(f, samples[0]).0 {
        RejectionsAreBounded(FilterSample(f, samples[0]).1, samples[1..]);
      }
    }
  }

  lemma {:induction false} ExtensionsCost(credit: int, k: int, room: int)
    requires k > 0 && credit >= 0
    ensures (1 + k) * Extensions(credit, k, room) <= 2 * credit
    ensures k == 1 && room >= credit ==> Extensions(credit, k, room) == credit
    decreases credit
  {
    if credit >= k && room > 0 {
      ExtensionsCost(credit - k, k, room - k);
      var x := Extensions(credit - k, k, room - k);
      assert (1 + k) * (1 + x) == (1 + k) + (1 + k) * x;
    }
  }

  lemma WorstCaseWithinCredit(f: Filter)
    requires Valid(f)
    ensures WorstCase(f) <= f.delay + 2 * f.delayCredit
    ensures f.config.enabled && f.config.stepDelay && f.consecutiveOutliers == 1 && f.blocking &&
            f.config.maxDelay - f.totalDelay >= f.delayCredit ==>
              WorstCase(f) == f.delay + 2 * f.delayCredit
  {
    var k := f.consecutiveOutliers;
    if k > 0 {
      ExtensionsCost(f.delayCredit, k, f.config.maxDelay - f.totalDelay);
      if f.delayCredit >= 2 * k {
        ExtensionsCost(f.delayCredit - k, k, f.config.maxDelay - f.totalDelay - k);
        var x := Extensions(f.delayCredit - k, k, f.config.maxDelay - f.totalDelay - k);
        assert (1 + k) * (1 + x) == (1 + k) + (1 + k) * x;
      }
    }
  }

  /** Blocking is bounded by credit: after any run, samples that are no outliers are rejected at most
      `delay + 2 * delayCredit` times in a row. */
  lemma BlockingIsBounded(config: Config, events: seq<Event>, samples: seq<Sample>)
    requires NoOutliers(samples)
    ensures var f := Run(Init(config), events);
            Rejections(f, samples) <= f.delay + 2 * f.delayCredit
  {
    hide FilterSample, WorstCase, Valid, Step;
    RunKeepsValid(config, events);
    RejectionsAreBounded(Run(Init(config), events), samples);
    WorstCaseWithinCredit(Run(Init(config), events));
  }

  /** The bound is reached by a filter that blocks after a single outlier. */
  lemma BlockingBoundIsReached(f: Filter, samples: seq<Sample>)
    requires Valid(f) && f.config.enabled && f.config.stepDelay && f.blocking && f.consecutiveOutliers == 1
    requires f.config.maxDelay - f.totalDelay >= f.delayCredit
    requires NoOutliers(samples) && AllSteps(samples) && |samples| >= f.delay + 2 * f.delayCredit
    ensures Rejections(f, samples) == f.delay + 2 * f.delayCredit
  {
    WorstCaseWithinCredit(f);
    RejectionsAreBounded(f, samples);
  }

  // ---------------------------------------------------------------- automatic tuning

  /** A configuration whose starting threshold lies in its own tuning range. */
  predicate ValidRange(c: Config) {
    c.enabled ==> c.minThreshold <= c.threshold <= c.maxThreshold && c.thresholdStep >= 0.0
  }

  /** The tuned threshold and the tuning score are in range, and no more outliers than samples count. */
  predicate InTune(f: Filter) {
    && ValidRange(f.config)
    && (f.config.enabled ==> f.config.minThreshold <= f.threshold <= f.config.maxThreshold)
    && 0 <= f.autoTuneOutliers && 0 <= f.autoTuneSamples
    && (f.config.autoTune ==> f.autoTuneOutliers <= f.autoTuneSamples)
    && 0 <= f.autoTuneScore <= 100
  }

  lemma StartsInTune(config: Config)
    requires ValidRange(config)
    ensures InTune(Init(config))
  {
  }

  lemma TuneKeepsRange(f: Filter)
    requires InTune(f)
    ensures InTune(Tune(f))
  {
    if f.config.autoTune && f.autoTuneSamples >= 1 {
      PercentageRange(f.autoTuneOutliers, f.autoTuneSamples);
    }
  }

  /** Too few outliers tighten the filter, too many loosen it, and the counts start over. */
  lemma TuneDirection(f: Filter)
    requires InTune(f) && f.config.enabled && f.config.autoTune && f.autoTuneSamples >= 1
    requires f.config.minPercent < f.config.maxPercent
    ensures var (t, score) := (Tune(f), Percentage(f.autoTuneOutliers, f.autoTuneSamples));
            && (score < f.config.minPercent ==> f.threshold - f.config.thresholdStep <= t.threshold <= f.threshold)
            && (score > f.config.maxPercent ==> f.threshold <= t.threshold <= f.threshold + f.config.thresholdStep)
            && (f.config.minPercent <= score <= f.config.maxPercent ==> t.threshold == f.threshold)
            && t.autoTuneSamples == t.autoTuneOutliers == 0
  {
    hide Percentage;
  }

  /** The score is the percentage of outliers, rounded to the nearest whole number, halves up. */
  lemma PercentageIsNearest(part: int, whole: int)
    requires whole > 0
    ensures var p := Percentage(part, whole);
            -whole <= 200 * part - 2 * whole * p < whole
  {
  }

  function RealMax(x: real, y: real): real {
    if x >= y then x else y
  }

  function RealMin(x: real, y: real): real {
    if x <= y then x else y
  }

  /** The threshold after a tuning, exactly: one step down or up, but not beyond the range. Nothing else but
      score and counts changes, and without autotuning or samples nothing at all. */
  lemma TuneIsClamped(f: Filter)
    requires f.config.minPercent <= f.config.maxPercent
    ensures var (t, c) := (Tune(f), f.config);
            if !c.autoTune || f.autoTuneSamples < 1 then t == f
            else
              var score := Percentage(f.autoTuneOutliers, f.autoTuneSamples);
              && t == f.(threshold := t.threshold, autoTuneScore := score, autoTuneSamples := 0, autoTuneOutliers := 0)
              && t.threshold == if score < c.minPercent then RealMax(f.threshold - c.thresholdStep, c.minThreshold)
                                else if score > c.maxPercent then RealMin(f.threshold + c.thresholdStep, c.maxThreshold)
                                else f.threshold
  {
    hide Percentage;
  }

  /** The threshold after `k` tunings with this share of outliers. */
  function Tunings(f: Filter, outliers: int, samples: int, k: nat): Filter {
    if k == 0 then f
    else Tune(Tunings(f, outliers, samples, k - 1).(autoTuneSamples := samples, autoTuneOutliers := outliers))
  }

  /** How far `k` steps go. */
  function Steps(step: real, k: nat): real {
    if k == 0 then 0.0 else Steps(step, k - 1) + step
  }

  /** Where the threshold of a filter goes by `moved` if the score stays this one. */
  function Moved(f: Filter, score: int, moved: real): real {
    if score < f.config.minPercent then RealMax(f.threshold - moved, f.config.minThreshold)
    else if score > f.config.maxPercent then RealMin(f.threshold + moved, f.config.maxThreshold)
    else f.threshold
  }

  lemma MovedOnce(f: Filter, g: Filter, score: int, moved: real)
    requires InTune(f) && f.config.enabled && g.config == f.config
    ensures Moved(f, score, 0.0) == f.threshold
    ensures g.threshold == Moved(f, score, moved) ==>
              Moved(g, score, f.config.thresholdStep) == Moved(f, score, moved + f.config.thresholdStep)
  {
  }

  lemma TuneMoves(f: Filter, outliers: int, samples: int)
    requires f.config.minPercent <= f.config.maxPercent && f.config.autoTune && samples >= 1
    ensures var t := Tune(f.(autoTuneSamples := samples, autoTuneOutliers := outliers));
            t.config == f.config && t.threshold == Moved(f, Percentage(outliers, samples), f.config.thresholdStep)
  {
    hide Percentage;
    TuneIsClamped(f.(autoTuneSamples := samples, autoTuneOutliers := outliers));
  }

  /** Tuning converges: with too few outliers the threshold goes down by whole steps until it reaches the least
      one, and with too many up to the greatest one. */
  lemma {:induction false} TuningConverges(f: Filter, outliers: int, samples: int, k: nat)
    requires InTune(f) && f.config.enabled && f.config.autoTune && samples >= 1
    requires f.config.minPercent <= f.config.maxPercent
    ensures var t := Tunings(f, outliers, samples, k);
            && t.config == f.config
            && t.threshold == Moved(f, Percentage(outliers, samples), Steps(f.config.thresholdStep, k))
  {
    hide Tune, Percentage, Moved;
    var score := Percentage(outliers, samples);
    MovedOnce(f, f, score, 0.0);
    if k > 0 {
      TuningConverges(f, outliers, samples, k - 1);
      var before := Tunings(f, outliers, samples, k - 1);
      TuneMoves(before, outliers, samples);
      MovedOnce(f, before, score, Steps(f.config.thresholdStep, k - 1));
    }
  }

  lemma PercentageRange(part: int, whole: int)
    requires 0 <= part <= whole && whole > 0
    ensures 0 <= Percentage(part, whole) <= 100
  {
    assert 200 * part + whole <= 201 * whole < 101 * (2 * whole);
    DivBelow(200 * part + whole, 2 * whole, 101);
  }

  lemma DivBelow(x: int, d: int, q: int)
    requires d > 0 && 0 <= x < q * d
    ensures 0 <= x / d < q
  {
  }

  lemma MaintainKeepsTune(f: Filter, s: Sample)
    requires InTune(f)
    ensures InTune(Maintain(f, s))
  {
    hide Tune;
    TuneKeepsRange(f);
  }

  lemma SampleKeepsTune(f: Filter, s: Sample)
    requires InTune(f)
    ensures InTune(FilterSample(f, s).1)
  {
    hide Maintain;
    if f.config.enabled {
      var g := Sampled(f);
      if !s.outlier && g.delay == 0 {
        MaintainKeepsTune(WithGood(g, s), s);
      } else if g.delay == 0 {
        MaintainKeepsTune(WithOutlier(g), s);
      }
    }
  }

  /** A reconfiguration that autotuning survives: it asks for a restart, or its range is valid and it does
      not switch autotuning on while more outliers than samples are counted. */
  predicate TuneSafe(f: Filter, e: Event) {
    e.Reconfigure? ==>
      || e.config.capacity != f.config.capacity
      || (ValidRange(e.config) && (e.config.autoTune ==> f.autoTuneOutliers <= f.autoTuneSamples))
  }

  lemma StepKeepsTuneIff(f: Filter, e: Event)
    requires InTune(f)
    ensures InTune(Step(f, e)) <==> TuneSafe(f, e)
  {
    hide FilterSample;
    if e.Feed? {
      SampleKeepsTune(f, e.s);
    }
  }

  predicate AllSafe(f: Filter, events: seq<Event>)
    decreases |events|
  {
    events == [] || (TuneSafe(f, events[0]) && AllSafe(Step(f, events[0]), events[1..]))
  }

  predicate AlwaysInTune(f: Filter, events: seq<Event>)
    decreases |events|
  {
    InTune(f) && (events == [] || AlwaysInTune(Step(f, events[0]), events[1..]))
  }

  /** Over every run of samples, resets and reconfigurations, threshold and score are in range all the time
      exactly when every reconfiguration is safe at the time it is made. */
  lemma {:induction false} TuningStaysInRange(f: Filter, events: seq<Event>)
    requires InTune(f)
    ensures AlwaysInTune(f, events) <==> AllSafe(f, events)
    ensures AllSafe(f, events) ==> InTune(Run(f, events))
    decreases |events|
  {
    hide Step, InTune, TuneSafe;
    if events != [] {
      StepKeepsTuneIff(f, events[0]);
      if InTune(Step(f, events[0])) {
        TuningStaysInRange(Step(f, events[0]), events[1..]);
      }
    }
  }

  /** Exactly when a tuning computes a score above 100 percent: half a percent more outliers than samples. */
  lemma ScoreAboveHundredIff(f: Filter)
    requires f.config.autoTune && f.autoTuneSamples >= 1 && f.autoTuneOutliers >= 0
    ensures Tune(f).autoTuneScore > 100 <==> 200 * f.autoTuneOutliers >= 201 * f.autoTuneSamples
  {
    var (x, d) := (200 * f.autoTuneOutliers + f.autoTuneSamples, 2 * f.autoTuneSamples);
    if x < 101 * d {
      DivBelow(x, d, 101);
    } else {
      DivAbove(x, d, 101);
    }
  }

  lemma DivAbove(x: int, d: int, q: int)
    requires d > 0 && x >= q * d
    ensures x / d >= q
  {
    var y := x / d;
    assert x == y * d + x % d && (y + 1) * d == y * d + d;
    ProductGrows(y + 1, q, d);
  }

  lemma ProductGrows(a: int, b: int, d: int)
    requires d > 0
    ensures a <= b ==> a * d <= b * d
  {
  }

  lemma RunOfOneMore(f: Filter, e: Event, rest: seq<Event>)
    ensures Run(f, [e] + rest) == Run(Step(f, e), rest) && Run(Step(f, e), []) == Step(f, e)
  {
    assert ([e] + rest)[1..] == rest;
  }

  lemma RunOfFour(f: Filter, a: Event, b: Event, c: Event, d: Event)
    ensures Run(f, [a, b, c, d]) == Step(Step(Step(Step(f, a), b), c), d)
  {
    hide Step, Run;
    var (f1, f2) := (Step(f, a), Step(Step(f, a), b));
    RunOfOneMore(f, a, [b, c, d]);
    RunOfOneMore(f1, b, [c, d]);
    RunOfOneMore(f2, c, [d]);
    RunOfOneMore(Step(f2, c), d, []);
    assert [a, b, c, d] == [a] + [b, c, d] && [b, c, d] == [b] + [c, d] && [c, d] == [c] + [d] && [d] == [d] + [];
  }

  /** Outliers are counted with autotuning off as well, and a reset keeps the count: autotuning that is
      switched on later starts with a score above 100 percent. */
  lemma LateTuningMiscounts(on: Config)
    requires on.enabled && on.autoTune && !on.stepDelay
    ensures var outlier := Sample(true, false, false, false);
            Run(Init(on.(autoTune := false)),
                [Feed(outlier), Feed(outlier), Reconfigure(on), Feed(outlier.(halfWindow := true))]).autoTuneScore
            == 300
  {
    var outlier := Sample(true, false, false, false);
    var f0 := Init(on.(autoTune := false));
    var events := [Feed(outlier), Feed(outlier), Reconfigure(on), Feed(outlier.(halfWindow := true))];
    var (f1, f2) := (Step(f0, events[0]), Step(Step(f0, events[0]), events[1]));
    assert f2.autoTuneOutliers == 2 && f2.autoTuneSamples == 0 && f2.delay == 0;
    var f3 := Step(f2, events[2]);
    assert f3.autoTuneOutliers == 2 && f3.config == on;
    assert Percentage(3, 1) == 300;
    var f4 := Step(f3, events[3]);
    assert f4.autoTuneScore == 300;
    hide Step;
    RunOfFour(f0, events[0], events[1], events[2], events[3]);
  }
}
