/** The outlier filter object, whose counters every call updates in place. */
module OutlierFilter {
  import F = FilterAutomaton

  class OutlierFilter {
    var config: F.Config
    var lastOutlier: bool
    var threshold: real
    var autoTuneSamples: int
    var autoTuneOutliers: int
    var autoTuneScore: int
    var consecutiveOutliers: int
    var delay: int
    var totalDelay: int
    var delayCredit: int
    var blocking: bool

    ghost function View(): F.Filter
      reads this
    {
      F.Filter(config, lastOutlier, threshold, autoTuneSamples, autoTuneOutliers, autoTuneScore,
               consecutiveOutliers, delay, totalDelay, delayCredit, blocking)
    }

    constructor (config: F.Config)
      ensures View() == F.Init(config)
    {
      this.config := config;
      threshold := if config.enabled then config.threshold else 0.0;
      autoTuneSamples, autoTuneOutliers, autoTuneScore := 0, 0, 0;
      consecutiveOutliers, delay, totalDelay := 0, 0, 0;
      delayCredit := config.delayCredit;
      lastOutlier, blocking := false, false;
    }

    method Reset()
      modifies this
      ensures View() == F.Reset(old(View()))
    {
      lastOutlier := false;
      threshold := config.threshold;
      delay, totalDelay := 0, 0;
      delayCredit := config.delayCredit;
      blocking := false;
    }

    method Configure(newConfig: F.Config) returns (restart: bool)
      modifies this
      ensures (restart, View()) == F.Configure(old(View()), newConfig)
    {
      if config.capacity != newConfig.capacity {
        return true;
      }
      config := newConfig;
      Reset();
      return false;
    }

    method Tune()
      modifies this
      ensures View() == F.Tune(old(View()))
    {
      if !config.autoTune || autoTuneSamples < 1 {
        return;
      }
      autoTuneScore := F.Percentage(autoTuneOutliers, autoTuneSamples);
      if autoTuneScore < config.minPercent {
        threshold := threshold - config.thresholdStep;
        if threshold < config.minThreshold {
          threshold := config.minThreshold;
        }
      }
      if autoTuneScore > config.maxPercent {
        threshold := threshold + config.thresholdStep;
        if threshold > config.maxThreshold {
          threshold := config.maxThreshold;
        }
      }
      autoTuneSamples, autoTuneOutliers := 0, 0;
    }

    /** After a sample was fed to the statistics: tuning and fresh credit. */
    method Maintain(s: F.Sample)
      modifies this
      ensures View() == F.Maintain(old(View()), s)
    {
      hide F.Tune;
      if s.halfWindow {
        Tune();
      }
      if config.stepDelay && s.window {
        delayCredit := delayCredit + config.creditIncrement;
        if delayCredit >= config.delayCredit {
          delayCredit := config.delayCredit;
        }
      }
    }

    /** About to accept after outliers: block, or end the blocking period. */
    method BlockOrOpen(step: bool) returns (blocked: bool)
      requires consecutiveOutliers != 0
      modifies this
      ensures blocked == (old(config).stepDelay && step && F.CanBlock(old(View())))
      ensures blocked ==> View() == F.Block(old(View()))
      ensures !blocked ==> View() == old(View()).(
                blocking := if config.stepDelay && step then old(blocking) else false, totalDelay := 0)
    {
      if config.stepDelay && step {
        if (blocking && config.maxDelay > totalDelay && delayCredit >= consecutiveOutliers)
           || (!blocking && delayCredit >= consecutiveOutliers * 2) {
          delay := consecutiveOutliers;
          totalDelay := totalDelay + consecutiveOutliers;
          delayCredit := delayCredit - consecutiveOutliers;
          blocking := true;
          lastOutlier := true;
          return true;
        }
      } else {
        blocking := false;
      }
      totalDelay := 0;
      return false;
    }

    method Filter(s: F.Sample) returns (accepted: bool)
      modifies this
      ensures (accepted, View()) == F.FilterSample(old(View()), s)
    {
      hide F.Maintain, F.CanBlock;
      if !config.enabled {
        return true;
      }
      if config.autoTune {
        autoTuneSamples := autoTuneSamples + 1;
      }
      accepted := true;
      if !s.outlier && delay == 0 {
        if consecutiveOutliers != 0 {
          var blocked := BlockOrOpen(s.step);
          if blocked {
            return false;
          }
        }
        lastOutlier := false;
        consecutiveOutliers := 0;
      } else {
        lastOutlier := true;
        if delay != 0 {
          delay := delay - 1;
          return false;
        }
        autoTuneOutliers := autoTuneOutliers + 1;
        consecutiveOutliers := consecutiveOutliers + 1;
        if config.discard {
          accepted := false;
        }
      }
      Maintain(s);
    }
  }
}
