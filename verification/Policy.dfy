/**
 The discharge law: smoothing, high-SoC stages, target, ramp
 (internal/controller/helpers.go, highsoc.go). Power samples are reals.
 */
module Policy {
  import opened Config
  import opened Protocol

  datatype GridSource = NoSource | Primary | Fallback

  datatype Stage = Inactive | NetZero | Aggressive | MaxOutput
  {
    predicate AllowExport() { Aggressive? || MaxOutput? }

    predicate Active() { !Inactive? }
  }

  /** math.Round: to the nearest integer, halves away from zero. */
  function Round(x: real): (r: int)
    ensures -0.5 <= r as real - x <= 0.5
    ensures x >= 0.0 ==> r as real - x > -0.5
    ensures x < 0.0 ==> r as real - x < 0.5
  {
    if x >= 0.0 then (x + 0.5).Floor else -((0.5 - x).Floor)
  }

  /** One step of the exponential moving average. */
  function Smoothed(alpha: real, previous: real, sample: real): real
  {
    alpha * sample + (1.0 - alpha) * previous
  }

  /** The average stays between the previous value and the sample. */
  lemma SmoothedBetween(alpha: real, previous: real, sample: real)
    requires 0.0 < alpha <= 1.0
    ensures previous <= sample ==> previous <= Smoothed(alpha, previous, sample) <= sample
    ensures sample <= previous ==> sample <= Smoothed(alpha, previous, sample) <= previous
  {
    var d := sample - previous;
    assert Smoothed(alpha, previous, sample) == previous + alpha * d;
    assert Smoothed(alpha, previous, sample) == sample - (1.0 - alpha) * d;
    if d >= 0.0 {
      assert alpha * d >= 0.0 && (1.0 - alpha) * d >= 0.0;
    } else {
      assert alpha * (-d) >= 0.0 && (1.0 - alpha) * (-d) >= 0.0;
    }
  }

  /** Each sample leaves the share 1 - alpha of the distance to it. */
  lemma SmoothedCloses(alpha: real, previous: real, sample: real)
    ensures Smoothed(alpha, previous, sample) - sample == (1.0 - alpha) * (previous - sample)
  {
  }

  /** applyRamp: towards the target by at most the configured limit; a limit of 0 is no limit. */
  function ApplyRamp(cfg: Config, current: int, target: int): (r: int)
    ensures current <= target ==> current <= r <= target
    ensures target <= current ==> target <= r <= current
    ensures current <= target && cfg.rampUp > 0 ==> r <= current + cfg.rampUp
    ensures target <= current && cfg.rampDown > 0 ==> r >= current - cfg.rampDown
    ensures current <= target && r != target ==> cfg.rampUp > 0 && r == current + cfg.rampUp
    ensures target <= current && r != target ==> cfg.rampDown > 0 && r == current - cfg.rampDown
  {
    if target > current then
      if cfg.rampUp <= 0 then target
      else if target > current + cfg.rampUp then current + cfg.rampUp else target
    else if target < current then
      if cfg.rampDown <= 0 then target
      else if target < current - cfg.rampDown then current - cfg.rampDown else target
    else target
  }

  /** 0, or a discharge the device can follow. */
  predicate Commandable(cfg: Config, watts: int)
  {
    watts == 0 || (cfg.minOutputWatts <= watts <= cfg.maxOutputWatts && watts > 0)
  }

  /** clampTargetWatts: the least commandable power that meets the demand, or the greatest one if none does. */
  function ClampTarget(cfg: Config, target: int): (r: int)
    ensures 0 <= cfg.minOutputWatts <= cfg.maxOutputWatts ==> Commandable(cfg, r)
    ensures 0 <= cfg.minOutputWatts <= cfg.maxOutputWatts && Commandable(cfg, target) ==> r == target
    ensures target <= 0 && cfg.maxOutputWatts >= 0 ==> r == 0
  {
    var a := if target < 0 then 0 else target;
    var b := if a > cfg.maxOutputWatts then cfg.maxOutputWatts else a;
    if b > 0 && b < cfg.minOutputWatts then cfg.minOutputWatts else b
  }

  /** No other power the device can follow is nearer above the demand; beyond the range it is the greatest. */
  lemma ClampTargetIsLeast(cfg: Config, target: int, watts: int)
    requires 0 <= cfg.minOutputWatts <= cfg.maxOutputWatts && Commandable(cfg, watts)
    ensures target <= cfg.maxOutputWatts ==> ClampTarget(cfg, target) >= target
    ensures watts >= target ==> ClampTarget(cfg, target) <= watts
    ensures target > cfg.maxOutputWatts ==> ClampTarget(cfg, target) >= watts
  {
  }

  /** More demand never lowers the target. */
  lemma ClampTargetMonotone(cfg: Config, a: int, b: int)
    requires a <= b && 0 <= cfg.minOutputWatts <= cfg.maxOutputWatts
    ensures ClampTarget(cfg, a) <= ClampTarget(cfg, b)
  {
  }

  /** computeRawTargetWithBias: closed loop on the meter, open loop on the plug-sum fallback. */
  function RawTarget(cfg: Config, source: GridSource, dev: Status, smoothed: real, bias: int): int
  {
    var measured := if source.Fallback? then 0 else dev.OutputWatts();
    ClampTarget(cfg, measured + Round(smoothed) - bias)
  }

  lemma RoundMonotone(x: real, y: real)
    requires x <= y
    ensures Round(x) <= Round(y)
  {
  }

  /** More import never lowers the target. */
  lemma TargetFollowsImport(cfg: Config, source: GridSource, dev: Status, x: real, y: real, bias: int)
    requires 0 <= cfg.minOutputWatts <= cfg.maxOutputWatts && x <= y
    ensures RawTarget(cfg, source, dev, x, bias) <= RawTarget(cfg, source, dev, y, bias)
  {
    hide Round, ClampTarget;
    RoundMonotone(x, y);
    var measured := if source.Fallback? then 0 else dev.OutputWatts();
    ClampTargetMonotone(cfg, measured + Round(x) - bias, measured + Round(y) - bias);
  }

  /** highSoCStageForStatus. */
  function NextStage(cfg: Config, stage: Stage, soc: int): Stage
  {
    if stage == MaxOutput && soc >= cfg.highSoCAggressive then MaxOutput
    else if soc >= cfg.highSoCMax then MaxOutput
    else if soc >= cfg.highSoCAggressive then Aggressive
    else if soc >= cfg.highSoCNetZero then NetZero
    else Inactive
  }

  /** The configured share of the solar input, to the nearest watt. */
  function SolarTrace(cfg: Config, dev: Status): (r: int)
    ensures -0.5 <= r as real - (dev.solar1Watts + dev.solar2Watts) as real * cfg.solarTraceFactor <= 0.5
  {
    Round(dev.SolarWatts() as real * cfg.solarTraceFactor)
  }

  /** computeTarget, once the stage is known. */
  function Target(cfg: Config, source: GridSource, stage: Stage, dev: Status, smoothed: real): (r: int)
    ensures 0 <= cfg.minOutputWatts <= cfg.maxOutputWatts ==> Commandable(cfg, r)
  {
    match stage
    case NetZero => RawTarget(cfg, source, dev, smoothed, 0)
    case Aggressive => ClampTarget(cfg, Max(RawTarget(cfg, source, dev, smoothed, 0), SolarTrace(cfg, dev)))
    case MaxOutput => cfg.maxOutputWatts
    case Inactive => RawTarget(cfg, source, dev, smoothed, cfg.importBiasWatts)
  }

  /** What the device gives now, as far as a target counts on it: nothing when the import is a plug sum. */
  function Given(source: GridSource, dev: Status): int
  {
    if source.Fallback? then 0 else dev.output1Watts + dev.output2Watts
  }

  /**
   The closed loop aims at the import bias, which is given up from the net-zero stage
   on: were the device to follow the target, the bias would be left as import, up to
   rounding, less only at the least output, more only at the greatest.
   */
  lemma TargetLeavesBias(cfg: Config, source: GridSource, stage: Stage, dev: Status, smoothed: real)
    requires 0 <= cfg.minOutputWatts <= cfg.maxOutputWatts && (stage == Inactive || stage == NetZero)
    ensures var t := Target(cfg, source, stage, dev, smoothed);
            var bias := if stage == NetZero then 0 else cfg.importBiasWatts;
            var after := smoothed - (t - Given(source, dev)) as real;
            && (t < cfg.maxOutputWatts ==> after <= bias as real + 0.5)
            && (t > cfg.minOutputWatts ==> after >= bias as real - 0.5)
            && (smoothed + Given(source, dev) as real <= bias as real ==> t == 0)
            && (smoothed + Given(source, dev) as real >= bias as real + 1.0 && cfg.maxOutputWatts > 0 ==> t > 0)
  {
    var bias := if stage == NetZero then 0 else cfg.importBiasWatts;
    var demand := Given(source, dev) + Round(smoothed) - bias;
    assert Target(cfg, source, stage, dev, smoothed) == ClampTarget(cfg, demand);
    if smoothed + Given(source, dev) as real <= bias as real {
      RoundMonotone(smoothed, (bias - Given(source, dev)) as real);
    }
    if smoothed + Given(source, dev) as real >= bias as real + 1.0 {
      RoundMonotone((bias - Given(source, dev) + 1) as real, smoothed);
    }
  }

  lemma ClampOfMax(cfg: Config, a: int, b: int)
    requires 0 <= cfg.minOutputWatts <= cfg.maxOutputWatts && Commandable(cfg, a)
    ensures ClampTarget(cfg, Max(a, b)) == Max(a, ClampTarget(cfg, b)) <= cfg.maxOutputWatts
  {
  }

  /** Each stage asks for at least as much as the one below it; the aggressive one follows the sun when that is more. */
  lemma StagesAscend(cfg: Config, source: GridSource, dev: Status, smoothed: real)
    requires 0 <= cfg.minOutputWatts <= cfg.maxOutputWatts
    ensures var netZero, aggressive := Target(cfg, source, NetZero, dev, smoothed), Target(cfg, source, Aggressive, dev, smoothed);
            && (cfg.importBiasWatts >= 0 ==> Target(cfg, source, Inactive, dev, smoothed) <= netZero)
            && aggressive == Max(netZero, ClampTarget(cfg, SolarTrace(cfg, dev)))
            && aggressive <= Target(cfg, source, MaxOutput, dev, smoothed) == cfg.maxOutputWatts
  {
    hide Round, ClampTarget, Commandable, SolarTrace;
    var measured := if source.Fallback? then 0 else dev.OutputWatts();
    var demand := measured + Round(smoothed);
    if cfg.importBiasWatts >= 0 {
      ClampTargetMonotone(cfg, demand - cfg.importBiasWatts, demand);
    }
    assert RawTarget(cfg, source, dev, smoothed, 0) == ClampTarget(cfg, demand - 0);
    ClampOfMax(cfg, ClampTarget(cfg, demand - 0), SolarTrace(cfg, dev));
  }

  function Abs(v: int): (d: nat)
    ensures d >= v && d >= -v && (d == v || d == -v)
  {
    if v < 0 then -v else v
  }

  // ---- the next command of normal control --------------------------------------------------

  /** The ramped command with the export cut and the snap around the device's minimum. */
  function Ramped(cfg: Config, last: int, target: int, exporting: bool): int
  {
    var r := ApplyRamp(cfg, last, target);
    var cut := if exporting && r > target then target else r;
    if 0 < cut < cfg.minOutputWatts then (if target == 0 then 0 else cfg.minOutputWatts) else cut
  }

  function DeltaThreshold(cfg: Config, exporting: bool): int
  {
    if exporting then cfg.minCommandDeltaExporting else cfg.minCommandDelta
  }

  predicate DeltaSuppressed(cfg: Config, last: int, ramped: int, exporting: bool)
  {
    Abs(ramped - last) == 0 || Abs(ramped - last) < DeltaThreshold(cfg, exporting)
  }

  /** The ramped command is commandable and lies between the last command and the target. */
  lemma RampedBetween(cfg: Config, last: int, target: int, exporting: bool)
    requires 0 <= cfg.minOutputWatts <= cfg.maxOutputWatts
    requires Commandable(cfg, last) && Commandable(cfg, target)
    ensures Commandable(cfg, Ramped(cfg, last, target, exporting))
    ensures last <= target ==> last <= Ramped(cfg, last, target, exporting) <= target
    ensures target <= last ==> target <= Ramped(cfg, last, target, exporting) <= last
    ensures exporting && target <= last ==> Ramped(cfg, last, target, exporting) == target
  {
  }

  /**
   The ramped command in full: the target if it is within one limit, or if power is
   cut while exporting; otherwise one limit nearer to it, but from 0 at once to the
   least output, and below the least output at once to 0.
   */
  lemma RampedExactly(cfg: Config, last: int, target: int, exporting: bool)
    requires 0 <= cfg.minOutputWatts <= cfg.maxOutputWatts && cfg.rampUp >= 0 && cfg.rampDown >= 0
    requires Commandable(cfg, last) && Commandable(cfg, target)
    ensures last <= target ==>
              Ramped(cfg, last, target, exporting)
              == if cfg.rampUp == 0 || target - last <= cfg.rampUp then target
                 else if last == 0 && cfg.rampUp < cfg.minOutputWatts then cfg.minOutputWatts
                 else last + cfg.rampUp
    ensures target <= last ==>
              Ramped(cfg, last, target, exporting)
              == if exporting || cfg.rampDown == 0 || last - target <= cfg.rampDown then target
                 else if last - cfg.rampDown < cfg.minOutputWatts then 0
                 else last - cfg.rampDown
  {
  }

  /** With the shipped limits, 100 W rises to 250 W on the way to 600 W, and 600 W falls to 300 W on the way to 0. */
  lemma DefaultRamp()
    ensures Ramped(DEFAULTS, 100, 600, false) == 250 && Ramped(DEFAULTS, 250, 600, false) == 400
    ensures Ramped(DEFAULTS, 600, 0, false) == 300 && Ramped(DEFAULTS, 600, 0, true) == 0
    ensures Ramped(DEFAULTS, 0, 80, false) == 80 && Ramped(DEFAULTS, 350, 0, false) == 0
  {
    hide Ramped;
    RampedExactly(DEFAULTS, 100, 600, false);
    RampedExactly(DEFAULTS, 250, 600, false);
    RampedExactly(DEFAULTS, 600, 0, false);
    RampedExactly(DEFAULTS, 600, 0, true);
    RampedExactly(DEFAULTS, 0, 80, false);
    RampedExactly(DEFAULTS, 350, 0, false);
  }
}
