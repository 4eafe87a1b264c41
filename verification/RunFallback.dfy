/**
 Stale inputs, fallback and the deliberate stops over whole runs
 (internal/controller/step.go, fallback.go).
 */
module RunFallback {
  import opened GoStrings
  import opened Protocol
  import opened Config
  import opened Policy
  import opened ControlSpec
  import opened StepEffects
  import opened StepShape
  import opened Runs
  import opened RunRates
  import T = TopCharge

  // ---- a step acts on fresh inputs only -------------------------------------------------------------

  /** A sample no older than the configured age. */
  predicate Young(cfg: Config, q: Sample, now: int) { q.Sampled? && now - q.at <= cfg.prometheusStaleAfter }

  /** A grid sample young enough, from the meter or from the plug-sum fallback. */
  predicate GridFresh(cfg: Config, input: Input)
  {
    || Young(cfg, input.primary, input.primaryNow)
    || (input.fallbackEnabled && Young(cfg, input.secondary, input.secondaryNow))
  }

  lemma FreshIsYoung(cfg: Config, input: Input)
    ensures Fresh(cfg, input.primary, input.primaryNow) <==> Young(cfg, input.primary, input.primaryNow)
    ensures Fresh(cfg, input.secondary, input.secondaryNow) <==> Young(cfg, input.secondary, input.secondaryNow)
  {
  }

  /** When the grid sample was judged. */
  function JudgedAt(cfg: Config, input: Input): int
  {
    if Young(cfg, input.primary, input.primaryNow) then input.primaryNow else input.secondaryNow
  }

  /** A status young enough, or one just polled. */
  predicate StatusFresh(cfg: Config, input: Input)
  {
    || (input.receivedAt.Some? && JudgedAt(cfg, input) - input.receivedAt.value <= cfg.statusStaleAfter)
    || input.poll.Some?
  }

  predicate StatusDead(cfg: Config, input: Input)
  {
    input.receivedAt.Some? && JudgedAt(cfg, input) - input.receivedAt.value > cfg.statusHardFailAfter
  }

  /** The age of its inputs decides, and alone decides, whether a step controls, freezes or falls back. */
  predicate Decided(cfg: Config, input: Input, c: Cycle)
  {
    && (c.reach.NoSample? <==> !GridFresh(cfg, input))
    && (c.reach.StatusLost? <==> GridFresh(cfg, input) && !StatusFresh(cfg, input) && StatusDead(cfg, input))
    && (c.reach.StatusFrozen? <==> GridFresh(cfg, input) && !StatusFresh(cfg, input) && !StatusDead(cfg, input))
    && (c.dev.Some? <==> GridFresh(cfg, input) && StatusFresh(cfg, input))
  }

  lemma ControlReads(cfg: Config, s: State, now: int, end: int, observedAt: Option<int>, dev: Status, watts: real, ok: bool)
    ensures var c := Control(cfg, s, now, end, observedAt, dev, watts, ok).cycle;
            c.dev == Some(dev) && !Unread(c)
  {
    hide Control, FloorAfter, NextStage, IdleAfter, T.AfterReset;
    ControlSensed(cfg, s, now, end, observedAt, dev, watts, ok);
  }

  lemma StepDecided(cfg: Config, s: State, input: Input)
    ensures Decided(cfg, input, Step(cfg, s, input).cycle)
  {
    hide FallBack, Control, Fresh, Young, FloorAfter, NextStage, IdleAfter, T.AfterReset;
    FreshIsYoung(cfg, input);
    var grid := ReadGrid(cfg, input);
    if grid.Grid? {
      var reading := ReadStatus(cfg, input, grid.now);
      if reading.Reading? {
        ControlReads(cfg, s.(log := [], source := grid.source), grid.now, input.publishedNow,
          reading.receivedAt, reading.dev, grid.watts, input.publishOk);
      }
    }
  }

  lemma FrozenKeeps(cfg: Config, s: State, input: Input)
    ensures var r := Step(cfg, s, input);
            r.cycle.reach.StatusFrozen? ==> r.st == s.(log := [], source := r.st.source)
  {
    hide FallBack, Control, Fresh, Young, FloorAfter, NextStage, IdleAfter, T.AfterReset;
    FreshIsYoung(cfg, input);
    var grid := ReadGrid(cfg, input);
    if grid.Grid? {
      var reading := ReadStatus(cfg, input, grid.now);
      if reading.Reading? {
        ControlReads(cfg, s.(log := [], source := grid.source), grid.now, input.publishedNow,
          reading.receivedAt, reading.dev, grid.watts, input.publishOk);
      }
    }
  }

  lemma FreshInputsDecide(run: Run, i: nat)
    requires IsRun(run) && i < |run.ins|
    ensures Decided(run.cfg, run.ins[i], run.cycles[i])
  {
    hide Step, Decided;
    StepTaken(run, i);
    StepDecided(run.cfg, run.states[i], run.ins[i]);
  }

  /** A step that waits for the status to return publishes nothing and forgets nothing. */
  lemma FrozenStepKeepsAll(run: Run, i: nat)
    requires IsRun(run) && i < |run.ins| && run.cycles[i].reach.StatusFrozen?
    ensures run.states[i + 1] == run.states[i].(log := [], source := run.states[i + 1].source)
  {
    hide Step;
    StepTaken(run, i);
    FrozenKeeps(run.cfg, run.states[i], run.ins[i]);
  }

  // ---- device settings come first ------------------------------------------------------------------------

  /** The device must be told to take surplus power, and may be told now. */
  predicate SurplusDue(cfg: Config, s: State, dev: Status, now: int)
  {
    && cfg.enforceSurplusFeedIn && !dev.surplusFeedIn && cfg.allowFlashWrites
    && (s.lastSurplusAt.Some? ==> now - s.lastSurplusAt.value >= SurplusInterval(cfg))
  }

  /** A step with a status stops at the device settings exactly when one of them is wrong and may be set. */
  predicate SettingsFirst(cfg: Config, s: State, c: Cycle)
  {
    c.dev.Some? ==>
      && (c.reach.ConfigStep? <==> c.dev.value.chargingMode != 0)
      && (c.reach.SurplusStep? <==> c.dev.value.chargingMode == 0 && SurplusDue(cfg, s, c.dev.value, c.now))
  }

  lemma DischargeReaches(cfg: Config, s: State, now: int, end: int, observedAt: Option<int>, dev: Status, watts: real, ok: bool)
    ensures Discharge(cfg, s, now, end, observedAt, dev, watts, ok).cycle.Evaluated()
  {
    hide CommandIdle, EnsureOutput, NormalControl, IdleAfter, NextStage, Target;
  }

  lemma ControlSettingsFirst(cfg: Config, s: State, now: int, end: int, observedAt: Option<int>, dev: Status, watts: real, ok: bool)
    ensures SettingsFirst(cfg, s, Control(cfg, s, now, end, observedAt, dev, watts, ok).cycle)
  {
    hide CommandIdle, Remedy, Discharge, FloorAfter, Smooth, T.AfterReset;
    ControlLog(cfg, s, now, end, observedAt, dev, watts, ok);
    var s1 := s.(lastStatus := Some(dev), floorActive := FloorAfter(cfg, s.floorActive, dev));
    var device := EnsureDeviceConfig(cfg, s1, now, observedAt, dev, ok);
    var surplus := EnsureSurplusFeedIn(cfg, device.st, now, dev, ok);
    DischargeReaches(cfg, Smooth(cfg, surplus.st, watts), now, end, observedAt, dev, watts, ok);
  }

  lemma DeviceSettingsFirst(run: Run, i: nat)
    requires IsRun(run) && i < |run.ins|
    ensures SettingsFirst(run.cfg, run.states[i], run.cycles[i])
  {
    hide Step, Control, FallBack, Fresh, Young;
    FreshIsYoung(run.cfg, run.ins[i]);
    StepTaken(run, i);
    var s, input, cfg := run.states[i], run.ins[i], run.cfg;
    var grid := ReadGrid(cfg, input);
    if grid.Grid? {
      var reading := ReadStatus(cfg, input, grid.now);
      if reading.Reading? {
        StepControls(cfg, s, input);
        ControlSettingsFirst(cfg, s.(log := [], source := grid.source), grid.now, input.publishedNow,
          reading.receivedAt, reading.dev, grid.watts, input.publishOk);
      }
    }
    StepDecided(cfg, s, input);
  }

  lemma StepControls(cfg: Config, s: State, input: Input)
    requires ReadGrid(cfg, input).Grid? && ReadStatus(cfg, input, ReadGrid(cfg, input).now).Reading?
    ensures var grid := ReadGrid(cfg, input);
            var reading := ReadStatus(cfg, input, grid.now);
            Step(cfg, s, input) == Control(cfg, s.(log := [], source := grid.source), grid.now, input.publishedNow,
                                           reading.receivedAt, reading.dev, grid.watts, input.publishOk)
  {
    hide Control, FallBack, Fresh;
  }

  // ---- a stop is a stop -----------------------------------------------------------------------------------

  predicate IsStopReach(reach: Reach) { reach.NoSample? || reach.StatusLost? || reach.FloorIdle? || reach.TopIdle? }

  predicate Stops(s: State) { s.log == [] ==> s.lastCommandWatts == 0 }

  lemma DischargeStops(cfg: Config, s: State, now: int, end: int, observedAt: Option<int>, dev: Status, watts: real, ok: bool)
    requires s.log == []
    ensures var r := Discharge(cfg, s, now, end, observedAt, dev, watts, ok);
            IsStopReach(r.cycle.reach) ==> Stops(r.st)
  {
    hide CommandIdle, EnsureOutput, NormalControl, IdleAfter, NextStage, Target, Effect;
    var stage := NextStage(cfg, s.stage, dev.soc);
    var m := s.(stage := stage, idle := IdleAfter(cfg, s, stage, T.Obs(now, dev, watts, s.smoothed)));
    IdleEffect(cfg, m.(ladder := m.ladder.Reset()), now, observedAt, dev, ok);
  }

  lemma ControlStops(cfg: Config, s: State, now: int, end: int, observedAt: Option<int>, dev: Status, watts: real, ok: bool)
    requires s.log == []
    ensures var r := Control(cfg, s, now, end, observedAt, dev, watts, ok);
            IsStopReach(r.cycle.reach) ==> Stops(r.st)
  {
    hide CommandIdle, EnsureDeviceConfig, EnsureSurplusFeedIn, Discharge, FloorAfter, Smoothed, Effect, ClearPending, PendingKept,
      T.AfterReset, Stops;
    var s1 := s.(lastStatus := Some(dev), floorActive := FloorAfter(cfg, s.floorActive, dev));
    var device := EnsureDeviceConfig(cfg, s1, now, observedAt, dev, ok);
    DeviceConfigEffect(cfg, s1, now, observedAt, dev, ok);
    if device.verdict.Proceed? {
      var surplus := EnsureSurplusFeedIn(cfg, device.st, now, dev, ok);
      SurplusEffect(cfg, device.st, now, dev, ok);
      if surplus.verdict.Proceed? {
        var s2 := Smooth(cfg, surplus.st, watts);
        FloorStops(cfg, s2.(idle := T.AfterReset(s2.idle), ladder := s2.ladder.Reset()), now, observedAt, dev, ok);
        DischargeStops(cfg, s2, now, end, observedAt, dev, watts, ok);
      }
    }
  }

  lemma FloorStops(cfg: Config, s: State, now: int, observedAt: Option<int>, dev: Status, ok: bool)
    requires s.log == []
    ensures Stops(CommandIdle(cfg, s, now, observedAt, dev, ok).st)
  {
    hide CommandIdle, Effect;
    IdleEffect(cfg, s, now, observedAt, dev, ok);
  }

  lemma StepStops(cfg: Config, s: State, input: Input)
    ensures var r := Step(cfg, s, input);
            IsStopReach(r.cycle.reach) ==> Stops(r.st)
  {
    hide FallBack, Control, Fresh, Effect;
    var s0 := s.(log := []);
    var grid := ReadGrid(cfg, input);
    if grid.NoGrid? {
      FallbackEffect(cfg, s0.(source := NoSource), input);
    } else {
      var s1 := s0.(source := grid.source);
      var reading := ReadStatus(cfg, input, grid.now);
      if reading.HardFail? {
        FallbackEffect(cfg, s1, input);
      } else if reading.Reading? {
        ControlStops(cfg, s1, grid.now, input.publishedNow, reading.receivedAt, reading.dev, grid.watts, input.publishOk);
      }
    }
  }

  /**
   A fallback, a step below the SoC floor and a top-charge idle step command zero:
   what they publish disables the controlled slot, and unless the broker refuses it
   the command in memory is 0 afterwards.
   */
  lemma StopsStop(run: Run, i: nat)
    requires IsRun(run) && i < |run.ins| && Valid(run.cfg) && IsStopReach(run.cycles[i].reach)
    ensures Tried(run, i).Some? ==> Commands(run.cfg, Tried(run, i).value.cmd, 0)
    ensures Tried(run, i).None? || Sent(run, i).Some? ==> run.states[i + 1].lastCommandWatts == 0
  {
    hide Step, Valid, Sets, Commands, Commandable;
    ValidHasWatts(run.cfg);
    StepTaken(run, i);
    StepStops(run.cfg, run.states[i], run.ins[i]);
    StepKinds(run.cfg, run.states[i], run.ins[i]);
    EffectAt(run, i);
    AttemptAt(run, i);
    if Tried(run, i).Some? {
      StopCommands(run.cfg, Tried(run, i).value.cmd);
    }
  }
}
