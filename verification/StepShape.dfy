/**
 How a step runs through its phases: which state enters which phase, and which
 fields a phase cannot touch.
 */
module StepShape {
  import opened GoStrings
  import opened Protocol
  import opened Config
  import opened Policy
  import opened ControlSpec
  import opened StepEffects
  import T = TopCharge
  import E = Escalation

  /** What the authority and publish phases never change. */
  predicate SameSensors(s: State, s': State)
  {
    && s'.source == s.source && s'.smoothed == s.smoothed && s'.hasSmoothed == s.hasSmoothed
    && s'.lastStatus == s.lastStatus && s'.floorActive == s.floorActive && s'.idle == s.idle && s'.stage == s.stage
  }

  predicate SameLadder(s: State, s': State) { s'.ladder == s.ladder }

  lemma RemedySensors(cfg: Config, s: State, now: int, observedAt: Option<int>, cmd: Command, kind: Kind, ok: bool)
    ensures SameSensors(s, Remedy(cfg, s, now, observedAt, cmd, kind, ok).st)
    ensures SameLadder(s, Remedy(cfg, s, now, observedAt, cmd, kind, ok).st)
  {
    hide *;
    RemedyCases(cfg, s, now, observedAt, cmd, kind, ok);
    LogSensors(s, now, cmd, kind, ok, observedAt);
  }

  lemma RemedyCases(cfg: Config, s: State, now: int, observedAt: Option<int>, cmd: Command, kind: Kind, ok: bool)
    ensures var r := Remedy(cfg, s, now, observedAt, cmd, kind, ok).st;
            r == s || r == Log(s, now, cmd, kind, ok) || r == RecordPublish(Log(s, now, cmd, kind, ok), cmd, now, observedAt)
  {
    hide EchoAwaited, RecordPublish, Log;
  }

  lemma LogSensors(s: State, now: int, cmd: Command, kind: Kind, ok: bool, observedAt: Option<int>)
    ensures SameSensors(s, s) && SameSensors(s, Log(s, now, cmd, kind, ok))
    ensures SameSensors(s, RecordPublish(Log(s, now, cmd, kind, ok), cmd, now, observedAt))
    ensures SameLadder(s, s) && SameLadder(s, Log(s, now, cmd, kind, ok))
    ensures SameLadder(s, RecordPublish(Log(s, now, cmd, kind, ok), cmd, now, observedAt))
  {
  }

  lemma AuthoritySensors(cfg: Config, s: State, now: int, observedAt: Option<int>, dev: Status, ok: bool)
    ensures SameSensors(s, EnsureDeviceConfig(cfg, s, now, observedAt, dev, ok).st)
    ensures SameSensors(s, EnsureSurplusFeedIn(cfg, s, now, dev, ok).st)
    ensures SameLadder(s, EnsureDeviceConfig(cfg, s, now, observedAt, dev, ok).st)
    ensures SameLadder(s, EnsureSurplusFeedIn(cfg, s, now, dev, ok).st)
  {
    hide Remedy;
    RemedySensors(cfg, s, now, observedAt, ChargingMode(0), ForChargingMode, ok);
    RemedySensors(cfg, s, now, None, SurplusFeedIn(0), ForSurplus, ok);
  }

  lemma IdleSensors(cfg: Config, s: State, now: int, observedAt: Option<int>, dev: Status, ok: bool)
    ensures SameSensors(s, CommandIdle(cfg, s, now, observedAt, dev, ok).st)
    ensures SameLadder(s, CommandIdle(cfg, s, now, observedAt, dev, ok).st)
  {
    hide Remedy, SlotCommand;
    RemedySensors(cfg, s, now, observedAt, SlotCommand(cfg, dev, DesiredSlot(cfg, 0), false), ForIdle, ok);
  }

  lemma FallbackSensors(cfg: Config, s: State, input: Input)
    ensures var r := FallBack(cfg, s, input).st;
            SameSensors(s, r.(idle := s.idle)) && r.idle == FallbackIdle(cfg, s, input) && r.ladder == s.ladder.Reset()
  {
    hide SlotCommand, FallbackIdle, CurrentSlot;
  }

  lemma EscalateSensors(cfg: Config, s: State, now: int, dev: Status, desired: int, smoothed: real, ok: bool)
    ensures SameSensors(s, Escalate(cfg, s, now, dev, desired, smoothed, ok).st)
  {
    hide Remedy, SlotCommand, RestartDue, RearmCandidate;
    RemedySensors(cfg, s, now, None, SlotCommand(cfg, dev, DisabledSlot(cfg), false), ForRearmDisable, ok);
    RemedySensors(cfg, s, now, None, OutputEnable(3), ForOutputEnable, ok);
  }

  lemma CompleteSensors(cfg: Config, s: State, now: int, dev: Status, desired: int, ok: bool)
    ensures SameSensors(s, CompleteRearm(cfg, s, now, dev, desired, ok).st)
  {
    hide Remedy, SlotCommand, DesiredSlot;
    RemedySensors(cfg, s, now, None, SlotCommand(cfg, dev, DesiredSlot(cfg, desired), false), ForRearmEnable, ok);
  }

  lemma DiagnoseSensors(cfg: Config, s: State, now: int, dev: Status, desired: int, smoothed: real, ok: bool)
    ensures SameSensors(s, Diagnose(cfg, s, now, dev, desired, smoothed, ok).st)
  {
    hide Escalate, Inert, LiterallyWanted;
    EscalateSensors(cfg, s.(ladder := s.ladder.NoteBlockedCycle()), now, dev, desired, smoothed, ok);
  }

  lemma OutputSensors(cfg: Config, s: State, now: int, dev: Status, desired: int, smoothed: real, ok: bool)
    ensures SameSensors(s, EnsureOutput(cfg, s, now, dev, desired, smoothed, ok).st)
  {
    hide CompleteRearm, Diagnose, RearmCandidate;
    CompleteSensors(cfg, s, now, dev, desired, ok);
    DiagnoseSensors(cfg, if s.rearmPending then ClearRearm(s) else s, now, dev, desired, smoothed, ok);
  }

  lemma ReassertSensors(cfg: Config, s: State, now: int, observedAt: Option<int>, dev: Status, ok: bool)
    ensures SameSensors(s, Reassert(cfg, s, now, observedAt, dev, ok).st)
    ensures SameLadder(s, Reassert(cfg, s, now, observedAt, dev, ok).st)
  {
    hide Remedy, SlotCommand, DesiredSlot, SlotMatches, CurrentSlot;
    RemedySensors(cfg, s, now, observedAt, SlotCommand(cfg, dev, DesiredSlot(cfg, s.lastCommandWatts), false), ForReassert, ok);
  }

  lemma NormalSensors(cfg: Config, s: State, now: int, observedAt: Option<int>, dev: Status, target: int, exporting: bool, ok: bool)
    ensures SameSensors(s, NormalControl(cfg, s, now, observedAt, dev, target, exporting, ok).st)
    ensures SameLadder(s, NormalControl(cfg, s, now, observedAt, dev, target, exporting, ok).st)
  {
    hide Reassert, SlotCommand, Suppressed, Ramped, DesiredSlot;
    ReassertSensors(cfg, s, now, observedAt, dev, ok);
  }

  // ---- the route of a step -------------------------------------------------------------------

  /** The smoothed signal shows export, and the stage of the step does not allow it. */
  predicate Exporting(c: Cycle) { c.smoothed < 0.0 && (c.stage == Inactive || c.stage == NetZero) }

  predicate ReachedOutput(c: Cycle) { c.reach.OutputStep? || c.reach.NormalStep? }

  /** m is the state in which a step enters maybeEnsureOutputEnabled. */
  predicate EntersOutput(cfg: Config, s: State, m: State, dev: Status)
  {
    && Still(s.(log := []), m) && m.ladder == s.ladder
    && m.rearmPending == s.rearmPending && m.rearmStartedAt == s.rearmStartedAt && m.rearmWatts == s.rearmWatts
    && !m.floorActive && m.floorActive == FloorAfter(cfg, s.floorActive, dev)
    && (m.pending == s.pending
        || s.pending == Some(ChargingMode(0)) || s.pending == Some(SurplusFeedIn(0)))
  }

  /** What reaching maybeEnsureOutputEnabled means for the whole step. */
  predicate OutputRoute(cfg: Config, s: State, r: Stepped, m: State, observedAt: Option<int>, ok: bool)
  {
    var c := r.cycle;
    && c.dev.Some?
    && EntersOutput(cfg, s, m, c.dev.value)
    && c.target == Target(cfg, m.source, c.stage, c.dev.value, c.smoothed)
    && m.smoothed == c.smoothed && m.stage == c.stage && m.source == r.st.source && !m.idle.active
    && var output := EnsureOutput(cfg, m, c.now, c.dev.value, c.target, c.smoothed, ok);
    && (c.reach.OutputStep? <==> !output.verdict.Proceed?)
    && (c.reach.OutputStep? ==> r.st == output.st)
    && (c.reach.NormalStep? ==>
          r.st == NormalControl(cfg, output.st, c.now, observedAt, c.dev.value, c.target, Exporting(c), ok).st)
  }

  lemma DischargeRoute(cfg: Config, s: State, now: int, end: int, observedAt: Option<int>, dev: Status, watts: real, ok: bool) returns (m: State)
    requires s.log == [] && !s.floorActive
    requires ReachedOutput(Discharge(cfg, s, now, end, observedAt, dev, watts, ok).cycle)
    ensures var r := Discharge(cfg, s, now, end, observedAt, dev, watts, ok);
            m == s.(stage := m.stage, idle := m.idle)
            && r.cycle.dev == Some(dev) && r.cycle.now == now
            && r.cycle.target == Target(cfg, m.source, r.cycle.stage, dev, r.cycle.smoothed)
            && m.smoothed == r.cycle.smoothed && m.stage == r.cycle.stage && m.source == r.st.source && !m.idle.active
            && var output := EnsureOutput(cfg, m, now, dev, r.cycle.target, r.cycle.smoothed, ok);
            && (r.cycle.reach.OutputStep? <==> !output.verdict.Proceed?)
            && (r.cycle.reach.OutputStep? ==> r.st == output.st)
            && (r.cycle.reach.NormalStep? ==>
                  r.st == NormalControl(cfg, output.st, now, observedAt, dev, r.cycle.target, Exporting(r.cycle), ok).st)
  {
    hide CommandIdle, EnsureOutput, NormalControl, IdleAfter, NextStage, Target;
    var stage := NextStage(cfg, s.stage, dev.soc);
    m := s.(stage := stage, idle := IdleAfter(cfg, s, stage, T.Obs(now, dev, watts, s.smoothed)));
    var target := Target(cfg, s.source, stage, dev, s.smoothed);
    OutputSensors(cfg, m, now, dev, target, s.smoothed, ok);
    var output := EnsureOutput(cfg, m, now, dev, target, s.smoothed, ok);
    NormalSensors(cfg, output.st, now, observedAt, dev, target, s.smoothed < 0.0 && !stage.AllowExport(), ok);
  }

  lemma ControlRoute(cfg: Config, s: State, now: int, end: int, observedAt: Option<int>, dev: Status, watts: real, ok: bool) returns (m: State)
    requires s.log == [] && ReachedOutput(Control(cfg, s, now, end, observedAt, dev, watts, ok).cycle)
    ensures OutputRoute(cfg, s, Control(cfg, s, now, end, observedAt, dev, watts, ok), m, observedAt, ok)
  {
    hide CommandIdle, EnsureDeviceConfig, EnsureSurplusFeedIn, Discharge, FloorAfter, Smoothed, EnsureOutput, NormalControl, Target, Effect, ClearPending;
    var s1 := s.(lastStatus := Some(dev), floorActive := FloorAfter(cfg, s.floorActive, dev));
    var device := EnsureDeviceConfig(cfg, s1, now, observedAt, dev, ok);
    DeviceConfigEffect(cfg, s1, now, observedAt, dev, ok);
    var surplus := EnsureSurplusFeedIn(cfg, device.st, now, dev, ok);
    SurplusEffect(cfg, device.st, now, dev, ok);
    var s2 := Smooth(cfg, surplus.st, watts);
    m := DischargeRoute(cfg, s2, now, end, observedAt, dev, watts, ok);
    ClearsOneOfTwo(s1, device.st, surplus.st);
  }

  lemma ClearsOneOfTwo(s: State, m: State, s': State)
    requires m == ClearPending(s, ChargingMode(0)) && (s' == m || s' == ClearPending(m, SurplusFeedIn(0)))
    ensures Still(s, s') && s'.ladder == s.ladder && s'.rearmWatts == s.rearmWatts
    ensures s'.floorActive == s.floorActive
    ensures s'.pending == s.pending || s.pending == Some(ChargingMode(0)) || s.pending == Some(SurplusFeedIn(0))
    ensures s'.rearmPending == s.rearmPending && s'.rearmStartedAt == s.rearmStartedAt
  {
  }

  /** The receive time of the status a step used. */
  function ObservedAt(cfg: Config, input: Input): Option<int>
  {
    var grid := ReadGrid(cfg, input);
    if grid.NoGrid? then None
    else
      var reading := ReadStatus(cfg, input, grid.now);
      if reading.Reading? then reading.receivedAt else None
  }

  lemma StepRoute(cfg: Config, s: State, input: Input) returns (m: State, observedAt: Option<int>)
    requires ReachedOutput(Step(cfg, s, input).cycle)
    ensures OutputRoute(cfg, s, Step(cfg, s, input), m, observedAt, input.publishOk)
    ensures observedAt == ObservedAt(cfg, input)
  {
    hide FallBack, Control, ReadGrid, ReadStatus, EnsureOutput, NormalControl, Target, FloorAfter;
    var grid := ReadGrid(cfg, input);
    var s1 := s.(log := [], source := grid.source);
    var reading := ReadStatus(cfg, input, grid.now);
    m := ControlRoute(cfg, s1, grid.now, input.publishedNow, reading.receivedAt, reading.dev, grid.watts, input.publishOk);
    observedAt := reading.receivedAt;
  }

  // ---- what every step does to the sensed state and the ladder --------------------------------------

  predicate Unread(c: Cycle) { c.reach.NoSample? || c.reach.StatusFrozen? || c.reach.StatusLost? }

  predicate FellBack(c: Cycle) { c.reach.NoSample? || c.reach.StatusLost? }

  predicate AuthorityFirst(c: Cycle) { c.reach.ConfigStep? || c.reach.SurplusStep? }

  function ObsOf(c: Cycle): T.Obs
    requires c.dev.Some?
  {
    T.Obs(c.now, c.dev.value, c.raw, c.smoothed)
  }

  predicate SensedFloor(cfg: Config, s: State, r: Stepped)
  {
    var c := r.cycle;
    && (c.dev.None? <==> Unread(c))
    && r.st.floorActive == (if c.dev.Some? then FloorAfter(cfg, s.floorActive, c.dev.value) else s.floorActive)
    && (c.dev.Some? && r.st.floorActive ==> AuthorityFirst(c) || c.reach.FloorIdle?)
    && (c.reach.FloorIdle? ==> r.st.floorActive)
  }

  predicate SensedStage(cfg: Config, s: State, r: Stepped)
  {
    var c := r.cycle;
    && (c.Evaluated() ==> c.dev.Some?)
    && r.st.stage == (if c.Evaluated() then NextStage(cfg, s.stage, c.dev.value.soc) else s.stage)
    && c.stage == r.st.stage
  }

  predicate SensedIdle(cfg: Config, s: State, input: Input, r: Stepped)
  {
    var c := r.cycle;
    && (c.Evaluated() ==> c.dev.Some? && r.st.idle == IdleAfter(cfg, s, c.stage, ObsOf(c)))
    && (FellBack(c) ==> r.st.idle == FallbackIdle(cfg, s, input))
    && (c.reach.FloorIdle? ==> r.st.idle == T.AfterReset(s.idle))
    && (c.reach.StatusFrozen? || AuthorityFirst(c) ==> r.st.idle == s.idle)
    && (c.reach.TopIdle? ==> r.st.idle.active) && (ReachedOutput(c) ==> !r.st.idle.active)
  }

  /** Outside maybeEnsureOutputEnabled the ladder is reset or left alone. */
  predicate SensedLadder(s: State, r: Stepped)
  {
    var c := r.cycle;
    && (FellBack(c) || c.reach.FloorIdle? || c.reach.TopIdle? ==> r.st.ladder == s.ladder.Reset())
    && (c.reach.StatusFrozen? || AuthorityFirst(c) ==> r.st.ladder == s.ladder)
  }

  predicate SensedClock(input: Input, r: Stepped)
  {
    r.cycle.end == input.publishedNow && (input.ClockRuns() ==> input.primaryNow <= r.cycle.now <= r.cycle.end)
  }

  predicate Sensed(cfg: Config, s: State, input: Input, r: Stepped)
  {
    SensedFloor(cfg, s, r) && SensedStage(cfg, s, r) && SensedIdle(cfg, s, input, r) && SensedLadder(s, r)
    && SensedClock(input, r)
  }

  predicate SensedBy(cfg: Config, s: State, r: Stepped)
  {
    var c := r.cycle;
    && c.Evaluated() && c.dev.Some? && c.stage == r.st.stage
    && r.st.floorActive == s.floorActive
    && r.st.stage == NextStage(cfg, s.stage, c.dev.value.soc)
    && r.st.idle == IdleAfter(cfg, s, c.stage, ObsOf(c))
    && (c.reach.TopIdle? ==> r.st.idle.active && r.st.ladder == s.ladder.Reset())
    && (ReachedOutput(c) ==> !r.st.idle.active)
  }

  lemma DischargeSensed(cfg: Config, s: State, now: int, end: int, observedAt: Option<int>, dev: Status, watts: real, ok: bool)
    ensures var r := Discharge(cfg, s, now, end, observedAt, dev, watts, ok);
            SensedBy(cfg, s, r) && r.cycle.dev == Some(dev)
  {
    hide CommandIdle, EnsureOutput, NormalControl, IdleAfter, NextStage, Target;
    var stage := NextStage(cfg, s.stage, dev.soc);
    var m := s.(stage := stage, idle := IdleAfter(cfg, s, stage, T.Obs(now, dev, watts, s.smoothed)));
    var target := Target(cfg, s.source, stage, dev, s.smoothed);
    if m.idle.active {
      IdleSensors(cfg, m.(ladder := m.ladder.Reset()), now, observedAt, dev, ok);
    } else {
      OutputSensors(cfg, m, now, dev, target, s.smoothed, ok);
      var output := EnsureOutput(cfg, m, now, dev, target, s.smoothed, ok);
      NormalSensors(cfg, output.st, now, observedAt, dev, target, s.smoothed < 0.0 && !stage.AllowExport(), ok);
    }
  }

  predicate SensedFields(cfg: Config, s: State, r: Stepped, dev: Status)
  {
    var c := r.cycle;
    && c.dev == Some(dev) && c.stage == r.st.stage
    && r.st.floorActive == FloorAfter(cfg, s.floorActive, dev)
    && (r.st.floorActive ==> AuthorityFirst(c) || c.reach.FloorIdle?)
    && (c.Evaluated() || AuthorityFirst(c) || c.reach.FloorIdle?)
    && (AuthorityFirst(c) ==> r.st.stage == s.stage && r.st.idle == s.idle && r.st.ladder == s.ladder)
    && (c.reach.FloorIdle? ==> r.st.floorActive && r.st.stage == s.stage && r.st.idle == T.AfterReset(s.idle)
                               && r.st.ladder == s.ladder.Reset())
    && (c.Evaluated() ==> r.st.stage == NextStage(cfg, s.stage, dev.soc) && r.st.idle == IdleAfter(cfg, s, c.stage, ObsOf(c))
                          && (c.reach.TopIdle? ==> r.st.idle.active && r.st.ladder == s.ladder.Reset())
                          && (ReachedOutput(c) ==> !r.st.idle.active))
  }

  lemma ControlSensed(cfg: Config, s: State, now: int, end: int, observedAt: Option<int>, dev: Status, watts: real, ok: bool)
    ensures SensedFields(cfg, s, Control(cfg, s, now, end, observedAt, dev, watts, ok), dev)
  {
    hide CommandIdle, EnsureDeviceConfig, EnsureSurplusFeedIn, Discharge, FloorAfter, Smoothed, NextStage, T.AfterUpdate, T.AfterReset;
    var s1 := s.(lastStatus := Some(dev), floorActive := FloorAfter(cfg, s.floorActive, dev));
    var device := EnsureDeviceConfig(cfg, s1, now, observedAt, dev, ok);
    AuthoritySensors(cfg, s1, now, observedAt, dev, ok);
    var surplus := EnsureSurplusFeedIn(cfg, device.st, now, dev, ok);
    AuthoritySensors(cfg, device.st, now, observedAt, dev, ok);
    var s2 := Smooth(cfg, surplus.st, watts);
    IdleSensors(cfg, s2.(idle := T.AfterReset(s2.idle), ladder := s2.ladder.Reset()), now, observedAt, dev, ok);
    DischargeSensed(cfg, s2, now, end, observedAt, dev, watts, ok);
  }

  lemma StepSensed(cfg: Config, s: State, input: Input)
    ensures Sensed(cfg, s, input, Step(cfg, s, input))
  {
    hide FallBack, Control, Fresh, FloorAfter, NextStage, T.AfterUpdate, T.AfterReset, T.AfterBlock;
    var s0 := s.(log := []);
    var grid := ReadGrid(cfg, input);
    if grid.NoGrid? {
      FallbackSensors(cfg, s0.(source := NoSource), input);
    } else {
      var s1 := s0.(source := grid.source);
      var reading := ReadStatus(cfg, input, grid.now);
      if reading.HardFail? {
        FallbackSensors(cfg, s1, input);
      } else if reading.Reading? {
        ControlSensed(cfg, s1, grid.now, input.publishedNow, reading.receivedAt, reading.dev, grid.watts, input.publishOk);
        ControlLog(cfg, s1, grid.now, input.publishedNow, reading.receivedAt, reading.dev, grid.watts, input.publishOk);
      }
    }
  }

  // ---- the smoothed signal --------------------------------------------------------------------------

  /** The step fed its grid sample to the moving average. */
  predicate Samples(c: Cycle) { c.Evaluated() || c.reach.FloorIdle? }

  function NextSignal(cfg: Config, s: State, watts: real): real
  {
    if s.hasSmoothed then Smoothed(cfg.smoothingAlpha, s.smoothed, watts) else watts
  }

  predicate Signal(cfg: Config, s: State, r: Stepped)
  {
    && r.cycle.smoothed == r.st.smoothed
    && (if Samples(r.cycle) then r.st.hasSmoothed && r.st.smoothed == NextSignal(cfg, s, r.cycle.raw)
        else r.st.hasSmoothed == s.hasSmoothed && r.st.smoothed == s.smoothed)
  }

  predicate SameSignal(s: State, s': State) { s'.smoothed == s.smoothed && s'.hasSmoothed == s.hasSmoothed }

  lemma DischargeSignal(cfg: Config, s: State, now: int, end: int, observedAt: Option<int>, dev: Status, watts: real, ok: bool)
    ensures var r := Discharge(cfg, s, now, end, observedAt, dev, watts, ok);
            SameSignal(s, r.st) && r.cycle.Evaluated()
  {
    hide CommandIdle, EnsureOutput, NormalControl, IdleAfter, NextStage, Target;
    var stage := NextStage(cfg, s.stage, dev.soc);
    var m := s.(stage := stage, idle := IdleAfter(cfg, s, stage, T.Obs(now, dev, watts, s.smoothed)));
    var target := Target(cfg, s.source, stage, dev, s.smoothed);
    if m.idle.active {
      IdleSensors(cfg, m.(ladder := m.ladder.Reset()), now, observedAt, dev, ok);
    } else {
      OutputSensors(cfg, m, now, dev, target, s.smoothed, ok);
      var output := EnsureOutput(cfg, m, now, dev, target, s.smoothed, ok);
      NormalSensors(cfg, output.st, now, observedAt, dev, target, s.smoothed < 0.0 && !stage.AllowExport(), ok);
    }
  }

  lemma ControlSignal(cfg: Config, s: State, now: int, end: int, observedAt: Option<int>, dev: Status, watts: real, ok: bool)
    ensures Signal(cfg, s, Control(cfg, s, now, end, observedAt, dev, watts, ok))
  {
    hide CommandIdle, EnsureDeviceConfig, EnsureSurplusFeedIn, Discharge, FloorAfter, Smoothed, T.AfterReset;
    ControlLog(cfg, s, now, end, observedAt, dev, watts, ok);
    var s1 := s.(lastStatus := Some(dev), floorActive := FloorAfter(cfg, s.floorActive, dev));
    var device := EnsureDeviceConfig(cfg, s1, now, observedAt, dev, ok);
    AuthoritySensors(cfg, s1, now, observedAt, dev, ok);
    var surplus := EnsureSurplusFeedIn(cfg, device.st, now, dev, ok);
    AuthoritySensors(cfg, device.st, now, observedAt, dev, ok);
    var s2 := Smooth(cfg, surplus.st, watts);
    IdleSensors(cfg, s2.(idle := T.AfterReset(s2.idle), ladder := s2.ladder.Reset()), now, observedAt, dev, ok);
    DischargeSignal(cfg, s2, now, end, observedAt, dev, watts, ok);
  }

  /** Every step that gets past the device settings moves the average by its sample, and no other step moves it. */
  lemma StepSignal(cfg: Config, s: State, input: Input)
    ensures var r := Step(cfg, s, input);
            && Signal(cfg, s, r)
            && (Samples(r.cycle) ==> ReadGrid(cfg, input).Grid? && r.cycle.raw == ReadGrid(cfg, input).watts)
  {
    hide FallBack, Control, Fresh, Smoothed;
    var s0 := s.(log := []);
    var grid := ReadGrid(cfg, input);
    if grid.NoGrid? {
      FallbackSensors(cfg, s0.(source := NoSource), input);
    } else {
      var s1 := s0.(source := grid.source);
      var reading := ReadStatus(cfg, input, grid.now);
      if reading.HardFail? {
        FallbackSensors(cfg, s1, input);
      } else if reading.Reading? {
        ControlSignal(cfg, s1, grid.now, input.publishedNow, reading.receivedAt, reading.dev, grid.watts, input.publishOk);
        ControlLog(cfg, s1, grid.now, input.publishedNow, reading.receivedAt, reading.dev, grid.watts, input.publishOk);
      }
    }
  }

  // ---- which publishes which kind of step can make --------------------------------------------------

  predicate Kinds(s: State, kinds: set<Kind>) { s.log != [] ==> s.log[0].kind in kinds }

  const OUTPUT_KINDS: set<Kind> := {ForRearmDisable, ForRearmEnable, ForRestart, ForOutputEnable}

  function KindsOf(reach: Reach): set<Kind>
  {
    match reach
    case NoSample => {ForFallback}
    case StatusLost => {ForFallback}
    case StatusFrozen => {}
    case ConfigStep => {ForChargingMode}
    case SurplusStep => {ForSurplus}
    case FloorIdle => {ForIdle}
    case TopIdle => {ForIdle}
    case OutputStep => OUTPUT_KINDS
    case NormalStep => {ForNormal, ForReassert}
  }

  lemma AuthorityKinds(cfg: Config, s: State, now: int, observedAt: Option<int>, dev: Status, ok: bool)
    requires s.log == []
    ensures Kinds(EnsureDeviceConfig(cfg, s, now, observedAt, dev, ok).st, {ForChargingMode})
    ensures Kinds(EnsureSurplusFeedIn(cfg, s, now, dev, ok).st, {ForSurplus})
  {
    hide Remedy;
    RemedyOutcome(cfg, s, now, observedAt, ChargingMode(0), ForChargingMode, ok);
    RemedyOutcome(cfg, s, now, None, SurplusFeedIn(0), ForSurplus, ok);
  }

  lemma EscalateKinds(cfg: Config, s: State, now: int, dev: Status, desired: int, smoothed: real, ok: bool)
    requires s.log == []
    ensures var r := Escalate(cfg, s, now, dev, desired, smoothed, ok);
            Kinds(r.st, OUTPUT_KINDS) && (r.verdict.Proceed? ==> r.st.log == [])
  {
    hide Remedy, SlotCommand, RestartDue, RearmCandidate, DisabledSlot, RearmCooldown;
    RemedyOutcome(cfg, s, now, None, SlotCommand(cfg, dev, DisabledSlot(cfg), false), ForRearmDisable, ok);
    RemedyOutcome(cfg, s, now, None, OutputEnable(3), ForOutputEnable, ok);
  }

  lemma OutputKinds(cfg: Config, s: State, now: int, dev: Status, desired: int, smoothed: real, ok: bool)
    requires s.log == []
    ensures var r := EnsureOutput(cfg, s, now, dev, desired, smoothed, ok);
            Kinds(r.st, OUTPUT_KINDS) && (r.verdict.Proceed? ==> r.st.log == [])
  {
    hide Remedy, SlotCommand, Escalate, RearmCandidate, DesiredSlot, Inert, LiterallyWanted;
    RemedyOutcome(cfg, s, now, None, SlotCommand(cfg, dev, DesiredSlot(cfg, desired), false), ForRearmEnable, ok);
    var s1 := if s.rearmPending then ClearRearm(s) else s;
    EscalateKinds(cfg, s1.(ladder := s1.ladder.NoteBlockedCycle()), now, dev, desired, smoothed, ok);
  }

  lemma NormalKinds(cfg: Config, s: State, now: int, observedAt: Option<int>, dev: Status, target: int, exporting: bool, ok: bool)
    requires s.log == []
    ensures Kinds(NormalControl(cfg, s, now, observedAt, dev, target, exporting, ok).st, {ForNormal, ForReassert})
  {
    hide EnsureSlot, SlotCommand, DesiredSlot, Suppressed, Ramped;
    EnsureSlotOutcome(cfg, s, now, observedAt, dev, s.lastCommandWatts, ForReassert, ok);
  }

  lemma DischargeKinds(cfg: Config, s: State, now: int, end: int, observedAt: Option<int>, dev: Status, watts: real, ok: bool)
    requires s.log == []
    ensures var r := Discharge(cfg, s, now, end, observedAt, dev, watts, ok);
            Kinds(r.st, KindsOf(r.cycle.reach))
  {
    hide CommandIdle, EnsureOutput, NormalControl, IdleAfter, NextStage, Target, Effect;
    var stage := NextStage(cfg, s.stage, dev.soc);
    var m := s.(stage := stage, idle := IdleAfter(cfg, s, stage, T.Obs(now, dev, watts, s.smoothed)));
    var target := Target(cfg, s.source, stage, dev, s.smoothed);
    if m.idle.active {
      IdleEffect(cfg, m.(ladder := m.ladder.Reset()), now, observedAt, dev, ok);
    } else {
      OutputKinds(cfg, m, now, dev, target, s.smoothed, ok);
      var output := EnsureOutput(cfg, m, now, dev, target, s.smoothed, ok);
      if output.verdict.Proceed? {
        NormalKinds(cfg, output.st, now, observedAt, dev, target, s.smoothed < 0.0 && !stage.AllowExport(), ok);
      }
    }
  }

  lemma ControlKinds(cfg: Config, s: State, now: int, end: int, observedAt: Option<int>, dev: Status, watts: real, ok: bool)
    requires s.log == []
    ensures var r := Control(cfg, s, now, end, observedAt, dev, watts, ok);
            Kinds(r.st, KindsOf(r.cycle.reach))
  {
    hide CommandIdle, EnsureDeviceConfig, EnsureSurplusFeedIn, Discharge, FloorAfter, Smoothed, Effect, ClearPending, PendingKept, T.AfterReset;
    var s1 := s.(lastStatus := Some(dev), floorActive := FloorAfter(cfg, s.floorActive, dev));
    var device := EnsureDeviceConfig(cfg, s1, now, observedAt, dev, ok);
    AuthorityKinds(cfg, s1, now, observedAt, dev, ok);
    DeviceConfigEffect(cfg, s1, now, observedAt, dev, ok);
    if device.verdict.Proceed? {
      var surplus := EnsureSurplusFeedIn(cfg, device.st, now, dev, ok);
      AuthorityKinds(cfg, device.st, now, observedAt, dev, ok);
      SurplusEffect(cfg, device.st, now, dev, ok);
      if surplus.verdict.Proceed? {
        var s2 := Smooth(cfg, surplus.st, watts);
        IdleEffect(cfg, s2.(idle := T.AfterReset(s2.idle), ladder := s2.ladder.Reset()), now, observedAt, dev, ok);
        DischargeKinds(cfg, s2, now, end, observedAt, dev, watts, ok);
      }
    }
  }

  /** How far a step got determines what it can have published. */
  lemma StepKinds(cfg: Config, s: State, input: Input)
    ensures var r := Step(cfg, s, input);
            Kinds(r.st, KindsOf(r.cycle.reach))
  {
    hide FallBack, Control, Fresh, Effect;
    var s0 := s.(log := []);
    var grid := ReadGrid(cfg, input);
    if grid.NoGrid? {
      FallbackEffect(cfg, s0.(source := NoSource), input);
    } else {
      var s1 := s0.(source := grid.source);
      var reading := ReadStatus(cfg, input, grid.now);
      if reading.HardFail? {
        FallbackEffect(cfg, s1, input);
      } else if reading.Reading? {
        ControlKinds(cfg, s1, grid.now, input.publishedNow, reading.receivedAt, reading.dev, grid.watts, input.publishOk);
      }
    }
  }
}
