/**
 What one step does to the command memory, the pending echo, the re-arm and the
 rate-limit stamps, phase by phase: the facts that the theorems about whole runs
 are built from.
 */
module StepEffects {
  import opened GoStrings
  import opened Protocol
  import opened Config
  import opened Policy
  import opened ControlSpec
  import T = TopCharge
  import E = Escalation

  /** cmd writes the schedule with the controlled slot set to watts (0 disables it). */
  predicate Sets(cfg: Config, cmd: Command, watts: int)
  {
    cmd.TimedDischarge? && cmd.slots[SlotIndex(cfg)] == Canonical(DesiredSlot(cfg, watts))
  }

  lemma SlotCommandSets(cfg: Config, dev: Status, watts: int, flash: bool)
    ensures Sets(cfg, SlotCommand(cfg, dev, DesiredSlot(cfg, watts), flash), watts)
    ensures SlotCommand(cfg, dev, DesiredSlot(cfg, watts), flash).TimedDischarge?
    ensures SlotCommand(cfg, dev, DesiredSlot(cfg, watts), flash).flash == flash
    ensures DisabledSlot(cfg) == DesiredSlot(cfg, 0)
  {
    hide Canonical, NormaliseTime;
  }

  /** The controlled slot as a write has it: on at that many watts, or off at none, with the configured times. */
  predicate Commands(cfg: Config, cmd: Command, watts: int)
  {
    && cmd.TimedDischarge?
    && var slot := cmd.slots[SlotIndex(cfg)];
       (slot.enabled <==> watts > 0) && slot.watts == watts && slot.start == cfg.scheduleStart && slot.end == cfg.scheduleEnd
  }

  /** With a valid configuration, a write that sets a commandable power has it on the wire as it is. */
  lemma SetsCommands(cfg: Config, cmd: Command, watts: int)
    requires Valid(cfg) && Commandable(cfg, watts) && Sets(cfg, cmd, watts)
    ensures Commands(cfg, cmd, watts)
  {
    hide IsValidTime;
    ValidTimeIsClean(cfg.scheduleStart);
    ValidTimeIsClean(cfg.scheduleEnd);
  }

  predicate PendingKept(s: State, s': State)
  {
    || (s'.pending == s.pending && s'.pendingSince == s.pendingSince && s'.pendingSeenAt == s.pendingSeenAt)
    || (s'.pending == None && s'.pendingSince == None && s'.pendingSeenAt == None)
  }

  predicate RearmKept(s: State, s': State)
  {
    || (s'.rearmPending == s.rearmPending && s'.rearmStartedAt == s.rearmStartedAt)
    || (!s'.rearmPending && s'.rearmStartedAt == None)
  }

  predicate StampsKept(s: State, s': State)
  {
    s'.lastRearmAt == s.lastRearmAt && s'.lastSurplusAt == s.lastSurplusAt
    && s'.ladder.lastRestartAt == s.ladder.lastRestartAt
  }

  predicate MemoryKept(s: State, s': State)
  {
    s'.lastCommandWatts == s.lastCommandWatts && s'.lastCommandTime == s.lastCommandTime
  }

  /** A phase that lets the step go on: nothing published, nothing commanded. */
  predicate Still(s: State, s': State)
  {
    s'.log == s.log && PendingKept(s, s') && RearmKept(s, s') && StampsKept(s, s') && MemoryKept(s, s')
  }

  /** A step without an accepted publish; an idle step may still forget the commanded power. */
  predicate Quiet(s: State, s': State)
  {
    PendingKept(s, s') && RearmKept(s, s') && StampsKept(s, s')
    && s'.lastCommandTime == s.lastCommandTime
    && (s'.lastCommandWatts == s.lastCommandWatts || s'.lastCommandWatts == 0)
  }

  predicate IsStop(k: Kind) { k.ForIdle? || k.ForFallback? || k.ForRearmDisable? }

  /** What each kind of attempt publishes. */
  predicate Fits(cfg: Config, s: State, a: Attempt)
  {
    match a.kind
    case ForChargingMode => a.cmd == ChargingMode(0)
    case ForSurplus => a.cmd == SurplusFeedIn(0) && cfg.enforceSurplusFeedIn && cfg.allowFlashWrites
                       && (s.lastSurplusAt.Some? ==> a.at - s.lastSurplusAt.value >= SurplusInterval(cfg))
    case ForIdle => Sets(cfg, a.cmd, 0) && !a.cmd.flash
    case ForFallback => Sets(cfg, a.cmd, 0) && !a.cmd.flash
    case ForRearmDisable => Sets(cfg, a.cmd, 0) && !a.cmd.flash
                            && (s.lastRearmAt.Some? ==> a.at - s.lastRearmAt.value >= RearmCooldown(cfg))
    case ForRearmEnable => a.cmd.TimedDischarge? && !a.cmd.flash && s.rearmPending && s.rearmStartedAt.Some?
                           && a.at - s.rearmStartedAt.value >= cfg.controlInterval
    case ForRestart => a.cmd == Restart && cfg.nuclearRestartEnabled && cfg.nuclearRestartAck
                       && !s.ladder.RestartRateLimited(a.at, cfg.nuclearRestartMinInterval)
    case ForOutputEnable => a.cmd == OutputEnable(3)
    case ForNormal => a.cmd.TimedDischarge? && a.cmd.flash == cfg.persistToFlash
    case ForReassert => Sets(cfg, a.cmd, s.lastCommandWatts) && !a.cmd.flash
  }

  /** What an accepted attempt leaves behind. */
  predicate Accepted(cfg: Config, s: State, s': State, a: Attempt)
  {
    && s'.pending == Some(a.cmd) && s'.pendingSince == Some(a.at)
    && s'.lastRearmAt == (if a.kind.ForRearmDisable? then Some(a.at) else s.lastRearmAt)
    && s'.lastSurplusAt == (if a.kind.ForSurplus? then Some(a.at) else s.lastSurplusAt)
    && s'.ladder.lastRestartAt == (if a.kind.ForRestart? then Some(a.at) else s.ladder.lastRestartAt)
    && s'.lastCommandTime == (if a.cmd.TimedDischarge? then Some(a.at) else s.lastCommandTime)
    && (a.cmd.TimedDischarge? ==> Sets(cfg, a.cmd, s'.lastCommandWatts) && Commandable(cfg, s'.lastCommandWatts))
    && (IsStop(a.kind) ==> s'.lastCommandWatts == 0)
    && (a.kind.ForRearmEnable? ==> s'.lastCommandWatts > 0)
    && (!IsStop(a.kind) && !a.kind.ForNormal? && !a.kind.ForRearmEnable? ==> s'.lastCommandWatts == s.lastCommandWatts)
    && (if a.kind.ForRearmDisable? then s'.rearmPending && s'.rearmStartedAt == Some(a.at)
        else if a.kind.ForRearmEnable? || a.kind.ForNormal? then !s'.rearmPending && s'.rearmStartedAt == None
        else RearmKept(s, s'))
  }

  /** The effect of a step, or of one of its phases: at most one attempt, and what it leaves. */
  predicate Effect(cfg: Config, s: State, s': State, at: int, ok: bool)
  {
    && |s'.log| <= 1
    && (s'.log != [] ==> s'.log[0].at == at && s'.log[0].ok == ok)
    && (s'.log == [] ==> Quiet(s, s'))
    && (s'.log != [] ==> Fits(cfg, s, s'.log[0]))
    && (s'.log != [] && !s'.log[0].ok ==> Quiet(s, s') && MemoryKept(s, s'))
    && (s'.log != [] && s'.log[0].ok ==> Accepted(cfg, s, s', s'.log[0]))
  }

  lemma StillThenEffect(cfg: Config, s: State, m: State, s': State, at: int, ok: bool)
    requires Still(s, m)
    requires Effect(cfg, m, s', at, ok)
    ensures Effect(cfg, s, s', at, ok)
  {
    hide Sets, Commandable;
  }

  // ---- the phases --------------------------------------------------------------------------

  lemma RemedyOutcome(cfg: Config, s: State, now: int, observedAt: Option<int>, cmd: Command, kind: Kind, ok: bool)
    requires s.log == []
    ensures var r := Remedy(cfg, s, now, observedAt, cmd, kind, ok);
            match r.outcome
            case Awaited => r.st == s && s.pending == Some(cmd)
            case Published => ok && r.st == RecordPublish(s.(log := [Attempt(now, cmd, kind, true)]), cmd, now, observedAt)
            case Refused => !ok && r.st == s.(log := [Attempt(now, cmd, kind, false)])
            case Unneeded => false
  {
    hide AuthorityCooldown;
  }

  lemma DeviceConfigEffect(cfg: Config, s: State, now: int, observedAt: Option<int>, dev: Status, ok: bool)
    requires s.log == []
    ensures var r := EnsureDeviceConfig(cfg, s, now, observedAt, dev, ok);
            Effect(cfg, s, r.st, now, ok) && (r.verdict.Proceed? ==> Still(s, r.st) && r.st == ClearPending(s, ChargingMode(0)))
  {
    hide Remedy;
    RemedyOutcome(cfg, s, now, observedAt, ChargingMode(0), ForChargingMode, ok);
  }

  lemma SurplusEffect(cfg: Config, s: State, now: int, dev: Status, ok: bool)
    requires s.log == []
    ensures var r := EnsureSurplusFeedIn(cfg, s, now, dev, ok);
            Effect(cfg, s, r.st, now, ok)
            && (r.verdict.Proceed? ==> Still(s, r.st) && (r.st == s || r.st == ClearPending(s, SurplusFeedIn(0))))
  {
    hide Remedy;
    RemedyOutcome(cfg, s, now, None, SurplusFeedIn(0), ForSurplus, ok);
  }

  lemma EnsureSlotOutcome(cfg: Config, s: State, now: int, observedAt: Option<int>, dev: Status, watts: int, kind: Kind, ok: bool)
    requires s.log == []
    ensures var r := EnsureSlot(cfg, s, now, observedAt, dev, watts, kind, ok);
            var cmd := SlotCommand(cfg, dev, DesiredSlot(cfg, watts), false);
            match r.outcome
            case Unneeded => r.st == ClearPending(s, cmd)
            case Awaited => r.st == s
            case Published => ok && r.st == RecordPublish(s.(log := [Attempt(now, cmd, kind, true)]), cmd, now, observedAt)
            case Refused => !ok && r.st == s.(log := [Attempt(now, cmd, kind, false)])
  {
    hide Remedy, SlotCommand, DesiredSlot, CurrentSlot;
    RemedyOutcome(cfg, s, now, observedAt, SlotCommand(cfg, dev, DesiredSlot(cfg, watts), false), kind, ok);
  }

  lemma IdleEffect(cfg: Config, s: State, now: int, observedAt: Option<int>, dev: Status, ok: bool)
    requires s.log == []
    ensures var r := CommandIdle(cfg, s, now, observedAt, dev, ok);
            Effect(cfg, s, r.st, now, ok) && !r.verdict.Proceed?
            && (r.st.log == [] ==> r.st.lastCommandWatts == 0)
            && (r.st.log != [] ==> r.st.log[0].kind == ForIdle)
  {
    hide EnsureSlot, SlotCommand, DesiredSlot, Sets;
    EnsureSlotOutcome(cfg, s, now, observedAt, dev, 0, ForIdle, ok);
    SlotCommandSets(cfg, dev, 0, false);
  }

  lemma FallbackEffect(cfg: Config, s: State, input: Input)
    requires s.log == []
    ensures var r := FallBack(cfg, s, input);
            Effect(cfg, s, r.st, input.publishedNow, input.publishOk) && !r.verdict.Proceed?
            && (r.st.log == [] ==> r.st.lastCommandWatts == 0)
            && (r.st.log != [] ==> r.st.log[0].kind == ForFallback)
  {
    hide SlotCommand, DesiredSlot, DisabledSlot, Sets, FallbackIdle, CurrentSlot;
    var base := if s.lastStatus.Some? then s.lastStatus.value else ZERO_STATUS;
    SlotCommandSets(cfg, base, 0, false);
  }

  lemma CompleteRearmEffect(cfg: Config, s: State, now: int, dev: Status, desired: int, ok: bool)
    requires s.log == [] && Commandable(cfg, desired) && desired > 0 && s.rearmPending
    ensures Effect(cfg, s, CompleteRearm(cfg, s, now, dev, desired, ok).st, now, ok)
  {
    hide Remedy, SlotCommand, DesiredSlot, Sets, Commandable;
    RemedyOutcome(cfg, s, now, None, SlotCommand(cfg, dev, DesiredSlot(cfg, desired), false), ForRearmEnable, ok);
    SlotCommandSets(cfg, dev, desired, false);
  }

  lemma StartRearmEffect(cfg: Config, s: State, now: int, dev: Status, desired: int, ok: bool)
    requires s.log == []
    ensures var r := StartRearm(cfg, s, now, dev, desired, ok);
            Effect(cfg, s, r.st, now, ok) && (r.verdict.Proceed? ==> r.st == s)
  {
    hide Remedy, SlotCommand, DesiredSlot, DisabledSlot, Sets, RearmCandidate, RearmCooldown;
    RemedyOutcome(cfg, s, now, None, SlotCommand(cfg, dev, DisabledSlot(cfg), false), ForRearmDisable, ok);
    SlotCommandSets(cfg, dev, 0, false);
  }

  lemma RestartEffect(cfg: Config, s: State, now: int, smoothed: real, ok: bool)
    requires s.log == []
    ensures var r := NuclearRestart(cfg, s, now, smoothed, ok);
            Effect(cfg, s, r.st, now, ok) && (r.verdict.Proceed? ==> r.st == s)
  {
  }

  lemma EscalateEffect(cfg: Config, s: State, now: int, dev: Status, desired: int, smoothed: real, ok: bool)
    requires s.log == []
    ensures var r := Escalate(cfg, s, now, dev, desired, smoothed, ok);
            Effect(cfg, s, r.st, now, ok) && (r.verdict.Proceed? ==> r.st == s)
  {
    hide Remedy, StartRearm, NuclearRestart, Sets;
    StartRearmEffect(cfg, s, now, dev, desired, ok);
    RestartEffect(cfg, s, now, smoothed, ok);
    RemedyOutcome(cfg, s, now, None, OutputEnable(3), ForOutputEnable, ok);
  }

  lemma DiagnoseEffect(cfg: Config, s: State, now: int, dev: Status, desired: int, smoothed: real, ok: bool)
    requires s.log == [] && !s.rearmPending && s.rearmStartedAt == None
    ensures var r := Diagnose(cfg, s, now, dev, desired, smoothed, ok);
            Effect(cfg, s, r.st, now, ok) && (r.verdict.Proceed? ==> Still(s, r.st) && !r.st.rearmPending && r.st.rearmStartedAt == None)
  {
    hide Escalate, Inert, LiterallyWanted, Fits, Accepted;
    var noted := s.(ladder := s.ladder.NoteBlockedCycle());
    EscalateEffect(cfg, noted, now, dev, desired, smoothed, ok);
    StillThenEffect(cfg, s, noted, Escalate(cfg, noted, now, dev, desired, smoothed, ok).st, now, ok);
  }

  /** In every reachable state the start stamp is set exactly while a re-arm is pending. */
  predicate RearmStamped(s: State) { s.rearmPending <==> s.rearmStartedAt.Some? }

  /** maybeEnsureOutputEnabled; a step that goes on to normal control has no re-arm pending. */
  lemma OutputEffect(cfg: Config, s: State, now: int, dev: Status, desired: int, smoothed: real, ok: bool)
    requires s.log == [] && Commandable(cfg, desired) && RearmStamped(s)
    ensures var r := EnsureOutput(cfg, s, now, dev, desired, smoothed, ok);
            Effect(cfg, s, r.st, now, ok)
            && (r.verdict.Proceed? ==> Still(s, r.st) && !r.st.rearmPending && r.st.rearmStartedAt == None)
  {
    hide CompleteRearm, Diagnose, RearmCandidate, Commandable, Fits, Accepted;
    if desired > 0 {
      if s.rearmPending && RearmCandidate(cfg, dev, desired) {
        CompleteRearmEffect(cfg, s, now, dev, desired, ok);
      } else {
        var s1 := if s.rearmPending then ClearRearm(s) else s;
        DiagnoseEffect(cfg, s1, now, dev, desired, smoothed, ok);
        StillThenEffect(cfg, s, s1, Diagnose(cfg, s1, now, dev, desired, smoothed, ok).st, now, ok);
      }
    }
  }

  lemma ReassertEffect(cfg: Config, s: State, now: int, observedAt: Option<int>, dev: Status, ok: bool)
    requires s.log == [] && Commandable(cfg, s.lastCommandWatts)
    ensures var r := Reassert(cfg, s, now, observedAt, dev, ok);
            Effect(cfg, s, r.st, now, ok) && MemoryWattsKept(s, r.st) && OnlyKind(r.st, ForReassert)
  {
    hide EnsureSlot, SlotCommand, DesiredSlot, Sets, Commandable;
    EnsureSlotOutcome(cfg, s, now, observedAt, dev, s.lastCommandWatts, ForReassert, ok);
    SlotCommandSets(cfg, dev, s.lastCommandWatts, false);
  }

  predicate MemoryWattsKept(s: State, s': State) { s'.lastCommandWatts == s.lastCommandWatts }

  predicate OnlyKind(s: State, kind: Kind)
  {
    s.log != [] ==> s.log[0].kind == kind
  }

  lemma NormalEffect(cfg: Config, s: State, now: int, observedAt: Option<int>, dev: Status, target: int, exporting: bool, ok: bool)
    requires s.log == [] && 0 <= cfg.minOutputWatts <= cfg.maxOutputWatts
    requires Commandable(cfg, s.lastCommandWatts) && Commandable(cfg, target)
    requires !s.rearmPending && s.rearmStartedAt == None
    ensures Effect(cfg, s, NormalControl(cfg, s, now, observedAt, dev, target, exporting, ok).st, now, ok)
  {
    hide Reassert, SlotCommand, DesiredSlot, Sets, Commandable, Ramped, Suppressed;
    if Suppressed(cfg, s, now, target, exporting) {
      ReassertEffect(cfg, s, now, observedAt, dev, ok);
    } else {
      var ramped := Ramped(cfg, s.lastCommandWatts, target, exporting);
      RampedBetween(cfg, s.lastCommandWatts, target, exporting);
      SlotCommandSets(cfg, dev, ramped, cfg.persistToFlash);
    }
  }

  // ---- the whole step ------------------------------------------------------------------------

  predicate ValidWatts(cfg: Config) { 0 <= cfg.minOutputWatts <= cfg.maxOutputWatts }

  lemma DischargeEffect(cfg: Config, s: State, now: int, end: int, observedAt: Option<int>, dev: Status, watts: real, ok: bool)
    requires s.log == [] && ValidWatts(cfg) && Commandable(cfg, s.lastCommandWatts) && RearmStamped(s)
    ensures Effect(cfg, s, Discharge(cfg, s, now, end, observedAt, dev, watts, ok).st, now, ok)
  {
    hide CommandIdle, EnsureOutput, NormalControl, IdleAfter, Commandable, Fits, Accepted, NextStage, Target;
    var stage := NextStage(cfg, s.stage, dev.soc);
    var target := Target(cfg, s.source, stage, dev, s.smoothed);
    var s1 := s.(stage := stage, idle := IdleAfter(cfg, s, stage, T.Obs(now, dev, watts, s.smoothed)));
    if s1.idle.active {
      var s2 := s1.(ladder := s1.ladder.Reset());
      IdleEffect(cfg, s2, now, observedAt, dev, ok);
      StillThenEffect(cfg, s, s2, CommandIdle(cfg, s2, now, observedAt, dev, ok).st, now, ok);
    } else {
      OutputEffect(cfg, s1, now, dev, target, s1.smoothed, ok);
      var output := EnsureOutput(cfg, s1, now, dev, target, s1.smoothed, ok);
      if output.verdict.Proceed? {
        var exporting := s1.smoothed < 0.0 && !stage.AllowExport();
        NormalEffect(cfg, output.st, now, observedAt, dev, target, exporting, ok);
        StillThenEffect(cfg, s1, output.st, NormalControl(cfg, output.st, now, observedAt, dev, target, exporting, ok).st, now, ok);
        StillThenEffect(cfg, s, s1, NormalControl(cfg, output.st, now, observedAt, dev, target, exporting, ok).st, now, ok);
      } else {
        StillThenEffect(cfg, s, s1, output.st, now, ok);
      }
    }
  }

  lemma ControlEffect(cfg: Config, s: State, now: int, end: int, observedAt: Option<int>, dev: Status, watts: real, ok: bool)
    requires s.log == [] && ValidWatts(cfg) && Commandable(cfg, s.lastCommandWatts) && RearmStamped(s)
    ensures Effect(cfg, s, Control(cfg, s, now, end, observedAt, dev, watts, ok).st, now, ok)
  {
    hide CommandIdle, EnsureDeviceConfig, EnsureSurplusFeedIn, Discharge, Commandable, Fits, Accepted, FloorAfter, ClearPending;
    var s1 := s.(lastStatus := Some(dev), floorActive := FloorAfter(cfg, s.floorActive, dev));
    var device := EnsureDeviceConfig(cfg, s1, now, observedAt, dev, ok);
    DeviceConfigEffect(cfg, s1, now, observedAt, dev, ok);
    if !device.verdict.Proceed? {
      StillThenEffect(cfg, s, s1, device.st, now, ok);
    } else {
      var surplus := EnsureSurplusFeedIn(cfg, device.st, now, dev, ok);
      SurplusEffect(cfg, device.st, now, dev, ok);
      if !surplus.verdict.Proceed? {
        StillThenEffect(cfg, s, device.st, surplus.st, now, ok);
      } else {
        AfterAuthority(cfg, s, Smooth(cfg, surplus.st, watts), now, end, observedAt, dev, watts, ok);
      }
    }
  }

  /** Control once the device configuration is as wanted. */
  function BelowAuthority(cfg: Config, s2: State, now: int, end: int, observedAt: Option<int>, dev: Status, watts: real, ok: bool): State
  {
    if s2.floorActive then
      CommandIdle(cfg, s2.(idle := T.AfterReset(s2.idle), ladder := s2.ladder.Reset()), now, observedAt, dev, ok).st
    else Discharge(cfg, s2, now, end, observedAt, dev, watts, ok).st
  }

  lemma AfterAuthority(cfg: Config, s: State, s2: State, now: int, end: int, observedAt: Option<int>, dev: Status, watts: real, ok: bool)
    requires Still(s, s2) && s.log == []
    requires ValidWatts(cfg) && Commandable(cfg, s.lastCommandWatts) && RearmStamped(s)
    ensures Effect(cfg, s, BelowAuthority(cfg, s2, now, end, observedAt, dev, watts, ok), now, ok)
  {
    hide CommandIdle, Discharge, Commandable, Fits, Accepted;
    if s2.floorActive {
      var s3 := s2.(idle := T.AfterReset(s2.idle), ladder := s2.ladder.Reset());
      IdleEffect(cfg, s3, now, observedAt, dev, ok);
      StillThenEffect(cfg, s, s3, CommandIdle(cfg, s3, now, observedAt, dev, ok).st, now, ok);
    } else {
      DischargeEffect(cfg, s2, now, end, observedAt, dev, watts, ok);
      StillThenEffect(cfg, s, s2, Discharge(cfg, s2, now, end, observedAt, dev, watts, ok).st, now, ok);
    }
  }

  /** The clock reading a step's publish is booked at. */
  function AttemptTime(cfg: Config, input: Input): int
  {
    var grid := ReadGrid(cfg, input);
    if grid.NoGrid? || ReadStatus(cfg, input, grid.now).HardFail? then input.publishedNow else grid.now
  }

  /** Every step makes at most one publish attempt and has the effect described. */
  lemma StepEffect(cfg: Config, s: State, input: Input)
    requires ValidWatts(cfg) && Commandable(cfg, s.lastCommandWatts) && RearmStamped(s)
    ensures var r := Step(cfg, s, input);
            Effect(cfg, s, r.st, AttemptTime(cfg, input), input.publishOk) && r.cycle.attempts == r.st.log
  {
    hide FallBack, Control, ReadGrid, ReadStatus, Commandable, Fits, Accepted;
    var s0 := s.(log := []);
    var grid := ReadGrid(cfg, input);
    if grid.NoGrid? {
      var s1 := s0.(source := NoSource);
      FallbackEffect(cfg, s1, input);
      StartsWithEmptyLog(cfg, s, s1, FallBack(cfg, s1, input).st, input.publishedNow, input.publishOk);
    } else {
      var s1 := s0.(source := grid.source);
      var reading := ReadStatus(cfg, input, grid.now);
      if reading.HardFail? {
        FallbackEffect(cfg, s1, input);
        StartsWithEmptyLog(cfg, s, s1, FallBack(cfg, s1, input).st, input.publishedNow, input.publishOk);
      } else if reading.Reading? {
        ControlEffect(cfg, s1, grid.now, input.publishedNow, reading.receivedAt, reading.dev, grid.watts, input.publishOk);
        ControlLog(cfg, s1, grid.now, input.publishedNow, reading.receivedAt, reading.dev, grid.watts, input.publishOk);
        StartsWithEmptyLog(cfg, s, s1,
          Control(cfg, s1, grid.now, input.publishedNow, reading.receivedAt, reading.dev, grid.watts, input.publishOk).st, grid.now, input.publishOk);
      }
    }
  }

  lemma StartsWithEmptyLog(cfg: Config, s: State, s1: State, s': State, at: int, ok: bool)
    requires s1.(log := s.log, source := s.source) == s && Effect(cfg, s1, s', at, ok)
    ensures Effect(cfg, s, s', at, ok)
  {
    hide Sets, Commandable;
  }

  lemma ControlLog(cfg: Config, s: State, now: int, end: int, observedAt: Option<int>, dev: Status, watts: real, ok: bool)
    ensures var r := Control(cfg, s, now, end, observedAt, dev, watts, ok);
            r.cycle.attempts == r.st.log && r.cycle.end == end && r.cycle.dev == Some(dev) && r.cycle.now == now && r.cycle.raw == watts
            && r.cycle.stage == r.st.stage && r.cycle.smoothed == r.st.smoothed
  {
    hide CommandIdle, EnsureDeviceConfig, EnsureSurplusFeedIn, EnsureOutput, NormalControl, FloorAfter, Smooth, NextStage, Target, IdleAfter;
  }
}
