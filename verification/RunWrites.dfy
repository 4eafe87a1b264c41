/**
 When exactly each kind of step publishes, in every run: what the device must report,
 or what must have been published before, for a step to leave it alone
 (internal/controller/authority.go, slotwrite.go, fallback.go, step.go).
 */
module RunWrites {
  import opened GoStrings
  import opened Protocol
  import opened Config
  import opened Policy
  import opened ControlSpec
  import opened StepEffects
  import opened StepShape
  import opened Runs
  import opened RunRates
  import opened RunPolicy
  import opened RunFallback
  import opened RunLadder
  import opened RunSlots
  import opened RunEcho
  import opened Ramp
  import T = TopCharge

  // ---- which inputs a step uses ---------------------------------------------------------------------

  /** The meter is used if its sample is young, else the plug sum, judged by the clock read after its own query. */
  predicate UsesGrid(cfg: Config, input: Input, c: Cycle, source: GridSource)
  {
    if Young(cfg, input.primary, input.primaryNow) then
      source == Primary && c.raw == input.primary.watts && c.now == input.primaryNow
    else
      && input.fallbackEnabled && Young(cfg, input.secondary, input.secondaryNow)
      && source == Fallback && c.raw == input.secondary.watts && c.now == input.secondaryNow
  }

  /** The received status is used if it is young, else the one just polled. */
  predicate UsesStatus(cfg: Config, input: Input, c: Cycle, dev: Status)
  {
    if input.receivedAt.Some? && c.now - input.receivedAt.value <= cfg.statusStaleAfter then dev == input.status
    else input.poll == Some(dev)
  }

  lemma ControlStamps(cfg: Config, s: State, now: int, end: int, observedAt: Option<int>, dev: Status, watts: real, ok: bool)
    ensures var r := Control(cfg, s, now, end, observedAt, dev, watts, ok);
            r.cycle.now == now && r.cycle.raw == watts && r.cycle.dev == Some(dev) && r.st.source == s.source
  {
    hide *;
    ControlLog(cfg, s, now, end, observedAt, dev, watts, ok);
    ControlSource(cfg, s, now, end, observedAt, dev, watts, ok);
  }

  lemma ControlSource(cfg: Config, s: State, now: int, end: int, observedAt: Option<int>, dev: Status, watts: real, ok: bool)
    ensures Control(cfg, s, now, end, observedAt, dev, watts, ok).st.source == s.source
  {
    hide CommandIdle, EnsureDeviceConfig, EnsureSurplusFeedIn, Discharge, FloorAfter, Smoothed, T.AfterReset;
    var s1 := s.(lastStatus := Some(dev), floorActive := FloorAfter(cfg, s.floorActive, dev));
    var device := EnsureDeviceConfig(cfg, s1, now, observedAt, dev, ok);
    AuthoritySensors(cfg, s1, now, observedAt, dev, ok);
    var surplus := EnsureSurplusFeedIn(cfg, device.st, now, dev, ok);
    AuthoritySensors(cfg, device.st, now, observedAt, dev, ok);
    var s2 := Smooth(cfg, surplus.st, watts);
    IdleSensors(cfg, s2.(idle := T.AfterReset(s2.idle), ladder := s2.ladder.Reset()), now, observedAt, dev, ok);
    DischargeSource(cfg, s2, now, end, observedAt, dev, watts, ok);
  }

  lemma DischargeSource(cfg: Config, s: State, now: int, end: int, observedAt: Option<int>, dev: Status, watts: real, ok: bool)
    ensures Discharge(cfg, s, now, end, observedAt, dev, watts, ok).st.source == s.source
  {
    hide CommandIdle, EnsureOutput, NormalControl, IdleAfter, NextStage, Target;
    var stage := NextStage(cfg, s.stage, dev.soc);
    var m := s.(stage := stage, idle := IdleAfter(cfg, s, stage, T.Obs(now, dev, watts, s.smoothed)));
    var target := Target(cfg, s.source, stage, dev, s.smoothed);
    if m.idle.active {
      IdleSensors(cfg, m.(ladder := m.ladder.Reset()), now, observedAt, dev, ok);
    } else {
      OutputSensors(cfg, m, now, dev, target, s.smoothed, ok);
      var output := EnsureOutput(cfg, m, now, dev, target, s.smoothed, ok);
      NormalSensors(cfg, output.st, now, observedAt, dev, target, s.smoothed < 0.0 && !stage.AllowExport(), ok);
    }
  }

  /**
   A step that reads a status works on exactly these inputs, dates a poll by its own
   clock, and books what it publishes with the reading that judged the sample; a
   fallback books it with a reading of its own.
   */
  lemma InputsUsed(run: Run, i: nat)
    requires IsRun(run) && i < |run.ins| && Valid(run.cfg)
    ensures var c, input := run.cycles[i], run.ins[i];
            && (c.dev.Some? ==>
                  && UsesGrid(run.cfg, input, c, run.states[i + 1].source) && UsesStatus(run.cfg, input, c, c.dev.value)
                  && ObservedAt(run.cfg, input)
                     == if input.receivedAt.Some? && c.now - input.receivedAt.value <= run.cfg.statusStaleAfter then input.receivedAt
                        else Some(c.now))
            && (Tried(run, i).Some? ==> Tried(run, i).value.at == if c.dev.Some? then c.now else input.publishedNow)
  {
    hide Step, Valid, Control, FallBack, Accepted, Quiet, Fits;
    var cfg, s, input := run.cfg, run.states[i], run.ins[i];
    ValidHasWatts(cfg);
    AttemptAt(run, i);
    StepTaken(run, i);
    StepDecided(cfg, s, input);
    var grid := ReadGrid(cfg, input);
    if grid.Grid? {
      var reading := ReadStatus(cfg, input, grid.now);
      if reading.Reading? {
        StepControls(cfg, s, input);
        ControlStamps(cfg, s.(log := [], source := grid.source), grid.now, input.publishedNow,
          reading.receivedAt, reading.dev, grid.watts, input.publishOk);
      } else if reading.Frozen? {
        FrozenTriesNothing(run, i);
      }
    }
  }

  lemma FrozenTriesNothing(run: Run, i: nat)
    requires IsRun(run) && i < |run.ins| && ReadGrid(run.cfg, run.ins[i]).Grid?
    requires ReadStatus(run.cfg, run.ins[i], ReadGrid(run.cfg, run.ins[i]).now).Frozen?
    ensures Tried(run, i).None?
  {
    hide Control, FallBack, Fresh;
    StepTaken(run, i);
  }

  // ---- an awaited echo, on the trace ------------------------------------------------------------------

  /**
   The latest accepted publish is this very payload, nothing has cleared it since, it is
   younger than the authority cooldown, and no other status has come in than the one it
   was made on (for the remedies that look at one).
   */
  predicate AwaitedAt(run: Run, i: nat, cmd: Command, observedAt: Option<int>)
    requires i < |run.ins|
  {
    && run.states[i].pending == Some(cmd)
    && var k := LastSent(run, i, Any);
    && k.Some? && k.value < i && Sent(run, k.value).Some? && Sent(run, k.value).value.cmd == cmd
    && run.cycles[i].now - Sent(run, k.value).value.at < AuthorityCooldown(run.cfg)
    && (observedAt.None? || observedAt == MadeOn(run, k.value))
  }

  lemma AwaitedExactly(run: Run, i: nat, cmd: Command, observedAt: Option<int>)
    requires IsRun(run) && i < |run.ins| && Valid(run.cfg)
    ensures EchoAwaited(run.cfg, run.states[i], cmd, run.cycles[i].now, observedAt) <==> AwaitedAt(run, i, cmd, observedAt)
  {
    hide Step, Valid, AuthorityCooldown, MadeOn;
    PendingIsLastSent(run, i);
    PendingIsBooked(run, i);
    LastSentIs(run, i, Any);
  }

  /** m has the pending payload of s, or has dropped one that is no slot write. */
  predicate KeepsSlotEcho(s: State, m: State)
  {
    SamePending(s, m) || (m.pending.None? && s.pending.Some? && !s.pending.value.TimedDischarge?)
  }

  lemma SlotEchoKept(cfg: Config, s: State, m: State, cmd: Command, now: int, observedAt: Option<int>)
    requires KeepsSlotEcho(s, m) && cmd.TimedDischarge?
    ensures EchoAwaited(cfg, m, cmd, now, observedAt) <==> EchoAwaited(cfg, s, cmd, now, observedAt)
  {
    hide AuthorityCooldown;
  }

  // ---- the reported slot -------------------------------------------------------------------------------

  /**
   The device reports the controlled slot as the one for that many watts: on or off,
   with the configured times once the reported ones are padded, and if on with the
   watts; how many watts a disabled slot holds does not matter.
   */
  predicate Reports(cfg: Config, dev: Status, watts: int)
  {
    var slot := dev.slots[SlotIndex(cfg)];
    && (slot.enabled <==> watts > 0)
    && NormaliseTime(slot.start) == cfg.scheduleStart && NormaliseTime(slot.end) == cfg.scheduleEnd
    && (watts > 0 ==> slot.watts == watts)
  }

  lemma ReportsExactly(cfg: Config, dev: Status, watts: int)
    ensures SlotMatches(CurrentSlot(cfg, dev), DesiredSlot(cfg, watts)) <==> Reports(cfg, dev, watts)
  {
    hide NormaliseTime;
  }

  // ---- deliberate stops --------------------------------------------------------------------------------

  /** The write that disables the controlled slot over the given status. */
  function StopOver(cfg: Config, dev: Status): Command { SlotCommand(cfg, dev, DesiredSlot(cfg, 0), false) }

  lemma IdleTries(cfg: Config, s: State, now: int, observedAt: Option<int>, dev: Status, ok: bool)
    requires s.log == []
    ensures CommandIdle(cfg, s, now, observedAt, dev, ok).st.log == []
            <==> Reports(cfg, dev, 0) || EchoAwaited(cfg, s, StopOver(cfg, dev), now, observedAt)
  {
    hide SlotCommand, DesiredSlot, CurrentSlot, SlotMatches, EchoAwaited, Reports;
    ReportsExactly(cfg, dev, 0);
    RemedyTries(cfg, s, now, observedAt, StopOver(cfg, dev), ForIdle, ok);
  }

  lemma DischargeIdleTries(cfg: Config, s: State, now: int, end: int, observedAt: Option<int>, dev: Status, watts: real, ok: bool)
    requires s.log == []
    ensures var r := Discharge(cfg, s, now, end, observedAt, dev, watts, ok);
            r.cycle.reach.TopIdle? ==>
              (r.st.log == [] <==> Reports(cfg, dev, 0) || EchoAwaited(cfg, s, StopOver(cfg, dev), now, observedAt))
  {
    hide CommandIdle, EnsureOutput, NormalControl, IdleAfter, NextStage, Target, EchoAwaited, Reports, SlotCommand;
    var stage := NextStage(cfg, s.stage, dev.soc);
    var m := s.(stage := stage, idle := IdleAfter(cfg, s, stage, T.Obs(now, dev, watts, s.smoothed)));
    var m2 := m.(ladder := m.ladder.Reset());
    IdleTries(cfg, m2, now, observedAt, dev, ok);
    SlotCommandSets(cfg, dev, 0, false);
    SlotEchoKept(cfg, s, m2, StopOver(cfg, dev), now, observedAt);
  }

  /** What a step that stopped at the device settings, or idles, says by not publishing. */
  predicate WritesAsNeeded(cfg: Config, s: State, r: Stepped, observedAt: Option<int>, dev: Status)
  {
    var c := r.cycle;
    && (c.reach.ConfigStep? ==> (r.st.log == [] <==> EchoAwaited(cfg, s, ChargingMode(0), c.now, observedAt)))
    && (c.reach.SurplusStep? ==> (r.st.log == [] <==> EchoAwaited(cfg, s, SurplusFeedIn(0), c.now, None)))
    && (c.reach.FloorIdle? || c.reach.TopIdle? ==>
          (r.st.log == [] <==> Reports(cfg, dev, 0) || EchoAwaited(cfg, s, StopOver(cfg, dev), c.now, observedAt)))
  }

  lemma ConfigTries(cfg: Config, s: State, now: int, observedAt: Option<int>, dev: Status, ok: bool)
    requires s.log == []
    ensures var r := EnsureDeviceConfig(cfg, s, now, observedAt, dev, ok);
            && (!r.verdict.Proceed? ==> (r.st.log == [] <==> EchoAwaited(cfg, s, ChargingMode(0), now, observedAt)))
            && (r.verdict.Proceed? ==> KeepsSlotEcho(s, r.st) && KeepsSurplusEcho(s, r.st) && r.st.log == [])
  {
    hide Remedy, EchoAwaited;
    RemedyTries(cfg, s, now, observedAt, ChargingMode(0), ForChargingMode, ok);
  }

  predicate KeepsSurplusEcho(s: State, m: State)
  {
    SamePending(s, m) || (m.pending.None? && s.pending == Some(ChargingMode(0)))
  }

  lemma SurplusTries(cfg: Config, s: State, now: int, dev: Status, ok: bool)
    requires s.log == []
    ensures var r := EnsureSurplusFeedIn(cfg, s, now, dev, ok);
            && (!r.verdict.Proceed? ==> (r.st.log == [] <==> EchoAwaited(cfg, s, SurplusFeedIn(0), now, None)))
            && (r.verdict.Proceed? ==> KeepsSlotEcho(s, r.st) && r.st.log == [])
  {
    hide Remedy, EchoAwaited;
    RemedyTries(cfg, s, now, None, SurplusFeedIn(0), ForSurplus, ok);
  }

  lemma SurplusEchoKept(cfg: Config, s: State, m: State, now: int)
    requires KeepsSurplusEcho(s, m)
    ensures EchoAwaited(cfg, m, SurplusFeedIn(0), now, None) <==> EchoAwaited(cfg, s, SurplusFeedIn(0), now, None)
  {
    hide AuthorityCooldown;
  }

  lemma SlotEchoChain(s: State, m: State, o: State)
    requires KeepsSlotEcho(s, m) && KeepsSlotEcho(m, o)
    ensures KeepsSlotEcho(s, o)
  {
  }

  lemma ControlWrites(cfg: Config, s: State, now: int, end: int, observedAt: Option<int>, dev: Status, watts: real, ok: bool)
    requires s.log == []
    ensures WritesAsNeeded(cfg, s, Control(cfg, s, now, end, observedAt, dev, watts, ok), observedAt, dev)
  {
    hide CommandIdle, EnsureDeviceConfig, EnsureSurplusFeedIn, Discharge, FloorAfter, Smoothed, T.AfterReset, EchoAwaited, Reports,
      SlotCommand, KeepsSlotEcho, KeepsSurplusEcho;
    ControlLog(cfg, s, now, end, observedAt, dev, watts, ok);
    var s1 := s.(lastStatus := Some(dev), floorActive := FloorAfter(cfg, s.floorActive, dev));
    var device := EnsureDeviceConfig(cfg, s1, now, observedAt, dev, ok);
    ConfigTries(cfg, s1, now, observedAt, dev, ok);
    SameEcho(s, s1);
    SlotCommandSets(cfg, dev, 0, false);
    SlotEchoKept(cfg, s, s1, StopOver(cfg, dev), now, observedAt);
    EchoOfFields(cfg, s, s1, ChargingMode(0), now, observedAt);
    if device.verdict.Proceed? {
      var surplus := EnsureSurplusFeedIn(cfg, device.st, now, dev, ok);
      SurplusTries(cfg, device.st, now, dev, ok);
      SurplusEchoKept(cfg, s1, device.st, now);
      EchoOfFields(cfg, s, s1, SurplusFeedIn(0), now, None);
      if surplus.verdict.Proceed? {
        SlotEchoChain(s1, device.st, surplus.st);
        var s2 := Smooth(cfg, surplus.st, watts);
        var s3 := s2.(idle := T.AfterReset(s2.idle), ladder := s2.ladder.Reset());
        LaterEcho(s1, surplus.st, s2);
        LaterEcho(s1, surplus.st, s3);
        SlotEchoKept(cfg, s1, s2, StopOver(cfg, dev), now, observedAt);
        SlotEchoKept(cfg, s1, s3, StopOver(cfg, dev), now, observedAt);
        IdleTries(cfg, s3, now, observedAt, dev, ok);
        DischargeIdleTries(cfg, s2, now, end, observedAt, dev, watts, ok);
        DischargeReaches(cfg, s2, now, end, observedAt, dev, watts, ok);
      }
    }
  }

  lemma LaterEcho(s: State, m: State, o: State)
    requires KeepsSlotEcho(s, m) && SamePending(m, o)
    ensures KeepsSlotEcho(s, o)
  {
  }

  lemma SameEcho(s: State, m: State)
    requires SamePending(s, m)
    ensures KeepsSlotEcho(s, m) && KeepsSurplusEcho(s, m)
  {
  }

  lemma EchoOfFields(cfg: Config, s: State, m: State, cmd: Command, now: int, observedAt: Option<int>)
    requires SamePending(s, m)
    ensures EchoAwaited(cfg, m, cmd, now, observedAt) <==> EchoAwaited(cfg, s, cmd, now, observedAt)
  {
    hide AuthorityCooldown;
  }

  lemma StepWrites(cfg: Config, s: State, input: Input)
    ensures var r := Step(cfg, s, input);
            r.cycle.dev.Some? ==> WritesAsNeeded(cfg, s, r, ObservedAt(cfg, input), r.cycle.dev.value)
  {
    hide FallBack, Control, Fresh, EchoAwaited, Reports, SlotCommand;
    StepDecided(cfg, s, input);
    var grid := ReadGrid(cfg, input);
    if grid.Grid? {
      var reading := ReadStatus(cfg, input, grid.now);
      if reading.Reading? {
        var s1 := s.(log := [], source := grid.source);
        StepControls(cfg, s, input);
        ControlLog(cfg, s1, grid.now, input.publishedNow, reading.receivedAt, reading.dev, grid.watts, input.publishOk);
        ControlWrites(cfg, s1, grid.now, input.publishedNow, reading.receivedAt, reading.dev, grid.watts, input.publishOk);
        WritesFrom(cfg, s, s1, Step(cfg, s, input), reading.receivedAt, reading.dev);
      }
    }
  }

  lemma WritesFrom(cfg: Config, s: State, s1: State, r: Stepped, observedAt: Option<int>, dev: Status)
    requires SamePending(s, s1) && WritesAsNeeded(cfg, s1, r, observedAt, dev)
    ensures WritesAsNeeded(cfg, s, r, observedAt, dev)
  {
    hide EchoAwaited, Reports, SlotCommand;
    EchoOfFields(cfg, s, s1, ChargingMode(0), r.cycle.now, observedAt);
    EchoOfFields(cfg, s, s1, SurplusFeedIn(0), r.cycle.now, None);
    EchoOfFields(cfg, s, s1, StopOver(cfg, dev), r.cycle.now, observedAt);
  }

  /**
   In every run: a wrong device setting is written unless its echo is awaited; a step
   that idles disables the slot unless the device reports it disabled or that echo is
   awaited.
   */
  lemma StopsWriteExactly(run: Run, i: nat)
    requires IsRun(run) && i < |run.ins| && Valid(run.cfg)
    ensures var c, seen := run.cycles[i], ObservedAt(run.cfg, run.ins[i]);
            && (c.reach.ConfigStep? ==> (Tried(run, i).None? <==> AwaitedAt(run, i, ChargingMode(0), seen)))
            && (c.reach.SurplusStep? ==> (Tried(run, i).None? <==> AwaitedAt(run, i, SurplusFeedIn(0), None)))
            && (c.reach.FloorIdle? || c.reach.TopIdle? ==>
                  && c.dev.Some?
                  && (Tried(run, i).None? <==> Reports(run.cfg, c.dev.value, 0) || AwaitedAt(run, i, StopOver(run.cfg, c.dev.value), seen)))
  {
    hide Step, Valid, ObservedAt, EchoAwaited, AwaitedAt, Reports, SlotCommand, Effect, SensedStage, SensedIdle, SensedLadder, SensedClock;
    ValidHasWatts(run.cfg);
    EffectAt(run, i);
    StepTaken(run, i);
    StepSensed(run.cfg, run.states[i], run.ins[i]);
    StepWrites(run.cfg, run.states[i], run.ins[i]);
    var c, seen := run.cycles[i], ObservedAt(run.cfg, run.ins[i]);
    AwaitedExactly(run, i, ChargingMode(0), seen);
    AwaitedExactly(run, i, SurplusFeedIn(0), None);
    if c.dev.Some? {
      AwaitedExactly(run, i, StopOver(run.cfg, c.dev.value), seen);
    }
  }

  // ---- fallback ------------------------------------------------------------------------------------------

  /** What is known of the device before step i: the status last read, or the zero status before the first. */
  function Known(run: Run, i: nat): Status
    requires i <= |run.ins|
  {
    if LastRead(run, i).Some? then LastRead(run, i).value else ZERO_STATUS
  }

  lemma FallbackTries(cfg: Config, s: State, input: Input)
    requires s.log == []
    ensures var slot := BaseOf(s).slots[SlotIndex(cfg)];
            FallBack(cfg, s, input).st.log == []
            <==> Reports(cfg, BaseOf(s), 0) && slot.watts == 0
  {
    hide SlotCommand, FallbackIdle, NormaliseTime;
  }

  /**
   A fallback disables the controlled slot over the status last read, unless that
   already reports it disabled with 0 W; it waits for no echo.
   */
  lemma FallbackWritesExactly(run: Run, i: nat)
    requires IsRun(run) && i < |run.ins| && Valid(run.cfg) && FellBack(run.cycles[i])
    ensures Tried(run, i).None?
            <==> Reports(run.cfg, Known(run, i), 0) && Known(run, i).slots[SlotIndex(run.cfg)].watts == 0
  {
    hide Step, Valid, Control, FallBack, Fresh, Reports, Effect, Keeps;
    var cfg, s, input := run.cfg, run.states[i], run.ins[i];
    ValidHasWatts(cfg);
    EffectAt(run, i);
    StepTaken(run, i);
    StepDecided(cfg, s, input);
    RemembersLastRead(run, i);
    var grid := ReadGrid(cfg, input);
    if grid.Grid? {
      FallbackTries(cfg, s.(log := [], source := grid.source), input);
    }
    FallbackTries(cfg, s.(log := [], source := NoSource), input);
    FallbackSteps(cfg, s, input);
  }

  lemma FallbackSteps(cfg: Config, s: State, input: Input)
    requires FellBack(Step(cfg, s, input).cycle)
    ensures var r := Step(cfg, s, input).st;
            || r == FallBack(cfg, s.(log := [], source := NoSource), input).st
            || (ReadGrid(cfg, input).Grid? && r == FallBack(cfg, s.(log := [], source := ReadGrid(cfg, input).source), input).st)
  {
    hide FallBack, Control, Fresh;
    StepDecided(cfg, s, input);
    var grid := ReadGrid(cfg, input);
    if grid.Grid? {
      var reading := ReadStatus(cfg, input, grid.now);
      if reading.Reading? {
        ControlReads(cfg, s.(log := [], source := grid.source), grid.now, input.publishedNow,
          reading.receivedAt, reading.dev, grid.watts, input.publishOk);
      }
    }
  }

  // ---- normal control that keeps the command ---------------------------------------------------------------

  /**
   In every run: normal control that keeps the command leaves the device alone exactly
   if it reports the controlled slot as commanded, or the echo of the write that would
   restore it is awaited; otherwise it writes the slot again.
   */
  lemma CommandIsLeftAloneExactly(run: Run, i: nat)
    requires IsRun(run) && i < |run.ins| && Valid(run.cfg) && run.cycles[i].reach.NormalStep? && !Moves(run, i)
    ensures var c := run.cycles[i];
            && c.dev.Some?
            && (Tried(run, i).None?
                <==> Reports(run.cfg, c.dev.value, run.states[i].lastCommandWatts)
                     || AwaitedAt(run, i, Reassertion(run, i), ObservedAt(run.cfg, run.ins[i])))
            && (Tried(run, i).Some? ==>
                  Tried(run, i).value.kind.ForReassert? && Commands(run.cfg, Tried(run, i).value.cmd, run.states[i].lastCommandWatts))
  {
    hide Valid, EchoAwaited, AwaitedAt, Reports, ObservedAt, SlotCommand, Moves, SlotMatches, CurrentSlot, DesiredSlot, Commands, KeepsCommand;
    MovesNot(run, i);
    KeptIsLeftAlone(run, i);
    ReportsExactly(run.cfg, run.cycles[i].dev.value, run.states[i].lastCommandWatts);
    AwaitedExactly(run, i, Reassertion(run, i), ObservedAt(run.cfg, run.ins[i]));
    if Tried(run, i).Some? {
      ReassertCommands(run, i);
    }
  }

  lemma MovesNot(run: Run, i: nat)
    requires IsRun(run) && i < |run.ins| && Valid(run.cfg) && run.cycles[i].reach.NormalStep? && !Moves(run, i)
    ensures run.cycles[i].dev.Some? && KeepsCommand(run, i)
  {
    hide Valid, Suppressed, Moves, Commandable, LastPublish, NormalControl, Commands;
    MemoryAgreesWithTrace(run, i);
    var o, observedAt := NormalStepIs(run, i);
    SuppressedMeans(run, i, run.states[i]);
  }

  lemma ReassertCommands(run: Run, i: nat)
    requires IsRun(run) && i < |run.ins| && Valid(run.cfg) && run.cycles[i].reach.NormalStep? && !Moves(run, i) && Tried(run, i).Some?
    ensures Tried(run, i).value.kind.ForReassert? && Commands(run.cfg, Tried(run, i).value.cmd, run.states[i].lastCommandWatts)
  {
    hide Valid, Moves, Sets, Commands, Accepted, Quiet, Commandable, Ramped;
    NormalWritesExactly(run, i);
    ValidHasWatts(run.cfg);
    SoundAt(run, i);
    AttemptAt(run, i);
    NormalKindAt(run, i);
    SetsCommands(run.cfg, Tried(run, i).value.cmd, run.states[i].lastCommandWatts);
  }

  lemma NormalKindAt(run: Run, i: nat)
    requires IsRun(run) && i < |run.ins| && Valid(run.cfg) && run.cycles[i].reach.NormalStep? && Tried(run, i).Some?
    ensures Tried(run, i).value.kind.ForNormal? || Tried(run, i).value.kind.ForReassert?
  {
    hide Step, Valid, Effect;
    ValidHasWatts(run.cfg);
    EffectAt(run, i);
    StepTaken(run, i);
    StepKinds(run.cfg, run.states[i], run.ins[i]);
  }
}
