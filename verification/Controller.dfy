/**
 The discharge controller as the code has it: an object that its methods update
 in place (internal/controller/controller.go, step.go, authority.go, slotwrite.go,
 fallback.go, helpers.go, highsoc.go). Every method is proved to do to the fields
 exactly what ControlSpec says of values, so that after every Step the object is
 in the state the run theorems are about.
 */
module Controller {
  import opened GoStrings
  import opened Protocol
  import opened Config
  import opened Policy
  import opened ControlSpec
  import opened Runs
  import T = TopCharge
  import E = Escalation

  /** How the three results of a publish helper tell its outcome. */
  predicate Tells(o: Outcome, handled: bool, published: bool, failed: bool)
  {
    handled == (o.Awaited? || o.Published?) && published == o.Published? && failed == o.Refused?
  }

  /** How the two results of a phase tell its verdict. */
  predicate Reports(v: Verdict, handled: bool, failed: bool) { handled == v.Done? && failed == v.Failed? }

  /** The power a re-arm restores: the current demand; the remembered one would only serve if there were none. */
  function StatusSlotWatts(desired: int, rearm: int): (r: int)
    ensures desired > 0 ==> r == desired
  {
    if desired > 0 then desired else rearm
  }

  class Controller {
    const cfg: Config
    const topChargeIdle: T.TopChargeIdleMachine
    const escalation: E.EscalationMachine

    var gridPowerSource: GridSource
    var smoothed: real
    var hasSmoothed: bool
    var lastCommandWatts: int
    var lastCommandTime: Option<int>
    var authorityPendingPayload: Option<Command>
    var authorityPendingSince: Option<int>
    var authorityPendingSeenAt: Option<int>
    var lastStatus: Option<Status>
    var socFloorActive: bool
    var highSoCStage: Stage
    var stuckOutputRearmPending: bool
    var stuckOutputRearmWatts: int
    var stuckOutputRearmStartedAt: Option<int>
    var lastStuckOutputRearmAt: Option<int>
    var lastSurplusFeedInRecoveryAt: Option<int>

    /** The publish attempts of the current step, and the run so far. */
    ghost var log: seq<Attempt>
    ghost var history: Run

    ghost function State(): State
      reads this, topChargeIdle, escalation
    {
      ControlSpec.State.State(gridPowerSource, smoothed, hasSmoothed, lastCommandWatts, lastCommandTime,
                  authorityPendingPayload, authorityPendingSince, authorityPendingSeenAt, lastStatus, socFloorActive,
                  topChargeIdle.State(), escalation.State(), highSoCStage,
                  stuckOutputRearmPending, stuckOutputRearmWatts, stuckOutputRearmStartedAt, lastStuckOutputRearmAt,
                  lastSurplusFeedInRecoveryAt, log)
    }

    /** The history is a run of the controller, and the object is in its last state. */
    ghost predicate Valid()
      reads this, topChargeIdle, escalation
    {
      topChargeIdle.cfg == cfg && history.cfg == cfg && IsRun(history) && State() == history.states[|history.ins|]
    }

    /** The fields that methods branch on, as State shows them. */
    lemma Mirror()
      ensures var s := State();
              && s.source == gridPowerSource && s.smoothed == smoothed && s.hasSmoothed == hasSmoothed
              && s.lastCommandWatts == lastCommandWatts && s.lastCommandTime == lastCommandTime
              && s.lastStatus == lastStatus && s.floorActive == socFloorActive && s.stage == highSoCStage
              && s.idle == topChargeIdle.State() && s.idle.active == topChargeIdle.active
              && s.ladder == escalation.State() && s.ladder.blockedCycles == escalation.blockedCycles
              && s.rearmPending == stuckOutputRearmPending && s.rearmStartedAt == stuckOutputRearmStartedAt
              && s.lastRearmAt == lastStuckOutputRearmAt && s.lastSurplusAt == lastSurplusFeedInRecoveryAt
    {
    }

    constructor (cfg: Config)
      ensures Valid() && this.cfg == cfg && history == Started(cfg)
      ensures fresh(topChargeIdle) && fresh(escalation)
    {
      this.cfg := cfg;
      gridPowerSource, smoothed, hasSmoothed := NoSource, 0.0, false;
      lastCommandWatts, lastCommandTime := 0, None;
      authorityPendingPayload, authorityPendingSince, authorityPendingSeenAt := None, None, None;
      lastStatus, socFloorActive, highSoCStage := None, false, Inactive;
      stuckOutputRearmPending, stuckOutputRearmWatts := false, 0;
      stuckOutputRearmStartedAt, lastStuckOutputRearmAt, lastSurplusFeedInRecoveryAt := None, None, None;
      log, history := [], Started(cfg);
      topChargeIdle := new T.TopChargeIdleMachine(cfg);
      escalation := new E.EscalationMachine();
    }

    // ---- bookkeeping of publishes (slotwrite.go) ---------------------------------------------------

    method RecordSuccessfulPublish(cmd: Command, now: int, observedAt: Option<int>)
      modifies `authorityPendingPayload, `authorityPendingSince, `authorityPendingSeenAt
      ensures State() == RecordPublish(old(State()), cmd, now, observedAt)
    {
      authorityPendingPayload := Some(cmd);
      authorityPendingSince := Some(now);
      authorityPendingSeenAt := observedAt;
    }

    method ClearPendingAuthorityPayload(cmd: Command)
      modifies `authorityPendingPayload, `authorityPendingSince, `authorityPendingSeenAt
      ensures State() == ClearPending(old(State()), cmd)
    {
      if authorityPendingPayload != Some(cmd) {
        return;
      }
      authorityPendingPayload := None;
      authorityPendingSince := None;
      authorityPendingSeenAt := None;
    }

    method RecordCommandedWatts(watts: int, at: int)
      modifies `lastCommandWatts, `lastCommandTime
      ensures State() == Commanded(old(State()), watts, at)
    {
      lastCommandWatts := watts;
      lastCommandTime := Some(at);
    }

    method RecordReassertedCommand(at: int)
      modifies `lastCommandTime
      ensures State() == old(State()).(lastCommandTime := Some(at))
    {
      lastCommandTime := Some(at);
    }

    method NoteIdleWithoutPublish()
      modifies `lastCommandWatts
      ensures State() == old(State()).(lastCommandWatts := 0)
    {
      lastCommandWatts := 0;
    }

    method PendingEchoAwaited(cmd: Command, now: int, observedAt: Option<int>) returns (r: bool)
      ensures r == EchoAwaited(cfg, State(), cmd, now, observedAt)
    {
      r := authorityPendingPayload == Some(cmd) && authorityPendingSince.Some?
           && (observedAt.None? || observedAt == authorityPendingSeenAt)
           && now - authorityPendingSince.value < AuthorityCooldown(cfg);
    }

    ghost method Remember(input: Input)
      modifies `history
      ensures history == Extended(old(history), input) && State() == old(State())
    {
      hide Extended;
      history := Extended(history, input);
    }

    ghost method ClearLog()
      modifies `log
      ensures State() == old(State()).(log := [])
    {
      log := [];
    }

    /** One call of Publish on the control topic; ok is the broker's answer. */
    ghost method Publish(at: int, cmd: Command, kind: Kind, ok: bool)
      modifies `log
      ensures State() == Log(old(State()), at, cmd, kind, ok)
    {
      log := log + [Attempt(at, cmd, kind, ok)];
    }

    /** publishAuthorityPayload and publishAuthorityPayloadWithOutcome. */
    method PublishAuthorityPayload(now: int, observedAt: Option<int>, cmd: Command, ghost kind: Kind, ok: bool)
      returns (handled: bool, published: bool, failed: bool)
      modifies `authorityPendingPayload, `authorityPendingSince, `authorityPendingSeenAt, `log
      ensures var r := Remedy(cfg, old(State()), now, observedAt, cmd, kind, ok);
              State() == r.st && Tells(r.outcome, handled, published, failed)
      ensures handled || failed
    {
      hide State, EchoAwaited, Log, RecordPublish;
      var awaited := PendingEchoAwaited(cmd, now, observedAt);
      if awaited {
        return true, false, false;
      }
      Publish(now, cmd, kind, ok);
      if !ok {
        return false, false, true;
      }
      RecordSuccessfulPublish(cmd, now, observedAt);
      return true, true, false;
    }

    /** buildSlotPayload: the controlled slot as reported, and the write that replaces it alone. */
    method BuildSlotPayload(dev: Status, desired: Slot, flash: bool) returns (current: Slot, cmd: Command)
      ensures current == CurrentSlot(cfg, dev) && cmd == SlotCommand(cfg, dev, desired, flash)
    {
      var slots := SlotsAsWriteSlots(dev);
      var idx := SlotIndex(cfg);
      current := slots[idx];
      slots := slots[idx := desired];
      cmd := TimedDischarge(CanonicalSlots(slots), flash);
    }

    // ---- the two machines ---------------------------------------------------------------------------

    method ResetTopChargeIdle() returns (wasActive: bool)
      modifies topChargeIdle
      ensures State() == old(State()).(idle := T.AfterReset(old(State()).idle))
      ensures wasActive == old(State()).idle.active
    {
      wasActive := topChargeIdle.Reset();
    }

    method BlockTopChargeIdle(now: int)
      requires topChargeIdle.cfg == cfg
      modifies topChargeIdle
      ensures State() == old(State()).(idle := T.AfterBlock(cfg, old(State()).idle, now))
    {
      var _ := topChargeIdle.BlockUntil(now);
    }

    method UpdateTopChargeIdle(now: int, dev: Status, raw: real, smoothed: real) returns (engaged: bool)
      requires topChargeIdle.cfg == cfg
      modifies topChargeIdle
      ensures State() == old(State()).(idle := T.AfterUpdate(cfg, old(State()).idle, T.Obs(now, dev, raw, smoothed)))
      ensures engaged == State().idle.active
    {
      engaged := topChargeIdle.Update(now, dev, raw, smoothed);
    }

    method ResetEscalation()
      modifies escalation
      ensures State() == old(State()).(ladder := old(State()).ladder.Reset())
    {
      escalation.Reset();
    }

    method NoteBlockedCycle()
      modifies escalation
      ensures State() == old(State()).(ladder := old(State()).ladder.NoteBlockedCycle())
    {
      escalation.NoteBlockedCycle();
    }

    method RecordEnableAttempt(at: int)
      modifies escalation
      ensures State() == old(State()).(ladder := old(State()).ladder.RecordEnableAttempt(at))
    {
      escalation.RecordEnableAttempt(at);
    }

    // ---- device configuration (authority.go) --------------------------------------------------------

    method EnsureDeviceConfig(now: int, observedAt: Option<int>, dev: Status, ok: bool) returns (handled: bool, failed: bool)
      modifies `authorityPendingPayload, `authorityPendingSince, `authorityPendingSeenAt, `log
      ensures var r := ControlSpec.EnsureDeviceConfig(cfg, old(State()), now, observedAt, dev, ok);
              State() == r.st && Reports(r.verdict, handled, failed)
    {
      hide State, Remedy, ClearPending;
      if dev.chargingMode == 0 {
        ClearPendingAuthorityPayload(ChargingMode(0));
        return false, false;
      }
      var published;
      handled, published, failed := PublishAuthorityPayload(now, observedAt, ChargingMode(0), ForChargingMode, ok);
    }

    method EnsureSurplusFeedIn(now: int, dev: Status, ok: bool) returns (handled: bool, failed: bool)
      modifies `authorityPendingPayload, `authorityPendingSince, `authorityPendingSeenAt, `log, `lastSurplusFeedInRecoveryAt
      ensures var r := ControlSpec.EnsureSurplusFeedIn(cfg, old(State()), now, dev, ok);
              State() == r.st && Reports(r.verdict, handled, failed)
    {
      hide Remedy;
      if !cfg.enforceSurplusFeedIn {
        ClearPendingAuthorityPayload(SurplusFeedIn(0));
        return false, false;
      }
      if dev.surplusFeedIn {
        ClearPendingAuthorityPayload(SurplusFeedIn(0));
        return false, false;
      }
      if !cfg.allowFlashWrites {
        return false, false;
      }
      var minInterval := cfg.surplusRecoveryMinInterval;
      if minInterval <= 0 {
        minInterval := 6 * HOUR;
      }
      if lastSurplusFeedInRecoveryAt.Some? && now - lastSurplusFeedInRecoveryAt.value < minInterval {
        return false, false;
      }
      var published;
      handled, published, failed := PublishAuthorityPayload(now, None, SurplusFeedIn(0), ForSurplus, ok);
      if published {
        lastSurplusFeedInRecoveryAt := Some(now);
      }
    }

    // ---- the blocked output (authority.go) -------------------------------------------------------------

    method ClearStuckOutputRearm()
      modifies `stuckOutputRearmPending, `stuckOutputRearmWatts, `stuckOutputRearmStartedAt
      ensures State() == ClearRearm(old(State()))
    {
      stuckOutputRearmPending := false;
      stuckOutputRearmWatts := 0;
      stuckOutputRearmStartedAt := None;
    }

    method MarkRearmStarted(desired: int, now: int)
      modifies `stuckOutputRearmPending, `stuckOutputRearmWatts, `stuckOutputRearmStartedAt, `lastStuckOutputRearmAt
      ensures State() == old(State()).(rearmPending := true, rearmWatts := desired, rearmStartedAt := Some(now), lastRearmAt := Some(now))
    {
      stuckOutputRearmPending := true;
      stuckOutputRearmWatts := desired;
      stuckOutputRearmStartedAt := Some(now);
      lastStuckOutputRearmAt := Some(now);
    }

    method MaybeCompleteStuckOutputRearm(now: int, desired: int, dev: Status, ok: bool) returns (handled: bool, failed: bool)
      modifies this, escalation
      ensures history == old(history)
      ensures var r := CompleteRearm(cfg, old(State()), now, dev, desired, ok);
              State() == r.st && Reports(r.verdict, handled, failed)
    {
      hide State, Remedy, SlotCommand, DesiredSlot, CurrentSlot, ClearRearm;
      Mirror();
      if stuckOutputRearmStartedAt.None? || now - stuckOutputRearmStartedAt.value < cfg.controlInterval {
        return true, false;
      }
      var current, cmd := BuildSlotPayload(dev, DesiredSlot(cfg, desired), false);
      var published;
      handled, published, failed := PublishAuthorityPayload(now, None, cmd, ForRearmEnable, ok);
      if published {
        ClearStuckOutputRearm();
        RecordEnableAttempt(now);
        RecordCommandedWatts(desired, now);
      }
    }

    method MaybeStartStuckOutputRearm(now: int, dev: Status, desired: int, ok: bool) returns (handled: bool, failed: bool)
      modifies this, escalation
      ensures history == old(history)
      ensures var r := StartRearm(cfg, old(State()), now, dev, desired, ok);
              State() == r.st && Reports(r.verdict, handled, failed)
    {
      hide State, Remedy, SlotCommand, DisabledSlot, CurrentSlot, RearmCandidate, RearmCooldown;
      Mirror();
      if escalation.blockedCycles < 2 {
        return false, false;
      }
      if !RearmCandidate(cfg, dev, desired) {
        return false, false;
      }
      if lastStuckOutputRearmAt.Some? && now - lastStuckOutputRearmAt.value < RearmCooldown(cfg) {
        return false, false;
      }
      var current, cmd := BuildSlotPayload(dev, DisabledSlot(cfg), false);
      var published;
      handled, published, failed := PublishAuthorityPayload(now, None, cmd, ForRearmDisable, ok);
      if published {
        MarkRearmStarted(desired, now);
        RecordEnableAttempt(now);
        RecordCommandedWatts(0, now);
      }
    }

    method MaybeNuclearRestartRecovery(now: int, smoothed: real, ok: bool) returns (handled: bool, failed: bool)
      modifies this, escalation
      ensures history == old(history)
      ensures var r := NuclearRestart(cfg, old(State()), now, smoothed, ok);
              State() == r.st && Reports(r.verdict, handled, failed)
    {
      var requiredCycles := cfg.nuclearRestartBlockedCycles;
      if requiredCycles <= 0 {
        requiredCycles := 6;
      }
      if escalation.blockedCycles < requiredCycles {
        return false, false;
      }
      var attempted := escalation.EnableAttempted();
      if !attempted {
        return false, false;
      }
      if smoothed <= cfg.importBiasWatts as real {
        return false, false;
      }
      if !cfg.nuclearRestartEnabled {
        return false, false;
      }
      if !cfg.nuclearRestartAck {
        return false, false;
      }
      var limited := escalation.RestartRateLimited(now, cfg.nuclearRestartMinInterval);
      if limited {
        return false, false;
      }
      Publish(now, Restart, ForRestart, ok);
      if !ok {
        return false, true;
      }
      escalation.RecordNuclearRestart(now);
      RecordSuccessfulPublish(Restart, now, None);
      return true, false;
    }

    method MaybeEnsureOutputEnabled(now: int, dev: Status, desired: int, smoothed: real, ok: bool)
      returns (handled: bool, failed: bool)
      modifies this, escalation
      ensures history == old(history)
      ensures var r := EnsureOutput(cfg, old(State()), now, dev, desired, smoothed, ok);
              State() == r.st && Reports(r.verdict, handled, failed)
    {
      hide State, CompleteRearm, RearmCandidate, Diagnose, ClearRearm;
      Mirror();
      if desired <= 0 {
        ResetEscalation();
        ClearStuckOutputRearm();
        return false, false;
      }
      if stuckOutputRearmPending {
        if !RearmCandidate(cfg, dev, desired) {
          ClearStuckOutputRearm();
        } else {
          handled, failed := MaybeCompleteStuckOutputRearm(now, StatusSlotWatts(desired, stuckOutputRearmWatts), dev, ok);
          return;
        }
      }
      handled, failed := DiagnoseOutput(now, dev, desired, smoothed, ok);
    }

    /** The part of maybeEnsureOutputEnabled after the pending re-arm. */
    method DiagnoseOutput(now: int, dev: Status, desired: int, smoothed: real, ok: bool) returns (handled: bool, failed: bool)
      modifies this, escalation
      ensures history == old(history)
      ensures var r := Diagnose(cfg, old(State()), now, dev, desired, smoothed, ok);
              State() == r.st && Reports(r.verdict, handled, failed)
    {
      hide State, Escalate, DesiredSlot, Remedy, ClearRearm, ClearPending;
      Mirror();
      var slot, wanted := dev.slots[SlotIndex(cfg)], DesiredSlot(cfg, desired);
      var armed := slot.enabled && slot.watts > 0;
      var batteryContribution := dev.OutputWatts() - dev.SolarWatts();
      if batteryContribution > 0 || !armed || lastCommandWatts <= 0 {
        ResetEscalation();
        ClearStuckOutputRearm();
        if batteryContribution > 0 || (dev.output1Enabled == 1 && dev.output2Enabled == 1) {
          ClearPendingAuthorityPayload(OutputEnable(3));
        }
        return false, false;
      }
      if slot.enabled != wanted.enabled || slot.start != wanted.start || slot.end != wanted.end
         || (wanted.enabled && slot.watts != wanted.watts)
      {
        ResetEscalation();
        return false, false;
      }
      NoteBlockedCycle();
      handled, failed := EscalateOutput(now, dev, desired, smoothed, ok);
    }

    /** The rungs of maybeEnsureOutputEnabled above one more blocked cycle. */
    method EscalateOutput(now: int, dev: Status, desired: int, smoothed: real, ok: bool) returns (handled: bool, failed: bool)
      modifies this, escalation
      ensures history == old(history)
      ensures var r := Escalate(cfg, old(State()), now, dev, desired, smoothed, ok);
              State() == r.st && Reports(r.verdict, handled, failed)
    {
      hide State, StartRearm, NuclearRestart, Remedy;
      handled, failed := MaybeStartStuckOutputRearm(now, dev, desired, ok);
      if handled || failed {
        return;
      }
      handled, failed := MaybeNuclearRestartRecovery(now, smoothed, ok);
      if handled || failed {
        return;
      }
      Mirror();
      if escalation.blockedCycles < 2 {
        return false, false;
      }
      var published;
      handled, published, failed := PublishAuthorityPayload(now, None, OutputEnable(3), ForOutputEnable, ok);
      if handled {
        RecordEnableAttempt(now);
      }
    }

    method EnsureControlledSlot(now: int, observedAt: Option<int>, dev: Status, watts: int, ghost kind: Kind, ok: bool)
      returns (handled: bool, published: bool, failed: bool)
      modifies `authorityPendingPayload, `authorityPendingSince, `authorityPendingSeenAt, `log
      ensures var r := EnsureSlot(cfg, old(State()), now, observedAt, dev, watts, kind, ok);
              State() == r.st && Tells(r.outcome, handled, published, failed)
    {
      hide State, Remedy, SlotCommand, CurrentSlot, DesiredSlot, SlotMatches, ClearPending;
      var desired := DesiredSlot(cfg, watts);
      var current, cmd := BuildSlotPayload(dev, desired, false);
      if SlotMatches(current, desired) {
        ClearPendingAuthorityPayload(cmd);
        return false, false, false;
      }
      handled, published, failed := PublishAuthorityPayload(now, observedAt, cmd, kind, ok);
    }

    // ---- idle and fallback (fallback.go) ------------------------------------------------------------------

    method CommandIdle(now: int, observedAt: Option<int>, dev: Status, ok: bool) returns (failed: bool)
      modifies `authorityPendingPayload, `authorityPendingSince, `authorityPendingSeenAt, `log, `lastCommandWatts, `lastCommandTime
      ensures var r := ControlSpec.CommandIdle(cfg, old(State()), now, observedAt, dev, ok);
              State() == r.st && failed == r.verdict.Failed?
    {
      hide State, EnsureSlot;
      var handled, published;
      handled, published, failed := EnsureControlledSlot(now, observedAt, dev, 0, ForIdle, ok);
      if failed {
        return;
      }
      if handled {
        if published {
          RecordCommandedWatts(0, now);
        } else {
          NoteIdleWithoutPublish();
        }
        return;
      }
      NoteIdleWithoutPublish();
    }

    /** The part of fallback that leaves both regimes. */
    method LeaveRegimes(input: Input)
      requires topChargeIdle.cfg == cfg
      modifies topChargeIdle, escalation
      ensures State() == old(State()).(idle := FallbackIdle(cfg, old(State()), input), ladder := old(State()).ladder.Reset())
    {
      hide State, T.AfterReset, T.AfterBlock;
      var wasActive := ResetTopChargeIdle();
      if wasActive {
        BlockTopChargeIdle(input.resetNow);
      }
      ResetEscalation();
    }

    method Fallback(input: Input) returns (failed: bool)
      requires topChargeIdle.cfg == cfg
      modifies this, topChargeIdle, escalation
      ensures history == old(history)
      ensures var r := FallBack(cfg, old(State()), input);
              State() == r.st && failed == r.verdict.Failed?
    {
      hide State, SlotCommand, CurrentSlot, DisabledSlot, FallbackIdle, Log, RecordPublish;
      LeaveRegimes(input);
      Mirror();
      var base := ZERO_STATUS;
      if lastStatus.Some? {
        base := lastStatus.value;
      }
      var desired := DisabledSlot(cfg);
      var current, cmd := BuildSlotPayload(base, desired, false);
      if current == desired {
        NoteIdleWithoutPublish();
        return false;
      }
      Publish(input.publishedNow, cmd, ForFallback, input.publishOk);
      if !input.publishOk {
        return true;
      }
      RecordSuccessfulPublish(cmd, input.publishedNow, None);
      RecordCommandedWatts(0, input.publishedNow);
      return false;
    }

    // ---- normal control (step.go) ----------------------------------------------------------------------------

    method SuppressOrReassert(now: int, observedAt: Option<int>, dev: Status, ok: bool) returns (failed: bool)
      modifies `authorityPendingPayload, `authorityPendingSince, `authorityPendingSeenAt, `log, `lastCommandTime
      ensures var r := Reassert(cfg, old(State()), now, observedAt, dev, ok);
              State() == r.st && failed == r.verdict.Failed?
    {
      hide State, EnsureSlot;
      Mirror();
      var handled, published;
      handled, published, failed := EnsureControlledSlot(now, observedAt, dev, lastCommandWatts, ForReassert, ok);
      if failed {
        return;
      }
      if published {
        RecordReassertedCommand(now);
      }
    }

    /** The first part of publishNormalControl: the ramp, the export cut and the snap around the minimum. */
    method RampCommand(target: int, exporting: bool) returns (ramped: int)
      ensures ramped == Ramped(cfg, State().lastCommandWatts, target, exporting)
    {
      hide ApplyRamp;
      ramped := ApplyRamp(cfg, lastCommandWatts, target);
      if exporting && ramped > target {
        ramped := target;
      }
      if ramped > 0 && ramped < cfg.minOutputWatts {
        if target == 0 {
          ramped := 0;
        } else {
          ramped := cfg.minOutputWatts;
        }
      }
    }

    method PublishNormalControl(now: int, observedAt: Option<int>, dev: Status, smoothed: real, target: int, allowExport: bool, ok: bool)
      returns (failed: bool)
      modifies `authorityPendingPayload, `authorityPendingSince, `authorityPendingSeenAt, `log, `lastCommandWatts, `lastCommandTime
      ensures var r := NormalControl(cfg, old(State()), now, observedAt, dev, target, smoothed < 0.0 && !allowExport, ok);
              State() == r.st && failed == r.verdict.Failed?
    {
      hide State, Reassert, SlotCommand, DesiredSlot, Ramped, Abs, Log, RecordPublish, Commanded;
      Mirror();
      var exporting := smoothed < 0.0 && !allowExport;
      var ramped := RampCommand(target, exporting);
      var deltaThreshold := cfg.minCommandDelta;
      if exporting {
        deltaThreshold := cfg.minCommandDeltaExporting;
      }
      var delta := Abs(ramped - lastCommandWatts);
      if delta == 0 || delta < deltaThreshold {
        failed := SuppressOrReassert(now, observedAt, dev, ok);
        return;
      }
      var holdTimeActive := lastCommandTime.Some? && now - lastCommandTime.value < cfg.minHoldTime;
      var fastPathBypass := exporting && ramped < lastCommandWatts;
      if holdTimeActive && !fastPathBypass {
        failed := SuppressOrReassert(now, observedAt, dev, ok);
        return;
      }
      failed := PublishCommand(now, observedAt, dev, ramped, ok);
    }

    /** The last part of publishNormalControl: the write itself. */
    method PublishCommand(now: int, observedAt: Option<int>, dev: Status, ramped: int, ok: bool) returns (failed: bool)
      modifies `authorityPendingPayload, `authorityPendingSince, `authorityPendingSeenAt, `log, `lastCommandWatts, `lastCommandTime
      ensures var cmd := SlotCommand(cfg, dev, DesiredSlot(cfg, ramped), cfg.persistToFlash);
              var logged := Log(old(State()), now, cmd, ForNormal, ok);
              State() == (if ok then Commanded(RecordPublish(logged, cmd, now, observedAt), ramped, now) else logged) && failed == !ok
    {
      hide State, SlotCommand, DesiredSlot, CurrentSlot, Log, RecordPublish, Commanded;
      var _, cmd := BuildSlotPayload(dev, DesiredSlot(cfg, ramped), cfg.persistToFlash);
      Publish(now, cmd, ForNormal, ok);
      if !ok {
        return true;
      }
      RecordSuccessfulPublish(cmd, now, observedAt);
      RecordCommandedWatts(ramped, now);
      return false;
    }

    // ---- the step (step.go, highsoc.go, helpers.go) -------------------------------------------------------------

    method RememberStatus(dev: Status)
      modifies `lastStatus
      ensures State() == old(State()).(lastStatus := Some(dev))
    {
      lastStatus := Some(dev);
    }

    method UpdateSoCFloor(dev: Status)
      modifies `socFloorActive
      ensures State() == old(State()).(floorActive := FloorAfter(cfg, old(State()).floorActive, dev))
    {
      var softFloor := cfg.floorFallback;
      if dev.dod > 0 {
        softFloor := (100 - dev.dod) + cfg.floorMargin;
      }
      var resumeAt := softFloor + cfg.floorHysteresis;
      if dev.soc <= softFloor {
        socFloorActive := true;
      } else if dev.soc >= resumeAt {
        socFloorActive := false;
      }
    }

    method Smooth(watts: real) returns (r: real)
      modifies `smoothed, `hasSmoothed
      ensures State() == ControlSpec.Smooth(cfg, old(State()), watts) && r == State().smoothed
    {
      if !hasSmoothed {
        smoothed := watts;
        hasSmoothed := true;
        return watts;
      }
      smoothed := cfg.smoothingAlpha * watts + (1.0 - cfg.smoothingAlpha) * smoothed;
      return smoothed;
    }

    method ComputeTarget(dev: Status, smoothed: real) returns (target: int, stage: Stage)
      modifies `highSoCStage
      ensures stage == NextStage(cfg, old(State()).stage, dev.soc)
      ensures State() == old(State()).(stage := stage)
      ensures target == Target(cfg, State().source, stage, dev, smoothed)
    {
      hide Target;
      if !(highSoCStage == MaxOutput && dev.soc >= cfg.highSoCAggressive) {
        if dev.soc >= cfg.highSoCMax {
          highSoCStage := MaxOutput;
        } else if dev.soc >= cfg.highSoCAggressive {
          highSoCStage := Aggressive;
        } else if dev.soc >= cfg.highSoCNetZero {
          highSoCStage := NetZero;
        } else {
          highSoCStage := Inactive;
        }
      }
      stage := highSoCStage;
      target := Target(cfg, gridPowerSource, stage, dev, smoothed);
    }

    /** readGridSample: the sample and the time it was judged at, or nothing. */
    method ReadGridSample(input: Input) returns (grid: Grid)
      modifies `gridPowerSource
      ensures grid == ReadGrid(cfg, input)
      ensures State() == old(State()).(source := if grid.Grid? then grid.source else NoSource)
    {
      if input.primary.Sampled? && input.primaryNow - input.primary.at <= cfg.prometheusStaleAfter {
        gridPowerSource := Primary;
        return Grid(input.primary.watts, Primary, input.primaryNow);
      }
      if input.fallbackEnabled {
        if input.secondary.Sampled? && input.secondaryNow - input.secondary.at <= cfg.prometheusStaleAfter {
          gridPowerSource := Policy.Fallback;
          return Grid(input.secondary.watts, Policy.Fallback, input.secondaryNow);
        }
      }
      gridPowerSource := NoSource;
      return NoGrid;
    }

    /** Step up to both inputs; the rest is Regulate. */
    method Step(input: Input) returns (failed: bool)
      requires Valid()
      modifies this, topChargeIdle, escalation
      ensures Valid() && history == Extended(old(history), input)
      ensures State() == ControlSpec.Step(cfg, old(State()), input).st
      ensures failed == ControlSpec.Step(cfg, old(State()), input).failed
    {
      hide State, Control, FallBack, ReadStatus, ReadGrid, IsRun, Extended;
      ghost var before := history;
      ClearLog();
      var grid := ReadGridSample(input);
      if grid.NoGrid? {
        failed := Fallback(input);
      } else {
        var reading := ReadStatus(cfg, input, grid.now);
        match reading
        case Frozen => failed := false;
        case HardFail => failed := Fallback(input);
        case Reading(dev, receivedAt) =>
          failed := Regulate(grid.now, input.publishedNow, receivedAt, dev, grid.watts, input.publishOk);
      }
      Remember(input);
      ExtendedIsRun(before, input);
      EndsWithStep(before, input);
    }

    /** The part of Step after both inputs are in. */
    method Regulate(now: int, ghost end: int, observedAt: Option<int>, dev: Status, watts: real, ok: bool) returns (failed: bool)
      requires topChargeIdle.cfg == cfg
      modifies this, topChargeIdle, escalation
      ensures history == old(history)
      ensures var r := Control(cfg, old(State()), now, end, observedAt, dev, watts, ok);
              State() == r.st && failed == r.failed
    {
      hide ControlSpec.EnsureDeviceConfig, ControlSpec.EnsureSurplusFeedIn, ControlSpec.CommandIdle, Discharge, FloorAfter, ControlSpec.Smooth, T.AfterReset, State;
      RememberStatus(dev);
      UpdateSoCFloor(dev);
      var handled;
      handled, failed := EnsureDeviceConfig(now, observedAt, dev, ok);
      if handled || failed {
        return;
      }
      handled, failed := EnsureSurplusFeedIn(now, dev, ok);
      if handled || failed {
        return;
      }
      var average := Smooth(watts);
      assert socFloorActive == State().floorActive by { Mirror(); }
      if socFloorActive {
        failed := IdleBelowFloor(now, observedAt, dev, ok);
        return;
      }
      failed := DischargeControl(now, end, observedAt, dev, watts, average, ok);
    }

    method IdleBelowFloor(now: int, observedAt: Option<int>, dev: Status, ok: bool) returns (failed: bool)
      modifies this, topChargeIdle, escalation
      ensures history == old(history)
      ensures var s := old(State());
              var r := ControlSpec.CommandIdle(cfg, s.(idle := T.AfterReset(s.idle), ladder := s.ladder.Reset()), now, observedAt, dev, ok);
              State() == r.st && failed == r.verdict.Failed?
    {
      hide State, ControlSpec.CommandIdle, T.AfterReset;
      var _ := ResetTopChargeIdle();
      ResetEscalation();
      failed := CommandIdle(now, observedAt, dev, ok);
    }

    /** The part of Step above the SoC floor. */
    method DischargeControl(now: int, ghost end: int, observedAt: Option<int>, dev: Status, watts: real, smoothed: real, ok: bool)
      returns (failed: bool)
      requires topChargeIdle.cfg == cfg && smoothed == State().smoothed
      modifies this, topChargeIdle, escalation
      ensures history == old(history)
      ensures var r := Discharge(cfg, old(State()), now, end, observedAt, dev, watts, ok);
              State() == r.st && failed == r.failed
    {
      hide State, EnsureOutput, NormalControl, ControlSpec.CommandIdle, T.AfterReset, T.AfterUpdate, NextStage, Target;
      var target, stage := ComputeTarget(dev, smoothed);
      if stage.Active() {
        var _ := ResetTopChargeIdle();
      }
      var idle := UpdateTopChargeIdle(now, dev, watts, smoothed);
      if idle {
        ResetEscalation();
        failed := CommandIdle(now, observedAt, dev, ok);
        return;
      }
      var handled;
      handled, failed := MaybeEnsureOutputEnabled(now, dev, target, smoothed, ok);
      if handled || failed {
        return;
      }
      failed := PublishNormalControl(now, observedAt, dev, smoothed, target, stage.AllowExport(), ok);
    }

    /** The control loop: one step for each tick, whatever its result. */
    method Run(inputs: seq<Input>)
      requires Valid()
      modifies this, topChargeIdle, escalation
      ensures Valid() && history.ins == old(history).ins + inputs
    {
      hide Valid;
      var i := 0;
      while i < |inputs|
        invariant 0 <= i <= |inputs|
        invariant Valid() && history.ins == old(history).ins + inputs[..i]
      {
        var _ := Step(inputs[i]);
        i := i + 1;
      }
    }
  }

  lemma EndsWithStep(run: Run, input: Input)
    ensures var longer := Extended(run, input);
            longer.states[|longer.ins|] == Step(run.cfg, run.states[|run.ins|], input).st
  {
    hide Step;
  }

  /** In every state the object can reach, its command memory is what its accepted slot writes say. */
  lemma ObjectAgreesWithTrace(c: Controller)
    requires c.Valid() && Valid(c.cfg)
    ensures Agrees(c.history, |c.history.ins|, c.State())
  {
    hide Agrees, IsRun, Valid;
    MemoryAgreesWithTrace(c.history, |c.history.ins|);
  }
}
