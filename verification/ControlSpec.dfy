/**
 One step of the discharge controller as a function on values: the specification
 that the methods of Controller are proved against, and that whole runs are
 proved about (internal/controller/step.go, authority.go, slotwrite.go, fallback.go).

 The environment of a step is its Input: query results, clock readings, device
 status, poll result, and whether the broker accepts the publish of this step.
 One answer is enough: Runs.OneAttemptPerStep proves that no step publishes twice.
 */
module ControlSpec {
  import opened GoStrings
  import opened Protocol
  import opened Config
  import opened Policy
  import T = TopCharge
  import E = Escalation

  // ---- what a step sees -------------------------------------------------------------------

  datatype Sample = QueryFailed | Sampled(watts: real, at: int)

  /** The four clock readings are in the order the code takes them. */
  datatype Input = Input(
    primary: Sample,
    primaryNow: int,
    fallbackEnabled: bool,
    secondary: Sample,
    secondaryNow: int,
    status: Status,
    receivedAt: Option<int>,
    poll: Option<Status>,
    resetNow: int,
    publishedNow: int,
    publishOk: bool)
  {
    predicate ClockRuns() { primaryNow <= secondaryNow <= resetNow <= publishedNow }
  }

  // ---- what a step leaves ------------------------------------------------------------------

  datatype Kind =
    | ForChargingMode | ForSurplus | ForIdle | ForFallback
    | ForRearmDisable | ForRearmEnable | ForRestart | ForOutputEnable
    | ForNormal | ForReassert

  /** One call of Publish on the control topic. */
  datatype Attempt = Attempt(at: int, cmd: Command, kind: Kind, ok: bool)

  /** The mutable fields of Controller; log holds the publish attempts of the step. */
  datatype State = State(
    source: GridSource,
    smoothed: real,
    hasSmoothed: bool,
    lastCommandWatts: int,
    lastCommandTime: Option<int>,
    pending: Option<Command>,
    pendingSince: Option<int>,
    pendingSeenAt: Option<int>,
    lastStatus: Option<Status>,
    floorActive: bool,
    idle: T.Machine,
    ladder: E.Ladder,
    stage: Stage,
    rearmPending: bool,
    rearmWatts: int,
    rearmStartedAt: Option<int>,
    lastRearmAt: Option<int>,
    lastSurplusAt: Option<int>,
    log: seq<Attempt>)

  const INITIAL := State(NoSource, 0.0, false, 0, None, None, None, None, None, false, T.INITIAL, E.INITIAL,
                         Inactive, false, 0, None, None, None, [])

  /** Whether a phase lets the step go on, ends it, or ends it with a publish error. */
  datatype Verdict = Proceed | Done | Failed

  datatype Ctl = Ctl(st: State, verdict: Verdict)

  // ---- slots (slotwrite.go) ----------------------------------------------------------------------

  function DisabledSlot(cfg: Config): Slot { Slot(false, cfg.scheduleStart, cfg.scheduleEnd, 0) }

  function DesiredSlot(cfg: Config, watts: int): Slot
  {
    var w := if watts < 0 then 0 else watts;
    Slot(w > 0, cfg.scheduleStart, cfg.scheduleEnd, w)
  }

  function CurrentSlot(cfg: Config, dev: Status): Slot { SlotsAsWriteSlots(dev)[SlotIndex(cfg)] }

  /** buildSlotPayload: the reported slots with the controlled one replaced. */
  function SlotCommand(cfg: Config, dev: Status, desired: Slot, flash: bool): Command
  {
    TimedDischarge(CanonicalSlots(SlotsAsWriteSlots(dev)[SlotIndex(cfg) := desired]), flash)
  }

  /** controlledSlotMatches. */
  predicate SlotMatches(current: Slot, desired: Slot)
  {
    && current.enabled == desired.enabled && current.start == desired.start && current.end == desired.end
    && (desired.enabled ==> current.watts == desired.watts)
  }

  // ---- bookkeeping of publishes (slotwrite.go) ---------------------------------------------------------

  function RecordPublish(s: State, cmd: Command, now: int, observedAt: Option<int>): State
  {
    s.(pending := Some(cmd), pendingSince := Some(now), pendingSeenAt := observedAt)
  }

  function ClearPending(s: State, cmd: Command): State
  {
    if s.pending == Some(cmd) then s.(pending := None, pendingSince := None, pendingSeenAt := None) else s
  }

  /** pendingEchoAwaited. */
  predicate EchoAwaited(cfg: Config, s: State, cmd: Command, now: int, observedAt: Option<int>)
  {
    && s.pending == Some(cmd) && s.pendingSince.Some?
    && (observedAt.None? || observedAt == s.pendingSeenAt)
    && now - s.pendingSince.value < AuthorityCooldown(cfg)
  }

  function Commanded(s: State, watts: int, at: int): State
  {
    s.(lastCommandWatts := watts, lastCommandTime := Some(at))
  }

  function Log(s: State, at: int, cmd: Command, kind: Kind, ok: bool): State
  {
    s.(log := s.log + [Attempt(at, cmd, kind, ok)])
  }

  datatype Outcome = Unneeded | Awaited | Published | Refused

  datatype Remedied = Remedied(st: State, outcome: Outcome)

  /** publishAuthorityPayloadWithOutcome. */
  function Remedy(cfg: Config, s: State, now: int, observedAt: Option<int>, cmd: Command, kind: Kind, ok: bool): Remedied
  {
    if EchoAwaited(cfg, s, cmd, now, observedAt) then Remedied(s, Awaited)
    else
      var logged := Log(s, now, cmd, kind, ok);
      if ok then Remedied(RecordPublish(logged, cmd, now, observedAt), Published) else Remedied(logged, Refused)
  }

  function VerdictOf(o: Outcome): Verdict { if o.Refused? then Failed else Done }

  // ---- authority phases (authority.go) -----------------------------------------------------------------

  function EnsureDeviceConfig(cfg: Config, s: State, now: int, observedAt: Option<int>, dev: Status, ok: bool): Ctl
  {
    if dev.chargingMode == 0 then Ctl(ClearPending(s, ChargingMode(0)), Proceed)
    else
      var r := Remedy(cfg, s, now, observedAt, ChargingMode(0), ForChargingMode, ok);
      Ctl(r.st, VerdictOf(r.outcome))
  }

  /** Between two surplus writes: the configured interval, or 6 h in nanoseconds. */
  function SurplusInterval(cfg: Config): (d: int)
    ensures cfg.surplusRecoveryMinInterval > 0 ==> d == cfg.surplusRecoveryMinInterval
    ensures cfg.surplusRecoveryMinInterval <= 0 ==> d == 21_600_000_000_000
  {
    if cfg.surplusRecoveryMinInterval <= 0 then 6 * HOUR else cfg.surplusRecoveryMinInterval
  }

  function EnsureSurplusFeedIn(cfg: Config, s: State, now: int, dev: Status, ok: bool): Ctl
  {
    if !cfg.enforceSurplusFeedIn || dev.surplusFeedIn then Ctl(ClearPending(s, SurplusFeedIn(0)), Proceed)
    else if !cfg.allowFlashWrites then Ctl(s, Proceed)
    else if s.lastSurplusAt.Some? && now - s.lastSurplusAt.value < SurplusInterval(cfg) then Ctl(s, Proceed)
    else
      var r := Remedy(cfg, s, now, None, SurplusFeedIn(0), ForSurplus, ok);
      Ctl(if r.outcome.Published? then r.st.(lastSurplusAt := Some(now)) else r.st, VerdictOf(r.outcome))
  }

  function ClearRearm(s: State): State
  {
    s.(rearmPending := false, rearmWatts := 0, rearmStartedAt := None)
  }

  function LeaveBlocked(s: State): State { ClearRearm(s.(ladder := s.ladder.Reset())) }

  /** fullSoCStuckOutputCandidate. */
  predicate RearmCandidate(cfg: Config, dev: Status, desired: int)
  {
    desired > 0 && dev.soc >= 100 && dev.OutputWatts() <= NearZeroOutputWatts(cfg.minOutputWatts)
  }

  /** The slot is armed on the device, the controller commands power, and the battery gives none. */
  predicate Inert(cfg: Config, s: State, dev: Status)
  {
    var slot := dev.slots[SlotIndex(cfg)];
    dev.OutputWatts() - dev.SolarWatts() <= 0 && slot.enabled && slot.watts > 0 && s.lastCommandWatts > 0
  }

  /** The raw reported slot is literally the wanted one; ragged times such as 0:0 are not normalised here. */
  predicate LiterallyWanted(cfg: Config, dev: Status, desired: int)
  {
    var slot, wanted := dev.slots[SlotIndex(cfg)], DesiredSlot(cfg, desired);
    && slot.enabled == wanted.enabled && slot.start == wanted.start && slot.end == wanted.end
    && (wanted.enabled ==> slot.watts == wanted.watts)
  }

  /** maybeEnsureOutputEnabled. */
  function EnsureOutput(cfg: Config, s: State, now: int, dev: Status, desired: int, smoothed: real, ok: bool): Ctl
  {
    if desired <= 0 then Ctl(LeaveBlocked(s), Proceed)
    else if s.rearmPending && RearmCandidate(cfg, dev, desired) then CompleteRearm(cfg, s, now, dev, desired, ok)
    else Diagnose(cfg, if s.rearmPending then ClearRearm(s) else s, now, dev, desired, smoothed, ok)
  }

  function Diagnose(cfg: Config, s: State, now: int, dev: Status, desired: int, smoothed: real, ok: bool): Ctl
  {
    if !Inert(cfg, s, dev) then
      var healthy := dev.OutputWatts() - dev.SolarWatts() > 0 || (dev.output1Enabled == 1 && dev.output2Enabled == 1);
      Ctl(if healthy then ClearPending(LeaveBlocked(s), OutputEnable(3)) else LeaveBlocked(s), Proceed)
    else if !LiterallyWanted(cfg, dev, desired) then Ctl(s.(ladder := s.ladder.Reset()), Proceed)
    else Escalate(cfg, s.(ladder := s.ladder.NoteBlockedCycle()), now, dev, desired, smoothed, ok)
  }

  /** maybeCompleteStuckOutputRearm. */
  function CompleteRearm(cfg: Config, s: State, now: int, dev: Status, desired: int, ok: bool): (ctl: Ctl)
    ensures ctl.verdict != Proceed
  {
    if s.rearmStartedAt.None? || now - s.rearmStartedAt.value < cfg.controlInterval then Ctl(s, Done)
    else
      var r := Remedy(cfg, s, now, None, SlotCommand(cfg, dev, DesiredSlot(cfg, desired), false), ForRearmEnable, ok);
      if !r.outcome.Published? then Ctl(r.st, VerdictOf(r.outcome))
      else
        var s2 := ClearRearm(r.st);
        Ctl(Commanded(s2.(ladder := s2.ladder.RecordEnableAttempt(now)), desired, now), Done)
  }

  /** maybeStartStuckOutputRearm. */
  function StartRearm(cfg: Config, s: State, now: int, dev: Status, desired: int, ok: bool): Ctl
  {
    if s.ladder.blockedCycles < 2 || !RearmCandidate(cfg, dev, desired) then Ctl(s, Proceed)
    else if s.lastRearmAt.Some? && now - s.lastRearmAt.value < RearmCooldown(cfg) then Ctl(s, Proceed)
    else
      var r := Remedy(cfg, s, now, None, SlotCommand(cfg, dev, DisabledSlot(cfg), false), ForRearmDisable, ok);
      if !r.outcome.Published? then Ctl(r.st, VerdictOf(r.outcome))
      else
        var s2 := r.st.(rearmPending := true, rearmWatts := desired, rearmStartedAt := Some(now), lastRearmAt := Some(now),
                      ladder := r.st.ladder.RecordEnableAttempt(now));
        Ctl(Commanded(s2, 0, now), Done)
  }

  function RequiredBlockedCycles(cfg: Config): (n: int)
    ensures cfg.nuclearRestartBlockedCycles >= 1 ==> n == cfg.nuclearRestartBlockedCycles
    ensures cfg.nuclearRestartBlockedCycles <= 0 ==> n == 6
  {
    if cfg.nuclearRestartBlockedCycles <= 0 then 6 else cfg.nuclearRestartBlockedCycles
  }

  /** Everything maybeNuclearRestartRecovery asks for before it publishes cd=10. */
  predicate RestartDue(cfg: Config, s: State, now: int, smoothed: real)
  {
    && s.ladder.blockedCycles >= RequiredBlockedCycles(cfg)
    && s.ladder.lastEnableAttemptAt.Some?
    && smoothed > cfg.importBiasWatts as real
    && cfg.nuclearRestartEnabled && cfg.nuclearRestartAck
    && !s.ladder.RestartRateLimited(now, cfg.nuclearRestartMinInterval)
  }

  /** maybeNuclearRestartRecovery. */
  function NuclearRestart(cfg: Config, s: State, now: int, smoothed: real, ok: bool): Ctl
  {
    if !RestartDue(cfg, s, now, smoothed) then Ctl(s, Proceed)
    else
      var logged := Log(s, now, Restart, ForRestart, ok);
      if !ok then Ctl(logged, Failed)
      else Ctl(RecordPublish(logged.(ladder := logged.ladder.RecordRestart(now)), Restart, now, None), Done)
  }

  /** The rungs of the ladder above one more blocked cycle. */
  function Escalate(cfg: Config, s: State, now: int, dev: Status, desired: int, smoothed: real, ok: bool): Ctl
  {
    var rearm := StartRearm(cfg, s, now, dev, desired, ok);
    if !rearm.verdict.Proceed? then rearm
    else
      var restart := NuclearRestart(cfg, rearm.st, now, smoothed, ok);
      if !restart.verdict.Proceed? then restart
      else if restart.st.ladder.blockedCycles < 2 then restart
      else
        var r := Remedy(cfg, restart.st, now, None, OutputEnable(3), ForOutputEnable, ok);
        Ctl(if r.outcome.Refused? then r.st else r.st.(ladder := r.st.ladder.RecordEnableAttempt(now)), VerdictOf(r.outcome))
  }

  /** ensureControlledSlot: nothing to do, or one remedy. */
  function EnsureSlot(cfg: Config, s: State, now: int, observedAt: Option<int>, dev: Status, watts: int, kind: Kind, ok: bool): Remedied
  {
    var desired := DesiredSlot(cfg, watts);
    var cmd := SlotCommand(cfg, dev, desired, false);
    if SlotMatches(CurrentSlot(cfg, dev), desired) then Remedied(ClearPending(s, cmd), Unneeded)
    else Remedy(cfg, s, now, observedAt, cmd, kind, ok)
  }

  // ---- idle and fallback (fallback.go) ---------------------------------------------------------------------

  function CommandIdle(cfg: Config, s: State, now: int, observedAt: Option<int>, dev: Status, ok: bool): Ctl
  {
    var r := EnsureSlot(cfg, s, now, observedAt, dev, 0, ForIdle, ok);
    if r.outcome.Refused? then Ctl(r.st, Failed)
    else if r.outcome.Published? then Ctl(Commanded(r.st, 0, now), Done)
    else Ctl(r.st.(lastCommandWatts := 0), Done)
  }

  function FallbackIdle(cfg: Config, s: State, input: Input): T.Machine
  {
    if s.idle.active then T.AfterBlock(cfg, T.AfterReset(s.idle), input.resetNow) else T.AfterReset(s.idle)
  }

  function FallBack(cfg: Config, s: State, input: Input): Ctl
  {
    var s1 := s.(idle := FallbackIdle(cfg, s, input), ladder := s.ladder.Reset());
    var base := if s.lastStatus.Some? then s.lastStatus.value else ZERO_STATUS;
    var cmd := SlotCommand(cfg, base, DisabledSlot(cfg), false);
    if CurrentSlot(cfg, base) == DisabledSlot(cfg) then Ctl(s1.(lastCommandWatts := 0), Done)
    else
      var logged := Log(s1, input.publishedNow, cmd, ForFallback, input.publishOk);
      if !input.publishOk then Ctl(logged, Failed)
      else Ctl(Commanded(RecordPublish(logged, cmd, input.publishedNow, None), 0, input.publishedNow), Done)
  }

  // ---- normal control (step.go) -------------------------------------------------------------------------------

  predicate Holding(cfg: Config, s: State, now: int)
  {
    s.lastCommandTime.Some? && now - s.lastCommandTime.value < cfg.minHoldTime
  }

  /** Normal control keeps the last command: the change is too small, or it is too early. */
  predicate Suppressed(cfg: Config, s: State, now: int, target: int, exporting: bool)
  {
    var ramped := Ramped(cfg, s.lastCommandWatts, target, exporting);
    || DeltaSuppressed(cfg, s.lastCommandWatts, ramped, exporting)
    || (Holding(cfg, s, now) && !(exporting && ramped < s.lastCommandWatts))
  }

  /** suppressOrReassert. */
  function Reassert(cfg: Config, s: State, now: int, observedAt: Option<int>, dev: Status, ok: bool): Ctl
  {
    var r := EnsureSlot(cfg, s, now, observedAt, dev, s.lastCommandWatts, ForReassert, ok);
    if r.outcome.Published? then Ctl(r.st.(lastCommandTime := Some(now)), Done)
    else Ctl(r.st, VerdictOf(r.outcome))
  }

  /** publishNormalControl. */
  function NormalControl(cfg: Config, s: State, now: int, observedAt: Option<int>, dev: Status, target: int, exporting: bool, ok: bool): Ctl
  {
    if Suppressed(cfg, s, now, target, exporting) then Reassert(cfg, s, now, observedAt, dev, ok)
    else
      var ramped := Ramped(cfg, s.lastCommandWatts, target, exporting);
      var cmd := SlotCommand(cfg, dev, DesiredSlot(cfg, ramped), cfg.persistToFlash);
      var logged := Log(s, now, cmd, ForNormal, ok);
      if !ok then Ctl(logged, Failed)
      else Ctl(Commanded(RecordPublish(logged, cmd, now, observedAt), ramped, now), Done)
  }

  // ---- the step (step.go) -----------------------------------------------------------------------------------------

  function SoftFloor(cfg: Config, dev: Status): int
  {
    if dev.dod > 0 then 100 - dev.dod + cfg.floorMargin else cfg.floorFallback
  }

  function ResumeAt(cfg: Config, dev: Status): int { SoftFloor(cfg, dev) + cfg.floorHysteresis }

  /** updateSoCFloor. */
  function FloorAfter(cfg: Config, active: bool, dev: Status): bool
  {
    if dev.soc <= SoftFloor(cfg, dev) then true
    else if dev.soc >= ResumeAt(cfg, dev) then false
    else active
  }

  function Smooth(cfg: Config, s: State, watts: real): State
  {
    s.(smoothed := if s.hasSmoothed then Smoothed(cfg.smoothingAlpha, s.smoothed, watts) else watts, hasSmoothed := true)
  }

  predicate Fresh(cfg: Config, q: Sample, now: int)
  {
    q.Sampled? && now - q.at <= cfg.prometheusStaleAfter
  }

  datatype Grid = NoGrid | Grid(watts: real, source: GridSource, now: int)

  /** readGridSample, up to its fallback. */
  function ReadGrid(cfg: Config, input: Input): Grid
  {
    if Fresh(cfg, input.primary, input.primaryNow) then Grid(input.primary.watts, Primary, input.primaryNow)
    else if input.fallbackEnabled && Fresh(cfg, input.secondary, input.secondaryNow) then
      Grid(input.secondary.watts, Fallback, input.secondaryNow)
    else NoGrid
  }

  datatype Reading = Frozen | HardFail | Reading(dev: Status, receivedAt: Option<int>)

  /** readDeviceStatus, up to its fallback. */
  function ReadStatus(cfg: Config, input: Input, now: int): Reading
  {
    if input.receivedAt.Some? && now - input.receivedAt.value <= cfg.statusStaleAfter then
      Reading(input.status, input.receivedAt)
    else if input.poll.Some? then Reading(input.poll.value, Some(now))
    else if input.receivedAt.Some? && now - input.receivedAt.value > cfg.statusHardFailAfter then HardFail
    else Frozen
  }

  /** How far a step got. */
  datatype Reach =
    | NoSample | StatusFrozen | StatusLost
    | ConfigStep | SurplusStep | FloorIdle | TopIdle | OutputStep | NormalStep

  /** The record of one step: when it decided, how far it got, what it saw, and what it published. */
  datatype Cycle = Cycle(
    now: int,
    end: int,
    reach: Reach,
    dev: Option<Status>,
    raw: real,
    smoothed: real,
    stage: Stage,
    target: int,
    attempts: seq<Attempt>)
  {
    predicate Accepted(k: Kind) { exists i :: 0 <= i < |attempts| && attempts[i].ok && attempts[i].kind == k }

    /** The step computed a discharge target. */
    predicate Evaluated() { reach.TopIdle? || reach.OutputStep? || reach.NormalStep? }
  }

  datatype Stepped = Stepped(st: State, cycle: Cycle, failed: bool)

  function Finish(s: State, now: int, end: int, reach: Reach, dev: Option<Status>, raw: real, target: int, failed: bool): Stepped
  {
    Stepped(s, Cycle(now, end, reach, dev, raw, s.smoothed, s.stage, target, s.log), failed)
  }

  /** Step. */
  function Step(cfg: Config, s0: State, input: Input): Stepped
  {
    var s := s0.(log := []);
    var grid := ReadGrid(cfg, input);
    if grid.NoGrid? then
      var r := FallBack(cfg, s.(source := NoSource), input);
      Finish(r.st, input.resetNow, input.publishedNow, NoSample, None, 0.0, 0, r.verdict.Failed?)
    else
      var s1 := s.(source := grid.source);
      var reading := ReadStatus(cfg, input, grid.now);
      if reading.Frozen? then Finish(s1, grid.now, input.publishedNow, StatusFrozen, None, grid.watts, 0, false)
      else if reading.HardFail? then
        var r := FallBack(cfg, s1, input);
        Finish(r.st, input.resetNow, input.publishedNow, StatusLost, None, grid.watts, 0, r.verdict.Failed?)
      else Control(cfg, s1, grid.now, input.publishedNow, reading.receivedAt, reading.dev, grid.watts, input.publishOk)
  }

  /** The part of Step after both inputs are in. */
  function Control(cfg: Config, s: State, now: int, end: int, observedAt: Option<int>, dev: Status, watts: real, ok: bool): Stepped
  {
    var s1 := s.(lastStatus := Some(dev), floorActive := FloorAfter(cfg, s.floorActive, dev));
    var device := EnsureDeviceConfig(cfg, s1, now, observedAt, dev, ok);
    if !device.verdict.Proceed? then Finish(device.st, now, end, ConfigStep, Some(dev), watts, 0, device.verdict.Failed?)
    else
      var surplus := EnsureSurplusFeedIn(cfg, device.st, now, dev, ok);
      if !surplus.verdict.Proceed? then Finish(surplus.st, now, end, SurplusStep, Some(dev), watts, 0, surplus.verdict.Failed?)
      else
        var s2 := Smooth(cfg, surplus.st, watts);
        if s2.floorActive then
          var s3 := s2.(idle := T.AfterReset(s2.idle), ladder := s2.ladder.Reset());
          var r := CommandIdle(cfg, s3, now, observedAt, dev, ok);
          Finish(r.st, now, end, FloorIdle, Some(dev), watts, 0, r.verdict.Failed?)
        else Discharge(cfg, s2, now, end, observedAt, dev, watts, ok)
  }

  function IdleAfter(cfg: Config, s: State, stage: Stage, o: T.Obs): T.Machine
  {
    T.AfterUpdate(cfg, if stage.Active() then T.AfterReset(s.idle) else s.idle, o)
  }

  /** The part of Step above the SoC floor. */
  function Discharge(cfg: Config, s: State, now: int, end: int, observedAt: Option<int>, dev: Status, watts: real, ok: bool): Stepped
  {
    var stage := NextStage(cfg, s.stage, dev.soc);
    var target := Target(cfg, s.source, stage, dev, s.smoothed);
    var s1 := s.(stage := stage, idle := IdleAfter(cfg, s, stage, T.Obs(now, dev, watts, s.smoothed)));
    if s1.idle.active then
      var r := CommandIdle(cfg, s1.(ladder := s1.ladder.Reset()), now, observedAt, dev, ok);
      Finish(r.st, now, end, TopIdle, Some(dev), watts, target, r.verdict.Failed?)
    else
      var output := EnsureOutput(cfg, s1, now, dev, target, s1.smoothed, ok);
      if !output.verdict.Proceed? then Finish(output.st, now, end, OutputStep, Some(dev), watts, target, output.verdict.Failed?)
      else
        var exporting := s1.smoothed < 0.0 && !stage.AllowExport();
        var r := NormalControl(cfg, output.st, now, observedAt, dev, target, exporting, ok);
        Finish(r.st, now, end, NormalStep, Some(dev), watts, target, r.verdict.Failed?)
  }
}
