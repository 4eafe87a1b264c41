/**
 The user's other four schedule slots over whole runs: every slot write carries
 them as the device last reported them (internal/controller/slotwrite.go, fallback.go).
 */
module RunSlots {
  import opened GoStrings
  import opened Protocol
  import opened Config
  import opened Policy
  import opened ControlSpec
  import opened StepEffects
  import opened StepShape
  import opened Runs
  import opened RunRates
  import opened RunLadder
  import T = TopCharge

  /**
   A slot write leaves every slot but the controlled one as base reports it, normalised,
   and gives the controlled one the configured times; the other payloads are fixed.
   */
  predicate KeepsOthers(cfg: Config, base: Status, cmd: Command)
  {
    match cmd
    case TimedDischarge(slots, _) =>
      && (forall k :: 0 <= k < 5 && k != SlotIndex(cfg) ==> slots[k] == Canonical(SlotsAsWriteSlots(base)[k]))
      && var mine := slots[SlotIndex(cfg)];
      mine == Canonical(Slot(mine.enabled, cfg.scheduleStart, cfg.scheduleEnd, mine.watts))
    case Restart => true
    case OutputEnable(mask) => mask == 3
    case ChargingMode(mode) => mode == 0
    case SurplusFeedIn(disabled) => disabled == 0
  }

  /** The same of the publish attempt of a phase, if it made one. */
  predicate Keeps(cfg: Config, base: Status, s: State) { s.log != [] ==> KeepsOthers(cfg, base, s.log[0].cmd) }

  lemma SlotCommandKeeps(cfg: Config, base: Status, watts: int, flash: bool)
    ensures KeepsOthers(cfg, base, SlotCommand(cfg, base, DesiredSlot(cfg, watts), flash))
    ensures DisabledSlot(cfg) == DesiredSlot(cfg, 0)
  {
    hide NormaliseTime;
  }

  lemma OthersKeep(cfg: Config, base: Status)
    ensures KeepsOthers(cfg, base, ChargingMode(0)) && KeepsOthers(cfg, base, SurplusFeedIn(0))
    ensures KeepsOthers(cfg, base, Restart) && KeepsOthers(cfg, base, OutputEnable(3))
  {
  }

  lemma AuthorityKeeps(cfg: Config, base: Status, s: State, now: int, observedAt: Option<int>, dev: Status, ok: bool)
    requires s.log == []
    ensures Keeps(cfg, base, EnsureDeviceConfig(cfg, s, now, observedAt, dev, ok).st)
    ensures Keeps(cfg, base, EnsureSurplusFeedIn(cfg, s, now, dev, ok).st)
  {
    hide Remedy, KeepsOthers;
    OthersKeep(cfg, base);
    RemedyOutcome(cfg, s, now, observedAt, ChargingMode(0), ForChargingMode, ok);
    RemedyOutcome(cfg, s, now, None, SurplusFeedIn(0), ForSurplus, ok);
  }

  lemma EnsureSlotKeeps(cfg: Config, s: State, now: int, observedAt: Option<int>, dev: Status, watts: int, kind: Kind, ok: bool)
    requires s.log == []
    ensures Keeps(cfg, dev, EnsureSlot(cfg, s, now, observedAt, dev, watts, kind, ok).st)
  {
    hide EnsureSlot, SlotCommand, DesiredSlot, KeepsOthers;
    EnsureSlotOutcome(cfg, s, now, observedAt, dev, watts, kind, ok);
    SlotCommandKeeps(cfg, dev, watts, false);
  }

  lemma IdleKeeps(cfg: Config, s: State, now: int, observedAt: Option<int>, dev: Status, ok: bool)
    requires s.log == []
    ensures Keeps(cfg, dev, CommandIdle(cfg, s, now, observedAt, dev, ok).st)
  {
    hide EnsureSlot, KeepsOthers;
    EnsureSlotKeeps(cfg, s, now, observedAt, dev, 0, ForIdle, ok);
  }

  /** What fallback preserves: the last status read, or nothing before the first one. */
  function BaseOf(s: State): Status { if s.lastStatus.Some? then s.lastStatus.value else ZERO_STATUS }

  lemma FallbackKeeps(cfg: Config, s: State, input: Input)
    requires s.log == []
    ensures Keeps(cfg, BaseOf(s), FallBack(cfg, s, input).st) && FallBack(cfg, s, input).st.lastStatus == s.lastStatus
  {
    hide SlotCommand, DisabledSlot, CurrentSlot, FallbackIdle, KeepsOthers;
    SlotCommandKeeps(cfg, BaseOf(s), 0, false);
  }

  lemma StartRearmKeeps(cfg: Config, s: State, now: int, dev: Status, desired: int, ok: bool)
    requires s.log == []
    ensures Keeps(cfg, dev, StartRearm(cfg, s, now, dev, desired, ok).st)
  {
    hide Remedy, SlotCommand, RearmCandidate, DisabledSlot, RearmCooldown, KeepsOthers;
    SlotCommandKeeps(cfg, dev, 0, false);
    RemedyOutcome(cfg, s, now, None, SlotCommand(cfg, dev, DisabledSlot(cfg), false), ForRearmDisable, ok);
  }

  lemma RestartKeeps(cfg: Config, base: Status, s: State, now: int, smoothed: real, ok: bool)
    requires s.log == []
    ensures Keeps(cfg, base, NuclearRestart(cfg, s, now, smoothed, ok).st)
  {
    hide RestartDue, KeepsOthers;
    OthersKeep(cfg, base);
  }

  lemma EscalateKeeps(cfg: Config, s: State, now: int, dev: Status, desired: int, smoothed: real, ok: bool)
    requires s.log == []
    ensures Keeps(cfg, dev, Escalate(cfg, s, now, dev, desired, smoothed, ok).st)
  {
    hide Remedy, StartRearm, NuclearRestart, KeepsOthers;
    OthersKeep(cfg, dev);
    StartRearmKeeps(cfg, s, now, dev, desired, ok);
    StartRearmMove(cfg, s, now, dev, desired, ok);
    RestartKeeps(cfg, dev, s, now, smoothed, ok);
    RestartEffect(cfg, s, now, smoothed, ok);
    RemedyOutcome(cfg, s, now, None, OutputEnable(3), ForOutputEnable, ok);
  }

  lemma OutputKeeps(cfg: Config, s: State, now: int, dev: Status, desired: int, smoothed: real, ok: bool)
    requires s.log == []
    ensures Keeps(cfg, dev, EnsureOutput(cfg, s, now, dev, desired, smoothed, ok).st)
  {
    hide Remedy, SlotCommand, Escalate, RearmCandidate, DesiredSlot, Inert, LiterallyWanted, KeepsOthers;
    SlotCommandKeeps(cfg, dev, desired, false);
    RemedyOutcome(cfg, s, now, None, SlotCommand(cfg, dev, DesiredSlot(cfg, desired), false), ForRearmEnable, ok);
    var s1 := if s.rearmPending then ClearRearm(s) else s;
    EscalateKeeps(cfg, s1.(ladder := s1.ladder.NoteBlockedCycle()), now, dev, desired, smoothed, ok);
  }

  lemma NormalKeeps(cfg: Config, s: State, now: int, observedAt: Option<int>, dev: Status, target: int, exporting: bool, ok: bool)
    requires s.log == []
    ensures Keeps(cfg, dev, NormalControl(cfg, s, now, observedAt, dev, target, exporting, ok).st)
  {
    hide EnsureSlot, SlotCommand, DesiredSlot, Suppressed, Ramped, KeepsOthers;
    EnsureSlotKeeps(cfg, s, now, observedAt, dev, s.lastCommandWatts, ForReassert, ok);
    SlotCommandKeeps(cfg, dev, Ramped(cfg, s.lastCommandWatts, target, exporting), cfg.persistToFlash);
  }

  lemma DischargeKeeps(cfg: Config, s: State, now: int, end: int, observedAt: Option<int>, dev: Status, watts: real, ok: bool)
    requires s.log == []
    ensures var r := Discharge(cfg, s, now, end, observedAt, dev, watts, ok);
            Keeps(cfg, dev, r.st) && r.st.lastStatus == s.lastStatus
  {
    hide CommandIdle, EnsureOutput, NormalControl, IdleAfter, NextStage, Target, KeepsOthers;
    var stage := NextStage(cfg, s.stage, dev.soc);
    var m := s.(stage := stage, idle := IdleAfter(cfg, s, stage, T.Obs(now, dev, watts, s.smoothed)));
    var target := Target(cfg, s.source, stage, dev, s.smoothed);
    if m.idle.active {
      var s1 := m.(ladder := m.ladder.Reset());
      IdleKeeps(cfg, s1, now, observedAt, dev, ok);
      IdleSensors(cfg, s1, now, observedAt, dev, ok);
    } else {
      OutputKeeps(cfg, m, now, dev, target, s.smoothed, ok);
      OutputSensors(cfg, m, now, dev, target, s.smoothed, ok);
      OutputKinds(cfg, m, now, dev, target, s.smoothed, ok);
      var output := EnsureOutput(cfg, m, now, dev, target, s.smoothed, ok);
      if output.verdict.Proceed? {
        var exporting := s.smoothed < 0.0 && !stage.AllowExport();
        NormalKeeps(cfg, output.st, now, observedAt, dev, target, exporting, ok);
        NormalSensors(cfg, output.st, now, observedAt, dev, target, exporting, ok);
      }
    }
  }

  lemma ControlKeeps(cfg: Config, s: State, now: int, end: int, observedAt: Option<int>, dev: Status, watts: real, ok: bool)
    requires s.log == []
    ensures var r := Control(cfg, s, now, end, observedAt, dev, watts, ok);
            Keeps(cfg, dev, r.st) && r.st.lastStatus == Some(dev)
  {
    hide CommandIdle, EnsureDeviceConfig, EnsureSurplusFeedIn, Discharge, FloorAfter, Smoothed, Effect, ClearPending, PendingKept,
      T.AfterReset, KeepsOthers;
    var s1 := s.(lastStatus := Some(dev), floorActive := FloorAfter(cfg, s.floorActive, dev));
    var device := EnsureDeviceConfig(cfg, s1, now, observedAt, dev, ok);
    AuthorityKeeps(cfg, dev, s1, now, observedAt, dev, ok);
    AuthoritySensors(cfg, s1, now, observedAt, dev, ok);
    DeviceConfigEffect(cfg, s1, now, observedAt, dev, ok);
    if device.verdict.Proceed? {
      var surplus := EnsureSurplusFeedIn(cfg, device.st, now, dev, ok);
      AuthorityKeeps(cfg, dev, device.st, now, observedAt, dev, ok);
      AuthoritySensors(cfg, device.st, now, observedAt, dev, ok);
      SurplusEffect(cfg, device.st, now, dev, ok);
      if surplus.verdict.Proceed? {
        var s2 := Smooth(cfg, surplus.st, watts);
        var s3 := s2.(idle := T.AfterReset(s2.idle), ladder := s2.ladder.Reset());
        IdleKeeps(cfg, s3, now, observedAt, dev, ok);
        IdleSensors(cfg, s3, now, observedAt, dev, ok);
        DischargeKeeps(cfg, s2, now, end, observedAt, dev, watts, ok);
      }
    }
  }

  /** A step remembers the status it read, and its write preserves the slots of that status, or of the last one. */
  lemma StepKeeps(cfg: Config, s: State, input: Input)
    ensures var r := Step(cfg, s, input);
            && r.st.lastStatus == (if r.cycle.dev.Some? then r.cycle.dev else s.lastStatus)
            && Keeps(cfg, BaseOf(r.st), r.st) && r.cycle.attempts == r.st.log
  {
    hide FallBack, Control, Fresh, KeepsOthers;
    var s0 := s.(log := []);
    var grid := ReadGrid(cfg, input);
    if grid.NoGrid? {
      FallbackKeeps(cfg, s0.(source := NoSource), input);
    } else {
      var s1 := s0.(source := grid.source);
      var reading := ReadStatus(cfg, input, grid.now);
      if reading.HardFail? {
        FallbackKeeps(cfg, s1, input);
      } else if reading.Reading? {
        ControlKeeps(cfg, s1, grid.now, input.publishedNow, reading.receivedAt, reading.dev, grid.watts, input.publishOk);
        ControlLog(cfg, s1, grid.now, input.publishedNow, reading.receivedAt, reading.dev, grid.watts, input.publishOk);
      }
    }
  }

  // ---- over runs ---------------------------------------------------------------------------------------

  /** The latest status that one of the first n steps read. */
  function LastRead(run: Run, n: nat): Option<Status>
    requires n <= |run.ins|
  {
    if n == 0 then None
    else if run.cycles[n - 1].dev.Some? then run.cycles[n - 1].dev
    else LastRead(run, n - 1)
  }

  lemma {:induction false} RemembersLastRead(run: Run, n: nat)
    requires IsRun(run) && n <= |run.ins|
    ensures run.states[n].lastStatus == LastRead(run, n)
  {
    hide Step, Keeps;
    if n > 0 {
      RemembersLastRead(run, n - 1);
      StepTaken(run, n - 1);
      StepKeeps(run.cfg, run.states[n - 1], run.ins[n - 1]);
    }
  }

  /**
   In every run, every slot write carries the other four slots as the latest status
   read so far reports them, this step's own included; only a fallback before any
   status was read has nothing to preserve.
   */
  lemma WritesKeepOtherSlots(run: Run, i: nat)
    requires IsRun(run) && i < |run.ins| && Tried(run, i).Some?
    ensures var read := LastRead(run, i + 1);
            && KeepsOthers(run.cfg, if read.Some? then read.value else ZERO_STATUS, Tried(run, i).value.cmd)
            && (read.None? && Tried(run, i).value.cmd.TimedDischarge? ==> Tried(run, i).value.kind.ForFallback?)
  {
    hide Step, KeepsOthers, SensedStage, SensedIdle, SensedLadder, SensedClock;
    RemembersLastRead(run, i + 1);
    StepTaken(run, i);
    StepKeeps(run.cfg, run.states[i], run.ins[i]);
    StepSensed(run.cfg, run.states[i], run.ins[i]);
    StepTaken(run, i);
    StepKinds(run.cfg, run.states[i], run.ins[i]);
  }

  /**
   The project's promise that other slots are preserved exactly as reported holds of
   a slot, in every write of every run, if and only if its reported times are padded
   and its reported watts lie in the range of the wire.
   */
  lemma OtherSlotKeptExactly(run: Run, i: nat, k: int)
    requires IsRun(run) && i < |run.ins| && 0 <= k < 5 && k != SlotIndex(run.cfg)
    requires Tried(run, i).Some? && Tried(run, i).value.cmd.TimedDischarge? && LastRead(run, i + 1).Some?
    ensures var reported := LastRead(run, i + 1).value.slots[k];
            Tried(run, i).value.cmd.slots[k] == AsReported(reported) <==> SurvivesAsReported(reported)
  {
    hide Canonical, SlotsAsWriteSlots, SurvivesAsReported, LastRead, Tried;
    WritesKeepOtherSlots(run, i);
    CarriedExactly(LastRead(run, i + 1).value, k);
  }

  // ---- comparing payload texts is comparing commands ---------------------------------------------------

  /** Every status came from the parser, which leaves only clean slot times. */
  ghost predicate CleanInputs(ins: seq<Input>)
  {
    forall i :: 0 <= i < |ins| ==> CleanStatus(ins[i].status) && (ins[i].poll.Some? ==> CleanStatus(ins[i].poll.value))
  }

  lemma StepReads(cfg: Config, s: State, input: Input)
    ensures var dev := Step(cfg, s, input).cycle.dev;
            dev.None? || dev == Some(input.status) || dev == input.poll
  {
    hide FallBack, Control, Fresh;
    var grid := ReadGrid(cfg, input);
    if grid.Grid? {
      var reading := ReadStatus(cfg, input, grid.now);
      if reading.Reading? {
        ControlLog(cfg, s.(log := [], source := grid.source), grid.now, input.publishedNow, reading.receivedAt, reading.dev,
          grid.watts, input.publishOk);
      }
    }
  }

  lemma {:induction false} LastReadIsClean(run: Run, n: nat)
    requires IsRun(run) && n <= |run.ins| && CleanInputs(run.ins)
    ensures LastRead(run, n).Some? ==> CleanStatus(LastRead(run, n).value)
  {
    hide Step, CleanStatus;
    if n > 0 {
      LastReadIsClean(run, n - 1);
      StepTaken(run, n - 1);
      StepReads(run.cfg, run.states[n - 1], run.ins[n - 1]);
    }
  }

  lemma KeptIsOnTheWire(cfg: Config, base: Status, cmd: Command)
    requires Valid(cfg) && CleanStatus(base) && KeepsOthers(cfg, base, cmd)
    ensures OnTheWire(cmd)
  {
    hide NormaliseTime, Clean, IsValidTime, NearZeroOutputWatts;
    if cmd.TimedDischarge? {
      ValidTimeIsClean(cfg.scheduleStart);
      ValidTimeIsClean(cfg.scheduleEnd);
      forall k | 0 <= k < 5
        ensures CleanSlot(cmd.slots[k]) && Canonical(cmd.slots[k]) == cmd.slots[k]
      {
        NormaliseTimeKeepsClean(base.slots[k].start);
        NormaliseTimeKeepsClean(base.slots[k].end);
      }
      assert CanonicalSlots(cmd.slots) == cmd.slots;
    }
  }

  lemma ZeroStatusIsClean()
    ensures CleanStatus(ZERO_STATUS)
  {
    hide IsSpace;
  }

  /** Every publish attempt of every run reads back from its text as itself. */
  lemma AttemptReadsBack(run: Run, i: nat)
    requires IsRun(run) && i < |run.ins| && Valid(run.cfg) && CleanInputs(run.ins) && Tried(run, i).Some?
    ensures OnTheWire(Tried(run, i).value.cmd)
    ensures Decode(Payload(Tried(run, i).value.cmd)) == Some(Tried(run, i).value.cmd)
  {
    hide *;
    ZeroStatusIsClean();
    LastReadIsClean(run, i + 1);
    WritesKeepOtherSlots(run, i);
    var read := LastRead(run, i + 1);
    KeptIsOnTheWire(run.cfg, if read.Some? then read.value else ZERO_STATUS, Tried(run, i).value.cmd);
    CommandRoundTrip(Tried(run, i).value.cmd);
  }

  /** The flash guard on the cd value that a reader of the text finds: 7 and 31 are the values that reach the flash. */
  lemma FlashGuardByCd(run: Run, i: nat)
    requires IsRun(run) && i < |run.ins| && Valid(run.cfg) && CleanInputs(run.ins) && Sent(run, i).Some?
    ensures var cd := IntField(KV(Payload(Sent(run, i).value.cmd)), "cd");
            && (cd == 7 || cd == 31 ==> run.cfg.allowFlashWrites)
            && (cd == 7 || cd == 20 <==> SentSel(run, i, Writes))
            && (cd == 10 <==> SentSel(run, i, Restarts)) && (cd == 31 <==> SentSel(run, i, Surpluses))
            && cd in {7, 10, 17, 18, 20, 31}
  {
    hide KV, Payload, Fits, Accepted, Quiet, Valid, OnTheWire, IntField, Decode, CleanInputs;
    ValidHasWatts(run.cfg);
    AttemptReadsBack(run, i);
    CdRead(Sent(run, i).value.cmd);
    FlashGuard(run, i);
    AttemptAt(run, i);
    AttemptFitsKind(run, i);
    FlashTexts(run.cfg, run.states[i], Sent(run, i).value);
    FlashByKind(run.cfg, run.states[i], Sent(run, i).value);
  }

  lemma FlashByKind(cfg: Config, s: State, a: Attempt)
    requires Fits(cfg, s, a) && Valid(cfg)
    ensures a.cmd.TimedDischarge? && a.cmd.flash ==> cfg.allowFlashWrites
    ensures a.cmd.SurplusFeedIn? ==> cfg.allowFlashWrites
  {
    hide Canonical, DesiredSlot, RearmCooldown, SurplusInterval, IsValidTime;
  }

  /**
   The pending-echo tests of the code compare payload texts. In every run the text
   of any command the controller could publish equals the pending text exactly when
   the commands are equal, so comparing commands, as the model does, is the same.
   */
  lemma PendingTextIsPendingCommand(run: Run, n: nat, base: Status, candidate: Command)
    requires IsRun(run) && n <= |run.ins| && Valid(run.cfg) && CleanInputs(run.ins) && run.states[n].pending.Some?
    requires CleanStatus(base) && KeepsOthers(run.cfg, base, candidate)
    ensures Payload(candidate) == Payload(run.states[n].pending.value)
            <==> candidate == run.states[n].pending.value
    ensures Payload(run.states[n].pending.value) != ""
  {
    hide Valid, CleanInputs, KeepsOthers, CleanStatus, OnTheWire, Payload, SentSel, Decode;
    PendingIsLastSent(run, n);
    LastSentIs(run, n, Any);
    AttemptReadsBack(run, LastSent(run, n, Any).value);
    KeptIsOnTheWire(run.cfg, base, candidate);
    EqualPayloads(run.states[n].pending.value, candidate);
  }
}
