/**
 Liveness of the full-SoC re-arm: the disable comes on the second stuck step, and
 the first step that still shows the signature one control interval later
 re-enables the slot for the demand of that step (internal/controller/authority.go).
 */
module RunRearm {
  import opened GoStrings
  import opened Protocol
  import opened Config
  import opened Policy
  import opened ControlSpec
  import opened StepEffects
  import opened StepShape
  import opened Runs
  import opened RunRates
  import opened RunLadder
  import opened RunLiveness
  import T = TopCharge

  /** From a cleared ladder, the second stuck step with an open re-arm publishes the disable. */
  lemma DisableIsPrompt(run: Run, start: nat)
    requires IsRun(run) && Valid(run.cfg) && start + 1 < |run.ins| && OnRung(run.states[start], 0)
    requires StuckStep(run, start) && StuckStep(run, start + 1) && RearmOpenAt(run, start + 1)
    ensures var a := Tried(run, start + 1);
            && a.Some? && a.value.kind.ForRearmDisable? && Commands(run.cfg, a.value.cmd, 0)
            && (run.ins[start + 1].publishOk ==>
                  run.states[start + 2].rearmPending && run.states[start + 2].rearmStartedAt == Some(a.value.at))
  {
    hide Valid, StuckStep, OnRung, RearmOpenAt, Sets, Commands, Fits, Quiet;
    ValidHasWatts(run.cfg);
    StuckStepAnswered(run, start, 0);
    AttemptAt(run, start);
    NoRestartOnFirst(run, start);
    StuckStepAnswered(run, start + 1, 1);
    AttemptAt(run, start + 1);
  }

  // ---- a pending re-arm in one pass through maybeEnsureOutputEnabled ----------------------------------

  /** The start stamp is at least one control interval old. */
  predicate Ripe(cfg: Config, s: State, now: int)
  {
    s.rearmStartedAt.Some? && now - s.rearmStartedAt.value >= cfg.controlInterval
  }

  lemma CandidatePass(cfg: Config, m: State, now: int, dev: Status, target: int, smoothed: real, ok: bool)
    requires m.log == [] && Rearming(cfg, m, dev, target)
    ensures var r := EnsureOutput(cfg, m, now, dev, target, smoothed, ok);
            var cmd := SlotCommand(cfg, dev, DesiredSlot(cfg, target), false);
            && !r.verdict.Proceed?
            && (!Ripe(cfg, m, now) ==> r.st == m)
            && (Ripe(cfg, m, now) ==>
                  || (r.st.log == [] && m.pending == Some(cmd))
                  || (r.st.log == [Attempt(now, cmd, ForRearmEnable, ok)]
                      && (ok ==> !r.st.rearmPending && r.st.lastCommandWatts == target)))
  {
    hide Remedy, RearmCandidate, SlotCommand, DesiredSlot, Diagnose;
    PositiveCandidate(cfg, dev, target);
    RemedyOutcome(cfg, m, now, None, SlotCommand(cfg, dev, DesiredSlot(cfg, target), false), ForRearmEnable, ok);
  }

  /** With the slot disabled for the re-arm, no enabling write is pending. */
  lemma NotEnablePending(cfg: Config, s: State, dev: Status, target: int)
    requires PendingFits(cfg, s) && s.rearmPending && s.lastCommandWatts == 0 && target > 0
    ensures var cmd := SlotCommand(cfg, dev, DesiredSlot(cfg, target), false);
            s.pending != Some(cmd) && Sets(cfg, cmd, target)
  {
    hide NormaliseTime;
    SlotCommandSets(cfg, dev, target, false);
  }

  // ---- over runs ------------------------------------------------------------------------------------------

  /** Step j still shows the full-SoC signature. */
  predicate CandidateStep(run: Run, j: nat)
    requires j < |run.ins|
  {
    var c := run.cycles[j];
    ReachedOutput(c) && c.dev.Some? && RearmCandidate(run.cfg, c.dev.value, c.target)
  }

  predicate SameRearm(s: State, s': State)
  {
    s'.rearmPending == s.rearmPending && s'.rearmStartedAt == s.rearmStartedAt
  }

  /**
   With a re-arm pending, a step with the signature waits if the disable is younger
   than one control interval, and otherwise re-enables the slot for its own demand.
   */
  lemma CandidateStepExactly(run: Run, j: nat)
    requires IsRun(run) && Valid(run.cfg) && j < |run.ins| && CandidateStep(run, j) && run.states[j].rearmPending
    ensures var a, s', c := Tried(run, j), run.states[j + 1], run.cycles[j];
            if Ripe(run.cfg, run.states[j], c.now) then
              && a.Some? && a.value.kind.ForRearmEnable? && c.target > 0 && Commands(run.cfg, a.value.cmd, c.target)
              && (run.ins[j].publishOk ==> !s'.rearmPending && s'.lastCommandWatts == c.target)
            else a.None? && SameRearm(run.states[j], s')
  {
    hide Step, Valid, Effect, Target, Commandable, EnsureOutput, NormalControl, FloorAfter, PendingFits, SlotCommand, DesiredSlot,
      Sets, Commands, RearmCandidate;
    ValidHasWatts(run.cfg);
    var s, c := run.states[j], run.cycles[j];
    SoundAt(run, j);
    EffectAt(run, j);
    StepTaken(run, j);
    var m, observedAt := StepRoute(run.cfg, s, run.ins[j]);
    PositiveCandidate(run.cfg, c.dev.value, c.target);
    CandidatePass(run.cfg, m, c.now, c.dev.value, c.target, c.smoothed, run.ins[j].publishOk);
    PendingFitsMemory(run, j);
    NotEnablePending(run.cfg, s, c.dev.value, c.target);
    PendingStaysOrGoes(run.cfg, s, m, c.dev.value);
    assert Commandable(run.cfg, c.target);
    SetsCommands(run.cfg, SlotCommand(run.cfg, c.dev.value, DesiredSlot(run.cfg, c.target), false), c.target);
  }

  lemma PendingStaysOrGoes(cfg: Config, s: State, m: State, dev: Status)
    requires EntersOutput(cfg, s, m, dev)
    ensures m.pending.Some? ==> m.pending == s.pending
  {
    hide FloorAfter;
  }

  lemma RemedyRearm(cfg: Config, s: State, now: int, observedAt: Option<int>, cmd: Command, kind: Kind, ok: bool)
    ensures SameRearm(s, Remedy(cfg, s, now, observedAt, cmd, kind, ok).st)
  {
    hide *;
    RemedyCases(cfg, s, now, observedAt, cmd, kind, ok);
    LogRearm(s, now, cmd, kind, ok, observedAt);
  }

  lemma LogRearm(s: State, now: int, cmd: Command, kind: Kind, ok: bool, observedAt: Option<int>)
    ensures SameRearm(s, s) && SameRearm(s, Log(s, now, cmd, kind, ok))
    ensures SameRearm(s, RecordPublish(Log(s, now, cmd, kind, ok), cmd, now, observedAt))
  {
  }

  lemma IdleRearm(cfg: Config, s: State, now: int, observedAt: Option<int>, dev: Status, ok: bool)
    ensures SameRearm(s, CommandIdle(cfg, s, now, observedAt, dev, ok).st)
  {
    hide Remedy, SlotCommand, DesiredSlot, SlotMatches, CurrentSlot;
    RemedyRearm(cfg, s, now, observedAt, SlotCommand(cfg, dev, DesiredSlot(cfg, 0), false), ForIdle, ok);
  }

  lemma DischargeRearm(cfg: Config, s: State, now: int, end: int, observedAt: Option<int>, dev: Status, watts: real, ok: bool)
    ensures var r := Discharge(cfg, s, now, end, observedAt, dev, watts, ok);
            !ReachedOutput(r.cycle) ==> SameRearm(s, r.st)
  {
    hide CommandIdle, EnsureOutput, NormalControl, IdleAfter, NextStage, Target;
    var stage := NextStage(cfg, s.stage, dev.soc);
    var m := s.(stage := stage, idle := IdleAfter(cfg, s, stage, T.Obs(now, dev, watts, s.smoothed)));
    IdleRearm(cfg, m.(ladder := m.ladder.Reset()), now, observedAt, dev, ok);
  }

  lemma ControlRearm(cfg: Config, s: State, now: int, end: int, observedAt: Option<int>, dev: Status, watts: real, ok: bool)
    ensures var r := Control(cfg, s, now, end, observedAt, dev, watts, ok);
            !ReachedOutput(r.cycle) ==> SameRearm(s, r.st)
  {
    hide CommandIdle, Remedy, Discharge, FloorAfter, Smoothed, T.AfterReset;
    var s1 := s.(lastStatus := Some(dev), floorActive := FloorAfter(cfg, s.floorActive, dev));
    RemedyRearm(cfg, s1, now, observedAt, ChargingMode(0), ForChargingMode, ok);
    var device := EnsureDeviceConfig(cfg, s1, now, observedAt, dev, ok);
    RemedyRearm(cfg, device.st, now, None, SurplusFeedIn(0), ForSurplus, ok);
    var surplus := EnsureSurplusFeedIn(cfg, device.st, now, dev, ok);
    var s2 := Smooth(cfg, surplus.st, watts);
    IdleRearm(cfg, s2.(idle := T.AfterReset(s2.idle), ladder := s2.ladder.Reset()), now, observedAt, dev, ok);
    DischargeRearm(cfg, s2, now, end, observedAt, dev, watts, ok);
  }

  /** A step that does not reach the output check leaves a re-arm as it is. */
  lemma StepRearm(cfg: Config, s: State, input: Input)
    ensures var r := Step(cfg, s, input);
            !ReachedOutput(r.cycle) ==> SameRearm(s, r.st)
  {
    hide Control, Fresh, SlotCommand, DisabledSlot, CurrentSlot, FallbackIdle;
    var grid := ReadGrid(cfg, input);
    if grid.Grid? {
      var reading := ReadStatus(cfg, input, grid.now);
      if reading.Reading? {
        ControlRearm(cfg, s.(log := [], source := grid.source), grid.now, input.publishedNow,
          reading.receivedAt, reading.dev, grid.watts, input.publishOk);
      }
    }
  }

  /** Between an accepted disable and step j nothing ends the re-arm: each step has the signature too early, or does not get that far. */
  ghost predicate Waiting(run: Run, i: nat, j: nat)
    requires i < j <= |run.ins| && Sent(run, i).Some?
  {
    forall k: nat :: i < k < j ==>
      || !ReachedOutput(run.cycles[k])
      || (CandidateStep(run, k) && run.cycles[k].now - Sent(run, i).value.at < run.cfg.controlInterval)
  }

  lemma {:induction false} StillPending(run: Run, i: nat, j: nat)
    requires IsRun(run) && Valid(run.cfg) && i < j <= |run.ins|
    requires Sent(run, i).Some? && Sent(run, i).value.kind.ForRearmDisable? && Waiting(run, i, j)
    ensures run.states[j].rearmPending && run.states[j].rearmStartedAt == Some(Sent(run, i).value.at)
    decreases j
  {
    hide Step, Valid, CandidateStep, Fits, Quiet, Sets, Commandable;
    ValidHasWatts(run.cfg);
    if j == i + 1 {
      AttemptAt(run, i);
    } else {
      StillPending(run, i, j - 1);
      if ReachedOutput(run.cycles[j - 1]) {
        CandidateStepExactly(run, j - 1);
      } else {
        StepTaken(run, j - 1);
        StepRearm(run.cfg, run.states[j - 1], run.ins[j - 1]);
      }
    }
  }

  /** The first step with the signature at least one control interval after an accepted disable re-enables the slot for its demand. */
  lemma ReenableIsPrompt(run: Run, i: nat, j: nat)
    requires IsRun(run) && Valid(run.cfg) && i < j < |run.ins|
    requires Sent(run, i).Some? && Sent(run, i).value.kind.ForRearmDisable? && Waiting(run, i, j)
    requires CandidateStep(run, j) && run.cycles[j].now - Sent(run, i).value.at >= run.cfg.controlInterval
    ensures var a, s', c := Tried(run, j), run.states[j + 1], run.cycles[j];
            && a.Some? && a.value.kind.ForRearmEnable? && c.target > 0 && Commands(run.cfg, a.value.cmd, c.target)
            && (run.ins[j].publishOk ==> !s'.rearmPending && s'.lastCommandWatts == c.target)
  {
    hide Valid, CandidateStep, Commands, Waiting;
    StillPending(run, i, j);
    CandidateStepExactly(run, j);
  }

  /** Every re-enable is for the demand of its own step: the power remembered at the disable is never used. */
  lemma ReenableCommandsDemand(run: Run, j: nat)
    requires IsRun(run) && Valid(run.cfg) && j < |run.ins|
    requires Tried(run, j).Some? && Tried(run, j).value.kind.ForRearmEnable?
    ensures run.states[j].rearmPending && CandidateStep(run, j)
    ensures run.cycles[j].target > 0 && Commands(run.cfg, Tried(run, j).value.cmd, run.cycles[j].target)
  {
    hide Step, Valid, Sets, Commands, Accepted, Quiet, RearmCandidate;
    ValidHasWatts(run.cfg);
    AttemptAt(run, j);
    StepTaken(run, j);
    StepKinds(run.cfg, run.states[j], run.ins[j]);
    EffectAt(run, j);
    EnableIsCandidate(run, j);
    CandidateStepExactly(run, j);
  }

  lemma EnableIsCandidate(run: Run, j: nat)
    requires IsRun(run) && Valid(run.cfg) && j < |run.ins| && run.cycles[j].reach.OutputStep?
    requires Tried(run, j).Some? && Tried(run, j).value.kind.ForRearmEnable?
    ensures CandidateStep(run, j)
  {
    hide Step, Valid, Effect, Target, EnsureOutput, NormalControl, FloorAfter, RearmCandidate;
    ValidHasWatts(run.cfg);
    var s, c := run.states[j], run.cycles[j];
    EffectAt(run, j);
    StepTaken(run, j);
    var m, observedAt := StepRoute(run.cfg, s, run.ins[j]);
    NoEnableElsewhere(run.cfg, m, c.now, c.dev.value, c.target, c.smoothed, run.ins[j].publishOk);
  }

  lemma NoEnableElsewhere(cfg: Config, m: State, now: int, dev: Status, target: int, smoothed: real, ok: bool)
    requires m.log == []
    ensures TriedKind(EnsureOutput(cfg, m, now, dev, target, smoothed, ok).st, ForRearmEnable) ==> Rearming(cfg, m, dev, target)
  {
    hide Escalate, CompleteRearm, RearmCandidate, Inert, LiterallyWanted;
    var s1 := if m.rearmPending then ClearRearm(m) else m;
    EscalateNoEnable(cfg, s1.(ladder := s1.ladder.NoteBlockedCycle()), now, dev, target, smoothed, ok);
  }

  lemma EscalateNoEnable(cfg: Config, s: State, now: int, dev: Status, desired: int, smoothed: real, ok: bool)
    requires s.log == []
    ensures !TriedKind(Escalate(cfg, s, now, dev, desired, smoothed, ok).st, ForRearmEnable)
  {
    hide Remedy, SlotCommand, RestartDue, RearmCandidate, DisabledSlot, RearmCooldown;
    RemedyOutcome(cfg, s, now, None, SlotCommand(cfg, dev, DisabledSlot(cfg), false), ForRearmDisable, ok);
    RemedyOutcome(cfg, s, now, None, OutputEnable(3), ForOutputEnable, ok);
  }
}
