/**
 Liveness of the escalation ladder: from the second blocked step on, every step that
 meets a stuck output answers it, by a re-arm, a restart or an output enable, and
 a restart is sent on exactly the first permitted step from max(3, N) on.
 */
module RunLiveness {
  import opened GoStrings
  import opened Protocol
  import opened Config
  import opened Policy
  import opened ControlSpec
  import opened StepEffects
  import opened StepShape
  import opened Runs
  import opened RunRates
  import opened RunLadder

  /** A status of an armed slot that is literally as wanted, without battery output. */
  predicate StuckStatus(cfg: Config, dev: Status, target: int)
  {
    var slot := dev.slots[SlotIndex(cfg)];
    && target > 0 && LiterallyWanted(cfg, dev, target) && slot.enabled && slot.watts > 0
    && dev.OutputWatts() - dev.SolarWatts() <= 0
  }

  /** The full-SoC signature, with no re-arm in the last cooldown. */
  predicate RearmOpen(cfg: Config, s: State, now: int, dev: Status, target: int)
  {
    RearmCandidate(cfg, dev, target) && (s.lastRearmAt.Some? ==> now - s.lastRearmAt.value >= RearmCooldown(cfg))
  }

  /** A restart is due once this blocked cycle is counted. */
  predicate DueNext(cfg: Config, s: State, now: int, smoothed: real)
  {
    RestartDue(cfg, s.(ladder := s.ladder.NoteBlockedCycle()), now, smoothed)
  }

  /** k stuck steps have been counted; an enable can only be on record from the second on. */
  predicate OnRung(s: State, k: int)
  {
    && s.ladder.blockedCycles == k && (s.ladder.lastEnableAttemptAt.Some? ==> k >= 2)
    && s.lastCommandWatts > 0 && !s.rearmPending
  }

  predicate Recorded(s: State, k: int) { k >= 2 ==> s.ladder.lastEnableAttemptAt.Some? }

  /** The enable is sent, or its echo is still awaited. */
  predicate Enables(m: State, r: State, now: int, ok: bool)
  {
    || r.log == [Attempt(now, OutputEnable(3), ForOutputEnable, ok)]
    || (r.log == [] && m.pending == Some(OutputEnable(3)))
  }

  /** The first stuck step is only counted. */
  lemma FirstRung(cfg: Config, m: State, now: int, dev: Status, target: int, smoothed: real, ok: bool)
    requires m.log == [] && OnRung(m, 0) && StuckStatus(cfg, dev, target)
    ensures var r := EnsureOutput(cfg, m, now, dev, target, smoothed, ok);
            r.verdict.Proceed? && r.st.log == [] && OnRung(r.st, 1)
  {
    hide Remedy, LiterallyWanted, RearmCandidate, SlotCommand;
  }

  /** Every later one without an open re-arm is answered by a restart that is due, or else by an output enable. */
  lemma HigherRung(cfg: Config, m: State, now: int, dev: Status, target: int, smoothed: real, k: int, ok: bool)
    requires m.log == [] && OnRung(m, k) && k >= 1 && StuckStatus(cfg, dev, target)
    requires !RearmOpen(cfg, m, now, dev, target)
    ensures var r := EnsureOutput(cfg, m, now, dev, target, smoothed, ok);
            && !r.verdict.Proceed?
            && if DueNext(cfg, m, now, smoothed) then
                 r.st.log == [Attempt(now, Restart, ForRestart, ok)] && OnRung(r.st, if ok then 0 else k + 1)
               else Enables(m, r.st, now, ok) && OnRung(r.st, k + 1) && (ok ==> Recorded(r.st, k + 1))
  {
    hide Remedy, LiterallyWanted, RearmCandidate, SlotCommand, RestartDue, RearmCooldown;
    var noted := m.(ladder := m.ladder.NoteBlockedCycle());
    RemedyOutcome(cfg, noted, now, None, OutputEnable(3), ForOutputEnable, ok);
  }

  /** And with an open re-arm by its disable. */
  lemma RearmRung(cfg: Config, m: State, now: int, dev: Status, target: int, smoothed: real, k: int, ok: bool)
    requires m.log == [] && OnRung(m, k) && k >= 1 && StuckStatus(cfg, dev, target)
    requires RearmOpen(cfg, m, now, dev, target)
    ensures var r := EnsureOutput(cfg, m, now, dev, target, smoothed, ok);
            var cmd := SlotCommand(cfg, dev, DisabledSlot(cfg), false);
            && !r.verdict.Proceed?
            && (r.st.log == [Attempt(now, cmd, ForRearmDisable, ok)] || (r.st.log == [] && m.pending == Some(cmd)))
  {
    hide Remedy, LiterallyWanted, RearmCandidate, SlotCommand, DisabledSlot, RearmCooldown;
    var noted := m.(ladder := m.ladder.NoteBlockedCycle());
    RemedyOutcome(cfg, noted, now, None, SlotCommand(cfg, dev, DisabledSlot(cfg), false), ForRearmDisable, ok);
  }

  /** Normal control towards a positive target keeps a positive command. */
  lemma StaysPositive(cfg: Config, s: State, now: int, observedAt: Option<int>, dev: Status, target: int, exporting: bool, ok: bool)
    requires s.log == [] && ValidWatts(cfg) && s.lastCommandWatts > 0 && target > 0
    requires Commandable(cfg, s.lastCommandWatts) && Commandable(cfg, target)
    ensures NormalControl(cfg, s, now, observedAt, dev, target, exporting, ok).st.lastCommandWatts > 0
    ensures NormalControl(cfg, s, now, observedAt, dev, target, exporting, ok).st.rearmPending == s.rearmPending
  {
    hide EnsureSlot, SlotCommand, DesiredSlot, Commandable, Ramped, Suppressed;
    RampedBetween(cfg, s.lastCommandWatts, target, exporting);
    EnsureSlotOutcome(cfg, s, now, observedAt, dev, s.lastCommandWatts, ForReassert, ok);
  }

  // ---- over runs -----------------------------------------------------------------------------------------

  /** A pending slot write is what the command memory says, and disables the slot while a re-arm is pending. */
  predicate PendingFits(cfg: Config, s: State)
  {
    s.pending.Some? && s.pending.value.TimedDischarge? && (s.lastCommandWatts != 0 || s.rearmPending) ==>
      Sets(cfg, s.pending.value, s.lastCommandWatts)
  }

  lemma {:induction false} PendingFitsMemory(run: Run, n: nat)
    requires IsRun(run) && n <= |run.ins| && Valid(run.cfg)
    ensures PendingFits(run.cfg, run.states[n])
  {
    hide Valid, Fits, Sets, Commandable;
    if n > 0 {
      PendingFitsMemory(run, n - 1);
      ValidHasWatts(run.cfg);
      SoundAt(run, n - 1);
      SoundAt(run, n);
      AttemptAt(run, n - 1);
    }
  }

  /** Step i meets a stuck output. */
  predicate StuckStep(run: Run, i: nat)
    requires i < |run.ins|
  {
    var c := run.cycles[i];
    ReachedOutput(c) && c.dev.Some? && StuckStatus(run.cfg, c.dev.value, c.target)
  }

  predicate RearmOpenAt(run: Run, i: nat)
    requires i < |run.ins|
  {
    run.cycles[i].dev.Some?
    && RearmOpen(run.cfg, run.states[i], run.cycles[i].now, run.cycles[i].dev.value, run.cycles[i].target)
  }

  predicate DueAt(run: Run, i: nat)
    requires i < |run.ins|
  {
    DueNext(run.cfg, run.states[i], run.cycles[i].now, run.cycles[i].smoothed)
  }

  /** What a stuck step on rung k publishes. The first leaves the step to normal control. */
  predicate Answered(run: Run, i: nat, k: int)
    requires i < |run.ins|
  {
    var a := Tried(run, i);
    if k == 0 then a.Some? ==> a.value.kind.ForNormal? || a.value.kind.ForReassert?
    else if RearmOpenAt(run, i) then a.Some? && a.value.kind.ForRearmDisable? && Commands(run.cfg, a.value.cmd, 0)
    else if DueAt(run, i) then a.Some? && a.value.cmd == Restart
    else if a.Some? then a.value.cmd == OutputEnable(3)
    else run.states[i].pending == Some(OutputEnable(3))
  }

  /** A stuck step, whatever the configuration permits and whatever the broker answers. */
  lemma StuckStepAnswered(run: Run, i: nat, k: nat)
    requires IsRun(run) && i < |run.ins| && Valid(run.cfg) && StuckStep(run, i) && OnRung(run.states[i], k)
    ensures Answered(run, i, k)
    ensures k == 0 || !RearmOpenAt(run, i) ==> OnRung(run.states[i + 1], if SentSel(run, i, Restarts) then 0 else k + 1)
    ensures k >= 1 && !RearmOpenAt(run, i) && !DueAt(run, i) && run.ins[i].publishOk ==> Recorded(run.states[i + 1], k + 1)
  {
    hide Step, Valid, StuckStatus, Effect, Target, Commandable, EnsureOutput, NormalControl, FloorAfter, RearmOpen, DueNext,
      PendingFits, SlotCommand, DisabledSlot, Sets, Commands, DesiredSlot;
    ValidHasWatts(run.cfg);
    var s, c, ok := run.states[i], run.cycles[i], run.ins[i].publishOk;
    var dev := c.dev.value;
    SoundAt(run, i);
    EffectAt(run, i);
    StepTaken(run, i);
    var m, observedAt := StepRoute(run.cfg, s, run.ins[i]);
    SameRung(run.cfg, s, m, c.now, dev, c.target, c.smoothed, k);
    if Tried(run, i).Some? {
      AttemptFitsKind(run, i);
    }
    if k == 0 {
      FirstRung(run.cfg, m, c.now, dev, c.target, c.smoothed, ok);
      assert Commandable(run.cfg, c.target);
      OutputEffect(run.cfg, m, c.now, dev, c.target, c.smoothed, ok);
      var output := EnsureOutput(run.cfg, m, c.now, dev, c.target, c.smoothed, ok).st;
      PositiveTarget(run.cfg, dev, c.target);
      NormalSensors(run.cfg, output, c.now, observedAt, dev, c.target, Exporting(c), ok);
      NormalKinds(run.cfg, output, c.now, observedAt, dev, c.target, Exporting(c), ok);
      StaysPositive(run.cfg, output, c.now, observedAt, dev, c.target, Exporting(c), ok);
    } else if RearmOpenAt(run, i) {
      RearmRung(run.cfg, m, c.now, dev, c.target, c.smoothed, k, ok);
      PendingFitsMemory(run, i);
      NotDisablePending(run.cfg, s, dev);
      StopCommands(run.cfg, SlotCommand(run.cfg, dev, DisabledSlot(run.cfg), false));
    } else {
      HigherRung(run.cfg, m, c.now, dev, c.target, c.smoothed, k, ok);
    }
  }

  lemma SameRung(cfg: Config, s: State, m: State, now: int, dev: Status, target: int, smoothed: real, k: int)
    requires EntersOutput(cfg, s, m, dev)
    ensures OnRung(s, k) <==> OnRung(m, k)
    ensures RearmOpen(cfg, s, now, dev, target) <==> RearmOpen(cfg, m, now, dev, target)
    ensures DueNext(cfg, s, now, smoothed) <==> DueNext(cfg, m, now, smoothed)
    ensures m.pending.Some? ==> m.pending == s.pending
  {
    hide FloorAfter, RearmCandidate, RearmCooldown;
  }

  /** With a command standing, no disable of the controlled slot is pending. */
  lemma NotDisablePending(cfg: Config, s: State, dev: Status)
    requires PendingFits(cfg, s) && s.lastCommandWatts > 0
    ensures var cmd := SlotCommand(cfg, dev, DisabledSlot(cfg), false);
            s.pending != Some(cmd) && Sets(cfg, cmd, 0)
  {
    hide NormaliseTime;
    SlotCommandSets(cfg, dev, 0, false);
  }

  lemma PositiveTarget(cfg: Config, dev: Status, target: int)
    requires StuckStatus(cfg, dev, target)
    ensures target > 0
  {
  }

  /** The rung before step i: the stuck steps since start, or since the last accepted restart. */
  function Rung(run: Run, start: nat, i: nat): nat
    requires start <= i <= |run.ins|
  {
    if i == start then 0 else if SentSel(run, i - 1, Restarts) then 0 else Rung(run, start, i - 1) + 1
  }

  /** Every step from start up to i is stuck, and none before i found a re-arm open. */
  ghost predicate StuckFrom(run: Run, start: nat, i: nat)
    requires start <= i < |run.ins|
  {
    && (forall j: nat :: start <= j <= i ==> StuckStep(run, j))
    && (forall j: nat :: start <= j < i ==> Rung(run, start, j) == 0 || !RearmOpenAt(run, j))
  }

  /**
   From a cleared ladder, while the output stays stuck: the first step is counted,
   and every later one is answered by the disable of an open re-arm, else by a
   restart that is due, else by cd=18 or its awaited echo. Nothing is asked of the
   restart opt-ins, of the grid or of the broker.
   */
  lemma {:induction false} EveryStuckStepAnswered(run: Run, start: nat, i: nat)
    requires IsRun(run) && Valid(run.cfg) && start <= i < |run.ins|
    requires OnRung(run.states[start], 0) && StuckFrom(run, start, i)
    ensures OnRung(run.states[i], Rung(run, start, i))
    ensures Answered(run, i, Rung(run, start, i))
    decreases i
  {
    hide Valid, StuckStep, OnRung, Answered, RearmOpenAt, SentSel;
    if i > start {
      EveryStuckStepAnswered(run, start, i - 1);
      StuckStepAnswered(run, i - 1, Rung(run, start, i - 1));
    }
    StuckStepAnswered(run, i, Rung(run, start, i));
  }

  /** The blocked step on which a permitted restart is due. */
  function DueStep(cfg: Config): int { Max(3, RequiredBlockedCycles(cfg)) }

  /** What a restart asks for besides blocked steps and a recorded enable. */
  predicate RestartAllowed(cfg: Config, s: State, now: int, smoothed: real)
  {
    && cfg.nuclearRestartEnabled && cfg.nuclearRestartAck && smoothed > cfg.importBiasWatts as real
    && !s.ladder.RestartRateLimited(now, cfg.nuclearRestartMinInterval)
  }

  predicate RestartAllowedAt(run: Run, i: nat)
    requires i < |run.ins|
  {
    RestartAllowed(run.cfg, run.states[i], run.cycles[i].now, run.cycles[i].smoothed)
  }

  lemma DueExactly(run: Run, i: nat, k: nat)
    requires i < |run.ins| && OnRung(run.states[i], k) && Recorded(run.states[i], k)
    ensures DueAt(run, i) <==> k + 1 >= DueStep(run.cfg) && RestartAllowedAt(run, i)
  {
  }

  /** With every publish accepted, an enable is on record from the third stuck step on. */
  lemma {:induction false} EnablesRecorded(run: Run, start: nat, i: nat)
    requires IsRun(run) && Valid(run.cfg) && start <= i < |run.ins|
    requires OnRung(run.states[start], 0) && StuckFrom(run, start, i)
    requires forall j: nat :: start <= j < i ==> run.ins[j].publishOk
    ensures Recorded(run.states[i], Rung(run, start, i))
    decreases i
  {
    hide Valid, StuckStep, OnRung, Answered, RearmOpenAt, DueAt;
    if i > start {
      EnablesRecorded(run, start, i - 1);
      EveryStuckStepAnswered(run, start, i - 1);
      StuckStepAnswered(run, i - 1, Rung(run, start, i - 1));
      DueIsSent(run, i - 1, Rung(run, start, i - 1));
    }
  }

  /** A due restart that the broker accepts was sent. */
  lemma DueIsSent(run: Run, i: nat, k: nat)
    requires IsRun(run) && i < |run.ins| && Valid(run.cfg) && Answered(run, i, k)
    ensures k >= 1 && !RearmOpenAt(run, i) && DueAt(run, i) && run.ins[i].publishOk ==> SentSel(run, i, Restarts)
  {
    hide Valid, RearmOpenAt, DueAt, Accepted, Quiet;
    ValidHasWatts(run.cfg);
    AttemptAt(run, i);
  }

  /**
   Bounded liveness under the opt-ins: from a cleared ladder with every publish
   accepted, a stuck step sends the restart exactly when it is at least the
   max(3, N)-th since the ladder was cleared, the restart is permitted, and no re-arm
   is open that goes first.
   */
  lemma LadderIsPrompt(run: Run, start: nat, i: nat)
    requires IsRun(run) && Valid(run.cfg) && start <= i < |run.ins|
    requires OnRung(run.states[start], 0) && StuckFrom(run, start, i)
    requires forall j: nat :: start <= j < i ==> run.ins[j].publishOk
    ensures Tried(run, i).Some? && Tried(run, i).value.cmd == Restart
            <==> Rung(run, start, i) + 1 >= DueStep(run.cfg) && RestartAllowedAt(run, i) && !RearmOpenAt(run, i)
  {
    hide Valid, StuckStep, OnRung, RearmOpenAt, RestartAllowedAt, DueAt, Recorded, Fits;
    var k := Rung(run, start, i);
    EveryStuckStepAnswered(run, start, i);
    EnablesRecorded(run, start, i);
    DueExactly(run, i, k);
    NoRestartOnFirst(run, i);
  }

  lemma NoRestartOnFirst(run: Run, i: nat)
    requires IsRun(run) && i < |run.ins| && Valid(run.cfg)
    ensures Tried(run, i).Some? && (Tried(run, i).value.kind.ForNormal? || Tried(run, i).value.kind.ForReassert?) ==>
              Tried(run, i).value.cmd != Restart
  {
    hide Valid, Accepted, Quiet, Commandable;
    ValidHasWatts(run.cfg);
    AttemptAt(run, i);
  }
}
