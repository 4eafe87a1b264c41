/**
 Two concrete runs that show findings at work: a device that reports its slot as
 0:0 and is never seen as blocked, and a single-sample debounce that lets
 top-charge idle in under an active high-SoC stage.
 */
module RunWitness {
  import opened GoStrings
  import opened Protocol
  import opened Config
  import opened Policy
  import opened ControlSpec
  import opened StepEffects
  import opened StepShape
  import opened Runs
  import opened RunRates
  import opened RunLadder
  import opened RunPolicy
  import opened RunFallback
  import opened RunIdle
  import opened RunSlots
  import opened Ramp
  import T = TopCharge

  const PLAIN := ZERO_CONFIG.(
    prometheusStaleAfter := MINUTE, statusStaleAfter := MINUTE, controlInterval := 15 * SECOND, minHoldTime := 15 * SECOND,
    smoothingAlpha := 1.0, importBiasWatts := 50, minCommandDelta := 25, minOutputWatts := 80, maxOutputWatts := 800,
    scheduleSlot := 1, scheduleStart := "00:00", scheduleEnd := "23:59",
    floorHysteresis := 3, floorFallback := 15, nearFullIdleEnabled := true, nearFullIdleEnterPercent := 100,
    nearFullIdleSamples := 1, enforceSurplusFeedIn := true,
    highSoCNetZero := 90, highSoCAggressive := 95, highSoCMax := 97, solarTraceFactor := 1.0, nuclearRestartBlockedCycles := 6)

  lemma PlainIsValid()
    ensures Valid(PLAIN)
  {
    hide IsValidTime;
    ClockTimes();
  }

  /** A fresh sample and a fresh status at the given time, with an accepting broker. */
  function At(now: int, watts: real, dev: Status): Input
  {
    Input(Sampled(watts, now), now, false, QueryFailed, now, dev, Some(now), None, now, now, true)
  }

  /** A device at half charge whose controlled slot is reported as given. */
  function HalfFull(slot: ReadSlot): Status
  {
    ZERO_STATUS.(soc := 50, surplusFeedIn := true, slots := ZERO_STATUS.slots[0 := slot])
  }

  // ---- a step on fresh inputs, away from floor and full charge -----------------------------------------

  /** A step of a run that sees such an input evaluates it. */
  lemma PlainStep(run: Run, i: nat, now: int, watts: real, dev: Status)
    requires IsRun(run) && run.cfg == PLAIN && i < |run.ins| && run.ins[i] == At(now, watts, dev)
    requires dev.chargingMode == 0 && dev.surplusFeedIn && dev.dod == 0 && dev.soc > 18
    ensures var c := run.cycles[i];
            c.Evaluated() && c.dev == Some(dev) && c.now == now && c.raw == watts && c.smoothed == watts
            && run.states[i + 1].smoothed == watts
  {
    hide Step, Effect, IsValidTime;
    StepTaken(run, i);
    FreshInputsDecide(run, i);
    DeviceSettingsFirst(run, i);
    StepReads(run.cfg, run.states[i], run.ins[i]);
    StepSensed(run.cfg, run.states[i], run.ins[i]);
    StepSignal(run.cfg, run.states[i], run.ins[i]);
    assert Smoothed(1.0, run.states[i].smoothed, watts) == watts;
  }

  // ---- single-sample debounce ---------------------------------------------------------------------------

  const FULL := ZERO_STATUS.(soc := 100, surplusFeedIn := true, solar1Watts := 100)

  /** With one sample of debounce, a first step at full charge is in the max stage and idles all the same. */
  lemma SingleSampleIdlesAtOnce(run: Run)
    requires IsRun(run) && run.cfg == PLAIN && run.ins == [At(0, 0.0, FULL)]
    ensures run.cycles[0].stage == MaxOutput && run.cycles[0].reach.TopIdle?
  {
    hide Step, IsValidTime, SensedIdle, SensedFloor, SensedLadder, SensedClock;
    PlainStep(run, 0, 0, 0.0, FULL);
    StepTaken(run, 0);
    StepSensed(run.cfg, run.states[0], run.ins[0]);
    ActiveStageIdlesExactly(run, 0);
  }

  lemma SuchARunExists()
    ensures IsRun(RunOf(PLAIN, [At(0, 0.0, FULL)]))
  {
    hide *;
    EveryInputRuns(PLAIN, [At(0, 0.0, FULL)]);
  }

  // ---- a stuck output behind ragged times ---------------------------------------------------------------

  const RAGGED := ReadSlot(true, "0:0", "23:59", 250)

  /** A device that imports 300 W, is armed for 250 W on the second step, reports 0:0 and gives nothing, for ever. */
  ghost predicate RaggedRun(run: Run)
  {
    && IsRun(run) && run.cfg == PLAIN
    && forall i: nat :: i < |run.ins| ==> RaggedAt(run, i)
  }

  predicate RaggedAt(run: Run, i: nat)
    requires i < |run.ins|
  {
    run.ins[i] == At(20 * SECOND * i, 300.0, HalfFull(if i == 0 then NO_SLOT else RAGGED))
  }

  lemma WantsPower(source: GridSource, slot: ReadSlot)
    ensures Target(PLAIN, source, Inactive, HalfFull(slot), 300.0) == 250
  {
    assert Round(300.0) == 300;
  }

  lemma NotFull(t: T.Machine, now: int, slot: ReadSlot)
    requires !t.active
    ensures !T.AfterUpdate(PLAIN, t, T.Obs(now, HalfFull(slot), 300.0, 300.0)).active
  {
  }

  /** Every step of such a run reaches the output check with a target of 250 W. */
  lemma RaggedStepReaches(run: Run, i: nat)
    requires RaggedRun(run) && i < |run.ins| && !run.states[i].idle.active
    ensures var c := run.cycles[i];
            ReachedOutput(c) && c.dev == Some(run.ins[i].status) && c.target == 250 && !Exporting(c) && c.now == 20 * SECOND * i
    ensures !run.states[i + 1].idle.active
  {
    hide Step, IsValidTime, SensedFloor, SensedLadder, SensedClock, T.AfterUpdate, EnsureOutput, NormalControl, Target, FloorAfter;
    assert RaggedAt(run, i);
    var slot := if i == 0 then NO_SLOT else RAGGED;
    PlainStep(run, i, 20 * SECOND * i, 300.0, HalfFull(slot));
    StepTaken(run, i);
    StepSensed(run.cfg, run.states[i], run.ins[i]);
    NotFull(run.states[i].idle, 20 * SECOND * i, slot);
    var m, observedAt := StepRoute(run.cfg, run.states[i], run.ins[i]);
    WantsPower(m.source, slot);
  }

  /** Without a command there is nothing to diagnose. */
  lemma NoCommandProceeds(cfg: Config, m: State, now: int, dev: Status, target: int, smoothed: real, ok: bool)
    requires m.lastCommandWatts == 0 && !m.rearmPending
    ensures EnsureOutput(cfg, m, now, dev, target, smoothed, ok).verdict.Proceed?
  {
    hide CompleteRearm, Escalate, LiterallyWanted;
  }

  /** The first step commands the 250 W. */
  lemma RaggedRunStarts(run: Run)
    requires RaggedRun(run) && |run.ins| > 0
    ensures run.states[1].lastCommandWatts == 250
  {
    hide Step, IsValidTime, EnsureOutput, NormalControl, FloorAfter, NextCommand;
    PlainIsValid();
    assert RaggedAt(run, 0);
    RaggedStepReaches(run, 0);
    StepTaken(run, 0);
    var m, observedAt := StepRoute(run.cfg, run.states[0], run.ins[0]);
    var c := run.cycles[0];
    NoCommandProceeds(run.cfg, m, c.now, c.dev.value, c.target, c.smoothed, true);
    FreeStepFollows(run, 0, 250);
    RampsAtOnce();
  }

  lemma RampsAtOnce()
    ensures NextCommand(PLAIN, 0, 250) == 250 && Ramped(PLAIN, 250, 250, false) == 250
  {
  }

  /** From the second step on the output is stuck on the wanted slot, and no step ever counts it or tries to rescue it. */
  lemma {:induction false} RaggedOutputIsNeverRescued(run: Run, i: nat)
    requires RaggedRun(run) && 0 < i < |run.ins|
    ensures run.states[i].lastCommandWatts == 250 && !run.states[i].idle.active
    ensures StuckAsWantedAt(run, i) && !BlockedStep(run, i)
    ensures run.states[i + 1].ladder.blockedCycles == 0
    ensures Tried(run, i).Some? ==> Tried(run, i).value.kind.ForNormal? || Tried(run, i).value.kind.ForReassert?
  {
    hide IsValidTime, StuckAsWantedAt, BlockedStep, RaggedRun, Tried;
    RaggedBefore(run, i);
    RaggedIsStuck(run, i);
    PlainIsValid();
    RaggedIsPlain(run);
    StuckAsWantedCountsExactly(run, i);
  }

  lemma RaggedIsPlain(run: Run)
    requires RaggedRun(run)
    ensures IsRun(run) && run.cfg == PLAIN
  {
  }

  lemma RaggedIsStuck(run: Run, i: nat)
    requires RaggedRun(run) && 0 < i < |run.ins| && run.states[i].lastCommandWatts == 250 && !run.states[i].idle.active
    ensures StuckAsWantedAt(run, i) && !BlockedStep(run, i)
  {
    hide IsValidTime, StuckAsWanted, Blocked;
    RaggedStepReaches(run, i);
    assert RaggedAt(run, i);
    RaggedReportNeverBlocks(run.cfg, run.states[i], run.cycles[i].dev.value, 250);
  }

  lemma {:induction false} RaggedBefore(run: Run, i: nat)
    requires RaggedRun(run) && 0 < i <= |run.ins|
    ensures run.states[i].lastCommandWatts == 250 && !run.states[i].idle.active
  {
    hide IsValidTime, StuckAsWantedAt, BlockedStep, NormalControl, RaggedRun, SlotCommand, Suppressed;
    PlainIsValid();
    RaggedIsPlain(run);
    if i == 1 {
      RaggedRunStarts(run);
      RaggedFromStart(run);
    } else {
      RaggedBefore(run, i - 1);
      RaggedIsStuck(run, i - 1);
      StuckAsWantedCountsExactly(run, i - 1);
      RaggedStepReaches(run, i - 1);
      var c := run.cycles[i - 1];
      var o, observedAt := NormalStepIs(run, i - 1);
      NormalControlMoves(run.cfg, o, c.now, observedAt, c.dev.value, c.target, Exporting(c), run.ins[i - 1].publishOk);
      AtTarget(o, c.now);
    }
  }

  lemma RaggedFromStart(run: Run)
    requires RaggedRun(run) && |run.ins| > 0
    ensures !run.states[1].idle.active
  {
    hide Step;
    RaggedStepReaches(run, 0);
  }

  lemma AtTarget(o: State, now: int)
    requires o.lastCommandWatts == 250
    ensures Suppressed(PLAIN, o, now, 250, false)
  {
    hide Ramped;
    RampsAtOnce();
  }

  function RaggedInputs(n: nat): (ins: seq<Input>)
    ensures |ins| == n
    ensures forall i: nat :: i < n ==> ins[i] == At(20 * SECOND * i, 300.0, HalfFull(if i == 0 then NO_SLOT else RAGGED))
  {
    if n == 0 then [] else RaggedInputs(n - 1) + [At(20 * SECOND * (n - 1), 300.0, HalfFull(if n == 1 then NO_SLOT else RAGGED))]
  }

  /** There are such runs, of every length. */
  lemma RaggedRunsExist(n: nat)
    ensures RaggedRun(RunOf(PLAIN, RaggedInputs(n))) && |RunOf(PLAIN, RaggedInputs(n)).ins| == n
  {
    hide IsRun, RunOf;
    EveryInputRuns(PLAIN, RaggedInputs(n));
  }
}
