/**
 The SoC floor, the hold time, the export fast path and the high-SoC stages over
 whole runs.
 */
module RunPolicy {
  import opened GoStrings
  import opened Protocol
  import opened Config
  import opened Policy
  import opened ControlSpec
  import opened StepEffects
  import opened StepShape
  import opened Runs
  import opened RunRates
  import T = TopCharge

  // ---- the SoC floor ---------------------------------------------------------------------------

  /**
   How far the charge is above the level at which discharge stops: the reserve of
   100 - DoD plus the margin, or the fallback level for a device that reports no DoD.
   */
  function Headroom(cfg: Config, dev: Status): int
  {
    if dev.dod > 0 then dev.soc - (100 - dev.dod) - cfg.floorMargin else dev.soc - cfg.floorFallback
  }

  /** A step that read a status at or above its own resume level. */
  predicate Resumes(cfg: Config, c: Cycle)
  {
    c.dev.Some? && Headroom(cfg, c.dev.value) >= cfg.floorHysteresis
  }

  predicate HitsFloor(cfg: Config, c: Cycle)
  {
    c.dev.Some? && Headroom(cfg, c.dev.value) <= 0
  }

  /** Step i hit the floor, and no step after it up to n resumed. */
  ghost predicate FlooredSince(run: Run, i: nat, n: nat)
    requires i < n <= |run.ins|
  {
    HitsFloor(run.cfg, run.cycles[i]) && forall k: nat :: i < k < n ==> !Resumes(run.cfg, run.cycles[k])
  }

  lemma FloorStep(run: Run, n: nat)
    requires IsRun(run) && 0 < n <= |run.ins|
    ensures run.states[n].floorActive
            <==> HitsFloor(run.cfg, run.cycles[n - 1])
                 || (run.states[n - 1].floorActive && !Resumes(run.cfg, run.cycles[n - 1]))
    ensures var c := run.cycles[n - 1];
            c.dev.Some? && !AuthorityFirst(c) ==> (c.reach.FloorIdle? <==> run.states[n].floorActive)
  {
    hide Step, SensedStage, SensedIdle, SensedLadder, SensedClock;
    StepTaken(run, n - 1);
    StepSensed(run.cfg, run.states[n - 1], run.ins[n - 1]);
  }

  /**
   The floor is active exactly from a status at or below it until the first one at its
   resume level, whatever the DoD does; a step that gets past the device settings then
   idles, and no other does.
   */
  lemma {:induction false} FloorIsHistory(run: Run, n: nat)
    requires IsRun(run) && n <= |run.ins|
    ensures run.states[n].floorActive <==> exists i: nat :: i < n && FlooredSince(run, i, n)
    ensures n > 0 && run.cycles[n - 1].dev.Some? && !AuthorityFirst(run.cycles[n - 1]) ==>
              (run.cycles[n - 1].reach.FloorIdle? <==> run.states[n].floorActive)
  {
    hide FlooredSince, HitsFloor, Resumes;
    if n > 0 {
      FloorIsHistory(run, n - 1);
      FloorStep(run, n);
      FlooredStarts(run, n);
      forall i: nat | i < n - 1
        ensures FlooredSince(run, i, n) <==> FlooredSince(run, i, n - 1) && !Resumes(run.cfg, run.cycles[n - 1])
      {
        FlooredStep(run, i, n);
      }
      if HitsFloor(run.cfg, run.cycles[n - 1]) {
        assert FlooredSince(run, n - 1, n);
      } else if run.states[n].floorActive {
        var i: nat :| i < n - 1 && FlooredSince(run, i, n - 1);
        assert FlooredSince(run, i, n);
      }
    } else {
      assert run.states[0] == INITIAL;
    }
  }

  lemma FlooredStarts(run: Run, n: nat)
    requires 0 < n <= |run.ins|
    ensures FlooredSince(run, n - 1, n) <==> HitsFloor(run.cfg, run.cycles[n - 1])
  {
  }

  lemma FlooredStep(run: Run, i: nat, n: nat)
    requires i < n - 1 && n <= |run.ins|
    ensures FlooredSince(run, i, n) <==> FlooredSince(run, i, n - 1) && !Resumes(run.cfg, run.cycles[n - 1])
  {
  }

  /** From a status at or below the floor on, the floor is active until one at its resume level. */
  lemma FloorHolds(run: Run, i: nat, j: nat)
    requires IsRun(run) && i <= j < |run.ins| && HitsFloor(run.cfg, run.cycles[i])
    requires forall k: nat :: i < k <= j ==> !Resumes(run.cfg, run.cycles[k])
    ensures run.states[j + 1].floorActive
  {
    hide HitsFloor, Resumes;
    FloorIsHistory(run, j + 1);
    assert FlooredSince(run, i, j + 1);
  }

  /** Publishes that start or enable discharge, or restart the device. */
  predicate Wakes(cfg: Config, cmd: Command)
  {
    || (cmd.TimedDischarge? && cmd.slots[SlotIndex(cfg)].enabled)
    || cmd.OutputEnable? || cmd.Restart?
  }

  /** Below the floor nothing is published that enables the controlled slot or an output, or restarts the device. */
  lemma NoDischargeBelowFloor(run: Run, i: nat, j: nat)
    requires IsRun(run) && Valid(run.cfg) && i <= j < |run.ins| && HitsFloor(run.cfg, run.cycles[i])
    requires forall k: nat :: i < k <= j ==> !Resumes(run.cfg, run.cycles[k])
    ensures Tried(run, j).Some? ==> !Wakes(run.cfg, Tried(run, j).value.cmd)
  {
    hide Step, SensedStage, SensedIdle, SensedLadder, SensedClock, Valid, HitsFloor, Resumes, Accepted, Quiet;
    FloorHolds(run, i, j);
    StepTaken(run, j);
    StepSensed(run.cfg, run.states[j], run.ins[j]);
    StepKinds(run.cfg, run.states[j], run.ins[j]);
    ValidHasWatts(run.cfg);
    EffectAt(run, j);
    AttemptAt(run, j);
  }

  /** After the resume level is reached, the step is past the floor again. */
  lemma ResumeEndsFloor(run: Run, j: nat)
    requires IsRun(run) && Valid(run.cfg) && j < |run.ins| && Resumes(run.cfg, run.cycles[j])
    ensures !run.states[j + 1].floorActive && !run.cycles[j].reach.FloorIdle?
  {
    hide Step, SensedStage, SensedIdle, SensedLadder, SensedClock;
    StepTaken(run, j);
    StepSensed(run.cfg, run.states[j], run.ins[j]);
  }

  // ---- the smoothed signal ------------------------------------------------------------------------------

  /** The smoothed signal stays within whatever bounds the samples stayed in. */
  lemma {:induction false} SignalWithinSamples(run: Run, n: nat, lo: real, hi: real)
    requires IsRun(run) && Valid(run.cfg) && n <= |run.ins|
    requires forall i: nat :: i < n && Samples(run.cycles[i]) ==> lo <= run.cycles[i].raw <= hi
    ensures run.states[n].hasSmoothed ==> lo <= run.states[n].smoothed <= hi
  {
    hide Step, Smoothed, IsValidTime;
    if n > 0 {
      SignalWithinSamples(run, n - 1, lo, hi);
      StepTaken(run, n - 1);
      StepSignal(run.cfg, run.states[n - 1], run.ins[n - 1]);
      SmoothedBetween(run.cfg.smoothingAlpha, run.states[n - 1].smoothed, run.cycles[n - 1].raw);
    }
  }

  function Power(x: real, n: nat): real { if n == 0 then 1.0 else x * Power(x, n - 1) }

  lemma ScaleAgain(x: real, p: real, d: real)
    ensures x * (p * d) == (x * p) * d
  {
  }

  /** The first sample starts the signal; while n samples show one power, the distance to it shrinks by the factor 1 - alpha each. */
  lemma {:induction false} SignalSettles(run: Run, i: nat, n: nat, watts: real)
    requires IsRun(run) && i + n <= |run.ins| && n > 0
    requires forall k: nat :: i <= k < i + n ==> Samples(run.cycles[k]) && run.cycles[k].raw == watts
    ensures var s, s' := run.states[i], run.states[i + n];
            && s'.hasSmoothed
            && (s.hasSmoothed ==> s'.smoothed - watts == Power(1.0 - run.cfg.smoothingAlpha, n) * (s.smoothed - watts))
            && (!s.hasSmoothed ==> s'.smoothed == watts)
    decreases n
  {
    hide Step, Smoothed, Samples;
    var rest, m := 1.0 - run.cfg.smoothingAlpha, i + n - 1;
    if n > 1 {
      SignalSettles(run, i, n - 1, watts);
    }
    StepTaken(run, m);
    StepSignal(run.cfg, run.states[m], run.ins[m]);
    SmoothedCloses(run.cfg.smoothingAlpha, run.states[m].smoothed, watts);
    var d := run.states[i].smoothed - watts;
    ScaleAgain(rest, Power(rest, n - 1), d);
    assert Power(rest, n) == rest * Power(rest, n - 1);
    if run.states[m].hasSmoothed && !run.states[i].hasSmoothed {
      assert rest * 0.0 == 0.0;
    }
  }

  // ---- hold time and export fast path ------------------------------------------------------------------

  /** Normal control of a step, from the command memory before the step. */
  lemma NormalStepIs(run: Run, i: nat) returns (o: State, observedAt: Option<int>)
    requires IsRun(run) && i < |run.ins| && Valid(run.cfg) && run.cycles[i].reach.NormalStep?
    ensures var c := run.cycles[i];
            && c.dev.Some? && Commandable(run.cfg, c.target)
            && o.log == [] && MemoryKept(run.states[i], o)
            && run.states[i + 1]
               == NormalControl(run.cfg, o, c.now, observedAt, c.dev.value, c.target, Exporting(c), run.ins[i].publishOk).st
  {
    hide Step, Valid, Effect, EnsureOutput, NormalControl, Target, FloorAfter, Commandable;
    ValidHasWatts(run.cfg);
    SoundAt(run, i);
    EffectAt(run, i);
    var m: State;
    StepTaken(run, i);
    m, observedAt := StepRoute(run.cfg, run.states[i], run.ins[i]);
    var c := run.cycles[i];
    assert Commandable(run.cfg, c.target);
    OutputEffect(run.cfg, m, c.now, c.dev.value, c.target, c.smoothed, run.ins[i].publishOk);
    o := EnsureOutput(run.cfg, m, c.now, c.dev.value, c.target, c.smoothed, run.ins[i].publishOk).st;
  }

  /** The target of a step is that of its stage, its status and its smoothed signal, for the source its sample came from. */
  lemma TargetOfStep(run: Run, i: nat)
    requires IsRun(run) && i < |run.ins| && ReachedOutput(run.cycles[i])
    ensures var c := run.cycles[i];
            c.dev.Some? && c.target == Target(run.cfg, run.states[i + 1].source, c.stage, c.dev.value, c.smoothed)
  {
    hide Step, EnsureOutput, NormalControl, Target, FloorAfter;
    StepTaken(run, i);
    var m, observedAt := StepRoute(run.cfg, run.states[i], run.ins[i]);
  }

  /**
   In every run: below the aggressive stage, a device that follows the target of a step
   leaves on the meter the import bias (none from the net-zero stage on), up to
   rounding; less only at the least output, more only at the greatest.
   */
  lemma StepAimsAtBias(run: Run, i: nat)
    requires IsRun(run) && i < |run.ins| && Valid(run.cfg) && ReachedOutput(run.cycles[i]) && run.states[i + 1].source == Primary
    requires run.cycles[i].stage == Inactive || run.cycles[i].stage == NetZero
    ensures run.cycles[i].dev.Some?
    ensures var c, dev := run.cycles[i], run.cycles[i].dev.value;
            var bias := if c.stage == NetZero then 0 else run.cfg.importBiasWatts;
            var after := c.smoothed - (c.target - (dev.output1Watts + dev.output2Watts)) as real;
            && (c.target < run.cfg.maxOutputWatts ==> after <= bias as real + 0.5)
            && (c.target > run.cfg.minOutputWatts ==> after >= bias as real - 0.5)
  {
    hide Valid, Target;
    ValidHasWatts(run.cfg);
    TargetOfStep(run, i);
    var c := run.cycles[i];
    TargetLeavesBias(run.cfg, Primary, c.stage, c.dev.value, c.smoothed);
  }

  lemma NormalControlMoves(cfg: Config, s: State, now: int, observedAt: Option<int>, dev: Status, target: int, exporting: bool, ok: bool)
    requires s.log == []
    ensures var s' := NormalControl(cfg, s, now, observedAt, dev, target, exporting, ok).st;
            var ramped := Ramped(cfg, s.lastCommandWatts, target, exporting);
            if Suppressed(cfg, s, now, target, exporting) then s'.lastCommandWatts == s.lastCommandWatts
            else s'.log == [Attempt(now, SlotCommand(cfg, dev, DesiredSlot(cfg, ramped), cfg.persistToFlash), ForNormal, ok)]
                 && s'.lastCommandWatts == (if ok then ramped else s.lastCommandWatts)
  {
    hide EnsureSlot, SlotCommand, DesiredSlot, Ramped, Suppressed;
    EnsureSlotOutcome(cfg, s, now, observedAt, dev, s.lastCommandWatts, ForReassert, ok);
  }

  /**
   Normal control changes the commanded power within MinHoldTime of the latest
   accepted slot write only to lower it, while exporting without leave to export.
   */
  lemma HoldTimeHolds(run: Run, i: nat)
    requires IsRun(run) && i < |run.ins| && Valid(run.cfg) && run.cycles[i].reach.NormalStep?
    requires run.states[i + 1].lastCommandWatts != run.states[i].lastCommandWatts
    requires var last := LastPublish(run, i, Writes);
             last.Some? && run.cycles[i].now - last.value.at < run.cfg.minHoldTime
    ensures Exporting(run.cycles[i])
    ensures run.states[i + 1].lastCommandWatts < run.states[i].lastCommandWatts
  {
    hide Valid, Ramped, SlotCommand, DesiredSlot, NormalControl, Sent, Commandable, Sets, DeltaSuppressed;
    MemoryAgreesWithTrace(run, i);
    var o, observedAt := NormalStepIs(run, i);
    var c := run.cycles[i];
    NormalControlMoves(run.cfg, o, c.now, observedAt, c.dev.value, c.target, Exporting(c), run.ins[i].publishOk);
  }

  /**
   The export fast path: while exporting without leave, a reduction of at least
   max(1, threshold) is written in the same step, as exactly the clamped target.
   */
  lemma ExportIsCutAtOnce(run: Run, i: nat)
    requires IsRun(run) && i < |run.ins| && Valid(run.cfg) && run.cycles[i].reach.NormalStep? && Exporting(run.cycles[i])
    requires run.states[i].lastCommandWatts - run.cycles[i].target >= Max(1, run.cfg.minCommandDeltaExporting)
    ensures var a, target := Tried(run, i), run.cycles[i].target;
            && a.Some? && a.value.kind.ForNormal? && Commands(run.cfg, a.value.cmd, target)
            && (run.ins[i].publishOk ==> run.states[i + 1].lastCommandWatts == target)
  {
    hide Valid, Ramped, SlotCommand, DesiredSlot, NormalControl, Commandable, Sets, Commands;
    ValidHasWatts(run.cfg);
    SoundAt(run, i);
    EffectAt(run, i);
    var o, observedAt := NormalStepIs(run, i);
    var c := run.cycles[i];
    NormalControlMoves(run.cfg, o, c.now, observedAt, c.dev.value, c.target, true, run.ins[i].publishOk);
    RampedBetween(run.cfg, o.lastCommandWatts, c.target, true);
    SlotCommandSets(run.cfg, c.dev.value, c.target, run.cfg.persistToFlash);
    SetsCommands(run.cfg, SlotCommand(run.cfg, c.dev.value, DesiredSlot(run.cfg, c.target), run.cfg.persistToFlash), c.target);
  }

  // ---- high-SoC stages ---------------------------------------------------------------------------------------

  predicate EvaluatedAt(run: Run, i: nat)
    requires i < |run.ins|
  {
    run.cycles[i].Evaluated() && run.cycles[i].dev.Some?
  }

  function SocAt(run: Run, i: nat): int
    requires i < |run.ins| && EvaluatedAt(run, i)
  {
    run.cycles[i].dev.value.soc
  }

  /** Step i reached the max threshold, and no evaluated step from i up to n fell below the aggressive one. */
  ghost predicate LatchedSince(run: Run, i: nat, n: nat)
    requires i < n <= |run.ins|
  {
    && EvaluatedAt(run, i) && SocAt(run, i) >= run.cfg.highSoCMax
    && forall k: nat :: i <= k < n && EvaluatedAt(run, k) ==> SocAt(run, k) >= run.cfg.highSoCAggressive
  }

  /** The stage is MaxOutput exactly when the history of evaluated statuses says it is latched. */
  lemma {:induction false} StageIsHistory(run: Run, n: nat)
    requires IsRun(run) && n <= |run.ins| && Valid(run.cfg)
    ensures run.states[n].stage == MaxOutput <==> exists i: nat :: i < n && LatchedSince(run, i, n)
  {
    hide LatchedSince, IsValidTime, StaysHigh, ReachesMax;
    if n > 0 {
      StageIsHistory(run, n - 1);
      LatchStarts(run, n);
      forall i: nat | i < n - 1
        ensures LatchedSince(run, i, n) <==> LatchedSince(run, i, n - 1) && StaysHigh(run, n - 1)
      {
        LatchStep(run, i, n);
      }
      StageStep(run, n);
      if ReachesMax(run, n - 1) {
        assert LatchedSince(run, n - 1, n);
      } else if run.states[n].stage == MaxOutput {
        var i: nat :| i < n - 1 && LatchedSince(run, i, n - 1);
        assert LatchedSince(run, i, n);
      }
    } else {
      assert run.states[0] == INITIAL;
    }
  }

  /** The evaluated status of step i, if it is one, is at or above the aggressive threshold. */
  predicate StaysHigh(run: Run, i: nat)
    requires i < |run.ins|
  {
    EvaluatedAt(run, i) ==> SocAt(run, i) >= run.cfg.highSoCAggressive
  }

  predicate ReachesMax(run: Run, i: nat)
    requires i < |run.ins|
  {
    EvaluatedAt(run, i) && SocAt(run, i) >= run.cfg.highSoCMax
  }

  lemma StageStep(run: Run, n: nat)
    requires IsRun(run) && 0 < n <= |run.ins| && Valid(run.cfg)
    ensures run.states[n].stage == MaxOutput
            <==> ReachesMax(run, n - 1) || (run.states[n - 1].stage == MaxOutput && StaysHigh(run, n - 1))
  {
    hide Step, SensedFloor, SensedIdle, SensedLadder, SensedClock, IsValidTime;
    StepTaken(run, n - 1);
    StepSensed(run.cfg, run.states[n - 1], run.ins[n - 1]);
  }

  /** Below the max stage, the stage is that of the latest evaluated status. */
  lemma LowerStagesFollowStatus(run: Run, i: nat)
    requires IsRun(run) && Valid(run.cfg) && i < |run.ins| && EvaluatedAt(run, i)
    requires run.states[i + 1].stage != MaxOutput
    ensures var stage, soc := run.states[i + 1].stage, SocAt(run, i);
            && stage == run.cycles[i].stage && soc < run.cfg.highSoCMax
            && (stage.AllowExport() <==> soc >= run.cfg.highSoCAggressive)
            && (stage.Active() <==> soc >= run.cfg.highSoCNetZero)
  {
    hide Step, SensedFloor, SensedIdle, SensedLadder, SensedClock, IsValidTime;
    StepTaken(run, i);
    StepSensed(run.cfg, run.states[i], run.ins[i]);
  }

  lemma LatchStep(run: Run, i: nat, n: nat)
    requires i < n - 1 && n <= |run.ins|
    ensures LatchedSince(run, i, n) <==> LatchedSince(run, i, n - 1) && StaysHigh(run, n - 1)
  {
  }

  lemma LatchStarts(run: Run, n: nat)
    requires 0 < n <= |run.ins| && run.cfg.highSoCAggressive <= run.cfg.highSoCMax
    ensures LatchedSince(run, n - 1, n) <==> ReachesMax(run, n - 1)
  {
  }
}
