/**
 Rate limits, the flash guard and the two-step re-arm over whole runs.
 */
module RunRates {
  import opened GoStrings
  import opened Protocol
  import opened Config
  import opened Policy
  import opened ControlSpec
  import opened StepEffects
  import opened StepShape
  import opened Runs

  /** The stamp a rate limit keeps for each kind of publish. */
  function Stamp(s: State, sel: Sel): Option<int>
    requires sel.RearmDisables? || sel.Surpluses? || sel.Restarts?
  {
    if sel.RearmDisables? then s.lastRearmAt
    else if sel.Surpluses? then s.lastSurplusAt
    else s.ladder.lastRestartAt
  }

  /** A stamp is the time of the latest accepted publish of its kind: failures never move it. */
  lemma {:induction false} StampIsLastSent(run: Run, n: nat, sel: Sel)
    requires IsRun(run)
    requires n <= |run.ins| && Valid(run.cfg) && (sel.RearmDisables? || sel.Surpluses? || sel.Restarts?)
    ensures Stamp(run.states[n], sel) == TimeOf(LastPublish(run, n, sel))
  {
    hide Tried, Sent, Fits, Sets, Valid, LastPublish;
    if n == 0 {
      NothingSentYet(run, sel);
    } else {
      StampIsLastSent(run, n - 1, sel);
      LastPublishStep(run, n, sel);
      assert ValidWatts(run.cfg) by { ValidHasWatts(run.cfg); }
      AttemptAt(run, n - 1);
      if Tried(run, n - 1).Some? {
        AttemptFitsKind(run, n - 1);
      }
    }
  }

  lemma ValidHasWatts(cfg: Config)
    requires Valid(cfg)
    ensures ValidWatts(cfg)
  {
  }

  /** Two accepted publishes of a kind are at least gap apart. */
  ghost predicate Spaced(run: Run, sel: Sel, gap: int)
  {
    forall i: nat, j: nat :: i < j < |run.ins| && SentSel(run, i, sel) && SentSel(run, j, sel) ==>
      Sent(run, j).value.at - Sent(run, i).value.at >= gap
  }

  lemma SpacedFromStamp(run: Run, sel: Sel, gap: int, i: nat, j: nat)
    requires IsRun(run)
    requires Valid(run.cfg) && Clocked(run.ins) && (sel.RearmDisables? || sel.Surpluses? || sel.Restarts?)
    requires i < j < |run.ins| && SentSel(run, i, sel) && SentSel(run, j, sel)
    requires Stamp(run.states[j], sel).Some? ==>
               Sent(run, j).value.at - Stamp(run.states[j], sel).value >= gap
    ensures Sent(run, j).value.at - Sent(run, i).value.at >= gap
  {
    hide Fits, Accepted, Quiet, Selects, Valid, Stamp, Clocked, AttemptTime;
    StampIsLastSent(run, j, sel);
    LastSentIs(run, j, sel);
    ValidHasWatts(run.cfg);
    var last := LastSent(run, j, sel).value;
    AttemptAt(run, i);
    AttemptAt(run, last);
    AttemptTimesOrdered(run, i, last);
  }

  // ---- the flash guard ------------------------------------------------------------------------------

  /** What a fitting attempt has on the wire: the two texts that reach the flash, and their conditions. */
  lemma FlashTexts(cfg: Config, s: State, a: Attempt)
    requires Fits(cfg, s, a)
    ensures "cd=7," <= Payload(a.cmd) <==> a.kind.ForNormal? && cfg.persistToFlash
    ensures "cd=31," <= Payload(a.cmd) <==> a.kind.ForSurplus?
    ensures a.kind.ForSurplus? ==> cfg.allowFlashWrites && cfg.enforceSurplusFeedIn
    ensures a.cmd.TimedDischarge? && !(a.kind.ForNormal? && cfg.persistToFlash) ==> "cd=20," <= Payload(a.cmd)
  {
    hide Payload, DesiredSlot, Canonical, RearmCooldown, SurplusInterval, Commandable;
    PayloadBeginnings(a.cmd);
  }

  /**
   Without AllowFlashWrites no accepted text begins with cd=7 or cd=31. A text beginning
   with cd=7 is published by normal control under PersistToFlash and nothing else, one
   beginning with cd=31 under the enforcement policy; every other slot write begins with cd=20.
   */
  lemma FlashGuard(run: Run, i: nat)
    requires IsRun(run) && i < |run.ins| && Valid(run.cfg) && Sent(run, i).Some?
    ensures var a, text := Sent(run, i).value, Payload(Sent(run, i).value.cmd);
            && ("cd=7," <= text || "cd=31," <= text ==> run.cfg.allowFlashWrites)
            && ("cd=7," <= text <==> a.kind.ForNormal? && run.cfg.persistToFlash)
            && ("cd=31," <= text <==> SentSel(run, i, Surpluses))
            && ("cd=31," <= text ==> run.cfg.enforceSurplusFeedIn)
            && (SentSel(run, i, Writes) ==> "cd=7," <= text || "cd=20," <= text)
  {
    hide Canonical, Payload, Fits, Accepted, Quiet, Valid;
    ValidHasWatts(run.cfg);
    FlashOptIn(run.cfg);
    AttemptAt(run, i);
    AttemptFitsKind(run, i);
    FlashTexts(run.cfg, run.states[i], Sent(run, i).value);
  }

  lemma FlashOptIn(cfg: Config)
    requires Valid(cfg)
    ensures cfg.persistToFlash ==> cfg.allowFlashWrites
  {
  }

  /** Accepted surplus-feed-in writes are at least the configured interval apart (6 h if it is not positive). */
  lemma SurplusWritesSpaced(run: Run)
    requires IsRun(run) && Valid(run.cfg) && Clocked(run.ins)
    ensures Spaced(run, Surpluses, if run.cfg.surplusRecoveryMinInterval > 0 then run.cfg.surplusRecoveryMinInterval
                                   else 21_600_000_000_000)
  {
    hide Valid, Accepted, Quiet, Clocked, AttemptTime;
    forall i: nat, j: nat | i < j < |run.ins| && SentSel(run, i, Surpluses) && SentSel(run, j, Surpluses)
      ensures Sent(run, j).value.at - Sent(run, i).value.at >= SurplusInterval(run.cfg)
    {
      ValidHasWatts(run.cfg);
      AttemptAt(run, j);
      SpacedFromStamp(run, Surpluses, SurplusInterval(run.cfg), i, j);
    }
  }

  /** Restarts sent by the control loop are at least the configured interval apart. */
  lemma RestartsSpaced(run: Run)
    requires IsRun(run) && Valid(run.cfg) && Clocked(run.ins)
    ensures Spaced(run, Restarts, run.cfg.nuclearRestartMinInterval)
  {
    hide Valid, Accepted, Quiet, Clocked, AttemptTime;
    forall i: nat, j: nat | i < j < |run.ins| && SentSel(run, i, Restarts) && SentSel(run, j, Restarts)
      ensures Sent(run, j).value.at - Sent(run, i).value.at >= run.cfg.nuclearRestartMinInterval
    {
      ValidHasWatts(run.cfg);
      assert run.cfg.nuclearRestartMinInterval >= 0 by { RestartIntervalValid(run.cfg); }
      AttemptAt(run, j);
      if run.cfg.nuclearRestartMinInterval > 0 {
        SpacedFromStamp(run, Restarts, run.cfg.nuclearRestartMinInterval, i, j);
      } else {
        AttemptAt(run, i);
        AttemptTimesOrdered(run, i, j);
      }
    }
  }

  lemma RestartIntervalValid(cfg: Config)
    requires Valid(cfg)
    ensures cfg.nuclearRestartMinInterval >= 0
  {
  }

  // ---- the re-arm protocol --------------------------------------------------------------------------------

  /** Two re-arm disables are at least max(twice the authority cooldown, one minute) apart. */
  lemma RearmsSpaced(run: Run)
    requires IsRun(run) && Valid(run.cfg) && Clocked(run.ins)
    ensures Spaced(run, RearmDisables, RearmCooldown(run.cfg))
  {
    hide Valid, Accepted, Quiet, Clocked, AttemptTime, RearmCooldown;
    forall i: nat, j: nat | i < j < |run.ins| && SentSel(run, i, RearmDisables) && SentSel(run, j, RearmDisables)
      ensures Sent(run, j).value.at - Sent(run, i).value.at >= RearmCooldown(run.cfg)
    {
      ValidHasWatts(run.cfg);
      AttemptAt(run, j);
      SpacedFromStamp(run, RearmDisables, RearmCooldown(run.cfg), i, j);
    }
  }

  /**
   While a re-arm is pending the command is 0, its start stamp is set, and the
   latest accepted re-arm write is the disable that started it.
   */
  predicate RearmAgrees(run: Run, n: nat, s: State)
    requires n <= |run.ins|
  {
    s.rearmPending ==>
      var last := LastPublish(run, n, Rearms);
      && s.lastCommandWatts == 0
      && last.Some? && last.value.kind.ForRearmDisable?
      && s.rearmStartedAt == TimeOf(last)
  }

  lemma {:induction false} PendingRearm(run: Run, n: nat)
    requires IsRun(run) && n <= |run.ins| && Valid(run.cfg)
    ensures RearmAgrees(run, n, run.states[n])
  {
    hide Tried, Sent, Sets, Valid, Commandable, LastPublish;
    if n > 0 {
      PendingRearm(run, n - 1);
      LastPublishStep(run, n, Rearms);
      ValidHasWatts(run.cfg);
      SoundAt(run, n);
      AttemptAt(run, n - 1);
    }
  }

  /**
   Every accepted re-enable answers exactly one earlier disable: the latest re-arm
   write before it is a disable, at least one control interval older.
   */
  lemma ReenableAnswersDisable(run: Run, j: nat)
    requires IsRun(run) && j < |run.ins| && Valid(run.cfg) && Sent(run, j).Some? && Sent(run, j).value.kind.ForRearmEnable?
    ensures var last := LastPublish(run, j, Rearms);
            && last.Some? && last.value.kind.ForRearmDisable?
            && Sent(run, j).value.at - last.value.at >= run.cfg.controlInterval
  {
    hide Valid, Sets, Accepted, Quiet, LastPublish;
    ValidHasWatts(run.cfg);
    PendingRearm(run, j);
    AttemptAt(run, j);
  }

  /** Normal control is never reached with a re-arm pending. */
  lemma NoNormalControlWhileRearming(run: Run, i: nat)
    requires IsRun(run) && i < |run.ins| && Valid(run.cfg) && run.cycles[i].reach.NormalStep?
    ensures !run.states[i + 1].rearmPending
    ensures run.cycles[i].dev.Some?
    ensures run.states[i].rearmPending ==> !RearmCandidate(run.cfg, run.cycles[i].dev.value, run.cycles[i].target)
  {
    hide Step, Valid, Commandable, RearmCandidate, Effect, Target, FloorAfter, NormalControl, EnsureOutput;
    ValidHasWatts(run.cfg);
    var s := run.states[i];
    SoundAt(run, i);
    var c := run.cycles[i];
    StepTaken(run, i);
    var m, observedAt := StepRoute(run.cfg, s, run.ins[i]);
    assert Commandable(run.cfg, c.target);
    OutputEffect(run.cfg, m, c.now, c.dev.value, c.target, c.smoothed, run.ins[i].publishOk);
    if m.rearmPending && RearmCandidate(run.cfg, c.dev.value, c.target) {
      CandidateEndsStep(run.cfg, m, c.now, c.dev.value, c.target, c.smoothed, run.ins[i].publishOk);
    }
    var output := EnsureOutput(run.cfg, m, c.now, c.dev.value, c.target, c.smoothed, run.ins[i].publishOk);
    NormalKeepsRearm(run.cfg, output.st, c.now, observedAt, c.dev.value, c.target, Exporting(c), run.ins[i].publishOk);
  }

  lemma CandidateEndsStep(cfg: Config, m: State, now: int, dev: Status, target: int, smoothed: real, ok: bool)
    requires m.rearmPending && RearmCandidate(cfg, dev, target)
    ensures !EnsureOutput(cfg, m, now, dev, target, smoothed, ok).verdict.Proceed?
  {
    hide CompleteRearm, Diagnose;
  }

  lemma NormalKeepsRearm(cfg: Config, s: State, now: int, observedAt: Option<int>, dev: Status, target: int, exporting: bool, ok: bool)
    ensures NormalControl(cfg, s, now, observedAt, dev, target, exporting, ok).st.rearmPending == s.rearmPending
  {
    hide Ramped, SlotCommand, Suppressed, SlotMatches, EchoAwaited, DesiredSlot;
  }
}
