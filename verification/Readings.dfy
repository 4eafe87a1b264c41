/**
 What the conditions behind the main results come down to: on the fields that the
 device reports, on the configuration, and on the trace of accepted publishes
 (internal/controller/authority.go, topcharge.go).
 */
module Readings {
  import opened GoStrings
  import opened Protocol
  import opened Config
  import opened Policy
  import opened ControlSpec
  import opened StepEffects
  import opened StepShape
  import opened Runs
  import opened RunRates
  import opened RunLadder
  import opened RunLiveness
  import opened RunRearm
  import opened RunFallback
  import opened RunIdle
  import opened RunEcho
  import T = TopCharge

  // ---- the stuck output -------------------------------------------------------------------------------

  /** Output that counts as none: at most 20 W, or at most half the least output. */
  predicate GivesNothing(cfg: Config, dev: Status)
  {
    var output := dev.output1Watts + dev.output2Watts;
    output <= 20 || 2 * output <= cfg.minOutputWatts
  }

  /** The device reports the slot letter by letter as wanted for that many watts, and gives no more than the sun. */
  predicate ArmedButIdle(cfg: Config, dev: Status, watts: int)
  {
    && watts > 0
    && dev.slots[SlotIndex(cfg)] == ReadSlot(true, cfg.scheduleStart, cfg.scheduleEnd, watts)
    && dev.output1Watts + dev.output2Watts <= dev.solar1Watts + dev.solar2Watts
  }

  /** A stuck step is one on such a device; it is a blocked one if power is commanded as well. */
  lemma StuckExactly(run: Run, i: nat)
    requires i < |run.ins|
    ensures var c := run.cycles[i];
            && (StuckStep(run, i) <==> ReachedOutput(c) && c.dev.Some? && ArmedButIdle(run.cfg, c.dev.value, c.target))
            && (BlockedStep(run, i) <==> StuckStep(run, i) && run.states[i].lastCommandWatts > 0)
  {
  }

  /** The full-charge signature: at least 100 % with demand, and no output. */
  lemma CandidateOnFields(cfg: Config, dev: Status, target: int)
    ensures RearmCandidate(cfg, dev, target) <==> target > 0 && dev.soc >= 100 && GivesNothing(cfg, dev)
  {
  }

  /** A cooldown on the trace: the latest accepted publish selected, if any, is at least that old. */
  predicate Since(run: Run, i: nat, sel: Sel, gap: int)
    requires i < |run.ins|
  {
    LastPublish(run, i, sel).Some? ==> run.cycles[i].now - LastPublish(run, i, sel).value.at >= gap
  }

  /**
   On the trace: a restart is allowed with both opt-ins, import above the bias, and the
   configured interval since the last accepted cd=10; a re-arm is open with the
   full-charge signature and a minute, four control intervals and four poll timeouts
   since the last accepted disable.
   */
  lemma LadderGuardsOnTrace(run: Run, i: nat)
    requires IsRun(run) && i < |run.ins| && Valid(run.cfg)
    ensures RestartAllowedAt(run, i)
            <==> && run.cfg.nuclearRestartEnabled && run.cfg.nuclearRestartAck
                 && run.cycles[i].smoothed > run.cfg.importBiasWatts as real
                 && (run.cfg.nuclearRestartMinInterval > 0 ==> Since(run, i, Restarts, run.cfg.nuclearRestartMinInterval))
    ensures RearmOpenAt(run, i)
            <==> && run.cycles[i].dev.Some? && run.cycles[i].target > 0
                 && run.cycles[i].dev.value.soc >= 100 && GivesNothing(run.cfg, run.cycles[i].dev.value)
                 && Since(run, i, RearmDisables, 60_000_000_000)
                 && Since(run, i, RearmDisables, 4 * run.cfg.controlInterval)
                 && Since(run, i, RearmDisables, 4 * run.cfg.statusPollTimeout)
  {
    hide Valid, RearmCandidate, LastPublish, GivesNothing;
    StampIsLastSent(run, i, Restarts);
    StampIsLastSent(run, i, RearmDisables);
    if run.cycles[i].dev.Some? {
      CandidateOnFields(run.cfg, run.cycles[i].dev.value, run.cycles[i].target);
    }
  }

  /** The step on which a permitted restart is due: the third, or the configured one if that is later. */
  lemma DueStepExactly(cfg: Config)
    requires Valid(cfg)
    ensures DueStep(cfg) == if cfg.nuclearRestartBlockedCycles > 3 then cfg.nuclearRestartBlockedCycles else 3
  {
    hide IsValidTime;
  }

  /**
   On the trace: a step stops to set the charging mode exactly when it is not 0, and
   then to ask for surplus feed-in exactly when the policy, the device and the flash
   opt-in say so and the interval (6 h if none is configured) has passed since the last
   accepted cd=31.
   */
  lemma SettingsOnTrace(run: Run, i: nat)
    requires IsRun(run) && i < |run.ins| && Valid(run.cfg) && run.cycles[i].dev.Some?
    ensures var c, dev := run.cycles[i], run.cycles[i].dev.value;
            && (c.reach.ConfigStep? <==> dev.chargingMode != 0)
            && (c.reach.SurplusStep? <==>
                  && dev.chargingMode == 0 && run.cfg.enforceSurplusFeedIn && !dev.surplusFeedIn && run.cfg.allowFlashWrites
                  && Since(run, i, Surpluses, if run.cfg.surplusRecoveryMinInterval > 0 then run.cfg.surplusRecoveryMinInterval
                                              else 21_600_000_000_000))
  {
    hide Valid, LastPublish, SurplusInterval;
    StampIsLastSent(run, i, Surpluses);
    DeviceSettingsFirst(run, i);
  }

  // ---- top-charge idle ------------------------------------------------------------------------------------

  /** Power passes through: bit 1 of a solar mode is set, or the output is not none. */
  predicate PassesThrough(cfg: Config, dev: Status)
  {
    dev.solar1Mode % 4 >= 2 || dev.solar2Mode % 4 >= 2 || !GivesNothing(cfg, dev)
  }

  /** Full, not importing, and with sun or power passing through. */
  predicate FullWithSun(cfg: Config, o: T.Obs)
  {
    && o.dev.soc >= cfg.nearFullIdleEnterPercent
    && o.raw <= cfg.importBiasWatts as real && o.smoothed <= cfg.importBiasWatts as real
    && (o.dev.solar1Watts + o.dev.solar2Watts > 0 || PassesThrough(cfg, o.dev))
  }

  /** The regime is wanted by the configuration and fed by the device. */
  predicate Wanted(cfg: Config, o: T.Obs)
  {
    cfg.nearFullIdleEnabled && cfg.enforceSurplusFeedIn && o.dev.surplusFeedIn
  }

  /** What a cycle counts as evidence, on the fields. */
  lemma EvidenceOnFields(cfg: Config, o: T.Obs)
    ensures T.Shows(cfg, T.Eligible, o) <==> FullWithSun(cfg, o)
    ensures T.Shows(cfg, T.SocLow, o) <==> o.dev.soc < cfg.nearFullIdleEnterPercent
    ensures T.Shows(cfg, T.Unhealthy, o) <==> !PassesThrough(cfg, o.dev)
    ensures T.Shows(cfg, T.RawImport, o) <==> cfg.importExitSamples > 0 && o.raw > cfg.importExitWatts as real
    ensures T.Shows(cfg, T.SmoothedImport, o) <==> cfg.importExitSamples > 0 && o.smoothed > cfg.importExitWatts as real
    ensures T.GateOpen(cfg, o) <==> Wanted(cfg, o)
  {
    assert o.dev.solar1Mode / 2 % 2 != 0 <==> o.dev.solar1Mode % 4 >= 2;
    assert o.dev.solar2Mode / 2 % 2 != 0 <==> o.dev.solar2Mode % 4 >= 2;
  }

  /** Some reason to leave the regime, in this cycle. */
  predicate ReasonToLeave(cfg: Config, o: T.Obs)
  {
    || !Wanted(cfg, o) || o.dev.soc < cfg.nearFullIdleEnterPercent || !PassesThrough(cfg, o.dev)
    || (cfg.importExitSamples > 0 && (o.raw > cfg.importExitWatts as real || o.smoothed > cfg.importExitWatts as real))
  }

  lemma CycleEnters(cfg: Config, t: T.Machine, o: T.Obs)
    requires !t.active && T.AfterUpdate(cfg, t, o).active
    ensures Wanted(cfg, o) && FullWithSun(cfg, o) && (t.blockedUntil.Some? ==> o.now >= t.blockedUntil.value)
  {
    hide T.Shows, FullWithSun, Wanted, T.GateOpen;
    EvidenceOnFields(cfg, o);
  }

  lemma CycleLeaves(cfg: Config, t: T.Machine, o: T.Obs)
    requires t.active && !T.AfterUpdate(cfg, t, o).active
    ensures ReasonToLeave(cfg, o)
  {
    hide T.Shows, PassesThrough, Wanted, T.GateOpen;
    EvidenceOnFields(cfg, o);
  }

  /**
   A machine with one-sample debounces, on the fields: it stays as long as the device is
   full and passes power through without import; it leaves freely when the charge
   falls, and for any other reason with the cooldown, the charge being asked first.
   */
  lemma OneSampleExit(cfg: Config, t: T.Machine, o: T.Obs)
    requires cfg.nearFullIdleSamples <= 1 && cfg.importExitSamples == 1 && t.active && Wanted(cfg, o)
    requires t.socExitSamples == 0 && t.passThroughLostSamples == 0 && t.rawImportSamples == 0 && t.importSamples == 0
    ensures var t' := T.AfterUpdate(cfg, t, o);
            && (t'.active <==> !ReasonToLeave(cfg, o))
            && t'.blockedUntil == (if o.dev.soc < cfg.nearFullIdleEnterPercent || !ReasonToLeave(cfg, o) then t.blockedUntil
                                   else Some(o.now + FailureCooldown(cfg)))
  {
    hide T.Shows, PassesThrough, Wanted, T.GateOpen, FailureCooldown;
    EvidenceOnFields(cfg, o);
  }

  // ---- how long the evidence has to last --------------------------------------------------------------------

  datatype Reason = ChargeFell | PassLost | RawImports | SmoothedImports

  /** The cycle shows this reason to leave, and no other. */
  predicate OnlyReason(cfg: Config, o: T.Obs, reason: Reason)
  {
    && Wanted(cfg, o)
    && (o.dev.soc < cfg.nearFullIdleEnterPercent <==> reason == ChargeFell)
    && (!PassesThrough(cfg, o.dev) <==> reason == PassLost)
    && (o.raw > cfg.importExitWatts as real <==> reason == RawImports)
    && (o.smoothed > cfg.importExitWatts as real <==> reason == SmoothedImports)
  }

  /** How many cycles in a row the reason must show. */
  function Patience(cfg: Config, reason: Reason): int
  {
    if reason == RawImports || reason == SmoothedImports then cfg.importExitSamples
    else if cfg.nearFullIdleSamples < 1 then 1 else cfg.nearFullIdleSamples
  }

  /** The machine that has seen n cycles in a row with only this reason. */
  predicate CountsTo(t: T.Machine, reason: Reason, n: int)
  {
    && t.active
    && t.socExitSamples == (if reason == ChargeFell then n else 0)
    && t.passThroughLostSamples == (if reason == PassLost then n else 0)
    && t.rawImportSamples == (if reason == RawImports then n else 0)
    && t.importSamples == (if reason == SmoothedImports then n else 0)
  }

  lemma CountsOn(cfg: Config, t: T.Machine, o: T.Obs, reason: Reason, n: nat)
    requires cfg.importExitSamples > 0 && CountsTo(t, reason, n) && OnlyReason(cfg, o, reason)
    ensures var t' := T.AfterUpdate(cfg, t, o);
            if n + 1 < Patience(cfg, reason) then CountsTo(t', reason, n + 1) && t'.blockedUntil == t.blockedUntil
            else !t'.active
                 && t'.blockedUntil == (if reason == ChargeFell then t.blockedUntil else Some(o.now + FailureCooldown(cfg)))
  {
    hide T.Shows, PassesThrough, Wanted, T.GateOpen, FailureCooldown;
    EvidenceOnFields(cfg, o);
  }

  /**
   The regime lasts while one reason to leave shows for fewer cycles than its debounce
   asks for, and ends with the cycle that completes it.
   */
  lemma {:induction false} ExitTakesItsSamples(cfg: Config, t: T.Machine, os: seq<T.Obs>, reason: Reason)
    requires cfg.importExitSamples > 0 && CountsTo(t, reason, 0) && |os| <= Patience(cfg, reason)
    requires forall o :: o in os ==> OnlyReason(cfg, o, reason)
    ensures var t' := T.RunFrom(cfg, t, Cycles(os));
            if |os| < Patience(cfg, reason) then CountsTo(t', reason, |os|) else !t'.active
    decreases |os|
  {
    hide T.AfterUpdate, OnlyReason, Patience;
    if os != [] {
      var init, last := os[..|os| - 1], os[|os| - 1];
      ExitTakesItsSamples(cfg, t, init, reason);
      assert Cycles(os)[..|os| - 1] == Cycles(init);
      assert T.RunFrom(cfg, t, Cycles(os)) == T.AfterUpdate(cfg, T.RunFrom(cfg, t, Cycles(init)), last);
      CountsOn(cfg, T.RunFrom(cfg, t, Cycles(init)), last, reason, |init|);
    } else {
      PatienceIsPositive(cfg, reason);
    }
  }

  lemma PatienceIsPositive(cfg: Config, reason: Reason)
    requires cfg.importExitSamples > 0
    ensures Patience(cfg, reason) > 0
  {
  }

  function Cycles(os: seq<T.Obs>): (ops: seq<T.Op>)
    ensures |ops| == |os| && forall i :: 0 <= i < |os| ==> ops[i] == T.Cycle(os[i])
  {
    seq(|os|, i requires 0 <= i < |os| => T.Cycle(os[i]))
  }

  lemma EntryCountsOn(cfg: Config, t: T.Machine, o: T.Obs, n: nat)
    requires !t.active && t.enterSamples == n && t.blockedUntil.None? && Wanted(cfg, o) && FullWithSun(cfg, o)
    ensures var t' := T.AfterUpdate(cfg, t, o);
            if n + 1 < cfg.nearFullIdleSamples then !t'.active && t'.enterSamples == n + 1 && t'.blockedUntil.None? else t'.active
  {
    hide T.Shows, FullWithSun, Wanted, T.GateOpen;
    EvidenceOnFields(cfg, o);
  }

  /** An unblocked machine engages with the last of as many full cycles in a row as configured, and with none before. */
  lemma {:induction false} EntryTakesItsSamples(cfg: Config, t: T.Machine, os: seq<T.Obs>)
    requires !t.active && t.enterSamples == 0 && t.blockedUntil.None? && 1 <= |os| <= Max(1, cfg.nearFullIdleSamples)
    requires forall o :: o in os ==> Wanted(cfg, o) && FullWithSun(cfg, o)
    ensures var t' := T.RunFrom(cfg, t, Cycles(os));
            if |os| < cfg.nearFullIdleSamples then !t'.active && t'.enterSamples == |os| && t'.blockedUntil.None? else t'.active
    decreases |os|
  {
    hide T.AfterUpdate, FullWithSun, Wanted;
    var init, last := os[..|os| - 1], os[|os| - 1];
    assert Cycles(os)[..|os| - 1] == Cycles(init);
    assert T.RunFrom(cfg, t, Cycles(os)) == T.AfterUpdate(cfg, T.RunFrom(cfg, t, Cycles(init)), last);
    if init != [] {
      EntryTakesItsSamples(cfg, t, init);
    }
    EntryCountsOn(cfg, T.RunFrom(cfg, t, Cycles(init)), last, |init|);
  }

  /**
   In every run: a step that starts the regime saw a full device with sun or power
   passing through and no import; a step that ends it fell back, was below the SoC
   floor, was in an active high-SoC stage, or saw a reason to leave.
   */
  lemma IdleChangesHaveReasons(run: Run, i: nat)
    requires IsRun(run) && i < |run.ins|
    ensures var c := run.cycles[i];
            && (!run.states[i].idle.active && run.states[i + 1].idle.active ==>
                  c.Evaluated() && c.dev.Some? && Wanted(run.cfg, ObsOf(c)) && FullWithSun(run.cfg, ObsOf(c)))
            && (run.states[i].idle.active && !run.states[i + 1].idle.active ==>
                  || FellBack(c) || c.reach.FloorIdle?
                  || (c.Evaluated() && c.dev.Some? && (c.stage != Inactive || ReasonToLeave(run.cfg, ObsOf(c)))))
  {
    hide Step, SensedFloor, SensedStage, SensedLadder, SensedClock, T.AfterUpdate, FullWithSun, Wanted, ReasonToLeave;
    StepTaken(run, i);
    StepSensed(run.cfg, run.states[i], run.ins[i]);
    var c, t := run.cycles[i], run.states[i].idle;
    if c.Evaluated() {
      var before := if c.stage.Active() then T.AfterReset(t) else t;
      if !before.active && run.states[i + 1].idle.active {
        CycleEnters(run.cfg, before, ObsOf(c));
      }
      if before.active && !run.states[i + 1].idle.active {
        CycleLeaves(run.cfg, before, ObsOf(c));
      }
    }
  }

  /**
   With a debounce of two samples or more, and an entry level not below the first
   high-SoC threshold, top-charge idle never engages in any run: every cycle that could
   count towards entry is in an active stage, which starts the machine over.
   */
  lemma {:induction false} HighEntryLevelNeverIdles(run: Run, n: nat)
    requires IsRun(run) && n <= |run.ins|
    requires run.cfg.nearFullIdleSamples >= 2 && run.cfg.nearFullIdleEnterPercent >= run.cfg.highSoCNetZero
    ensures !run.states[n].idle.active
    ensures n > 0 ==> !run.cycles[n - 1].reach.TopIdle?
  {
    hide Step, FullWithSun, Wanted, ReasonToLeave, T.AfterUpdate, T.Shows, T.GateOpen, SensedFloor, SensedLadder, SensedClock;
    if n > 0 {
      HighEntryLevelNeverIdles(run, n - 1);
      IdleChangesHaveReasons(run, n - 1);
      StepTaken(run, n - 1);
      StepSensed(run.cfg, run.states[n - 1], run.ins[n - 1]);
      var c := run.cycles[n - 1];
      if run.states[n].idle.active {
        FullIsHigh(run.cfg, ObsOf(c));
        ActiveStageIdlesExactly(run, n - 1);
      }
    } else {
      assert run.states[0] == INITIAL;
    }
  }

  lemma FullIsHigh(cfg: Config, o: T.Obs)
    requires FullWithSun(cfg, o)
    ensures o.dev.soc >= cfg.nearFullIdleEnterPercent
  {
  }

  /** The shipped thresholds are of this kind, even with surplus feed-in enforced. */
  lemma ShippedIdleNeverEngages(run: Run, i: nat)
    requires IsRun(run) && i < |run.ins|
    requires run.cfg == DEFAULTS || run.cfg == DEFAULTS.(enforceSurplusFeedIn := true)
    ensures !run.cycles[i].reach.TopIdle?
  {
    hide Step;
    HighEntryLevelNeverIdles(run, i + 1);
  }

  // ---- the echo of an output enable ------------------------------------------------------------------------

  /**
   The battery contributes, or both outputs report themselves enabled while the slot is
   not armed for a commanded power.
   */
  predicate OutputsAnswer(cfg: Config, dev: Status, commanded: int)
  {
    || dev.output1Watts + dev.output2Watts > dev.solar1Watts + dev.solar2Watts
    || (&& dev.output1Enabled == 1 && dev.output2Enabled == 1
        && !(dev.slots[SlotIndex(cfg)].enabled && dev.slots[SlotIndex(cfg)].watts > 0 && commanded > 0))
  }

  lemma EnableEchoInPass(cfg: Config, m: State, now: int, dev: Status, target: int, smoothed: real, ok: bool)
    requires m.pending == Some(OutputEnable(3)) && m.log == []
    ensures var r := EnsureOutput(cfg, m, now, dev, target, smoothed, ok);
            r.verdict.Proceed? ==>
              r.st.log == [] && r.st.pending == if target > 0 && OutputsAnswer(cfg, dev, m.lastCommandWatts) then None else m.pending
  {
    hide CompleteRearm, Escalate, LiterallyWanted, RearmCandidate;
    var noted := m.(ladder := m.ladder.NoteBlockedCycle());
    EscalateDrops(cfg, noted, now, dev, target, smoothed, ok);
    var cleared := ClearRearm(m).(ladder := ClearRearm(m).ladder.NoteBlockedCycle());
    EscalateDrops(cfg, cleared, now, dev, target, smoothed, ok);
  }

  lemma EnableEchoInNormal(cfg: Config, o: State, now: int, observedAt: Option<int>, dev: Status, target: int, exporting: bool, ok: bool)
    requires o.pending == Some(OutputEnable(3)) || o.pending == None
    ensures var r := NormalControl(cfg, o, now, observedAt, dev, target, exporting, ok).st;
            r.log == [] ==> r.pending == o.pending
  {
    hide Suppressed, Ramped, DesiredSlot, SlotMatches, CurrentSlot, AuthorityCooldown;
    SlotCommandSets(cfg, dev, o.lastCommandWatts, false);
  }

  /** In every run: a step that goes on to normal control and publishes nothing drops an awaited output enable exactly when the outputs answer a demand. */
  lemma EnableEchoHeardExactly(run: Run, i: nat)
    requires IsRun(run) && i < |run.ins| && Valid(run.cfg) && run.cycles[i].reach.NormalStep?
    requires run.states[i].pending == Some(OutputEnable(3)) && Tried(run, i).None?
    ensures run.cycles[i].dev.Some?
    ensures run.states[i + 1].pending.None?
            <==> run.cycles[i].target > 0 && OutputsAnswer(run.cfg, run.cycles[i].dev.value, run.states[i].lastCommandWatts)
  {
    hide Step, Valid, Effect, EnsureOutput, NormalControl, Target, FloorAfter, OutputsAnswer;
    ValidHasWatts(run.cfg);
    EffectAt(run, i);
    StepTaken(run, i);
    var s, c := run.states[i], run.cycles[i];
    var m, observedAt := StepRoute(run.cfg, s, run.ins[i]);
    EnableEchoInPass(run.cfg, m, c.now, c.dev.value, c.target, c.smoothed, run.ins[i].publishOk);
    var o := EnsureOutput(run.cfg, m, c.now, c.dev.value, c.target, c.smoothed, run.ins[i].publishOk).st;
    EnableEchoInNormal(run.cfg, o, c.now, observedAt, c.dev.value, c.target, Exporting(c), run.ins[i].publishOk);
  }
}
