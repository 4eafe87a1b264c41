/**
 The escalation ladder over whole runs: what a device restart has behind it, and
 how soon it comes (internal/controller/authority.go, escalation.go).
 */
module RunLadder {
  import opened GoStrings
  import opened Protocol
  import opened Config
  import opened Policy
  import opened ControlSpec
  import opened StepEffects
  import opened StepShape
  import opened Runs
  import opened RunRates
  import T = TopCharge
  import E = Escalation

  // ---- one pass through maybeEnsureOutputEnabled -------------------------------------------------

  /** The controller wants power, the armed slot is literally as wanted, the battery gives none. */
  predicate Blocked(cfg: Config, s: State, dev: Status, target: int)
  {
    target > 0 && Inert(cfg, s, dev) && LiterallyWanted(cfg, dev, target)
  }

  /** A step of a pending re-arm: it neither counts nor clears. */
  predicate Rearming(cfg: Config, s: State, dev: Status, target: int)
  {
    s.rearmPending && RearmCandidate(cfg, dev, target)
  }

  predicate SentKind(s: State, kind: Kind) { s.log != [] && s.log[0].ok && s.log[0].kind == kind }

  /** A fresh enable attempt on record is an accepted enable write, or one still awaited. */
  predicate EnableMove(m: State, r: State)
  {
    || r.ladder.lastEnableAttemptAt == m.ladder.lastEnableAttemptAt
    || SentKind(r, ForRearmDisable) || SentKind(r, ForRearmEnable) || SentKind(r, ForOutputEnable)
    || m.pending == Some(OutputEnable(3))
  }

  /** What maybeEnsureOutputEnabled does to the ladder. */
  predicate LadderMove(cfg: Config, m: State, r: State, now: int, dev: Status, target: int, smoothed: real)
  {
    && (if Rearming(cfg, m, dev, target) then
          r.ladder.blockedCycles == m.ladder.blockedCycles && EnableMove(m, r) && !TriedKind(r, ForRestart)
        else if !Blocked(cfg, m, dev, target) then
          r.ladder.blockedCycles == 0 && r.ladder.lastEnableAttemptAt == None && !TriedKind(r, ForRestart)
        else if SentKind(r, ForRestart) then
          r.ladder.blockedCycles == 0 && r.ladder.lastEnableAttemptAt == None
        else
          r.ladder.blockedCycles == m.ladder.blockedCycles + 1 && EnableMove(m, r))
    && (TriedKind(r, ForRestart) ==>
          && Blocked(cfg, m, dev, target)
          && RestartDue(cfg, m.(ladder := m.ladder.NoteBlockedCycle()), now, smoothed))
  }

  predicate TriedKind(s: State, kind: Kind) { s.log != [] && s.log[0].kind == kind }

  lemma StartRearmMove(cfg: Config, s: State, now: int, dev: Status, desired: int, ok: bool)
    requires s.log == []
    ensures var r := StartRearm(cfg, s, now, dev, desired, ok);
            && r.st.ladder.blockedCycles == s.ladder.blockedCycles
            && !TriedKind(r.st, ForRestart)
            && (r.st.ladder.lastEnableAttemptAt == s.ladder.lastEnableAttemptAt || SentKind(r.st, ForRearmDisable))
            && (r.verdict.Proceed? ==> r.st == s)
  {
    hide Remedy, SlotCommand, RearmCandidate, RearmCooldown, DisabledSlot;
    RemedyOutcome(cfg, s, now, None, SlotCommand(cfg, dev, DisabledSlot(cfg), false), ForRearmDisable, ok);
  }

  lemma EscalateMove(cfg: Config, s: State, now: int, dev: Status, desired: int, smoothed: real, ok: bool)
    requires s.log == []
    ensures var r := Escalate(cfg, s, now, dev, desired, smoothed, ok).st;
            && (TriedKind(r, ForRestart) ==> RestartDue(cfg, s, now, smoothed))
            && (if SentKind(r, ForRestart) then r.ladder.blockedCycles == 0 && r.ladder.lastEnableAttemptAt == None
                else r.ladder.blockedCycles == s.ladder.blockedCycles && EnableMove(s, r))
  {
    hide Remedy, StartRearm, RestartDue;
    StartRearmMove(cfg, s, now, dev, desired, ok);
    RemedyOutcome(cfg, s, now, None, OutputEnable(3), ForOutputEnable, ok);
  }

  lemma CompleteMove(cfg: Config, s: State, now: int, dev: Status, desired: int, ok: bool)
    requires s.log == []
    ensures var r := CompleteRearm(cfg, s, now, dev, desired, ok).st;
            r.ladder.blockedCycles == s.ladder.blockedCycles && EnableMove(s, r) && !TriedKind(r, ForRestart)
  {
    hide Remedy, SlotCommand, DesiredSlot;
    RemedyOutcome(cfg, s, now, None, SlotCommand(cfg, dev, DesiredSlot(cfg, desired), false), ForRearmEnable, ok);
  }

  lemma PositiveCandidate(cfg: Config, dev: Status, target: int)
    ensures RearmCandidate(cfg, dev, target) ==> target > 0
  {
  }

  lemma OutputMove(cfg: Config, m: State, now: int, dev: Status, target: int, smoothed: real, ok: bool)
    requires m.log == [] && (m.rearmPending ==> m.lastCommandWatts == 0)
    ensures LadderMove(cfg, m, EnsureOutput(cfg, m, now, dev, target, smoothed, ok).st, now, dev, target, smoothed)
  {
    hide CompleteRearm, Escalate, RestartDue, LiterallyWanted, EnableMove, RearmCandidate;
    PositiveCandidate(cfg, dev, target);
    if target > 0 {
      if Rearming(cfg, m, dev, target) {
        CompleteMove(cfg, m, now, dev, target, ok);
      } else if Blocked(cfg, m, dev, target) {
        var noted := m.(ladder := m.ladder.NoteBlockedCycle());
        EscalateMove(cfg, noted, now, dev, target, smoothed, ok);
        var r := Escalate(cfg, noted, now, dev, target, smoothed, ok).st;
        if !SentKind(r, ForRestart) {
          EnableMoveFromNoted(m, noted, r);
        }
      }
    }
  }

  lemma EnableMoveFromNoted(m: State, noted: State, r: State)
    requires noted == m.(ladder := m.ladder.NoteBlockedCycle()) && EnableMove(noted, r)
    ensures EnableMove(m, r)
  {
  }

  // ---- steps of a run ---------------------------------------------------------------------------------

  /** Step i found the output blocked. */
  predicate BlockedStep(run: Run, i: nat)
    requires i < |run.ins|
  {
    var c := run.cycles[i];
    ReachedOutput(c) && c.dev.Some? && Blocked(run.cfg, run.states[i], c.dev.value, c.target)
  }

  /** Step i says nothing about the output: no status, a device setting first, or a pending re-arm. */
  predicate NeutralStep(run: Run, i: nat)
    requires i < |run.ins|
  {
    var c := run.cycles[i];
    || c.reach.StatusFrozen? || AuthorityFirst(c)
    || (ReachedOutput(c) && c.dev.Some? && Rearming(run.cfg, run.states[i], c.dev.value, c.target))
  }

  /** How many of the steps from k up to n were blocked. */
  function CountBlocked(run: Run, k: nat, n: nat): nat
    requires k <= n <= |run.ins|
  {
    if k == n then 0 else CountBlocked(run, k, n - 1) + if BlockedStep(run, n - 1) then 1 else 0
  }

  /** No step from k up to n cleared the evidence, by observation or by a restart. */
  ghost predicate Unbroken(run: Run, k: nat, n: nat)
    requires k <= n <= |run.ins|
  {
    forall i: nat :: k <= i < n ==>
      (BlockedStep(run, i) || NeutralStep(run, i)) && !SentSel(run, i, Restarts)
  }

  /** How one step moves the ladder, in terms of the run. */
  predicate StepMove(run: Run, i: nat)
    requires i < |run.ins|
  {
    var s, s', c := run.states[i], run.states[i + 1], run.cycles[i];
    && (if SentSel(run, i, Restarts) then s'.ladder.blockedCycles == 0 && s'.ladder.lastEnableAttemptAt == None
        else if BlockedStep(run, i) then s'.ladder.blockedCycles == s.ladder.blockedCycles + 1 && EnableEvidence(run, i)
        else if NeutralStep(run, i) then s'.ladder.blockedCycles == s.ladder.blockedCycles && EnableEvidence(run, i)
        else s'.ladder.blockedCycles == 0 && s'.ladder.lastEnableAttemptAt == None)
    && (Tried(run, i).Some? && Tried(run, i).value.cmd.Restart? ==>
          && BlockedStep(run, i)
          && s.ladder.blockedCycles + 1 >= RequiredBlockedCycles(run.cfg)
          && s.ladder.lastEnableAttemptAt.Some?
          && c.smoothed > run.cfg.importBiasWatts as real
          && run.cfg.nuclearRestartEnabled && run.cfg.nuclearRestartAck)
  }

  predicate EnableEvidence(run: Run, i: nat)
    requires i < |run.ins|
  {
    var s, s' := run.states[i], run.states[i + 1];
    || s'.ladder.lastEnableAttemptAt == s.ladder.lastEnableAttemptAt
    || SentSel(run, i, Enables)
    || s.pending == Some(OutputEnable(3))
  }

  lemma StepMoves(run: Run, i: nat)
    requires IsRun(run) && i < |run.ins| && Valid(run.cfg)
    ensures StepMove(run, i)
  {
    hide StepMove, Valid;
    if ReachedOutput(run.cycles[i]) {
      OutputStepMoves(run, i);
    } else {
      OtherStepMoves(run, i);
    }
  }

  lemma OtherStepMoves(run: Run, i: nat)
    requires IsRun(run) && i < |run.ins| && Valid(run.cfg) && !ReachedOutput(run.cycles[i])
    ensures StepMove(run, i)
  {
    hide Step, Valid, Blocked, Rearming, Effect, SensedFloor, SensedStage, SensedIdle, SensedClock;
    ValidHasWatts(run.cfg);
    var s := run.states[i];
    EffectAt(run, i);
    StepTaken(run, i);
    StepSensed(run.cfg, s, run.ins[i]);
    StepKinds(run.cfg, s, run.ins[i]);
    if Tried(run, i).Some? {
      AttemptFitsKind(run, i);
    }
  }

  /** The move of a step that enters maybeEnsureOutputEnabled in state m. */
  lemma RouteMove(cfg: Config, s: State, r: Stepped, m: State, observedAt: Option<int>, ok: bool)
    requires OutputRoute(cfg, s, r, m, observedAt, ok) && ReachedOutput(r.cycle)
    requires m.rearmPending ==> m.lastCommandWatts == 0
    ensures LadderMove(cfg, m, r.st, r.cycle.now, r.cycle.dev.value, r.cycle.target, r.cycle.smoothed)
  {
    hide EnsureOutput, NormalControl, Blocked, Rearming, RestartDue, Target, FloorAfter;
    var c := r.cycle;
    var dev := c.dev.value;
    OutputMove(cfg, m, c.now, dev, c.target, c.smoothed, ok);
    OutputKinds(cfg, m, c.now, dev, c.target, c.smoothed, ok);
    if c.reach.NormalStep? {
      var output := EnsureOutput(cfg, m, c.now, dev, c.target, c.smoothed, ok).st;
      NormalSensors(cfg, output, c.now, observedAt, dev, c.target, Exporting(c), ok);
      NormalKinds(cfg, output, c.now, observedAt, dev, c.target, Exporting(c), ok);
      NormalMove(cfg, m, output, r.st, c);
    }
  }

  lemma NormalMove(cfg: Config, m: State, output: State, r: State, c: Cycle)
    requires c.dev.Some? && LadderMove(cfg, m, output, c.now, c.dev.value, c.target, c.smoothed)
    requires output.log == [] && SameLadder(output, r) && Kinds(r, {ForNormal, ForReassert})
    ensures LadderMove(cfg, m, r, c.now, c.dev.value, c.target, c.smoothed)
  {
    hide Blocked, Rearming, RestartDue;
  }

  lemma OutputStepMoves(run: Run, i: nat)
    requires IsRun(run) && i < |run.ins| && Valid(run.cfg) && ReachedOutput(run.cycles[i])
    ensures StepMove(run, i)
  {
    hide Step, Valid, Effect, OutputRoute, Commandable, LiterallyWanted, RearmCandidate, RestartDue;
    ValidHasWatts(run.cfg);
    var s := run.states[i];
    SoundAt(run, i);
    EffectAt(run, i);
    StepTaken(run, i);
    var m, observedAt := StepRoute(run.cfg, s, run.ins[i]);
    EntryFacts(run.cfg, s, Step(run.cfg, s, run.ins[i]), m, observedAt, run.ins[i].publishOk);
    RouteMove(run.cfg, s, Step(run.cfg, s, run.ins[i]), m, observedAt, run.ins[i].publishOk);
    if Tried(run, i).Some? {
      AttemptFitsKind(run, i);
    }
    MoveOfRun(run, i, m);
  }

  /** The entry state sees the same ladder, memory and re-arm as the state before the step. */
  predicate SameEntry(s: State, m: State)
  {
    && m.log == [] && m.ladder == s.ladder && m.lastCommandWatts == s.lastCommandWatts && m.rearmPending == s.rearmPending
    && (m.pending == Some(OutputEnable(3)) ==> s.pending == Some(OutputEnable(3)))
  }

  lemma EntryFacts(cfg: Config, s: State, r: Stepped, m: State, observedAt: Option<int>, ok: bool)
    requires OutputRoute(cfg, s, r, m, observedAt, ok)
    ensures SameEntry(s, m) && r.cycle.dev.Some?
  {
    hide EnsureOutput, NormalControl, Target, FloorAfter;
  }

  lemma MoveOfRun(run: Run, i: nat, m: State)
    requires IsRun(run) && i < |run.ins| && ReachedOutput(run.cycles[i]) && run.cycles[i].dev.Some?
    requires SameEntry(run.states[i], m)
    requires run.cycles[i].attempts == run.states[i + 1].log && (Tried(run, i).Some? ==> KindFits(Tried(run, i).value))
    requires var c := run.cycles[i];
             LadderMove(run.cfg, m, run.states[i + 1], c.now, c.dev.value, c.target, c.smoothed)
    requires run.states[i].rearmPending ==> run.states[i].lastCommandWatts == 0
    ensures StepMove(run, i)
  {
    hide LiterallyWanted, RearmCandidate;
    var c, s := run.cycles[i], run.states[i];
    assert Blocked(run.cfg, m, c.dev.value, c.target) == Blocked(run.cfg, s, c.dev.value, c.target);
    assert Rearming(run.cfg, m, c.dev.value, c.target) == Rearming(run.cfg, s, c.dev.value, c.target);
  }

  // ---- the evidence behind a restart -------------------------------------------------------------------

  /** The blocked-cycle counter is the number of blocked steps since the evidence was last cleared. */
  lemma {:induction false} CounterIsBlockedSteps(run: Run, n: nat) returns (k: nat)
    requires IsRun(run) && n <= |run.ins| && Valid(run.cfg)
    ensures k <= n && Unbroken(run, k, n)
    ensures k > 0 ==> (!BlockedStep(run, k - 1) && !NeutralStep(run, k - 1)) || SentSel(run, k - 1, Restarts)
    ensures run.states[n].ladder.blockedCycles == CountBlocked(run, k, n)
  {
    hide Valid, BlockedStep, NeutralStep, EnableEvidence, SentSel, Sent, Tried;
    if n == 0 {
      k := 0;
    } else {
      StepMoves(run, n - 1);
      if SentSel(run, n - 1, Restarts) || (!BlockedStep(run, n - 1) && !NeutralStep(run, n - 1)) {
        k := n;
      } else {
        k := CounterIsBlockedSteps(run, n - 1);
        NotBoth(run, n - 1);
      }
    }
  }

  /** A step is not both blocked and neutral: while a re-arm is pending the command is 0. */
  lemma NotBoth(run: Run, i: nat)
    requires IsRun(run) && i < |run.ins| && Valid(run.cfg)
    ensures !(BlockedStep(run, i) && NeutralStep(run, i))
  {
    hide Valid, LiterallyWanted, RearmCandidate;
    ValidHasWatts(run.cfg);
    SoundAt(run, i);
  }

  /** The pending payload is always the latest accepted publish. */
  lemma {:induction false} PendingIsLastSent(run: Run, n: nat)
    requires IsRun(run) && n <= |run.ins| && Valid(run.cfg)
    ensures run.states[n].pending.Some? ==>
              var last := LastPublish(run, n, Any);
              last.Some? && Some(last.value.cmd) == run.states[n].pending
              && run.states[n].pendingSince == TimeOf(last)
  {
    hide Valid, Sent, Tried, Fits, Sets, Commandable, LastPublish;
    if n > 0 {
      PendingIsLastSent(run, n - 1);
      LastPublishStep(run, n, Any);
      ValidHasWatts(run.cfg);
      AttemptAt(run, n - 1);
    }
  }

  /** A recorded enable attempt was sent, and no restart has been sent since. */
  predicate EnableAfterRestart(run: Run, n: nat)
    requires n <= |run.ins|
  {
    var e, r := LastSent(run, n, Enables), LastSent(run, n, Restarts);
    e.Some? && (r.Some? ==> r.value < e.value)
  }

  lemma {:induction false} EnableOnRecord(run: Run, n: nat)
    requires IsRun(run) && n <= |run.ins| && Valid(run.cfg)
    ensures run.states[n].ladder.lastEnableAttemptAt.Some? ==> EnableAfterRestart(run, n)
  {
    hide Valid, Sent, Tried, BlockedStep, NeutralStep, Selects;
    if n > 0 && run.states[n].ladder.lastEnableAttemptAt.Some? {
      EnableOnRecord(run, n - 1);
      StepMoves(run, n - 1);
      if run.states[n - 1].pending == Some(OutputEnable(3)) {
        AwaitedEnableWasSent(run, n - 1);
      }
      assert !SentSel(run, n - 1, Restarts);
      LastSentIs(run, n - 1, Restarts);
    }
  }

  /** An accepted output enable, or write of a re-arm, is on record with its time. */
  predicate Records(r: State, now: int)
  {
    SentKind(r, ForRearmDisable) || SentKind(r, ForRearmEnable) || SentKind(r, ForOutputEnable) ==>
      r.ladder.lastEnableAttemptAt == Some(now)
  }

  lemma EscalateRecords(cfg: Config, s: State, now: int, dev: Status, desired: int, smoothed: real, ok: bool)
    requires s.log == []
    ensures Records(Escalate(cfg, s, now, dev, desired, smoothed, ok).st, now)
  {
    hide Remedy, StartRearm, NuclearRestart, Records, Fits, Accepted, Quiet, MemoryKept;
    StartRearmMove(cfg, s, now, dev, desired, ok);
    StartRecords(cfg, s, now, dev, desired, ok);
    RestartRecords(cfg, s, now, smoothed, ok);
    RestartEffect(cfg, s, now, smoothed, ok);
    EnableRecords(cfg, s, now, ok);
  }

  lemma RestartRecords(cfg: Config, s: State, now: int, smoothed: real, ok: bool)
    requires s.log == []
    ensures Records(NuclearRestart(cfg, s, now, smoothed, ok).st, now)
  {
    hide RestartDue;
  }

  lemma EnableRecords(cfg: Config, s: State, now: int, ok: bool)
    requires s.log == []
    ensures var r := Remedy(cfg, s, now, None, OutputEnable(3), ForOutputEnable, ok);
            Records(if r.outcome.Refused? then r.st else r.st.(ladder := r.st.ladder.RecordEnableAttempt(now)), now)
  {
    hide Remedy;
    RemedyOutcome(cfg, s, now, None, OutputEnable(3), ForOutputEnable, ok);
  }

  lemma StartRecords(cfg: Config, s: State, now: int, dev: Status, desired: int, ok: bool)
    requires s.log == []
    ensures Records(StartRearm(cfg, s, now, dev, desired, ok).st, now)
  {
    hide Remedy, SlotCommand, RearmCandidate, RearmCooldown, DisabledSlot;
    RemedyOutcome(cfg, s, now, None, SlotCommand(cfg, dev, DisabledSlot(cfg), false), ForRearmDisable, ok);
  }

  lemma CompleteRecords(cfg: Config, s: State, now: int, dev: Status, desired: int, ok: bool)
    requires s.log == []
    ensures Records(CompleteRearm(cfg, s, now, dev, desired, ok).st, now)
  {
    hide Remedy, SlotCommand, DesiredSlot;
    RemedyOutcome(cfg, s, now, None, SlotCommand(cfg, dev, DesiredSlot(cfg, desired), false), ForRearmEnable, ok);
  }

  lemma OutputRecords(cfg: Config, m: State, now: int, dev: Status, target: int, smoothed: real, ok: bool)
    requires m.log == []
    ensures Records(EnsureOutput(cfg, m, now, dev, target, smoothed, ok).st, now)
  {
    hide CompleteRearm, Escalate, LiterallyWanted, Inert, RearmCandidate;
    CompleteRecords(cfg, m, now, dev, target, ok);
    var s1 := if m.rearmPending then ClearRearm(m) else m;
    EscalateRecords(cfg, s1.(ladder := s1.ladder.NoteBlockedCycle()), now, dev, target, smoothed, ok);
  }

  /** In every run: each accepted cd=18 or re-arm write puts an enable attempt on record, with its own time. */
  lemma EnableIsRecorded(run: Run, i: nat)
    requires IsRun(run) && i < |run.ins| && Valid(run.cfg) && SentSel(run, i, Enables)
    ensures run.states[i + 1].ladder.lastEnableAttemptAt == Some(Sent(run, i).value.at)
  {
    hide Step, Valid, Fits, Accepted, Quiet, EnsureOutput, NormalControl, Target, FloorAfter;
    ValidHasWatts(run.cfg);
    EffectAt(run, i);
    AttemptAt(run, i);
    AttemptFitsKind(run, i);
    StepTaken(run, i);
    StepKinds(run.cfg, run.states[i], run.ins[i]);
    var m, observedAt := StepRoute(run.cfg, run.states[i], run.ins[i]);
    var c := run.cycles[i];
    OutputRecords(run.cfg, m, c.now, c.dev.value, c.target, c.smoothed, run.ins[i].publishOk);
    AttemptInPass(run.cfg, m, c.now, c.dev.value, c.target, c.smoothed, run.ins[i].publishOk);
  }

  lemma AttemptInPass(cfg: Config, m: State, now: int, dev: Status, target: int, smoothed: real, ok: bool)
    requires m.log == []
    ensures var r := EnsureOutput(cfg, m, now, dev, target, smoothed, ok).st;
            r.log != [] ==> r.log[0].at == now
  {
    hide CompleteRearm, Escalate, LiterallyWanted, Inert, RearmCandidate;
    var s1 := if m.rearmPending then ClearRearm(m) else m;
    EscalateTime(cfg, s1.(ladder := s1.ladder.NoteBlockedCycle()), now, dev, target, smoothed, ok);
    CompleteTime(cfg, m, now, dev, target, ok);
  }

  lemma CompleteTime(cfg: Config, s: State, now: int, dev: Status, desired: int, ok: bool)
    requires s.log == []
    ensures var r := CompleteRearm(cfg, s, now, dev, desired, ok).st;
            r.log != [] ==> r.log[0].at == now
  {
    hide Remedy, SlotCommand, DesiredSlot;
    RemedyOutcome(cfg, s, now, None, SlotCommand(cfg, dev, DesiredSlot(cfg, desired), false), ForRearmEnable, ok);
  }

  lemma EscalateTime(cfg: Config, s: State, now: int, dev: Status, desired: int, smoothed: real, ok: bool)
    requires s.log == []
    ensures var r := Escalate(cfg, s, now, dev, desired, smoothed, ok).st;
            r.log != [] ==> r.log[0].at == now
  {
    hide Fits, Accepted, Quiet, MemoryKept, Escalate;
    EscalateEffect(cfg, s, now, dev, desired, smoothed, ok);
  }

  lemma AwaitedEnableWasSent(run: Run, n: nat)
    requires IsRun(run) && n <= |run.ins| && Valid(run.cfg) && run.states[n].pending == Some(OutputEnable(3))
    ensures EnableAfterRestart(run, n)
  {
    hide Valid, Canonical, DesiredSlot, Quiet, Accepted;
    PendingIsLastSent(run, n);
    LastSentIs(run, n, Any);
    LastSentIs(run, n, Enables);
    LastSentIs(run, n, Restarts);
    ValidHasWatts(run.cfg);
    var j := LastSent(run, n, Any).value;
    AttemptAt(run, j);
    assert SentSel(run, j, Enables) && !SentSel(run, j, Restarts);
    var r := LastSent(run, n, Restarts);
    if r.Some? {
      assert SentSel(run, r.value, Any);
    }
  }

  /**
   Every restart the control loop asks for has both opt-ins, a smoothed import
   above the bias, the required number of blocked steps with nothing in between
   that cleared them, and an accepted enable or re-arm write since the last restart.
   */
  lemma RestartHasEvidence(run: Run, j: nat) returns (k: nat)
    requires IsRun(run) && j < |run.ins| && Valid(run.cfg)
    requires Tried(run, j).Some? && Tried(run, j).value.cmd.Restart?
    ensures run.cfg.nuclearRestartEnabled && run.cfg.nuclearRestartAck
    ensures run.cycles[j].smoothed > run.cfg.importBiasWatts as real
    ensures k <= j && Unbroken(run, k, j) && BlockedStep(run, j)
    ensures CountBlocked(run, k, j + 1) >= RequiredBlockedCycles(run.cfg)
    ensures EnableAfterRestart(run, j)
  {
    hide Valid, BlockedStep, NeutralStep, EnableEvidence, Unbroken, EnableAfterRestart;
    StepMoves(run, j);
    k := CounterIsBlockedSteps(run, j);
    EnableOnRecord(run, j);
  }

  // ---- ragged slot times --------------------------------------------------------------------------------

  /** The output is stuck on a slot that the controller itself accepts as the wanted one. */
  predicate StuckAsWanted(cfg: Config, s: State, dev: Status, target: int)
  {
    target > 0 && Inert(cfg, s, dev) && SlotMatches(CurrentSlot(cfg, dev), DesiredSlot(cfg, target))
  }

  /** The device reports the configured times letter by letter. */
  predicate TimesAsConfigured(cfg: Config, dev: Status)
  {
    var slot := dev.slots[SlotIndex(cfg)];
    slot.start == cfg.scheduleStart && slot.end == cfg.scheduleEnd
  }

  /** Such an output counts as blocked exactly when the raw reported times are the configured ones. */
  lemma StuckAsWantedBlocksExactly(cfg: Config, s: State, dev: Status, target: int)
    requires StuckAsWanted(cfg, s, dev, target)
    ensures Blocked(cfg, s, dev, target) <==> TimesAsConfigured(cfg, dev)
  {
    hide NormaliseTime;
  }

  /** A slot armed from 00:00 to 23:59 and reported as 0:0 to 23:59 is accepted as wanted, yet never counts as blocked. */
  lemma RaggedReportNeverBlocks(cfg: Config, s: State, dev: Status, target: int)
    requires cfg.scheduleStart == "00:00" && cfg.scheduleEnd == "23:59" && target > 0 && Inert(cfg, s, dev)
    requires dev.slots[SlotIndex(cfg)] == ReadSlot(true, "0:0", "23:59", target)
    ensures StuckAsWanted(cfg, s, dev, target) && !Blocked(cfg, s, dev, target)
  {
    hide NormaliseTime, Inert;
    RaggedTimes();
    RaggedIsNotPadded();
  }

  lemma RaggedIsNotPadded()
    ensures "0:0" != "00:00"
  {
    assert |"0:0"| != |"00:00"|;
  }

  predicate StuckAsWantedAt(run: Run, i: nat)
    requires i < |run.ins|
  {
    var c := run.cycles[i];
    ReachedOutput(c) && c.dev.Some? && StuckAsWanted(run.cfg, run.states[i], c.dev.value, c.target)
  }

  /**
   In every run: a step that finds its output stuck on the slot it wants counts it,
   unless its restart is accepted, exactly when the reported times are the configured
   ones; otherwise the ladder starts over and the step goes on to normal control.
   */
  lemma StuckAsWantedCountsExactly(run: Run, i: nat)
    requires IsRun(run) && i < |run.ins| && Valid(run.cfg) && StuckAsWantedAt(run, i)
    ensures BlockedStep(run, i) <==> TimesAsConfigured(run.cfg, run.cycles[i].dev.value)
    ensures var before, after := run.states[i].ladder, run.states[i + 1].ladder;
            if BlockedStep(run, i) then
              SentSel(run, i, Restarts) || after.blockedCycles == before.blockedCycles + 1
            else
              && after.blockedCycles == 0 && after.lastEnableAttemptAt == None && run.cycles[i].reach.NormalStep?
              && (Tried(run, i).Some? ==> Tried(run, i).value.kind.ForNormal? || Tried(run, i).value.kind.ForReassert?)
  {
    hide Step, Valid, Effect, EnsureOutput, NormalControl, Target, FloorAfter, StuckAsWanted, Blocked, TimesAsConfigured, EnableEvidence,
      Rearming, Inert;
    ValidHasWatts(run.cfg);
    var s, c := run.states[i], run.cycles[i];
    var dev := c.dev.value;
    StuckAsWantedBlocksExactly(run.cfg, s, dev, c.target);
    SoundAt(run, i);
    EffectAt(run, i);
    StepMoves(run, i);
    StepTaken(run, i);
    StepKinds(run.cfg, s, run.ins[i]);
    var m, observedAt := StepRoute(run.cfg, s, run.ins[i]);
    assert m.lastCommandWatts == s.lastCommandWatts && m.rearmPending == s.rearmPending;
    StuckIsNotRearming(run.cfg, s, dev, c.target);
    if !BlockedStep(run, i) {
      UnblockedPass(run.cfg, s, m, c.now, dev, c.target, c.smoothed, run.ins[i].publishOk);
    }
  }

  lemma StuckIsNotRearming(cfg: Config, s: State, dev: Status, target: int)
    requires StuckAsWanted(cfg, s, dev, target) && (s.rearmPending ==> s.lastCommandWatts == 0)
    ensures !s.rearmPending && !Rearming(cfg, s, dev, target)
  {
    hide SlotMatches;
  }

  lemma UnblockedPass(cfg: Config, s: State, m: State, now: int, dev: Status, target: int, smoothed: real, ok: bool)
    requires StuckAsWanted(cfg, s, dev, target) && !Blocked(cfg, s, dev, target) && !m.rearmPending
    requires m.lastCommandWatts == s.lastCommandWatts
    ensures EnsureOutput(cfg, m, now, dev, target, smoothed, ok).verdict.Proceed?
  {
    hide CompleteRearm, Escalate, LiterallyWanted, SlotMatches;
  }
}
