/**
 Pending-echo suppression over whole runs: a remedy that the device has not yet
 answered is not published again in haste (internal/controller/slotwrite.go,
 authority.go).
 */
module RunEcho {
  import opened GoStrings
  import opened Protocol
  import opened Config
  import opened Policy
  import opened ControlSpec
  import opened StepEffects
  import opened StepShape
  import opened Runs
  import opened RunRates
  import opened RunLadder
  import T = TopCharge
  import E = Escalation

  /** Attempts that go through publishAuthorityPayload; the others always publish. */
  predicate IsRemedy(k: Kind) { !k.ForNormal? && !k.ForFallback? && !k.ForRestart? }

  /** The status time a remedy is judged by: only some remedies look at it. */
  function JudgedBy(k: Kind, observedAt: Option<int>): Option<int>
  {
    if k.ForChargingMode? || k.ForIdle? || k.ForReassert? then observedAt else None
  }

  /** The status time an accepted publish is booked with. */
  function BookedWith(k: Kind, observedAt: Option<int>): Option<int>
  {
    if k.ForNormal? then observedAt else JudgedBy(k, observedAt)
  }

  /** No remedy is attempted while its echo is awaited in s, and an accepted publish is booked with its status. */
  predicate Patient(cfg: Config, s: State, r: State, observedAt: Option<int>)
  {
    r.log != [] ==>
      var a := r.log[0];
      && (IsRemedy(a.kind) ==> !EchoAwaited(cfg, s, a.cmd, a.at, JudgedBy(a.kind, observedAt)))
      && (a.ok ==> r.pendingSeenAt == BookedWith(a.kind, observedAt))
  }

  predicate SamePending(s: State, m: State)
  {
    m.pending == s.pending && m.pendingSince == s.pendingSince && m.pendingSeenAt == s.pendingSeenAt
  }

  /** m differs from s in its pending payload at most by having dropped cmd. */
  predicate DropsOnly(s: State, m: State, cmd: Command) { SamePending(s, m) || s.pending == Some(cmd) }

  predicate Avoids(r: State, cmd: Command) { r.log != [] ==> r.log[0].cmd != cmd }

  lemma PatientFrom(cfg: Config, s: State, m: State, r: State, observedAt: Option<int>, cmd: Command)
    requires DropsOnly(s, m, cmd) && Avoids(r, cmd) && Patient(cfg, m, r, observedAt)
    ensures Patient(cfg, s, r, observedAt)
  {
    hide AuthorityCooldown;
  }

  /** Only slot writes, output enables and restarts come after the device settings. */
  predicate Later(r: State) { r.log != [] ==> !r.log[0].cmd.ChargingMode? && !r.log[0].cmd.SurplusFeedIn? }

  predicate OnlyWrites(r: State) { r.log != [] ==> r.log[0].cmd.TimedDischarge? }

  lemma RemedyTries(cfg: Config, s: State, now: int, observedAt: Option<int>, cmd: Command, kind: Kind, ok: bool)
    requires s.log == []
    ensures var r := Remedy(cfg, s, now, observedAt, cmd, kind, ok).st;
            if EchoAwaited(cfg, s, cmd, now, observedAt) then r.log == []
            else r.log == [Attempt(now, cmd, kind, ok)] && (ok ==> r.pendingSeenAt == observedAt)
  {
    hide EchoAwaited;
  }

  lemma RemedyPatient(cfg: Config, s: State, now: int, observedAt: Option<int>, cmd: Command, kind: Kind, ok: bool)
    requires s.log == [] && !kind.ForNormal?
    ensures var r := Remedy(cfg, s, now, JudgedBy(kind, observedAt), cmd, kind, ok).st;
            && Patient(cfg, s, r, observedAt)
            && (r.log != [] ==> r.log[0].cmd == cmd && r.log[0].kind == kind)
  {
    hide Remedy, EchoAwaited, JudgedBy, IsRemedy;
    RemedyTries(cfg, s, now, JudgedBy(kind, observedAt), cmd, kind, ok);
  }

  lemma AuthorityPatient(cfg: Config, s: State, now: int, observedAt: Option<int>, dev: Status, ok: bool)
    requires s.log == []
    ensures Patient(cfg, s, EnsureDeviceConfig(cfg, s, now, observedAt, dev, ok).st, observedAt)
    ensures Patient(cfg, s, EnsureSurplusFeedIn(cfg, s, now, dev, ok).st, observedAt)
    ensures Avoids(EnsureSurplusFeedIn(cfg, s, now, dev, ok).st, ChargingMode(0))
  {
    hide Remedy, EchoAwaited;
    RemedyPatient(cfg, s, now, observedAt, ChargingMode(0), ForChargingMode, ok);
    RemedyPatient(cfg, s, now, observedAt, SurplusFeedIn(0), ForSurplus, ok);
  }

  lemma EnsureSlotPatient(cfg: Config, s: State, now: int, observedAt: Option<int>, dev: Status, watts: int, kind: Kind, ok: bool)
    requires s.log == [] && (kind.ForIdle? || kind.ForReassert?)
    ensures var r := EnsureSlot(cfg, s, now, observedAt, dev, watts, kind, ok).st;
            Patient(cfg, s, r, observedAt) && OnlyWrites(r)
  {
    hide Remedy, EchoAwaited, DesiredSlot, SlotMatches, CurrentSlot;
    RemedyPatient(cfg, s, now, observedAt, SlotCommand(cfg, dev, DesiredSlot(cfg, watts), false), kind, ok);
  }

  lemma IdlePatient(cfg: Config, s: State, now: int, observedAt: Option<int>, dev: Status, ok: bool)
    requires s.log == []
    ensures Patient(cfg, s, CommandIdle(cfg, s, now, observedAt, dev, ok).st, observedAt)
    ensures OnlyWrites(CommandIdle(cfg, s, now, observedAt, dev, ok).st)
  {
    hide EnsureSlot, EchoAwaited;
    EnsureSlotPatient(cfg, s, now, observedAt, dev, 0, ForIdle, ok);
  }

  lemma EscalatePatient(cfg: Config, s: State, now: int, observedAt: Option<int>, dev: Status, desired: int, smoothed: real, ok: bool)
    requires s.log == []
    ensures var r := Escalate(cfg, s, now, dev, desired, smoothed, ok).st;
            Patient(cfg, s, r, observedAt) && Later(r)
  {
    hide Remedy, EchoAwaited, StartRearm, NuclearRestart, Patient, Later;
    StartPatient(cfg, s, now, observedAt, dev, desired, ok);
    StartRearmMove(cfg, s, now, dev, desired, ok);
    RestartPatient(cfg, s, now, observedAt, smoothed, ok);
    RestartEffect(cfg, s, now, smoothed, ok);
    EnablePatient(cfg, s, now, observedAt, ok);
  }

  lemma StartPatient(cfg: Config, s: State, now: int, observedAt: Option<int>, dev: Status, desired: int, ok: bool)
    requires s.log == []
    ensures var r := StartRearm(cfg, s, now, dev, desired, ok).st;
            Patient(cfg, s, r, observedAt) && Later(r)
  {
    hide Remedy, EchoAwaited, RearmCandidate, DisabledSlot, RearmCooldown;
    RemedyPatient(cfg, s, now, observedAt, SlotCommand(cfg, dev, DisabledSlot(cfg), false), ForRearmDisable, ok);
  }

  lemma RestartPatient(cfg: Config, s: State, now: int, observedAt: Option<int>, smoothed: real, ok: bool)
    requires s.log == []
    ensures var r := NuclearRestart(cfg, s, now, smoothed, ok).st;
            Patient(cfg, s, r, observedAt) && Later(r)
  {
    hide EchoAwaited, RestartDue;
  }

  /** The last rung, with whatever the ladder records of it. */
  lemma EnablePatient(cfg: Config, s: State, now: int, observedAt: Option<int>, ok: bool)
    requires s.log == []
    ensures forall ladder: E.Ladder ::
              var r := Remedy(cfg, s, now, None, OutputEnable(3), ForOutputEnable, ok).st.(ladder := ladder);
              Patient(cfg, s, r, observedAt) && Later(r)
    ensures var r := Remedy(cfg, s, now, None, OutputEnable(3), ForOutputEnable, ok).st;
            Patient(cfg, s, r, observedAt) && Later(r)
  {
    hide Remedy, EchoAwaited;
    RemedyPatient(cfg, s, now, observedAt, OutputEnable(3), ForOutputEnable, ok);
  }

  lemma OutputPatient(cfg: Config, s: State, now: int, observedAt: Option<int>, dev: Status, desired: int, smoothed: real, ok: bool)
    requires s.log == []
    ensures var r := EnsureOutput(cfg, s, now, dev, desired, smoothed, ok);
            && Patient(cfg, s, r.st, observedAt) && Later(r.st)
            && (r.verdict.Proceed? ==> DropsOnly(s, r.st, OutputEnable(3)))
  {
    hide Remedy, Escalate, CompleteRearm, RearmCandidate, DesiredSlot, Inert, LiterallyWanted, AuthorityCooldown, Later;
    var s1 := if s.rearmPending then ClearRearm(s) else s;
    var noted := s1.(ladder := s1.ladder.NoteBlockedCycle());
    if s.rearmPending && RearmCandidate(cfg, dev, desired) {
      CompletePatient(cfg, s, now, observedAt, dev, desired, ok);
    } else {
      EscalatePatient(cfg, noted, now, observedAt, dev, desired, smoothed, ok);
      EscalateDrops(cfg, noted, now, dev, desired, smoothed, ok);
    }
    NothingLater(s);
  }

  lemma NothingLater(s: State)
    ensures forall r: State :: r.log == [] ==> Later(r)
  {
  }

  lemma CompletePatient(cfg: Config, s: State, now: int, observedAt: Option<int>, dev: Status, desired: int, ok: bool)
    requires s.log == []
    ensures var r := CompleteRearm(cfg, s, now, dev, desired, ok).st;
            Patient(cfg, s, r, observedAt) && Later(r)
  {
    hide Remedy, EchoAwaited, DesiredSlot;
    RemedyPatient(cfg, s, now, observedAt, SlotCommand(cfg, dev, DesiredSlot(cfg, desired), false), ForRearmEnable, ok);
  }

  lemma EscalateDrops(cfg: Config, s: State, now: int, dev: Status, desired: int, smoothed: real, ok: bool)
    requires s.log == []
    ensures var r := Escalate(cfg, s, now, dev, desired, smoothed, ok);
            r.verdict.Proceed? ==> r.st == s
  {
    hide Fits, Accepted, Quiet, MemoryKept, Escalate;
    EscalateEffect(cfg, s, now, dev, desired, smoothed, ok);
  }

  lemma NormalPatient(cfg: Config, s: State, now: int, observedAt: Option<int>, dev: Status, target: int, exporting: bool, ok: bool)
    requires s.log == []
    ensures var r := NormalControl(cfg, s, now, observedAt, dev, target, exporting, ok).st;
            Patient(cfg, s, r, observedAt) && OnlyWrites(r)
  {
    hide EnsureSlot, DesiredSlot, Suppressed, Ramped, EchoAwaited;
    EnsureSlotPatient(cfg, s, now, observedAt, dev, s.lastCommandWatts, ForReassert, ok);
  }

  lemma DischargePatient(cfg: Config, s: State, now: int, end: int, observedAt: Option<int>, dev: Status, watts: real, ok: bool)
    requires s.log == []
    ensures var r := Discharge(cfg, s, now, end, observedAt, dev, watts, ok).st;
            Patient(cfg, s, r, observedAt) && Later(r)
  {
    hide CommandIdle, EnsureOutput, NormalControl, IdleAfter, NextStage, Target, EchoAwaited;
    var stage := NextStage(cfg, s.stage, dev.soc);
    var m := s.(stage := stage, idle := IdleAfter(cfg, s, stage, T.Obs(now, dev, watts, s.smoothed)));
    var target := Target(cfg, s.source, stage, dev, s.smoothed);
    var r := Discharge(cfg, s, now, end, observedAt, dev, watts, ok).st;
    if m.idle.active {
      var s1 := m.(ladder := m.ladder.Reset());
      IdlePatient(cfg, s1, now, observedAt, dev, ok);
      PatientFrom(cfg, s, s1, r, observedAt, Restart);
    } else {
      OutputPatient(cfg, m, now, observedAt, dev, target, s.smoothed, ok);
      OutputKinds(cfg, m, now, dev, target, s.smoothed, ok);
      var output := EnsureOutput(cfg, m, now, dev, target, s.smoothed, ok);
      if output.verdict.Proceed? {
        NormalPatient(cfg, output.st, now, observedAt, dev, target, s.smoothed < 0.0 && !stage.AllowExport(), ok);
        PatientFrom(cfg, s, output.st, r, observedAt, OutputEnable(3));
      } else {
        PatientFrom(cfg, s, m, r, observedAt, ChargingMode(0));
      }
    }
  }

  lemma ControlPatient(cfg: Config, s: State, now: int, end: int, observedAt: Option<int>, dev: Status, watts: real, ok: bool)
    requires s.log == []
    ensures Patient(cfg, s, Control(cfg, s, now, end, observedAt, dev, watts, ok).st, observedAt)
  {
    hide CommandIdle, EnsureDeviceConfig, EnsureSurplusFeedIn, Discharge, FloorAfter, Smoothed, Effect, PendingKept, T.AfterReset, EchoAwaited;
    var s1 := s.(lastStatus := Some(dev), floorActive := FloorAfter(cfg, s.floorActive, dev));
    var r := Control(cfg, s, now, end, observedAt, dev, watts, ok).st;
    var device := EnsureDeviceConfig(cfg, s1, now, observedAt, dev, ok);
    AuthorityPatient(cfg, s1, now, observedAt, dev, ok);
    DeviceConfigEffect(cfg, s1, now, observedAt, dev, ok);
    if !device.verdict.Proceed? {
      PatientFrom(cfg, s, s1, r, observedAt, Anything(r));
    } else {
      var surplus := EnsureSurplusFeedIn(cfg, device.st, now, dev, ok);
      AuthorityPatient(cfg, device.st, now, observedAt, dev, ok);
      SurplusEffect(cfg, device.st, now, dev, ok);
      if surplus.verdict.Proceed? {
        var s2 := Smooth(cfg, surplus.st, watts);
        LaterPatient(cfg, s2, now, end, observedAt, dev, watts, ok);
        PatientFrom(cfg, device.st, s2, r, observedAt, SurplusFeedIn(0));
      }
      PatientFrom(cfg, s, device.st, r, observedAt, ChargingMode(0));
    }
  }

  /** A command that r did not attempt. */
  function Anything(r: State): (cmd: Command)
    ensures Avoids(r, cmd)
  {
    if r.log != [] && r.log[0].cmd == Restart then OutputEnable(3) else Restart
  }

  lemma LaterPatient(cfg: Config, s2: State, now: int, end: int, observedAt: Option<int>, dev: Status, watts: real, ok: bool)
    requires s2.log == []
    ensures var r := BelowAuthority(cfg, s2, now, end, observedAt, dev, watts, ok);
            Patient(cfg, s2, r, observedAt) && Later(r)
  {
    hide CommandIdle, Discharge, EchoAwaited, T.AfterReset;
    if s2.floorActive {
      var s3 := s2.(idle := T.AfterReset(s2.idle), ladder := s2.ladder.Reset());
      IdlePatient(cfg, s3, now, observedAt, dev, ok);
      PatientFrom(cfg, s2, s3, BelowAuthority(cfg, s2, now, end, observedAt, dev, watts, ok), observedAt, Restart);
    } else {
      DischargePatient(cfg, s2, now, end, observedAt, dev, watts, ok);
    }
  }

  lemma FallbackPatient(cfg: Config, s: State, input: Input)
    requires s.log == []
    ensures var r := FallBack(cfg, s, input).st;
            r.log != [] ==> r.log[0].kind.ForFallback? && (r.log[0].ok ==> r.pendingSeenAt == None)
  {
    hide SlotCommand, DisabledSlot, CurrentSlot, FallbackIdle;
  }

  lemma StepPatient(cfg: Config, s: State, input: Input)
    ensures Patient(cfg, s, Step(cfg, s, input).st, ObservedAt(cfg, input))
  {
    hide FallBack, Control, Fresh, EchoAwaited, Fits, Accepted, Quiet;
    var s0 := s.(log := []);
    var grid := ReadGrid(cfg, input);
    var r := Step(cfg, s, input).st;
    if grid.NoGrid? {
      FallbackPatient(cfg, s0.(source := NoSource), input);
    } else {
      var s1 := s0.(source := grid.source);
      var reading := ReadStatus(cfg, input, grid.now);
      if reading.HardFail? {
        FallbackPatient(cfg, s1, input);
      } else if reading.Reading? {
        ControlPatient(cfg, s1, grid.now, input.publishedNow, reading.receivedAt, reading.dev, grid.watts, input.publishOk);
        PatientFrom(cfg, s, s1, r, reading.receivedAt, Anything(r));
      }
    }
  }

  // ---- over runs ------------------------------------------------------------------------------------------

  /** The receive time of the status that step k's accepted publish was made on, if its kind looks at one. */
  function MadeOn(run: Run, k: nat): Option<int>
    requires k < |run.ins|
  {
    if Sent(run, k).Some? then BookedWith(Sent(run, k).value.kind, ObservedAt(run.cfg, run.ins[k])) else None
  }

  /** A pending payload is booked with the status its publish was made on. */
  lemma {:induction false} PendingIsBooked(run: Run, n: nat)
    requires IsRun(run) && n <= |run.ins| && Valid(run.cfg)
    ensures run.states[n].pending.Some? ==>
              var k := LastSent(run, n, Any);
              k.Some? && k.value < n && run.states[n].pendingSeenAt == MadeOn(run, k.value)
  {
    hide Step, Valid, ObservedAt, Fits, Commandable, Sets, BookedWith, EchoAwaited;
    if n > 0 {
      PendingIsBooked(run, n - 1);
      ValidHasWatts(run.cfg);
      AttemptAt(run, n - 1);
      EffectAt(run, n - 1);
      StepTaken(run, n - 1);
      StepPatient(run.cfg, run.states[n - 1], run.ins[n - 1]);
    }
  }

  /**
   A remedy that repeats the latest accepted publish, whose echo has not cleared it,
   comes at least one authority cooldown after it, or is prompted by another status
   than the one that publish was made on. Output enables, re-arms and surplus
   writes look at no status, so for them only the cooldown counts.
   */
  lemma RemedyIsNotRepeatedInHaste(run: Run, j: nat)
    requires IsRun(run) && j < |run.ins| && Valid(run.cfg) && Tried(run, j).Some? && IsRemedy(Tried(run, j).value.kind)
    requires run.states[j].pending == Some(Tried(run, j).value.cmd)
    ensures var a, k := Tried(run, j).value, LastSent(run, j, Any);
            && k.Some? && k.value < j && Sent(run, k.value).Some? && Sent(run, k.value).value.cmd == a.cmd
            && (a.at - Sent(run, k.value).value.at >= AuthorityCooldown(run.cfg)
                || (JudgedBy(a.kind, ObservedAt(run.cfg, run.ins[j])).Some?
                    && JudgedBy(a.kind, ObservedAt(run.cfg, run.ins[j])) != MadeOn(run, k.value)))
  {
    hide Step, Valid, ObservedAt, Fits, Accepted, Quiet, AuthorityCooldown, MadeOn, BookedWith;
    PendingIsLastSent(run, j);
    PendingIsBooked(run, j);
    LastSentIs(run, j, Any);
    ValidHasWatts(run.cfg);
    EffectAt(run, j);
    StepTaken(run, j);
    StepPatient(run.cfg, run.states[j], run.ins[j]);
  }

  // ---- an echo is recognised ------------------------------------------------------------------------------

  /** The device reports back exactly the controlled slot as written for this command. */
  predicate Echoes(cfg: Config, dev: Status, watts: int)
  {
    dev.slots[SlotIndex(cfg)] == ReadSlot(watts > 0, cfg.scheduleStart, cfg.scheduleEnd, watts)
  }

  /** A report of what was written is accepted as wanted exactly when the configured times are padded. */
  lemma EchoRecognisedExactly(cfg: Config, dev: Status, watts: int)
    requires Valid(cfg) && Commandable(cfg, watts) && Echoes(cfg, dev, watts)
    ensures AsReported(dev.slots[SlotIndex(cfg)]) == Canonical(DesiredSlot(cfg, watts))
    ensures SlotMatches(CurrentSlot(cfg, dev), DesiredSlot(cfg, watts))
            <==> Padded(cfg.scheduleStart) && Padded(cfg.scheduleEnd)
  {
    hide NormaliseTime, Padded, IsValidTime, NearZeroOutputWatts;
    ValidTimeIsClean(cfg.scheduleStart);
    ValidTimeIsClean(cfg.scheduleEnd);
    NormaliseTimeKeepsExactly(cfg.scheduleStart);
    NormaliseTimeKeepsExactly(cfg.scheduleEnd);
  }

  /** Validation lets unpadded times through. */
  lemma RaggedTimeIsValid()
    ensures IsValidTime("0:0") && !Padded("0:0")
  {
    hide Atoi, Padded, NormaliseTime;
    RaggedTimes();
    IndexAt("0", ':', "0");
    assert "0:0" == "0" + [':'] + "0";
    AtoiItoa(0);
    assert Itoa(0) == "0";
  }

  /** Normal control of step i keeps the command. */
  predicate KeepsCommand(run: Run, i: nat)
    requires i < |run.ins|
  {
    var c := run.cycles[i];
    c.reach.NormalStep? && c.dev.Some? && Suppressed(run.cfg, run.states[i], c.now, c.target, Exporting(c))
  }

  predicate EchoesAt(run: Run, i: nat)
    requires i < |run.ins|
  {
    run.cycles[i].dev.Some? && Echoes(run.cfg, run.cycles[i].dev.value, run.states[i].lastCommandWatts)
  }

  /** The slot write that would re-assert the command of step i. */
  function Reassertion(run: Run, i: nat): Command
    requires i < |run.ins| && run.cycles[i].dev.Some?
  {
    SlotCommand(run.cfg, run.cycles[i].dev.value, DesiredSlot(run.cfg, run.states[i].lastCommandWatts), false)
  }

  lemma ReassertPass(cfg: Config, o: State, now: int, observedAt: Option<int>, dev: Status, target: int, exporting: bool, ok: bool)
    requires o.log == [] && Suppressed(cfg, o, now, target, exporting)
    ensures var r := NormalControl(cfg, o, now, observedAt, dev, target, exporting, ok).st;
            var desired := DesiredSlot(cfg, o.lastCommandWatts);
            r.log == [] <==> SlotMatches(CurrentSlot(cfg, dev), desired)
                             || EchoAwaited(cfg, o, SlotCommand(cfg, dev, desired, false), now, observedAt)
  {
    hide SlotCommand, DesiredSlot, CurrentSlot, SlotMatches, EchoAwaited, Suppressed;
  }

  /** No slot write is dropped from the pending echo on the way to normal control. */
  lemma SlotEchoSteady(cfg: Config, s: State, m: State, o: State, cmd: Command, now: int, observedAt: Option<int>, dev: Status)
    requires EntersOutput(cfg, s, m, dev) && DropsOnly(m, o, OutputEnable(3)) && Still(m, o) && cmd.TimedDischarge?
    ensures EchoAwaited(cfg, o, cmd, now, observedAt) <==> EchoAwaited(cfg, s, cmd, now, observedAt)
  {
    hide AuthorityCooldown, FloorAfter;
  }

  lemma SameSuppression(cfg: Config, s: State, o: State, now: int, target: int, exporting: bool)
    requires MemoryKept(s, o)
    ensures Suppressed(cfg, s, now, target, exporting) <==> Suppressed(cfg, o, now, target, exporting)
  {
    hide Ramped, DeltaSuppressed;
  }

  /** A step that keeps the command writes nothing exactly if the reported slot matches, or the echo of that write is awaited. */
  lemma KeptIsLeftAlone(run: Run, i: nat)
    requires IsRun(run) && i < |run.ins| && Valid(run.cfg) && KeepsCommand(run, i)
    ensures var c := run.cycles[i];
            Tried(run, i).None?
            <==> SlotMatches(CurrentSlot(run.cfg, c.dev.value), DesiredSlot(run.cfg, run.states[i].lastCommandWatts))
                 || EchoAwaited(run.cfg, run.states[i], Reassertion(run, i), c.now, ObservedAt(run.cfg, run.ins[i]))
  {
    hide Step, Valid, Effect, EnsureOutput, NormalControl, Target, FloorAfter, Commandable, Suppressed, EchoAwaited, SlotMatches, CurrentSlot,
      Padded, ObservedAt, SlotCommand, DesiredSlot, PendingKept, RearmKept, StampsKept;
    ValidHasWatts(run.cfg);
    var s, c, ok := run.states[i], run.cycles[i], run.ins[i].publishOk;
    var dev := c.dev.value;
    SoundAt(run, i);
    EffectAt(run, i);
    StepTaken(run, i);
    var m, observedAt := StepRoute(run.cfg, s, run.ins[i]);
    assert Commandable(run.cfg, c.target);
    OutputEffect(run.cfg, m, c.now, dev, c.target, c.smoothed, ok);
    OutputPatient(run.cfg, m, c.now, observedAt, dev, c.target, c.smoothed, ok);
    var o := EnsureOutput(run.cfg, m, c.now, dev, c.target, c.smoothed, ok).st;
    SameSuppression(run.cfg, s, o, c.now, c.target, Exporting(c));
    ReassertPass(run.cfg, o, c.now, observedAt, dev, c.target, Exporting(c), ok);
    SlotCommandSets(run.cfg, dev, s.lastCommandWatts, false);
    SlotEchoSteady(run.cfg, s, m, o, Reassertion(run, i), c.now, observedAt, dev);
  }

  /**
   In every run: a step that keeps the command, on a device that echoes it, is left
   alone if the configured times are padded. If they are not, the echo is never
   recognised, and the step writes the slot again unless it still awaits the echo.
   */
  lemma EchoedCommandIsLeftAlone(run: Run, i: nat)
    requires IsRun(run) && i < |run.ins| && Valid(run.cfg) && KeepsCommand(run, i) && EchoesAt(run, i)
    ensures var c := run.cycles[i];
            Tried(run, i).None?
            <==> (Padded(run.cfg.scheduleStart) && Padded(run.cfg.scheduleEnd))
                 || EchoAwaited(run.cfg, run.states[i], Reassertion(run, i), c.now, ObservedAt(run.cfg, run.ins[i]))
  {
    hide Valid, Commandable, Suppressed, EchoAwaited, SlotMatches, CurrentSlot, Padded, ObservedAt, SlotCommand, DesiredSlot, Echoes;
    ValidHasWatts(run.cfg);
    SoundAt(run, i);
    KeptIsLeftAlone(run, i);
    EchoRecognisedExactly(run.cfg, run.cycles[i].dev.value, run.states[i].lastCommandWatts);
  }
}
