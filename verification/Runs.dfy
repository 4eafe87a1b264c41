/**
 Whole runs of the controller: a run is the sequence of inputs its steps saw. The
 theorems below hold after every run, over every pair of steps of a run.
 */
module Runs {
  import opened GoStrings
  import opened Protocol
  import opened Config
  import opened Policy
  import opened ControlSpec
  import opened StepEffects
  import opened StepShape
  import T = TopCharge

  /** Inputs, the states around the steps they cause, and the record of each step. */
  datatype RunData = RunData(cfg: Config, ins: seq<Input>, states: seq<State>, cycles: seq<Cycle>)

  type Run = r: RunData | |r.states| == |r.ins| + 1 && |r.cycles| == |r.ins|
    witness RunData(ZERO_CONFIG, [], [INITIAL], [])

  /** Step i leads from one state to the next. */
  predicate Goes(run: Run, i: nat)
    requires i < |run.ins|
  {
    var step := Step(run.cfg, run.states[i], run.ins[i]);
    step.st == run.states[i + 1] && step.cycle == run.cycles[i]
  }

  /** The controller, started fresh, goes through these states. */
  ghost predicate IsRun(run: Run)
  {
    run.states[0] == INITIAL && forall i: nat :: i < |run.ins| ==> Goes(run, i)
  }

  lemma StepTaken(run: Run, i: nat)
    requires IsRun(run) && i < |run.ins|
    ensures Step(run.cfg, run.states[i], run.ins[i]).st == run.states[i + 1]
    ensures Step(run.cfg, run.states[i], run.ins[i]).cycle == run.cycles[i]
  {
    hide Step;
    assert Goes(run, i);
  }

  /** The run goes on with one more step. */
  function Extended(run: Run, input: Input): (longer: Run)
    ensures longer.cfg == run.cfg && longer.ins == run.ins + [input]
  {
    hide Step;
    var step := Step(run.cfg, run.states[|run.ins|], input);
    RunData(run.cfg, run.ins + [input], run.states + [step.st], run.cycles + [step.cycle])
  }

  lemma ExtendedIsRun(run: Run, input: Input)
    requires IsRun(run)
    ensures IsRun(Extended(run, input))
  {
    hide Step;
    var longer := Extended(run, input);
    forall i: nat | i < |longer.ins|
      ensures Goes(longer, i)
    {
      if i < |run.ins| {
        assert Goes(run, i);
      }
    }
  }

  function Started(cfg: Config): Run { RunData(cfg, [], [INITIAL], []) }

  /** The run that a sequence of inputs leads to. */
  function RunOf(cfg: Config, ins: seq<Input>): (run: Run)
    ensures run.cfg == cfg && run.ins == ins
  {
    if ins == [] then Started(cfg) else Extended(RunOf(cfg, ins[..|ins| - 1]), ins[|ins| - 1])
  }

  /** Every sequence of inputs has a run, and only one. */
  lemma {:induction false} EveryInputRuns(cfg: Config, ins: seq<Input>)
    ensures IsRun(RunOf(cfg, ins))
  {
    hide Extended;
    if ins != [] {
      EveryInputRuns(cfg, ins[..|ins| - 1]);
      ExtendedIsRun(RunOf(cfg, ins[..|ins| - 1]), ins[|ins| - 1]);
    }
  }

  lemma {:induction false} SameStates(a: Run, b: Run, n: nat)
    requires IsRun(a) && IsRun(b) && a.cfg == b.cfg && a.ins == b.ins && n <= |a.ins|
    ensures a.states[n] == b.states[n]
    decreases n
  {
    hide Step;
    if n > 0 {
      SameStates(a, b, n - 1);
      StepTaken(a, n - 1);
      StepTaken(b, n - 1);
    }
  }

  lemma RunsAreDetermined(a: Run, b: Run)
    requires IsRun(a) && IsRun(b) && a.cfg == b.cfg && a.ins == b.ins
    ensures a == b
  {
    hide Step, IsRun;
    forall n: nat | n <= |a.ins|
      ensures a.states[n] == b.states[n]
    {
      SameStates(a, b, n);
    }
    forall n: nat | n < |a.ins|
      ensures a.cycles[n] == b.cycles[n]
    {
      StepTaken(a, n);
      StepTaken(b, n);
    }
    assert a.states == b.states && a.cycles == b.cycles;
  }

  /** Time does not run backwards, within a step and between steps. */
  ghost predicate Clocked(ins: seq<Input>)
  {
    && (forall i :: 0 <= i < |ins| ==> ins[i].ClockRuns())
    && (forall i, j :: 0 <= i < j < |ins| ==> ins[i].publishedNow <= ins[j].primaryNow)
  }

  /** The publish attempt of step i. */
  function Tried(run: Run, i: nat): Option<Attempt>
    requires i < |run.ins|
  {
    var a := run.cycles[i].attempts;
    if a == [] then None else Some(a[0])
  }

  /** The publish of step i that the broker accepted. */
  function Sent(run: Run, i: nat): Option<Attempt>
    requires i < |run.ins|
  {
    var a := Tried(run, i);
    if a.Some? && a.value.ok then a else None
  }

  // ---- the state in every run ----------------------------------------------------------------------

  /** The invariant that the effects of a step rely on. */
  predicate Sound(cfg: Config, s: State)
  {
    && Commandable(cfg, s.lastCommandWatts)
    && RearmStamped(s)
    && (s.rearmPending ==> s.lastCommandWatts == 0)
  }

  lemma EffectKeepsSound(cfg: Config, s: State, s': State, at: int, ok: bool)
    requires ValidWatts(cfg) && Sound(cfg, s) && Effect(cfg, s, s', at, ok)
    ensures Sound(cfg, s')
  {
    hide Sets, Commandable;
    assert Commandable(cfg, 0) by { ZeroIsCommandable(cfg); }
  }

  lemma ZeroIsCommandable(cfg: Config)
    ensures Commandable(cfg, 0)
  {
  }

  lemma {:induction false} SoundAt(run: Run, n: nat)
    requires IsRun(run) && n <= |run.ins| && ValidWatts(run.cfg)
    ensures Sound(run.cfg, run.states[n])
  {
    hide Step, Effect, Commandable;
    if n == 0 {
      ZeroIsCommandable(run.cfg);
    } else {
      SoundAt(run, n - 1);
      StepTaken(run, n - 1);
      StepEffect(run.cfg, run.states[n - 1], run.ins[n - 1]);
      EffectKeepsSound(run.cfg, run.states[n - 1], run.states[n], AttemptTime(run.cfg, run.ins[n - 1]), run.ins[n - 1].publishOk);
    }
  }

  /** The effect of step i, between the states around it. */
  lemma EffectAt(run: Run, i: nat)
    requires IsRun(run) && i < |run.ins| && ValidWatts(run.cfg)
    ensures Effect(run.cfg, run.states[i], run.states[i + 1], AttemptTime(run.cfg, run.ins[i]), run.ins[i].publishOk)
    ensures run.cycles[i].attempts == run.states[i + 1].log
  {
    hide Step, Effect, Commandable;
    SoundAt(run, i);
    StepTaken(run, i);
    StepEffect(run.cfg, run.states[i], run.ins[i]);
  }

  /** What EffectAt says about the attempt of step i. */
  lemma AttemptAt(run: Run, i: nat)
    requires IsRun(run) && i < |run.ins| && ValidWatts(run.cfg)
    ensures |run.cycles[i].attempts| <= 1
    ensures var s, s', a := run.states[i], run.states[i + 1], Tried(run, i);
            && (a.Some? ==> Fits(run.cfg, s, a.value) && a.value.at == AttemptTime(run.cfg, run.ins[i]) && a.value.ok == run.ins[i].publishOk)
            && (Sent(run, i).None? ==> Quiet(s, s'))
            && (a.Some? && Sent(run, i).None? ==> MemoryKept(s, s'))
            && (Sent(run, i).Some? ==> a == Sent(run, i) && Accepted(run.cfg, s, s', a.value))
  {
    hide Fits, Accepted, Quiet, MemoryKept;
    EffectAt(run, i);
  }

  /** Payload and purpose of an attempt go together. */
  predicate KindFits(a: Attempt)
  {
    && (a.cmd.Restart? <==> a.kind.ForRestart?)
    && (a.cmd.OutputEnable? <==> a.kind.ForOutputEnable?)
    && (a.cmd.SurplusFeedIn? <==> a.kind.ForSurplus?)
    && (a.cmd.ChargingMode? <==> a.kind.ForChargingMode?)
  }

  lemma FitsKind(cfg: Config, s: State, a: Attempt)
    requires Fits(cfg, s, a)
    ensures KindFits(a)
  {
    hide DesiredSlot, Canonical, RearmCooldown;
  }

  /** No attempt is a cd=10, cd=18, cd=31 or charging-mode payload but for the purpose of its own. */
  lemma AttemptFitsKind(run: Run, i: nat)
    requires IsRun(run) && i < |run.ins| && ValidWatts(run.cfg) && Tried(run, i).Some?
    ensures KindFits(Tried(run, i).value)
  {
    hide Fits, Accepted, Quiet, MemoryKept, KindFits;
    AttemptAt(run, i);
    FitsKind(run.cfg, run.states[i], Tried(run, i).value);
  }

  // ---- the last accepted publish of a kind ---------------------------------------------------------------

  datatype Sel = Any | Writes | RearmDisables | Rearms | Surpluses | Restarts | Enables

  /**
   Which attempts a selector is about: by payload, but for the slot writes of a re-arm,
   which only their purpose tells from others. Enables are the evidence a restart asks for.
   */
  predicate Selects(sel: Sel, a: Attempt)
  {
    match sel
    case Any => true
    case Writes => a.cmd.TimedDischarge?
    case RearmDisables => a.kind.ForRearmDisable?
    case Rearms => a.kind.ForRearmDisable? || a.kind.ForRearmEnable?
    case Surpluses => a.cmd.SurplusFeedIn?
    case Restarts => a.cmd.Restart?
    case Enables => a.kind.ForRearmDisable? || a.kind.ForRearmEnable? || a.cmd.OutputEnable?
  }

  predicate SentSel(run: Run, i: nat, sel: Sel)
    requires i < |run.ins|
  {
    Sent(run, i).Some? && Selects(sel, Sent(run, i).value)
  }

  /** The latest step before n that sent something selected. */
  function LastSent(run: Run, n: nat, sel: Sel): Option<nat>
    requires n <= |run.ins|
  {
    if n == 0 then None
    else if SentSel(run, n - 1, sel) then Some(n - 1)
    else LastSent(run, n - 1, sel)
  }

  lemma {:induction false} LastSentIs(run: Run, n: nat, sel: Sel)
    requires n <= |run.ins|
    ensures var r := LastSent(run, n, sel);
            && (r.Some? ==> r.value < n && SentSel(run, r.value, sel))
            && forall i: nat :: i < n && SentSel(run, i, sel) ==> r.Some? && i <= r.value
  {
    hide SentSel;
    if n > 0 {
      LastSentIs(run, n - 1, sel);
    }
  }

  /** The latest selected publish before step n. */
  function LastPublish(run: Run, n: nat, sel: Sel): Option<Attempt>
    requires n <= |run.ins|
  {
    var i := LastSent(run, n, sel);
    if i.Some? && i.value < |run.ins| then Sent(run, i.value) else None
  }

  lemma LastPublishStep(run: Run, n: nat, sel: Sel)
    requires 0 < n <= |run.ins|
    ensures LastPublish(run, n, sel)
            == (if SentSel(run, n - 1, sel) then Sent(run, n - 1) else LastPublish(run, n - 1, sel))
  {
    hide Sent, SentSel;
  }

  lemma NothingSentYet(run: Run, sel: Sel)
    ensures LastPublish(run, 0, sel) == None
  {
  }

  function TimeOf(a: Option<Attempt>): Option<int>
  {
    if a.None? then None else Some(a.value.at)
  }

  lemma AttemptTimesOrdered(run: Run, i: nat, j: nat)
    requires Clocked(run.ins) && i <= j < |run.ins|
    ensures AttemptTime(run.cfg, run.ins[i]) <= AttemptTime(run.cfg, run.ins[j])
    ensures run.ins[i].primaryNow <= AttemptTime(run.cfg, run.ins[i]) <= run.ins[i].publishedNow
  {
    hide Fresh;
    assert run.ins[i].ClockRuns() && run.ins[j].ClockRuns();
  }

  // ---- at most one attempt; a refused one changes no memory and no stamp ------------------------------------

  /** No step publishes twice on the control topic, and a refused publish leaves memory and stamps alone. */
  lemma OneAttemptPerStep(run: Run, i: nat)
    requires IsRun(run) && i < |run.ins| && Valid(run.cfg)
    ensures |run.cycles[i].attempts| <= 1
    ensures Tried(run, i).Some? && Sent(run, i).None? ==>
              var s, s' := run.states[i], run.states[i + 1];
              MemoryKept(s, s') && StampsKept(s, s') && PendingKept(s, s')
  {
    AttemptAt(run, i);
  }

  // ---- command memory and trace agree ------------------------------------------------------------------------

  predicate Agrees(run: Run, n: nat, s: State)
    requires n <= |run.ins|
  {
    var last := LastPublish(run, n, Writes);
    && Commandable(run.cfg, s.lastCommandWatts)
    && s.lastCommandTime == TimeOf(last)
    && (s.lastCommandWatts != 0 ==> last.Some? && Commands(run.cfg, last.value.cmd, s.lastCommandWatts))
  }

  /** In every reachable state the command memory is 0 or what the latest accepted slot write commands. */
  lemma {:induction false} MemoryAgreesWithTrace(run: Run, n: nat)
    requires IsRun(run) && n <= |run.ins| && Valid(run.cfg)
    ensures Agrees(run, n, run.states[n])
  {
    hide Commandable, Sets, Commands, Tried, Sent, LastPublish, Valid;
    ValidOutput(run.cfg);
    SoundAt(run, n);
    if n == 0 {
      NothingSentYet(run, Writes);
    } else {
      MemoryAgreesWithTrace(run, n - 1);
      LastPublishStep(run, n, Writes);
      AttemptAt(run, n - 1);
      if SentSel(run, n - 1, Writes) {
        SetsCommands(run.cfg, Sent(run, n - 1).value.cmd, run.states[n].lastCommandWatts);
      }
    }
  }

  lemma ValidOutput(cfg: Config)
    requires Valid(cfg)
    ensures ValidWatts(cfg)
  {
  }

  /** A write of a stop disables the controlled slot on the wire. */
  lemma StopCommands(cfg: Config, cmd: Command)
    requires Valid(cfg) && Sets(cfg, cmd, 0)
    ensures Commands(cfg, cmd, 0)
  {
    hide Valid, Sets, Commands, Commandable;
    ZeroIsCommandable(cfg);
    SetsCommands(cfg, cmd, 0);
  }

  /** Every accepted slot write either disables the controlled slot with 0 W or enables it within the configured range. */
  lemma EveryWriteIsInRange(run: Run, i: nat)
    requires IsRun(run) && i < |run.ins| && Valid(run.cfg) && SentSel(run, i, Writes)
    ensures var slot := Sent(run, i).value.cmd.slots[SlotIndex(run.cfg)];
            && slot.start == run.cfg.scheduleStart && slot.end == run.cfg.scheduleEnd
            && (slot.enabled ==> run.cfg.minOutputWatts <= slot.watts <= run.cfg.maxOutputWatts && slot.watts > 0)
            && (!slot.enabled ==> slot.watts == 0)
  {
    hide Tried, Sent, IsValidTime;
    AttemptAt(run, i);
    ValidTimeIsClean(run.cfg.scheduleStart);
    ValidTimeIsClean(run.cfg.scheduleEnd);
  }
}
