/**
 Top-charge idle over whole runs: in every run of the controller the machine is
 the history specification of TopCharge, and a failed regime is not re-entered
 before its cooldown (internal/controller/topcharge.go, step.go, fallback.go).
 */
module RunIdle {
  import opened GoStrings
  import opened Protocol
  import opened Config
  import opened Policy
  import opened ControlSpec
  import opened StepEffects
  import opened StepShape
  import opened Runs
  import opened RunRates
  import T = TopCharge

  // ---- the machine in a run is the history specification ----------------------------------------------

  /** What step i does to the top-charge machine. */
  function OpsAt(run: Run, i: nat): seq<T.Op>
    requires i < |run.ins|
  {
    var c := run.cycles[i];
    if FellBack(c) then
      if run.states[i].idle.active then [T.ResetNow, T.BlockFrom(run.ins[i].resetNow)] else [T.ResetNow]
    else if c.reach.FloorIdle? then [T.ResetNow]
    else if c.Evaluated() && c.dev.Some? then
      if c.stage.Active() then [T.ResetNow, T.Cycle(ObsOf(c))] else [T.Cycle(ObsOf(c))]
    else []
  }

  /** What the steps from i up to n do to it. */
  function OpsFrom(run: Run, i: nat, n: nat): seq<T.Op>
    requires i <= n <= |run.ins|
  {
    if i == n then [] else OpsFrom(run, i, n - 1) + OpsAt(run, n - 1)
  }

  lemma RunOne(cfg: Config, t: T.Machine, a: T.Op)
    ensures T.RunFrom(cfg, t, [a]) == T.Apply(cfg, t, a)
  {
    assert T.RunFrom(cfg, t, [a]) == T.Apply(cfg, T.RunFrom(cfg, t, [a][..0]), a);
  }

  lemma RunTwo(cfg: Config, t: T.Machine, a: T.Op, b: T.Op)
    ensures T.RunFrom(cfg, t, [a, b]) == T.Apply(cfg, T.Apply(cfg, t, a), b)
  {
    hide T.Apply;
    RunOne(cfg, t, a);
    assert [a, b][..1] == [a];
  }

  lemma StepOps(run: Run, i: nat)
    requires IsRun(run) && i < |run.ins|
    ensures run.states[i + 1].idle == T.RunFrom(run.cfg, run.states[i].idle, OpsAt(run, i))
  {
    hide Step, SensedFloor, SensedStage, SensedLadder, SensedClock, T.RunFrom, T.AfterUpdate, T.AfterReset, T.AfterBlock;
    var s, c := run.states[i], run.cycles[i];
    StepSensed(run.cfg, s, run.ins[i]);
    StepTaken(run, i);
    RunNone(run.cfg, s.idle);
    RunOne(run.cfg, s.idle, T.ResetNow);
    RunTwo(run.cfg, s.idle, T.ResetNow, T.BlockFrom(run.ins[i].resetNow));
    if c.Evaluated() {
      RunOne(run.cfg, s.idle, T.Cycle(ObsOf(c)));
      RunTwo(run.cfg, s.idle, T.ResetNow, T.Cycle(ObsOf(c)));
    }
  }

  lemma RunNone(cfg: Config, t: T.Machine)
    ensures T.RunFrom(cfg, t, []) == t
  {
  }

  lemma {:induction false} IdleRunsOps(run: Run, i: nat, n: nat)
    requires IsRun(run) && i <= n <= |run.ins|
    ensures run.states[n].idle == T.RunFrom(run.cfg, run.states[i].idle, OpsFrom(run, i, n))
  {
    hide T.RunFrom, OpsAt;
    if i == n {
      RunNone(run.cfg, run.states[i].idle);
    } else {
      IdleRunsOps(run, i, n - 1);
      StepOps(run, n - 1);
      T.RunFromJoin(run.cfg, run.states[i].idle, OpsFrom(run, i, n - 1), OpsAt(run, n - 1));
    }
  }

  /** What an observer without counters knows before step n. */
  function ViewAt(run: Run, n: nat): T.View
    requires n <= |run.ins|
  {
    T.History(run.cfg, OpsFrom(run, 0, n))
  }

  /** In every run the controller's machine is engaged, blocked and counting exactly as its history says. */
  lemma IdleIsHistory(run: Run, n: nat)
    requires IsRun(run) && n <= |run.ins|
    ensures T.Implements(run.cfg, run.states[n].idle, ViewAt(run, n))
  {
    hide T.RunFrom, OpsAt, T.Implements, T.History;
    IdleRunsOps(run, 0, n);
    T.MachineIsHistory(run.cfg, OpsFrom(run, 0, n));
  }

  // ---- an active high-SoC stage and the debounce ----------------------------------------------------------

  /**
   A step whose high-SoC stage is active engages top-charge idle exactly when the
   debounce is a single sample and this cycle is eligible: the stage resets the
   machine, which then still sees the cycle. From two samples on it never does.
   */
  lemma ActiveStageIdlesExactly(run: Run, i: nat)
    requires IsRun(run) && i < |run.ins| && run.cycles[i].Evaluated() && run.cycles[i].stage.Active()
    ensures var c := run.cycles[i];
            && c.dev.Some?
            && (c.reach.TopIdle? <==>
                  && run.cfg.nearFullIdleSamples <= 1
                  && T.GateOpen(run.cfg, ObsOf(c)) && T.Shows(run.cfg, T.Eligible, ObsOf(c))
                  && !T.IsBlocked(run.states[i].idle, c.now))
  {
    hide Step, SensedFloor, SensedStage, SensedLadder, SensedClock, T.Shows, T.GateOpen, T.Counted;
    StepTaken(run, i);
    StepSensed(run.cfg, run.states[i], run.ins[i]);
  }

  // ---- the cooldown after a failure -------------------------------------------------------------------------

  predicate IsFailure(e: Option<T.Exit>) { e.Some? && !e.value.SocExit? }

  /** Step i ends an engaged regime by a fallback, or by the evidence of one of the three failure exits. */
  predicate IdleFails(run: Run, i: nat)
    requires i < |run.ins|
  {
    var c, v := run.cycles[i], ViewAt(run, i);
    && v.engaged
    && (FellBack(c)
        || (&& c.Evaluated() && c.dev.Some? && !c.stage.Active() && T.GateOpen(run.cfg, ObsOf(c))
            && IsFailure(T.DueExit(run.cfg, v.window + [ObsOf(c)]))))
  }

  lemma FailureClears(run: Run, i: nat)
    requires IsRun(run) && i < |run.ins| && IdleFails(run, i)
    ensures T.Cleared(run.cfg, run.states[i + 1].idle, run.cycles[i].now)
  {
    hide Step, SensedFloor, SensedStage, SensedLadder, SensedClock, T.History, T.AfterUpdate, T.DueExit, T.GateOpen, T.Shows, OpsFrom;
    var s, c, v := run.states[i], run.cycles[i], ViewAt(run, i);
    IdleIsHistory(run, i);
    StepSensed(run.cfg, s, run.ins[i]);
    FallbackTime(run.cfg, s, run.ins[i]);
    StepTaken(run, i);
    if c.Evaluated() {
      T.CycleImplements(run.cfg, s.idle, v, ObsOf(c));
    }
  }

  /** A step that falls back is dated by the clock reading of the fallback. */
  lemma FallbackTime(cfg: Config, s: State, input: Input)
    ensures FellBack(Step(cfg, s, input).cycle) ==> Step(cfg, s, input).cycle.now == input.resetNow
  {
    hide FallBack, Fresh, Control, FloorAfter, NextStage, IdleAfter, T.AfterReset;
    var grid := ReadGrid(cfg, input);
    if grid.Grid? {
      var reading := ReadStatus(cfg, input, grid.now);
      if reading.Reading? {
        ControlSensed(cfg, s.(log := [], source := grid.source), grid.now, input.publishedNow,
          reading.receivedAt, reading.dev, grid.watts, input.publishOk);
      }
    }
  }

  lemma OpsNotBefore(run: Run, i: nat, k: nat)
    requires IsRun(run) && Clocked(run.ins) && i < k < |run.ins|
    ensures T.NotBefore(OpsAt(run, k), run.cycles[i].now)
    ensures forall op :: op in OpsAt(run, k) && op.Cycle? ==> op.o.now == run.cycles[k].now
    ensures run.cycles[i].now <= run.cycles[k].now
  {
    hide Step, SensedFloor, SensedStage, SensedLadder, SensedIdle;
    StepTaken(run, i);
    StepSensed(run.cfg, run.states[i], run.ins[i]);
    StepTaken(run, k);
    StepSensed(run.cfg, run.states[k], run.ins[k]);
    assert run.ins[i].ClockRuns() && run.ins[k].ClockRuns();
  }

  lemma {:induction false} OpsFromNotBefore(run: Run, i: nat, n: nat)
    requires IsRun(run) && Clocked(run.ins) && i < n <= |run.ins|
    ensures T.NotBefore(OpsFrom(run, i + 1, n), run.cycles[i].now)
    ensures forall op :: op in OpsFrom(run, i + 1, n) && op.Cycle? ==> op.o.now <= run.cycles[n - 1].now
    decreases n
  {
    hide OpsAt, Clocked;
    if i + 1 < n {
      OpsFromNotBefore(run, i, n - 1);
      OpsNotBefore(run, i, n - 1);
      OpsNotBefore(run, n - 2, n - 1);
    }
  }

  lemma JoinedOrderly(a: seq<T.Op>, b: seq<T.Op>, latest: int)
    requires T.Orderly(a) && T.Orderly(b)
    requires forall op :: op in a && op.Cycle? ==> op.o.now <= latest
    requires forall op :: op in b && op.Cycle? ==> op.o.now >= latest
    ensures T.Orderly(a + b)
  {
    var c := a + b;
    forall i, j | 0 <= i < j < |c| && c[i].Cycle? && c[j].Cycle?
      ensures c[i].o.now <= c[j].o.now
    {
      if i < |a| {
        assert c[i] in a;
      }
      if j >= |a| {
        assert c[j] == b[j - |a|] && c[j] in b;
      }
    }
    forall i | 0 <= i < |c| && c[i].BlockFrom?
      ensures i > 0 && c[i - 1].ResetNow?
    {
      if i >= |a| {
        assert c[i] == b[i - |a|];
      }
    }
  }

  lemma OpsAtOrderly(run: Run, i: nat)
    requires i < |run.ins|
    ensures T.Orderly(OpsAt(run, i))
  {
  }

  /** The operations of consecutive steps come in order. */
  lemma {:induction false} OpsOrderly(run: Run, i: nat, n: nat)
    requires IsRun(run) && Clocked(run.ins) && i < n <= |run.ins|
    ensures T.Orderly(OpsFrom(run, i + 1, n))
    decreases n
  {
    hide OpsAt, Clocked, T.Orderly;
    if i + 1 < n {
      OpsOrderly(run, i, n - 1);
      OpsFromNotBefore(run, i, n - 1);
      OpsAtOrderly(run, n - 1);
      OpsNotBefore(run, n - 2, n - 1);
      JoinedOrderly(OpsFrom(run, i + 1, n - 1), OpsAt(run, n - 1), run.cycles[n - 2].now);
    } else {
      NothingOrderly();
    }
  }

  lemma NothingOrderly()
    ensures T.Orderly([])
  {
  }

  lemma {:induction false} OpsJoin(run: Run, i: nat, n: nat)
    requires i <= n <= |run.ins|
    ensures OpsFrom(run, 0, n) == OpsFrom(run, 0, i) + OpsFrom(run, i, n)
    decreases n
  {
    hide OpsAt;
    if i < n {
      OpsJoin(run, i, n - 1);
    }
  }

  /** What the observer knows before step n, from what it knew before step i. */
  lemma ViewFrom(run: Run, i: nat, n: nat)
    requires i <= n <= |run.ins|
    ensures ViewAt(run, n) == T.HistoryFrom(run.cfg, ViewAt(run, i), OpsFrom(run, i, n))
  {
    hide OpsFrom, T.HistoryFrom;
    OpsJoin(run, i, n);
    T.HistoryJoin(run.cfg, T.View(false, [], None), OpsFrom(run, 0, i), OpsFrom(run, i, n));
  }

  lemma ObserveOne(cfg: Config, v: T.View, a: T.Op)
    ensures T.HistoryFrom(cfg, v, [a]) == T.Observe(cfg, v, a)
  {
    assert [a][..0] == [];
    assert T.HistoryFrom(cfg, v, [a]) == T.Observe(cfg, T.HistoryFrom(cfg, v, [a][..0]), a);
  }

  lemma ObserveTwo(cfg: Config, v: T.View, a: T.Op, b: T.Op)
    ensures T.HistoryFrom(cfg, v, [a, b]) == T.Observe(cfg, T.Observe(cfg, v, a), b)
  {
    hide T.Observe;
    ObserveOne(cfg, v, a);
    assert [a, b][..1] == [a];
  }

  lemma OneStepOps(run: Run, i: nat)
    requires i < |run.ins|
    ensures OpsFrom(run, i, i + 1) == OpsAt(run, i)
  {
    hide OpsAt;
    assert OpsFrom(run, i, i) == [];
  }

  /** After a failure the observer starts anew, with the deadline of that failure. */
  lemma FailureStartsAnew(run: Run, i: nat)
    requires IsRun(run) && i < |run.ins| && IdleFails(run, i)
    ensures ViewAt(run, i + 1) == T.FailedView(run.cfg, run.cycles[i].now)
  {
    hide Step, T.History, T.HistoryFrom, T.DueExit, T.GateOpen, T.Shows, OpsFrom, T.LastAll;
    var c, v := run.cycles[i], ViewAt(run, i);
    IdleIsHistory(run, i);
    StepTaken(run, i);
    FallbackTime(run.cfg, run.states[i], run.ins[i]);
    ViewFrom(run, i, i + 1);
    OneStepOps(run, i);
    if FellBack(c) {
      ObserveTwo(run.cfg, v, T.ResetNow, T.BlockFrom(run.ins[i].resetNow));
    } else {
      ObserveOne(run.cfg, v, T.Cycle(ObsOf(c)));
    }
  }

  /** Step m enters the regime. */
  predicate Enters(run: Run, m: nat)
    requires m < |run.ins|
  {
    !ViewAt(run, m).engaged && ViewAt(run, m + 1).engaged
  }

  /** A step enters by its own cycle, its last operation on a machine that is out. */
  lemma EntersByCycle(run: Run, m: nat)
    requires m < |run.ins| && Enters(run, m)
    ensures var ops := OpsAt(run, m);
            && ops != [] && ops[|ops| - 1].Cycle?
            && !T.HistoryFrom(run.cfg, ViewAt(run, m), ops[..|ops| - 1]).engaged
  {
    hide T.History, T.HistoryFrom, T.DueExit, T.GateOpen, T.Shows, OpsFrom, T.LastAll;
    var v, c := ViewAt(run, m), run.cycles[m];
    ViewFrom(run, m, m + 1);
    OneStepOps(run, m);
    ObserveNone(run.cfg, v);
    ObserveOne(run.cfg, v, T.ResetNow);
    ObserveTwo(run.cfg, v, T.ResetNow, T.BlockFrom(run.ins[m].resetNow));
    if c.dev.Some? {
      assert [T.ResetNow, T.Cycle(ObsOf(c))][..1] == [T.ResetNow];
      assert [T.Cycle(ObsOf(c))][..0] == [];
    }
  }

  lemma ObserveNone(cfg: Config, v: T.View)
    ensures T.HistoryFrom(cfg, v, []) == v
  {
  }

  /**
   Whenever the regime is entered after a failure, the last operations on the
   machine are a full run of eligible cycles without a gap, all past the cooldown.
   */
  lemma ReentryIsFresh(run: Run, i: nat, m: nat)
    requires IsRun(run) && Clocked(run.ins) && i < m < |run.ins| && IdleFails(run, i) && Enters(run, m)
    ensures var deadline := run.cycles[i].now + FailureCooldown(run.cfg);
            T.FreshRun(run.cfg, OpsFrom(run, i + 1, m + 1), deadline) && run.cycles[m].now >= deadline
  {
    hide Step, IdleFails, OpsAt, T.HistoryFrom, T.History, T.Orderly, Clocked, T.NotBefore, T.Shows;
    var ops, last := OpsFrom(run, i + 1, m + 1), OpsAt(run, m);
    FailureStartsAnew(run, i);
    EntersByCycle(run, m);
    ViewFrom(run, i + 1, m);
    ViewFrom(run, i + 1, m + 1);
    T.HistoryJoin(run.cfg, ViewAt(run, i + 1), OpsFrom(run, i + 1, m), last[..|last| - 1]);
    assert ops[..|ops| - 1] == OpsFrom(run, i + 1, m) + last[..|last| - 1];
    OpsOrderly(run, i, m + 1);
    OpsFromNotBefore(run, i, m + 1);
    T.ReentryNeedsFreshRun(run.cfg, run.cycles[i].now, ops);
    OpsNotBefore(run, i, m);
    assert ops[|ops| - 1] == last[|last| - 1] && last[|last| - 1] in last;
  }

  lemma {:induction false} EnteredBetween(run: Run, i: nat, n: nat) returns (m: nat)
    requires i < n <= |run.ins| && !ViewAt(run, i).engaged && ViewAt(run, n).engaged
    ensures i <= m < n && Enters(run, m)
    decreases n
  {
    hide ViewAt;
    if ViewAt(run, n - 1).engaged {
      m := EnteredBetween(run, i, n - 1);
    } else {
      m := n - 1;
    }
  }

  /**
   After a failure the regime is not engaged before the cooldown has passed, and
   only after a step that entered it by a full fresh run.
   */
  lemma FailedIdleStaysOut(run: Run, i: nat, j: nat) returns (m: nat)
    requires IsRun(run) && Clocked(run.ins) && i < j < |run.ins|
    requires IdleFails(run, i) && run.cycles[j].reach.TopIdle?
    ensures i < m <= j && Enters(run, m)
    ensures var deadline := run.cycles[i].now + FailureCooldown(run.cfg);
            && deadline <= run.cycles[m].now <= run.cycles[j].now
            && T.FreshRun(run.cfg, OpsFrom(run, i + 1, m + 1), deadline)
  {
    hide Step, SensedFloor, SensedStage, SensedLadder, SensedClock, IdleFails, OpsFrom, OpsAt, ViewAt, T.FreshRun, Clocked;
    FailureStartsAnew(run, i);
    IdleIsHistory(run, j + 1);
    StepTaken(run, j);
    StepSensed(run.cfg, run.states[j], run.ins[j]);
    m := EnteredBetween(run, i + 1, j + 1);
    ReentryIsFresh(run, i, m);
    if m < j {
      OpsNotBefore(run, m, j);
    }
  }
}
