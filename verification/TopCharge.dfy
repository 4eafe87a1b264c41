/**
 The top-charge idle machine (internal/controller/topcharge.go): debounced entry,
 four debounced exits and a cooldown. The machine keeps counters; its
 specification keeps none and looks at the history of observed cycles instead.
 */
module TopCharge {
  import opened GoStrings
  import opened Protocol
  import opened Config

  /** The state of the machine. */
  datatype Machine = Machine(
    active: bool,
    enterSamples: int,
    socExitSamples: int,
    importSamples: int,
    rawImportSamples: int,
    passThroughLostSamples: int,
    blockedUntil: Option<int>)

  const INITIAL := Machine(false, 0, 0, 0, 0, 0, None)

  /** What one control cycle shows the machine. */
  datatype Obs = Obs(now: int, dev: Status, raw: real, smoothed: real)

  datatype Exit = SocExit | PassThroughLost | RawGridImport | GridImport

  // ---- evidence in one cycle -----------------------------------------------------------

  datatype Evidence = Eligible | SocLow | Unhealthy | RawImport | SmoothedImport

  predicate ImportExitEnabled(cfg: Config) { cfg.importExitSamples > 0 }

  /** The tests of update, entryEligible and healthy (Unhealthy is its negation). */
  predicate Shows(cfg: Config, e: Evidence, o: Obs)
  {
    match e
    case Eligible =>
      && o.dev.soc >= cfg.nearFullIdleEnterPercent
      && o.smoothed <= cfg.importBiasWatts as real && o.raw <= cfg.importBiasWatts as real
      && (o.dev.SolarWatts() > 0 || o.dev.OutputWatts() > NearZeroOutputWatts(cfg.minOutputWatts) || o.dev.PassThroughActive())
    case SocLow => o.dev.soc < cfg.nearFullIdleEnterPercent
    case Unhealthy =>
      !o.dev.PassThroughActive() && o.dev.OutputWatts() <= NearZeroOutputWatts(cfg.minOutputWatts)
    case RawImport => ImportExitEnabled(cfg) && o.raw > cfg.importExitWatts as real
    case SmoothedImport => ImportExitEnabled(cfg) && o.smoothed > cfg.importExitWatts as real
  }

  /** The regime is switched on by policy and by the device's own setting. */
  predicate GateOpen(cfg: Config, o: Obs)
  {
    cfg.nearFullIdleEnabled && cfg.enforceSurplusFeedIn && o.dev.surplusFeedIn
  }

  function Required(cfg: Config): (n: int)
    ensures n >= 1 && n >= cfg.nearFullIdleSamples && (n == 1 || n == cfg.nearFullIdleSamples)
  {
    Max(cfg.nearFullIdleSamples, 1)
  }

  // ---- the code, on values ------------------------------------------------------------------

  function AfterReset(t: Machine): Machine { Machine(false, 0, 0, 0, 0, 0, t.blockedUntil) }

  function AfterBlock(cfg: Config, t: Machine, now: int): Machine
  {
    t.(blockedUntil := Some(now + FailureCooldown(cfg)))
  }

  function Count(n: int, hit: bool): int { if hit then n + 1 else 0 }

  function Counted(cfg: Config, t: Machine, o: Obs): Machine
  {
    t.(socExitSamples := Count(t.socExitSamples, Shows(cfg, SocLow, o)),
       importSamples := Count(t.importSamples, Shows(cfg, SmoothedImport, o)),
       rawImportSamples := Count(t.rawImportSamples, Shows(cfg, RawImport, o)),
       passThroughLostSamples := Count(t.passThroughLostSamples, Shows(cfg, Unhealthy, o)))
  }

  /** The exit whose counter has reached its threshold, in the coded order. */
  function CountedExit(cfg: Config, t: Machine): Option<Exit>
  {
    if t.socExitSamples >= Required(cfg) then Some(SocExit)
    else if t.passThroughLostSamples >= Required(cfg) then Some(PassThroughLost)
    else if ImportExitEnabled(cfg) && t.rawImportSamples >= cfg.importExitSamples then Some(RawGridImport)
    else if ImportExitEnabled(cfg) && t.importSamples >= cfg.importExitSamples then Some(GridImport)
    else None
  }

  predicate IsBlocked(t: Machine, now: int) { t.blockedUntil.Some? && now < t.blockedUntil.value }

  /** update: the machine after one cycle; its active flag is the reported result. */
  function AfterUpdate(cfg: Config, t: Machine, o: Obs): Machine
  {
    if !GateOpen(cfg, o) then AfterReset(t)
    else if t.active then
      var c := Counted(cfg, t, o);
      var exit := CountedExit(cfg, c);
      if exit.None? then c
      else if exit.value.SocExit? then AfterReset(c)
      else AfterBlock(cfg, AfterReset(c), o.now)
    else if IsBlocked(t, o.now) then t
    else
      var n := Count(t.enterSamples, Shows(cfg, Eligible, o));
      if n < Required(cfg) then t.(enterSamples := n)
      else t.(active := true, enterSamples := 0, socExitSamples := 0, importSamples := 0)
  }

  // ---- the code, in place -----------------------------------------------------------------

  class TopChargeIdleMachine {
    const cfg: Config
    var active: bool
    var enterSamples: int
    var socExitSamples: int
    var importSamples: int
    var rawImportSamples: int
    var passThroughLostSamples: int
    var blockedUntil: Option<int>

    function State(): Machine
      reads this
    {
      Machine(active, enterSamples, socExitSamples, importSamples, rawImportSamples, passThroughLostSamples, blockedUntil)
    }

    constructor (cfg: Config)
      ensures this.cfg == cfg && State() == INITIAL
    {
      this.cfg := cfg;
      active, enterSamples, socExitSamples, importSamples := false, 0, 0, 0;
      rawImportSamples, passThroughLostSamples, blockedUntil := 0, 0, None;
    }

    /** Disengages and clears every counter; reports whether the regime was active. */
    method Reset() returns (wasActive: bool)
      modifies this
      ensures State() == AfterReset(old(State())) && wasActive == old(active)
    {
      wasActive := active;
      active := false;
      enterSamples := 0;
      socExitSamples := 0;
      importSamples := 0;
      rawImportSamples := 0;
      passThroughLostSamples := 0;
    }

    method BlockUntil(now: int) returns (deadline: int)
      modifies this
      ensures State() == AfterBlock(cfg, old(State()), now)
      ensures deadline == now + FailureCooldown(cfg)
    {
      deadline := now + FailureCooldown(cfg);
      blockedUntil := Some(deadline);
    }

    method Update(now: int, dev: Status, raw: real, smoothed: real) returns (engaged: bool)
      modifies this
      ensures State() == AfterUpdate(cfg, old(State()), Obs(now, dev, raw, smoothed))
      ensures engaged == active
    {
      hide Shows;
      ghost var o := Obs(now, dev, raw, smoothed);
      var required := cfg.nearFullIdleSamples;
      if required < 1 {
        required := 1;
      }
      if !cfg.nearFullIdleEnabled || !cfg.enforceSurplusFeedIn || !dev.surplusFeedIn {
        var _ := Reset();
        return false;
      }
      if active {
        var exit := CountExits(dev, raw, smoothed);
        if exit.Some? {
          var _ := Reset();
          if !exit.value.SocExit? {
            var _ := BlockUntil(now);
          }
          return false;
        }
        return true;
      }
      if blockedUntil.Some? && now < blockedUntil.value {
        return false;
      }
      if Shows(cfg, Eligible, Obs(now, dev, raw, smoothed)) {
        enterSamples := enterSamples + 1;
      } else {
        enterSamples := 0;
      }
      if enterSamples < required {
        return false;
      }
      active := true;
      enterSamples := 0;
      socExitSamples := 0;
      importSamples := 0;
      return true;
    }

    /** The active half of update: advance the exit counters and name the exit that is due. */
    method CountExits(dev: Status, raw: real, smoothed: real) returns (exit: Option<Exit>)
      modifies this
      ensures forall now :: State() == Counted(cfg, old(State()), Obs(now, dev, raw, smoothed))
      ensures exit == CountedExit(cfg, State())
    {
      if dev.soc < cfg.nearFullIdleEnterPercent {
        socExitSamples := socExitSamples + 1;
      } else {
        socExitSamples := 0;
      }
      var importExitEnabled := cfg.importExitSamples > 0;
      if importExitEnabled && smoothed > cfg.importExitWatts as real {
        importSamples := importSamples + 1;
      } else {
        importSamples := 0;
      }
      if importExitEnabled && raw > cfg.importExitWatts as real {
        rawImportSamples := rawImportSamples + 1;
      } else {
        rawImportSamples := 0;
      }
      if dev.PassThroughActive() || dev.OutputWatts() > NearZeroOutputWatts(cfg.minOutputWatts) {
        passThroughLostSamples := 0;
      } else {
        passThroughLostSamples := passThroughLostSamples + 1;
      }
      if socExitSamples >= Required(cfg) {
        exit := Some(SocExit);
      } else if passThroughLostSamples >= Required(cfg) {
        exit := Some(PassThroughLost);
      } else if importExitEnabled && rawImportSamples >= cfg.importExitSamples {
        exit := Some(RawGridImport);
      } else if importExitEnabled && importSamples >= cfg.importExitSamples {
        exit := Some(GridImport);
      } else {
        exit := None;
      }
    }
  }

  // ---- the specification: history instead of counters ------------------------------------------

  /** What can happen to the machine. */
  datatype Op = Cycle(o: Obs) | ResetNow | BlockFrom(now: int)

  function Apply(cfg: Config, t: Machine, op: Op): Machine
  {
    match op
    case Cycle(o) => AfterUpdate(cfg, t, o)
    case ResetNow => AfterReset(t)
    case BlockFrom(now) => AfterBlock(cfg, t, now)
  }

  function RunFrom(cfg: Config, t: Machine, ops: seq<Op>): Machine
  {
    if ops == [] then t else Apply(cfg, RunFrom(cfg, t, ops[..|ops| - 1]), ops[|ops| - 1])
  }

  function Run(cfg: Config, ops: seq<Op>): Machine { RunFrom(cfg, INITIAL, ops) }

  /** The last n cycles all show the evidence. */
  predicate LastAll(cfg: Config, window: seq<Obs>, n: int, e: Evidence)
  {
    n <= |window| && forall i :: |window| - n <= i < |window| && i >= 0 ==> Shows(cfg, e, window[i])
  }

  /**
   What an observer without counters knows: whether the regime is engaged, every
   unblocked cycle since it last changed, and until when entry is blocked.
   */
  datatype View = View(engaged: bool, window: seq<Obs>, blockedUntil: Option<int>)

  /** The first exit, in priority order, whose evidence filled its whole debounce window. */
  function DueExit(cfg: Config, w: seq<Obs>): Option<Exit>
  {
    if LastAll(cfg, w, Required(cfg), SocLow) then Some(SocExit)
    else if LastAll(cfg, w, Required(cfg), Unhealthy) then Some(PassThroughLost)
    else if ImportExitEnabled(cfg) && LastAll(cfg, w, cfg.importExitSamples, RawImport) then Some(RawGridImport)
    else if ImportExitEnabled(cfg) && LastAll(cfg, w, cfg.importExitSamples, SmoothedImport) then Some(GridImport)
    else None
  }

  function Observe(cfg: Config, v: View, op: Op): View
  {
    match op
    case ResetNow => View(false, [], v.blockedUntil)
    case BlockFrom(now) => v.(blockedUntil := Some(now + FailureCooldown(cfg)))
    case Cycle(o) =>
      if !GateOpen(cfg, o) then View(false, [], v.blockedUntil)
      else if v.engaged then
        var w := v.window + [o];
        var exit := DueExit(cfg, w);
        if exit.None? then v.(window := w)
        else View(false, [], if exit.value.SocExit? then v.blockedUntil else Some(o.now + FailureCooldown(cfg)))
      else if v.blockedUntil.Some? && o.now < v.blockedUntil.value then v
      else
        var w := v.window + [o];
        if LastAll(cfg, w, Required(cfg), Eligible) then View(true, [], v.blockedUntil)
        else v.(window := w)
  }

  function HistoryFrom(cfg: Config, v: View, ops: seq<Op>): View
  {
    if ops == [] then v else Observe(cfg, HistoryFrom(cfg, v, ops[..|ops| - 1]), ops[|ops| - 1])
  }

  function History(cfg: Config, ops: seq<Op>): View { HistoryFrom(cfg, View(false, [], None), ops) }

  /** n is the length of the longest suffix of the window that shows the evidence throughout. */
  predicate IsTrailingRun(cfg: Config, window: seq<Obs>, n: int, e: Evidence)
  {
    && 0 <= n <= |window|
    && LastAll(cfg, window, n, e)
    && (n < |window| ==> !Shows(cfg, e, window[|window| - n - 1]))
  }

  lemma TrailingRunStep(cfg: Config, window: seq<Obs>, n: int, e: Evidence, o: Obs)
    requires IsTrailingRun(cfg, window, n, e)
    ensures IsTrailingRun(cfg, window + [o], Count(n, Shows(cfg, e, o)), e)
  {
  }

  lemma TrailingRunDecides(cfg: Config, window: seq<Obs>, n: int, e: Evidence, k: int)
    requires IsTrailingRun(cfg, window, n, e) && k >= 0
    ensures n >= k <==> LastAll(cfg, window, k, e)
  {
    if n < k <= |window| {
      assert !Shows(cfg, e, window[|window| - n - 1]);
    }
  }

  /** The machine's counters are the trailing runs of the observer's window. */
  ghost predicate Implements(cfg: Config, t: Machine, v: View)
  {
    && t.active == v.engaged && t.blockedUntil == v.blockedUntil
    && (t.active ==>
          && t.enterSamples == 0
          && IsTrailingRun(cfg, v.window, t.socExitSamples, SocLow)
          && IsTrailingRun(cfg, v.window, t.passThroughLostSamples, Unhealthy)
          && IsTrailingRun(cfg, v.window, t.rawImportSamples, RawImport)
          && IsTrailingRun(cfg, v.window, t.importSamples, SmoothedImport))
    && (!t.active ==>
          && t.socExitSamples == 0 && t.passThroughLostSamples == 0 && t.rawImportSamples == 0 && t.importSamples == 0
          && IsTrailingRun(cfg, v.window, t.enterSamples, Eligible))
  }

  lemma CycleImplements(cfg: Config, t: Machine, v: View, o: Obs)
    requires Implements(cfg, t, v)
    ensures Implements(cfg, AfterUpdate(cfg, t, o), Observe(cfg, v, Cycle(o)))
  {
    hide IsTrailingRun, LastAll, Shows;
    var w := v.window + [o];
    if GateOpen(cfg, o) && t.active {
      ExitRuns(cfg, t, v, o);
    }
    if GateOpen(cfg, o) && !t.active && !IsBlocked(t, o.now) {
      TrailingRunStep(cfg, v.window, t.enterSamples, Eligible, o);
      TrailingRunDecides(cfg, w, Count(t.enterSamples, Shows(cfg, Eligible, o)), Eligible, Required(cfg));
    }
    EmptyRuns(cfg);
  }

  lemma EmptyRuns(cfg: Config)
    ensures IsTrailingRun(cfg, [], 0, SocLow) && IsTrailingRun(cfg, [], 0, Unhealthy)
    ensures IsTrailingRun(cfg, [], 0, RawImport) && IsTrailingRun(cfg, [], 0, SmoothedImport)
    ensures IsTrailingRun(cfg, [], 0, Eligible)
  {
  }

  lemma ExitRuns(cfg: Config, t: Machine, v: View, o: Obs)
    requires Implements(cfg, t, v) && t.active
    ensures var c, w := Counted(cfg, t, o), v.window + [o];
            && IsTrailingRun(cfg, w, c.socExitSamples, SocLow)
            && IsTrailingRun(cfg, w, c.passThroughLostSamples, Unhealthy)
            && IsTrailingRun(cfg, w, c.rawImportSamples, RawImport)
            && IsTrailingRun(cfg, w, c.importSamples, SmoothedImport)
            && CountedExit(cfg, c) == DueExit(cfg, w)
  {
    hide IsTrailingRun, LastAll, Shows;
    var c, w := Counted(cfg, t, o), v.window + [o];
    TrailingRunStep(cfg, v.window, t.socExitSamples, SocLow, o);
    TrailingRunStep(cfg, v.window, t.passThroughLostSamples, Unhealthy, o);
    TrailingRunStep(cfg, v.window, t.rawImportSamples, RawImport, o);
    TrailingRunStep(cfg, v.window, t.importSamples, SmoothedImport, o);
    TrailingRunDecides(cfg, w, c.socExitSamples, SocLow, Required(cfg));
    TrailingRunDecides(cfg, w, c.passThroughLostSamples, Unhealthy, Required(cfg));
    if ImportExitEnabled(cfg) {
      TrailingRunDecides(cfg, w, c.rawImportSamples, RawImport, cfg.importExitSamples);
      TrailingRunDecides(cfg, w, c.importSamples, SmoothedImport, cfg.importExitSamples);
    }
  }

  /**
   Over every run the counting machine is the history specification: it is
   engaged, blocked and counting exactly as the history says.
   */
  lemma {:induction false} MachineIsHistory(cfg: Config, ops: seq<Op>)
    ensures Implements(cfg, Run(cfg, ops), History(cfg, ops))
  {
    hide Implements, AfterUpdate, Observe;
    if ops == [] {
      InitialImplements(cfg);
    } else {
      MachineIsHistory(cfg, ops[..|ops| - 1]);
      assert History(cfg, ops) == Observe(cfg, History(cfg, ops[..|ops| - 1]), ops[|ops| - 1]);
      assert Run(cfg, ops) == Apply(cfg, Run(cfg, ops[..|ops| - 1]), ops[|ops| - 1]);
      OpImplements(cfg, Run(cfg, ops[..|ops| - 1]), History(cfg, ops[..|ops| - 1]), ops[|ops| - 1]);
    }
  }

  lemma InitialImplements(cfg: Config)
    ensures Implements(cfg, INITIAL, View(false, [], None))
  {
    hide IsTrailingRun, Shows;
    EmptyRuns(cfg);
  }

  lemma OpImplements(cfg: Config, t: Machine, v: View, op: Op)
    requires Implements(cfg, t, v)
    ensures Implements(cfg, Apply(cfg, t, op), Observe(cfg, v, op))
  {
    hide IsTrailingRun, Shows, AfterUpdate;
    EmptyRuns(cfg);
    match op
    case Cycle(o) => CycleImplements(cfg, t, v, o);
    case ResetNow =>
    case BlockFrom(_) =>
  }

  // ---- the cooldown ------------------------------------------------------------------------------

  lemma {:induction false} RunFromJoin(cfg: Config, t: Machine, a: seq<Op>, b: seq<Op>)
    ensures RunFrom(cfg, t, a + b) == RunFrom(cfg, RunFrom(cfg, t, a), b)
  {
    hide Apply;
    if b == [] {
      assert a + b == a;
    } else {
      assert (a + b)[..|a + b| - 1] == a + b[..|b| - 1];
      RunFromJoin(cfg, t, a, b[..|b| - 1]);
    }
  }

  lemma {:induction false} HistoryJoin(cfg: Config, v: View, a: seq<Op>, b: seq<Op>)
    ensures HistoryFrom(cfg, v, a + b) == HistoryFrom(cfg, HistoryFrom(cfg, v, a), b)
  {
    hide Observe;
    if b == [] {
      assert a + b == a;
    } else {
      assert (a + b)[..|a + b| - 1] == a + b[..|b| - 1];
      HistoryJoin(cfg, v, a, b[..|b| - 1]);
    }
  }

  predicate NotBefore(ops: seq<Op>, time: int)
  {
    forall op :: op in ops ==> (op.Cycle? ==> op.o.now >= time) && (op.BlockFrom? ==> op.now >= time)
  }

  /** Cycles come in the order of their times, and only a reset machine is blocked from outside. */
  predicate Orderly(ops: seq<Op>)
  {
    && (forall i, j :: 0 <= i < j < |ops| && ops[i].Cycle? && ops[j].Cycle? ==> ops[i].o.now <= ops[j].o.now)
    && (forall i :: 0 <= i < |ops| && ops[i].BlockFrom? ==> i > 0 && ops[i - 1].ResetNow?)
  }

  predicate Cleared(cfg: Config, t: Machine, failedAt: int)
  {
    !t.active && t.enterSamples == 0 && t.blockedUntil == Some(failedAt + FailureCooldown(cfg))
  }

  /** What an observer knows right after a failure. */
  function FailedView(cfg: Config, failedAt: int): View { View(false, [], Some(failedAt + FailureCooldown(cfg))) }

  /** The window is what the machine saw last, without a gap. */
  predicate IsTail(ops: seq<Op>, window: seq<Obs>)
  {
    |window| <= |ops| && forall k :: 0 <= k < |window| ==> ops[|ops| - |window| + k] == Cycle(window[k])
  }

  /** While out since a failure, the window holds the latest cycles, all past the deadline. */
  predicate Out(v: View, ops: seq<Op>, deadline: int)
  {
    && v.blockedUntil.Some? && v.blockedUntil.value >= deadline
    && (!v.engaged ==> IsTail(ops, v.window) && forall o :: o in v.window ==> o.now >= v.blockedUntil.value)
  }

  lemma {:induction false} OutSinceFailure(cfg: Config, failedAt: int, ops: seq<Op>)
    requires Orderly(ops) && NotBefore(ops, failedAt)
    ensures Out(HistoryFrom(cfg, FailedView(cfg, failedAt), ops), ops, failedAt + FailureCooldown(cfg))
  {
    hide Shows, LastAll, DueExit, GateOpen, Observe, Out, Orderly;
    if ops == [] {
      FailedIsOut(cfg, failedAt);
    } else {
      var init, last := ops[..|ops| - 1], ops[|ops| - 1];
      OrderlyPrefix(ops);
      OutSinceFailure(cfg, failedAt, init);
      assert last in ops;
      var v := HistoryFrom(cfg, FailedView(cfg, failedAt), init);
      if last.BlockFrom? {
        BlockedAfterReset(cfg, failedAt, ops);
      }
      assert init + [last] == ops;
      OutStep(cfg, v, init, last, failedAt);
    }
  }

  lemma FailedIsOut(cfg: Config, failedAt: int)
    ensures Out(FailedView(cfg, failedAt), [], failedAt + FailureCooldown(cfg))
  {
  }

  lemma OrderlyPrefix(ops: seq<Op>)
    requires Orderly(ops) && ops != []
    ensures Orderly(ops[..|ops| - 1])
  {
  }

  lemma BlockedAfterReset(cfg: Config, failedAt: int, ops: seq<Op>)
    requires Orderly(ops) && ops != [] && ops[|ops| - 1].BlockFrom?
    ensures var v := HistoryFrom(cfg, FailedView(cfg, failedAt), ops[..|ops| - 1]);
            !v.engaged && v.window == []
  {
    var init := ops[..|ops| - 1];
    assert init[|init| - 1].ResetNow?;
  }

  lemma OutStep(cfg: Config, v: View, ops: seq<Op>, op: Op, failedAt: int)
    requires Out(v, ops, failedAt + FailureCooldown(cfg)) && Orderly(ops + [op]) && NotBefore([op], failedAt)
    requires op.BlockFrom? ==> !v.engaged && v.window == []
    ensures Out(Observe(cfg, v, op), ops + [op], failedAt + FailureCooldown(cfg))
  {
    hide Shows, LastAll, DueExit, GateOpen, Orderly;
    assert op in [op];
    if op.Cycle? {
      if !v.engaged && v.window != [] {
        NothingBlockedMidway(v, ops, op);
      }
      TailGrows(ops, v.window, op.o);
    }
  }

  lemma TailGrows(ops: seq<Op>, window: seq<Obs>, o: Obs)
    ensures IsTail(ops, window) ==> IsTail(ops + [Cycle(o)], window + [o])
  {
  }

  /** A window that has begun is past its deadline, so no later cycle is blocked. */
  lemma NothingBlockedMidway(v: View, ops: seq<Op>, op: Op)
    requires Orderly(ops + [op]) && op.Cycle? && v.blockedUntil.Some? && IsTail(ops, v.window) && v.window != []
    requires forall o :: o in v.window ==> o.now >= v.blockedUntil.value
    ensures op.o.now >= v.blockedUntil.value
  {
    var all, k := ops + [op], |ops| - |v.window|;
    assert all[k] == ops[k] == Cycle(v.window[0]) && all[|ops|] == op;
    assert v.window[0] in v.window;
  }

  /** The last cycles the machine saw were all eligible and past the deadline, as many as the debounce asks for. */
  predicate FreshRun(cfg: Config, ops: seq<Op>, deadline: int)
  {
    && Required(cfg) <= |ops|
    && forall k :: |ops| - Required(cfg) <= k < |ops| ==>
         ops[k].Cycle? && ops[k].o.now >= deadline && Shows(cfg, Eligible, ops[k].o)
  }

  /**
   After a failure at some time the regime is entered again only by a full fresh
   run: the last Required operations on the machine, without a gap, are eligible
   cycles past the cooldown.
   */
  lemma ReentryNeedsFreshRun(cfg: Config, failedAt: int, ops: seq<Op>)
    requires Orderly(ops) && NotBefore(ops, failedAt) && ops != []
    requires !HistoryFrom(cfg, FailedView(cfg, failedAt), ops[..|ops| - 1]).engaged
    requires HistoryFrom(cfg, FailedView(cfg, failedAt), ops).engaged
    ensures FreshRun(cfg, ops, failedAt + FailureCooldown(cfg))
  {
    hide Shows, DueExit, GateOpen, Orderly;
    var init, last := ops[..|ops| - 1], ops[|ops| - 1];
    OrderlyPrefix(ops);
    OutSinceFailure(cfg, failedAt, init);
    var v := HistoryFrom(cfg, FailedView(cfg, failedAt), init);
    var w, n := v.window + [last.o], Required(cfg);
    assert LastAll(cfg, w, n, Eligible);
    TailGrows(init, v.window, last.o);
    assert init + [last] == ops;
    forall k | |ops| - n <= k < |ops|
      ensures ops[k].Cycle? && ops[k].o.now >= failedAt + FailureCooldown(cfg) && Shows(cfg, Eligible, ops[k].o)
    {
      var j := k - |ops| + |w|;
      assert ops[k] == Cycle(w[j]);
      assert j < |v.window| ==> w[j] in v.window;
    }
  }
}
