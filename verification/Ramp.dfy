/**
 Convergence of normal control: where the ramp, the snap around the device's
 minimum and the delta threshold lead when the target holds still
 (internal/controller/helpers.go, step.go).
 */
module Ramp {
  import opened GoStrings
  import opened Protocol
  import opened Config
  import opened Policy
  import opened ControlSpec
  import opened StepEffects
  import opened StepShape
  import opened Runs
  import opened RunPolicy

  /** The command after one step of normal control outside the hold time, not exporting. */
  function NextCommand(cfg: Config, c: int, target: int): int
  {
    var ramped := Ramped(cfg, c, target, false);
    if DeltaSuppressed(cfg, c, ramped, false) then c else ramped
  }

  function CommandAfter(cfg: Config, c: int, target: int, n: nat): int
    decreases n
  {
    if n == 0 then c else CommandAfter(cfg, NextCommand(cfg, c, target), target, n - 1)
  }

  /** At the target, or nearer to it than the delta threshold. */
  predicate Settled(cfg: Config, c: int, target: int)
  {
    c == target || Abs(target - c) < cfg.minCommandDelta
  }

  function RampTowards(cfg: Config, c: int, target: int): int
  {
    if c < target then cfg.rampUp else cfg.rampDown
  }

  /** How many writes the ramp needs at most: the distance over the limit, rounded up. */
  function Writes(cfg: Config, c: int, target: int): nat
    requires cfg.rampUp >= 0 && cfg.rampDown >= 0
  {
    var ramp := RampTowards(cfg, c, target);
    if c == target then 0
    else if ramp == 0 then 1
    else CeilDiv(Abs(target - c), ramp)
  }

  function CeilDiv(a: nat, b: int): nat
    requires b > 0
  {
    (a + b - 1) / b
  }

  /**
   When commands reach the target at all: the ramp limit is off or not below the
   delta threshold, or a snap around the minimum output covers the way.
   */
  predicate CanSettle(cfg: Config, c: int, target: int)
  {
    var ramp := RampTowards(cfg, c, target);
    || Settled(cfg, c, target)
    || ramp == 0 || ramp >= cfg.minCommandDelta
    || (c == 0 && cfg.minOutputWatts >= cfg.minCommandDelta && Settled(cfg, cfg.minOutputWatts, target))
    || (target == 0 && c < cfg.minOutputWatts + cfg.rampDown)
  }

  predicate Limits(cfg: Config)
  {
    ValidWatts(cfg) && cfg.rampUp >= 0 && cfg.rampDown >= 0 && cfg.minCommandDelta >= 0
  }

  predicate Way(cfg: Config, c: int, target: int) { Limits(cfg) && Commandable(cfg, c) && Commandable(cfg, target) }

  predicate Between(a: int, b: int, c: int) { (a <= b <= c) || (c <= b <= a) }

  // ---- monotone, and never past the target ------------------------------------------------------------

  lemma NextBetween(cfg: Config, c: int, target: int)
    requires Way(cfg, c, target)
    ensures Between(c, NextCommand(cfg, c, target), target) && Commandable(cfg, NextCommand(cfg, c, target))
  {
    hide Ramped, Commandable;
    RampedBetween(cfg, c, target, false);
  }

  /** Commands move towards a constant target and never past it, whatever the ramp limits. */
  lemma {:induction false} NeverPastTarget(cfg: Config, c: int, target: int, n: nat)
    requires Way(cfg, c, target)
    ensures Between(c, CommandAfter(cfg, c, target, n), target)
    ensures Between(CommandAfter(cfg, c, target, n), CommandAfter(cfg, c, target, n + 1), target)
    decreases n
  {
    hide NextCommand, Commandable;
    NextBetween(cfg, c, target);
    if n > 0 {
      NeverPastTarget(cfg, NextCommand(cfg, c, target), target, n - 1);
    } else {
      assert CommandAfter(cfg, c, target, 1) == CommandAfter(cfg, NextCommand(cfg, c, target), target, 0);
    }
  }

  // ---- settling -------------------------------------------------------------------------------------------

  lemma SettledStays(cfg: Config, c: int, target: int)
    requires Way(cfg, c, target) && Settled(cfg, c, target)
    ensures NextCommand(cfg, c, target) == c
  {
    hide Ramped, Commandable;
    RampedBetween(cfg, c, target, false);
  }

  lemma CeilDivDrops(a: nat, b: int, m: int)
    requires 0 < b <= m <= a
    ensures CeilDiv(a - m, b) < CeilDiv(a, b)
  {
    var q := CeilDiv(a - m, b);
    assert a - m + b - 1 == b * q + (a - m + b - 1) % b;
    assert (q + 1) * b == b * q + b;
    assert (q + 1) * b <= a + b - 1;
    DivAtLeast(q + 1, b, a + b - 1);
  }

  lemma DivAtLeast(q: int, b: int, a: int)
    requires b > 0 && q * b <= a
    ensures q <= a / b
  {
    var k := a / b;
    assert a == b * k + a % b;
    if q >= k + 1 {
      assert q * b == (q - k - 1) * b + k * b + b;
      ProductNotNegative(q - k - 1, b);
      assert false;
    }
  }

  lemma ProductNotNegative(x: nat, y: nat)
    ensures x * y >= 0
  {
  }

  /** One step either reaches the target or covers a whole ramp limit. */
  lemma StepCovers(cfg: Config, c: int, target: int)
    requires Way(cfg, c, target) && CanSettle(cfg, c, target) && !Settled(cfg, c, target)
    ensures var c', ramp := NextCommand(cfg, c, target), RampTowards(cfg, c, target);
            && c' != c && Between(c, c', target)
            && (Settled(cfg, c', target) || (Abs(c' - c) >= ramp > 0 && ramp >= cfg.minCommandDelta))
            && (ramp == 0 ==> c' == target)
            && (ramp > 0 ==> c' == target || Abs(c' - c) >= ramp)
  {
  }

  lemma StepProgress(cfg: Config, c: int, target: int)
    requires Way(cfg, c, target) && CanSettle(cfg, c, target) && !Settled(cfg, c, target)
    ensures var c' := NextCommand(cfg, c, target);
            CanSettle(cfg, c', target) && Writes(cfg, c', target) < Writes(cfg, c, target)
  {
    hide NextCommand, Commandable;
    StepCovers(cfg, c, target);
    var c', ramp, way := NextCommand(cfg, c, target), RampTowards(cfg, c, target), Abs(target - c);
    if ramp > 0 {
      if c' == target {
        DivAtLeast(1, ramp, way + ramp - 1);
      } else {
        CeilDivDrops(way, ramp, Abs(c' - c));
        assert way - Abs(c' - c) == Abs(target - c');
      }
    }
  }

  /** The commands settle within the writes the ramp needs, and then stay. */
  lemma {:induction false} Converges(cfg: Config, c: int, target: int, n: nat)
    requires Way(cfg, c, target) && CanSettle(cfg, c, target) && n >= Writes(cfg, c, target)
    ensures Settled(cfg, CommandAfter(cfg, c, target, n), target)
    decreases n
  {
    hide NextCommand, CanSettle, Commandable, Abs, CeilDiv;
    if n == 0 {
      NoWritesAtTarget(cfg, c, target);
    } else if Settled(cfg, c, target) {
      SettledStaysFor(cfg, c, target, n);
    } else {
      StepProgress(cfg, c, target);
      NextBetween(cfg, c, target);
      Converges(cfg, NextCommand(cfg, c, target), target, n - 1);
    }
  }

  lemma NoWritesAtTarget(cfg: Config, c: int, target: int)
    requires Limits(cfg) && Writes(cfg, c, target) == 0
    ensures c == target
  {
    if c != target && RampTowards(cfg, c, target) > 0 {
      DivAtLeast(1, RampTowards(cfg, c, target), Abs(target - c) + RampTowards(cfg, c, target) - 1);
    }
  }

  lemma {:induction false} SettledStaysFor(cfg: Config, c: int, target: int, n: nat)
    requires Way(cfg, c, target) && Settled(cfg, c, target)
    ensures CommandAfter(cfg, c, target, n) == c
    decreases n
  {
    hide NextCommand, Commandable, Settled;
    SettledStays(cfg, c, target);
    if n > 0 {
      SettledStaysFor(cfg, c, target, n - 1);
    }
  }

  /** Out of reach: no number of steps settles. */
  lemma {:induction false} NeverSettles(cfg: Config, c: int, target: int, n: nat)
    requires Way(cfg, c, target) && !CanSettle(cfg, c, target)
    ensures !Settled(cfg, CommandAfter(cfg, c, target, n), target)
    decreases n
  {
    hide NextCommand, Commandable;
    StillOutOfReach(cfg, c, target);
    NextBetween(cfg, c, target);
    if n > 0 {
      NeverSettles(cfg, NextCommand(cfg, c, target), target, n - 1);
    }
  }

  lemma StillOutOfReach(cfg: Config, c: int, target: int)
    requires Way(cfg, c, target) && !CanSettle(cfg, c, target)
    ensures !CanSettle(cfg, NextCommand(cfg, c, target), target)
  {
  }

  /** Towards a constant target, normal control settles if and only if the limits let it. */
  lemma SettlesExactly(cfg: Config, c: int, target: int)
    requires Way(cfg, c, target)
    ensures (exists n: nat :: Settled(cfg, CommandAfter(cfg, c, target, n), target)) <==> CanSettle(cfg, c, target)
  {
    hide CommandAfter, CanSettle, Settled, Commandable, Writes;
    if CanSettle(cfg, c, target) {
      Converges(cfg, c, target, Writes(cfg, c, target));
    } else {
      forall n: nat
        ensures !Settled(cfg, CommandAfter(cfg, c, target, n), target)
      {
        NeverSettles(cfg, c, target, n);
      }
    }
  }

  /** Nothing validates the limits against the threshold: 5 W of ramp under a 10 W threshold leaves 100 W at 100 W for ever. */
  lemma {:induction false} SmallRampStalls(cfg: Config, n: nat)
    requires Limits(cfg) && cfg.minOutputWatts <= 100 && cfg.maxOutputWatts >= 200
    requires cfg.rampUp == 5 && cfg.minCommandDelta == 10
    ensures CommandAfter(cfg, 100, 200, n) == 100
  {
    if n > 0 {
      SmallRampStalls(cfg, n - 1);
    }
  }

  // ---- how fast at least, and how fast at most ----------------------------------------------------------------

  /** What a snap around the minimum output can add to the ramp. */
  function Snap(cfg: Config, c: int, target: int): int
  {
    if c == 0 || target == 0 then cfg.minOutputWatts else 0
  }

  lemma NextWithinRamp(cfg: Config, c: int, target: int)
    requires Way(cfg, c, target)
    ensures var c' := NextCommand(cfg, c, target);
            && (c <= target && cfg.rampUp > 0 ==> c' - c <= cfg.rampUp || (c == 0 && c' == cfg.minOutputWatts))
            && (target <= c && cfg.rampDown > 0 ==>
                  c - c' <= cfg.rampDown || (c' == target == 0 && c - cfg.rampDown < cfg.minOutputWatts))
  {
    hide Ramped;
    RampedExactly(cfg, c, target, false);
  }

  lemma OneStepBound(cfg: Config, c: int, target: int)
    requires Way(cfg, c, target) && RampTowards(cfg, c, target) > 0
    ensures var c', ramp := NextCommand(cfg, c, target), RampTowards(cfg, c, target);
            if c' == target || c' == c then Abs(c' - c) <= ramp + Snap(cfg, c, target)
            else Abs(c' - c) + Snap(cfg, c', target) <= ramp + Snap(cfg, c, target)
  {
    hide NextCommand;
    NextBetween(cfg, c, target);
    NextWithinRamp(cfg, c, target);
  }

  /** n writes cover at most n ramp limits, and one snap when the way begins or ends at 0. */
  lemma {:induction false} RampBounds(cfg: Config, c: int, target: int, n: nat)
    requires Way(cfg, c, target) && RampTowards(cfg, c, target) > 0
    ensures Abs(CommandAfter(cfg, c, target, n) - c) <= n * RampTowards(cfg, c, target) + Snap(cfg, c, target)
    decreases n
  {
    hide NextCommand, Commandable;
    if n > 0 {
      var c', ramp := NextCommand(cfg, c, target), RampTowards(cfg, c, target);
      NextBetween(cfg, c, target);
      NextWithinRamp(cfg, c, target);
      NeverPastTarget(cfg, c', target, n - 1);
      assert n * ramp == (n - 1) * ramp + ramp;
      ProductNotNegative(n - 1, ramp);
      OneStepBound(cfg, c, target);
      if c' != target {
        RampBounds(cfg, c', target, n - 1);
        assert RampTowards(cfg, c', target) == ramp;
      }
    }
  }

  /** A whole ramp limit between two commands in the range, if it is not below the delta threshold. */
  lemma NextIsOneRamp(cfg: Config, c: int, target: int)
    requires Way(cfg, c, target) && c > 0 && target > 0 && c != target
    requires var ramp := RampTowards(cfg, c, target); ramp > 0 && ramp >= cfg.minCommandDelta && ramp <= Abs(target - c)
    ensures var ramp := RampTowards(cfg, c, target);
            NextCommand(cfg, c, target) == if c < target then c + ramp else c - ramp
  {
    hide Ramped;
    RampedExactly(cfg, c, target, false);
  }

  /** Inside the range each write covers exactly one ramp limit, as long as a whole one is left to go. */
  lemma {:induction false} RampIsExact(cfg: Config, c: int, target: int, n: nat)
    requires Way(cfg, c, target) && c > 0 && target > 0
    requires var ramp := RampTowards(cfg, c, target);
             ramp > 0 && ramp >= cfg.minCommandDelta && n * ramp <= Abs(target - c)
    ensures var ramp := RampTowards(cfg, c, target);
            CommandAfter(cfg, c, target, n) == if c < target then c + n * ramp else c - n * ramp
    decreases n
  {
    hide NextCommand, Commandable;
    if n > 0 {
      var ramp := RampTowards(cfg, c, target);
      assert n * ramp == (n - 1) * ramp + ramp;
      ProductNotNegative(n - 1, ramp);
      NextIsOneRamp(cfg, c, target);
      NextBetween(cfg, c, target);
      if n > 1 {
        assert (n - 1) * ramp == (n - 2) * ramp + ramp;
        ProductNotNegative(n - 2, ramp);
        RampIsExact(cfg, NextCommand(cfg, c, target), target, n - 1);
      }
    }
  }

  lemma OneLessIsShort(a: nat, b: int, n: nat)
    requires b > 0 && n < CeilDiv(a, b)
    ensures n * b < a
  {
    var q := CeilDiv(a, b);
    assert q * b <= a + b - 1;
    ProductNotNegative(q - 1 - n, b);
    assert q * b == (q - 1 - n) * b + n * b + b;
  }

  /**
   The number of writes is tight: between two commands in the range the target is not
   reached with fewer, and if every change is large enough to be written it is reached
   with exactly that many.
   */
  lemma WritesIsTight(cfg: Config, c: int, target: int, n: nat)
    requires Way(cfg, c, target) && c > 0 && target > 0
    requires var ramp := RampTowards(cfg, c, target); ramp == 0 || ramp >= cfg.minCommandDelta
    ensures n < Writes(cfg, c, target) ==> CommandAfter(cfg, c, target, n) != target
    ensures cfg.minCommandDelta <= 1 ==> (CommandAfter(cfg, c, target, n) == target <==> n >= Writes(cfg, c, target))
  {
    hide NextCommand, Commandable, CeilDiv;
    var ramp := RampTowards(cfg, c, target);
    if n < Writes(cfg, c, target) && ramp > 0 {
      OneLessIsShort(Abs(target - c), ramp, n);
      RampIsExact(cfg, c, target, n);
    }
    if n >= Writes(cfg, c, target) {
      Converges(cfg, c, target, n);
    }
  }

  /** With the shipped limits 100 W takes four writes to 600 W: 250, 400, 550, 600. */
  lemma DefaultRampTakesFour()
    ensures CommandAfter(DEFAULTS, 100, 600, 1) == 250 && CommandAfter(DEFAULTS, 100, 600, 2) == 400
    ensures CommandAfter(DEFAULTS, 100, 600, 3) == 550 && CommandAfter(DEFAULTS, 100, 600, 4) == 600
    ensures Writes(DEFAULTS, 100, 600) == 4
  {
    hide Ramped;
    RampedExactly(DEFAULTS, 100, 600, false);
    RampedExactly(DEFAULTS, 250, 600, false);
    RampedExactly(DEFAULTS, 400, 600, false);
    RampedExactly(DEFAULTS, 550, 600, false);
    assert CommandAfter(DEFAULTS, 550, 600, 1) == CommandAfter(DEFAULTS, 600, 600, 0);
    assert CommandAfter(DEFAULTS, 400, 600, 2) == CommandAfter(DEFAULTS, 550, 600, 1);
    assert CommandAfter(DEFAULTS, 400, 600, 1) == CommandAfter(DEFAULTS, 550, 600, 0);
    assert CommandAfter(DEFAULTS, 250, 600, 3) == CommandAfter(DEFAULTS, 400, 600, 2);
    assert CommandAfter(DEFAULTS, 250, 600, 2) == CommandAfter(DEFAULTS, 400, 600, 1);
    assert CommandAfter(DEFAULTS, 250, 600, 1) == CommandAfter(DEFAULTS, 400, 600, 0);
  }

  // ---- the controller follows these commands -------------------------------------------------------------------

  /** Step i is normal control towards the target, past the hold time, not exporting, and the broker accepts. */
  predicate FreeStep(run: Run, i: nat, target: int)
    requires i < |run.ins|
  {
    var c, s := run.cycles[i], run.states[i];
    && c.reach.NormalStep? && c.target == target && !Exporting(c) && run.ins[i].publishOk
    && (s.lastCommandTime.Some? ==> c.now - s.lastCommandTime.value >= run.cfg.minHoldTime)
  }

  lemma FreeStepFollows(run: Run, i: nat, target: int)
    requires IsRun(run) && i < |run.ins| && Valid(run.cfg) && FreeStep(run, i, target)
    ensures Commandable(run.cfg, run.states[i].lastCommandWatts) && Commandable(run.cfg, target)
    ensures run.states[i + 1].lastCommandWatts == NextCommand(run.cfg, run.states[i].lastCommandWatts, target)
  {
    hide Valid, Ramped, SlotCommand, DesiredSlot, NormalControl, Commandable, DeltaSuppressed;
    SoundInRun(run, i);
    var o, observedAt := NormalStepIs(run, i);
    var c := run.cycles[i];
    NormalControlMoves(run.cfg, o, c.now, observedAt, c.dev.value, c.target, false, true);
  }

  lemma SoundInRun(run: Run, i: nat)
    requires IsRun(run) && i <= |run.ins| && Valid(run.cfg)
    ensures Limits(run.cfg) && Sound(run.cfg, run.states[i])
  {
    SoundAt(run, i);
  }

  lemma {:induction false} RunFollows(run: Run, i: nat, n: nat, target: int)
    requires IsRun(run) && i + n <= |run.ins| && Valid(run.cfg)
    requires forall k: nat :: i <= k < i + n ==> FreeStep(run, k, target)
    ensures run.states[i + n].lastCommandWatts == CommandAfter(run.cfg, run.states[i].lastCommandWatts, target, n)
    decreases n
  {
    hide FreeStep, Valid, NextCommand;
    if n > 0 {
      FreeStepFollows(run, i, target);
      RunFollows(run, i + 1, n - 1, target);
    }
  }

  /** One free step changes the command by at most one ramp limit, but for the snap from 0 to the least output, or from below it to 0. */
  lemma FreeStepWithinRamp(run: Run, i: nat, target: int)
    requires IsRun(run) && i < |run.ins| && Valid(run.cfg) && FreeStep(run, i, target)
    ensures var cfg, c, c' := run.cfg, run.states[i].lastCommandWatts, run.states[i + 1].lastCommandWatts;
            && Between(c, c', target)
            && (c <= target && cfg.rampUp > 0 ==> c' <= c + cfg.rampUp || (c == 0 && c' == cfg.minOutputWatts))
            && (target <= c && cfg.rampDown > 0 ==>
                  c' >= c - cfg.rampDown || (c' == target == 0 && c - cfg.rampDown < cfg.minOutputWatts))
  {
    hide FreeStep, Valid, NextCommand;
    SoundInRun(run, i);
    FreeStepFollows(run, i, target);
    NextBetween(run.cfg, run.states[i].lastCommandWatts, target);
    NextWithinRamp(run.cfg, run.states[i].lastCommandWatts, target);
  }

  /**
   In every run: n consecutive free steps towards one target leave the command
   between where it was and the target, at most n ramp limits and a snap further; n
   whole limits further inside the range; and settled if n covers the ramp and the
   limits allow it at all.
   */
  lemma ControlConverges(run: Run, i: nat, n: nat, target: int)
    requires IsRun(run) && 0 < n && i + n <= |run.ins| && Valid(run.cfg)
    requires forall k: nat :: i <= k < i + n ==> FreeStep(run, k, target)
    ensures run.cfg.rampUp >= 0 && run.cfg.rampDown >= 0
    ensures var c, c' := run.states[i].lastCommandWatts, run.states[i + n].lastCommandWatts;
            var ramp := if c < target then run.cfg.rampUp else run.cfg.rampDown;
            && Between(c, c', target)
            && (ramp > 0 ==> Abs(c' - c) <= n * ramp + Snap(run.cfg, c, target))
            && (c > 0 && target > 0 && ramp > 0 && ramp >= run.cfg.minCommandDelta && n * ramp <= Abs(target - c) ==>
                  c' == if c < target then c + n * ramp else c - n * ramp)
            && (CanSettle(run.cfg, c, target) && n >= Writes(run.cfg, c, target) ==> Settled(run.cfg, c', target))
            && (!CanSettle(run.cfg, c, target) ==> !Settled(run.cfg, c', target))
  {
    hide FreeStep, Valid, CommandAfter, CanSettle, Settled, Commandable, Writes, Snap;
    SoundInRun(run, i);
    FreeStepFollows(run, i, target);
    RunFollows(run, i, n, target);
    var c := run.states[i].lastCommandWatts;
    NeverPastTarget(run.cfg, c, target, n);
    var ramp := RampTowards(run.cfg, c, target);
    if ramp > 0 {
      RampBounds(run.cfg, c, target, n);
      if c > 0 && target > 0 && ramp >= run.cfg.minCommandDelta && n * ramp <= Abs(target - c) {
        RampIsExact(run.cfg, c, target, n);
      }
    }
    if CanSettle(run.cfg, c, target) {
      if n >= Writes(run.cfg, c, target) {
        Converges(run.cfg, c, target, n);
      }
    } else {
      NeverSettles(run.cfg, c, target, n);
    }
  }

  // ---- every change of the command ------------------------------------------------------------------------------

  /** The latest accepted slot write is younger than the hold time. */
  predicate Held(run: Run, i: nat)
    requires i < |run.ins|
  {
    var last := LastPublish(run, i, Sel.Writes);
    last.Some? && run.cycles[i].now - last.value.at < run.cfg.minHoldTime
  }

  /** Normal control has a change worth writing, and may write it. */
  predicate Moves(run: Run, i: nat)
    requires i < |run.ins|
  {
    var c, exporting := run.states[i].lastCommandWatts, Exporting(run.cycles[i]);
    var next := Ramped(run.cfg, c, run.cycles[i].target, exporting);
    var threshold := if exporting then run.cfg.minCommandDeltaExporting else run.cfg.minCommandDelta;
    && next != c && (next - c >= threshold || c - next >= threshold)
    && (Held(run, i) ==> exporting && next < c)
  }

  /**
   When normal control writes, and what: exactly when the ramped command differs by at
   least max(1, threshold) and is not held back by the hold time, or is a cut while
   exporting; then exactly the ramped command is written under the controlled slot.
   */
  lemma NormalWritesExactly(run: Run, i: nat)
    requires IsRun(run) && i < |run.ins| && Valid(run.cfg) && run.cycles[i].reach.NormalStep?
    ensures var a, c := Tried(run, i), run.states[i].lastCommandWatts;
            var next := Ramped(run.cfg, c, run.cycles[i].target, Exporting(run.cycles[i]));
            && (a.Some? && a.value.kind.ForNormal? <==> Moves(run, i))
            && (Moves(run, i) ==> a.value.cmd.TimedDischarge? && Commands(run.cfg, a.value.cmd, next))
            && run.states[i + 1].lastCommandWatts == (if Moves(run, i) && run.ins[i].publishOk then next else c)
  {
    hide Valid, Ramped, SlotCommand, NormalControl, Commandable, LastPublish, DesiredSlot, Sets, Suppressed;
    SoundInRun(run, i);
    EffectAt(run, i);
    MemoryAgreesWithTrace(run, i);
    var o, observedAt := NormalStepIs(run, i);
    var c := run.cycles[i];
    SuppressedMeans(run, i, o);
    NormalControlMoves(run.cfg, o, c.now, observedAt, c.dev.value, c.target, Exporting(c), run.ins[i].publishOk);
    ReassertIsNotNormal(run.cfg, o, c.now, observedAt, c.dev.value, c.target, Exporting(c), run.ins[i].publishOk);
    var next := Ramped(run.cfg, o.lastCommandWatts, c.target, Exporting(c));
    RampedBetween(run.cfg, o.lastCommandWatts, c.target, Exporting(c));
    SlotCommandSets(run.cfg, c.dev.value, next, run.cfg.persistToFlash);
    SetsCommands(run.cfg, SlotCommand(run.cfg, c.dev.value, DesiredSlot(run.cfg, next), run.cfg.persistToFlash), next);
  }

  lemma SuppressedMeans(run: Run, i: nat, o: State)
    requires i < |run.ins| && o.lastCommandWatts == run.states[i].lastCommandWatts
    requires o.lastCommandTime == TimeOf(LastPublish(run, i, Sel.Writes))
    ensures Suppressed(run.cfg, o, run.cycles[i].now, run.cycles[i].target, Exporting(run.cycles[i])) <==> !Moves(run, i)
  {
    hide Ramped, LastPublish;
  }

  lemma ReassertIsNotNormal(cfg: Config, s: State, now: int, observedAt: Option<int>, dev: Status, target: int, exporting: bool, ok: bool)
    requires s.log == []
    ensures var r := NormalControl(cfg, s, now, observedAt, dev, target, exporting, ok).st;
            Suppressed(cfg, s, now, target, exporting) && r.log != [] ==> r.log[0].kind.ForReassert?
  {
    hide EnsureSlot, SlotCommand, DesiredSlot, Ramped, Suppressed;
    EnsureSlotOutcome(cfg, s, now, observedAt, dev, s.lastCommandWatts, ForReassert, ok);
  }

  /**
   Every change of the commanded power: it rises only by normal control within the
   ramp limit, or by the re-enable of a pending re-arm; short of 0 it falls only by
   normal control within the ramp limit, or as a cut while exporting.
   */
  lemma EveryChangeIsRamped(run: Run, i: nat)
    requires IsRun(run) && i < |run.ins| && Valid(run.cfg)
    ensures var cfg, c, c' := run.cfg, run.states[i].lastCommandWatts, run.states[i + 1].lastCommandWatts;
            && (c' > c ==>
                  || (Sent(run, i).Some? && Sent(run, i).value.kind.ForRearmEnable? && run.states[i].rearmPending)
                  || (&& run.cycles[i].reach.NormalStep? && c' <= run.cycles[i].target
                      && (cfg.rampUp == 0 || c' <= c + cfg.rampUp || (c == 0 && c' == cfg.minOutputWatts))))
            && (0 < c' < c ==>
                  && run.cycles[i].reach.NormalStep? && c' >= run.cycles[i].target
                  && (cfg.rampDown == 0 || c' >= c - cfg.rampDown || Exporting(run.cycles[i])))
  {
    hide Step, Valid, Ramped, NormalControl, Sets, Moves, Effect;
    SoundInRun(run, i);
    EffectAt(run, i);
    AttemptAt(run, i);
    StepTaken(run, i);
    StepKinds(run.cfg, run.states[i], run.ins[i]);
    var c, t := run.states[i].lastCommandWatts, run.cycles[i].target;
    if run.cycles[i].reach.NormalStep? {
      NormalWritesExactly(run, i);
      var o, observedAt := NormalStepIs(run, i);
        RampedExactly(run.cfg, c, t, Exporting(run.cycles[i]));
      RampedBetween(run.cfg, c, t, Exporting(run.cycles[i]));
    }
  }
}
