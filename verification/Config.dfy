/**
 The controller's configuration (internal/controller/controller.go) and what its
 validation guarantees (internal/config/config.go). Durations are nanoseconds.
 */
module Config {
  import opened GoStrings
  import opened Protocol

  const SECOND := 1_000_000_000
  const MINUTE := 60 * SECOND
  const HOUR := 60 * MINUTE

  datatype Config = Config(
    prometheusStaleAfter: int,
    statusStaleAfter: int,
    statusPollTimeout: int,
    statusHardFailAfter: int,
    controlInterval: int,
    smoothingAlpha: real,
    importBiasWatts: int,
    rampUp: int,
    rampDown: int,
    minCommandDelta: int,
    minCommandDeltaExporting: int,
    minHoldTime: int,
    minOutputWatts: int,
    maxOutputWatts: int,
    scheduleSlot: int,
    scheduleStart: string,
    scheduleEnd: string,
    persistToFlash: bool,
    allowFlashWrites: bool,
    floorMargin: int,
    floorHysteresis: int,
    floorFallback: int,
    nearFullIdleEnabled: bool,
    nearFullIdleEnterPercent: int,
    nearFullIdleSamples: int,
    importExitWatts: int,
    importExitSamples: int,
    enforceSurplusFeedIn: bool,
    highSoCNetZero: int,
    highSoCAggressive: int,
    highSoCMax: int,
    solarTraceFactor: real,
    surplusRecoveryMinInterval: int,
    nuclearRestartEnabled: bool,
    nuclearRestartAck: bool,
    nuclearRestartBlockedCycles: int,
    nuclearRestartMinInterval: int)

  /** The zero value of Config. */
  const ZERO_CONFIG := Config(0, 0, 0, 0, 0, 0.0, 0, 0, 0, 0, 0, 0, 0, 0, 0, "", "", false, false, 0, 0, 0,
                              false, 0, 0, 0, 0, false, 0, 0, 0, 0.0, 0, false, false, 0, 0)

  /** isValidTime: two numbers around the first colon, in the range of a clock. */
  predicate IsValidTime(s: string)
  {
    var i := Index(s, ':');
    i >= 0
    && var h, m := Atoi(s[..i]), Atoi(s[i + 1..]);
    h.Some? && m.Some? && 0 <= h.value <= 23 && 0 <= m.value <= 59
  }

  /** The facts about a Config that validate accepts, after its own adjustments. */
  predicate Valid(cfg: Config)
  {
    && 0.0 < cfg.smoothingAlpha <= 1.0
    && 0 <= cfg.minOutputWatts <= cfg.maxOutputWatts <= 800
    && 1 <= cfg.scheduleSlot <= 5
    && IsValidTime(cfg.scheduleStart) && IsValidTime(cfg.scheduleEnd)
    && (cfg.persistToFlash ==> cfg.allowFlashWrites)
    && cfg.controlInterval > 0
    && cfg.rampUp >= 0 && cfg.rampDown >= 0
    && cfg.minCommandDelta >= 0 && cfg.minCommandDeltaExporting >= 0
    && cfg.minHoldTime >= cfg.controlInterval
    && 0 <= cfg.floorMargin <= 30 && 1 <= cfg.floorHysteresis <= 20 && 5 <= cfg.floorFallback <= 50
    && 1 <= cfg.nearFullIdleEnterPercent <= 100 && cfg.nearFullIdleSamples >= 1
    && cfg.importExitWatts >= 0 && cfg.importExitSamples >= 0
    && 1 <= cfg.highSoCNetZero <= cfg.highSoCAggressive <= cfg.highSoCMax <= 100
    && 0.0 < cfg.solarTraceFactor <= 1.0
    && cfg.surplusRecoveryMinInterval >= 0
    && (cfg.nuclearRestartEnabled ==> cfg.nuclearRestartAck)
    && cfg.nuclearRestartBlockedCycles >= 1 && cfg.nuclearRestartMinInterval >= 0
  }

  /** Configured slot times are clean, so the codec lemmas apply to every slot the controller writes. */
  lemma ValidTimeIsClean(s: string)
    requires IsValidTime(s)
    ensures Clean(s) && s != ""
  {
    hide Atoi, IsSpace;
    var i := Index(s, ':');
    assert s == s[..i] + [':'] + s[i + 1..];
    forall c | IsDigit(c) || c in "+-:"
      ensures !IsSpace(c) && c != ','
    {
      ClockCharIsPlain(c);
    }
    assert s[0] in s[..i] && s[|s| - 1] in s[i + 1..];
  }

  lemma ClockCharIsPlain(c: char)
    requires IsDigit(c) || c in "+-:"
    ensures !IsSpace(c) && c != ','
  {
  }

  function Max(a: int, b: int): (m: int)
    ensures m >= a && m >= b && (m == a || m == b)
  {
    if a > b then a else b
  }

  /** authorityPublishCooldown: how long an unechoed payload is not published again. */
  function AuthorityCooldown(cfg: Config): (d: int)
    ensures d > 0 && d >= 2 * cfg.controlInterval && d >= 2 * cfg.statusPollTimeout
    ensures d == 2 * cfg.controlInterval || d == 2 * cfg.statusPollTimeout || d == 30_000_000_000
    ensures d == 30_000_000_000 && d != 2 * cfg.controlInterval && d != 2 * cfg.statusPollTimeout
            ==> cfg.controlInterval <= 0 && cfg.statusPollTimeout <= 0
  {
    var cooldown := if cfg.statusPollTimeout > cfg.controlInterval then cfg.statusPollTimeout else cfg.controlInterval;
    2 * (if cooldown <= 0 then 15 * SECOND else cooldown)
  }

  /** stuckOutputRearmCooldown, between two disables of a re-arm: the longest of a minute, four control intervals and four poll timeouts. */
  function RearmCooldown(cfg: Config): (d: int)
    ensures d >= 60_000_000_000 && d >= 4 * cfg.controlInterval && d >= 4 * cfg.statusPollTimeout
    ensures d == 60_000_000_000 || d == 4 * cfg.controlInterval || d == 4 * cfg.statusPollTimeout
  {
    Max(2 * AuthorityCooldown(cfg), MINUTE)
  }

  /** failureCooldown, between a failed top-charge idle and the next entry: the longest of a minute, two control intervals and two poll timeouts. */
  function FailureCooldown(cfg: Config): (d: int)
    ensures d >= 60_000_000_000 && d >= 2 * cfg.controlInterval && d >= 2 * cfg.statusPollTimeout
    ensures d == 60_000_000_000 || d == 2 * cfg.controlInterval || d == 2 * cfg.statusPollTimeout
  {
    Max(AuthorityCooldown(cfg), MINUTE)
  }

  /** nearZeroOutputWatts: measured output at or below it counts as none. */
  function NearZeroOutputWatts(minOutputWatts: int): (w: int)
    ensures minOutputWatts < 40 ==> w == 20
    ensures minOutputWatts >= 40 ==> 2 * w <= minOutputWatts <= 2 * w + 1
  {
    Max(minOutputWatts / 2, 20)
  }

  /** controlledSlotIndex, with its clamp. */
  function SlotIndex(cfg: Config): (i: int)
    ensures 0 <= i <= 4
    ensures 1 <= cfg.scheduleSlot <= 5 ==> i == cfg.scheduleSlot - 1
  {
    if cfg.scheduleSlot - 1 < 0 || cfg.scheduleSlot - 1 > 4 then 0 else cfg.scheduleSlot - 1
  }

  // ---- the shipped configuration ---------------------------------------------------------------

  /** The controller's configuration when no environment variable says otherwise, durations in nanoseconds. */
  const DEFAULTS := Config(
    60_000_000_000, 120_000_000_000, 5_000_000_000, 300_000_000_000, 15_000_000_000,
    0.5, 50, 150, 300, 25, 5, 30_000_000_000, 80, 800,
    1, "00:00", "23:59", false, false, 2, 5, 15,
    true, 100, 2, 50, 4, false, 90, 95, 97, 0.9, 21_600_000_000_000,
    false, false, 6, 21_600_000_000_000)

  lemma DefaultsAreValid()
    ensures Valid(DEFAULTS)
  {
    hide IsValidTime;
    ClockTimes();
  }

  lemma ClockNumbers()
    ensures Atoi("00") == Some(0) && Atoi("23") == Some(23) && Atoi("59") == Some(59)
  {
    hide IsSpace;
    assert "00"[..1] == "0" && "23"[..1] == "2" && "59"[..1] == "5";
    assert "0"[..0] == "" && "2"[..0] == "" && "5"[..0] == "";
  }

  lemma ClockTimes()
    ensures IsValidTime("00:00") && IsValidTime("23:59")
  {
    hide Atoi;
    ClockNumbers();
    IndexAt("00", ':', "00");
    assert "00:00" == "00" + [':'] + "00";
    IndexAt("23", ':', "59");
    assert "23:59" == "23" + [':'] + "59";
  }

  /** A clock time is accepted exactly up to 23:59. */
  lemma ValidTimesExactly(h: nat, m: nat)
    ensures IsValidTime(Itoa(h) + ":" + Itoa(m)) <==> h <= 23 && m <= 59
  {
    hide Atoi, Itoa;
    var a, b := Itoa(h), Itoa(m);
    SignedNumerals(h);
    SignedNumerals(m);
    assert ':' !in a;
    IndexAt(a, ':', b);
    assert a + [':'] + b == a + ":" + b;
  }

  /** Padding a time does not change whether it is accepted; only the empty text becomes one. */
  lemma PaddingKeepsValidity(t: string)
    ensures IsValidTime(NormaliseTime(t)) <==> IsValidTime(t) || t == ""
  {
    hide Atoi;
    var i := Index(t, ':');
    if t == "" {
      ClockTimes();
    } else if i >= 0 {
      var h, m := t[..i], t[i + 1..];
      assert t == h + [':'] + m;
      PadKeepsValue(h);
      PadKeepsValue(m);
      IndexAt(Pad(h), ':', Pad(m));
    }
  }
}
