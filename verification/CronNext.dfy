/**
 The search for the next firing minute of a cron schedule
 (internal/schedule/schedule.go), proved equal to trying every minute in turn.

 Times are whole local minutes since 1 January of year 1 in a zone whose offset
 is fixed and a whole number of minutes. `zero` is the local minute at which
 Go's zero time.Time falls (the zone offset): the code uses that value to say
 "no time found".
 */
module CronNext {
  import opened GoStrings
  import opened Calendar

  const NANOS_PER_MINUTE := 60_000_000_000
  const MAX_ITERATIONS := 4 * 366 * 24 * 60

  /** Each bit set is the set of positions of its 1 bits. */
  datatype Schedule = Schedule(
    minute: set<int>,
    hour: set<int>,
    dom: set<int>,
    month: set<int>,
    dow: set<int>,
    wildcardDOM: bool,
    wildcardDOW: bool)

  // ---- what it means to fire ---------------------------------------------------

  function DayOf(t: int): int { t / MINUTES_PER_DAY }

  function HourOf(t: int): int { t % MINUTES_PER_DAY / 60 }

  function MinuteOf(t: int): int { t % MINUTES_PER_DAY % 60 }

  /** A minute is its day, hour and minute, and these determine it. */
  lemma ClockParts(t: int)
    ensures t == DayOf(t) * MINUTES_PER_DAY + HourOf(t) * 60 + MinuteOf(t)
    ensures 0 <= HourOf(t) < 24 && 0 <= MinuteOf(t) < 60
  {
  }

  lemma ClockPartsUnique(t: int, n: int, h: int, m: int)
    requires t == n * MINUTES_PER_DAY + h * 60 + m && 0 <= h < 24 && 0 <= m < 60
    ensures DayOf(t) == n && HourOf(t) == h && MinuteOf(t) == m
  {
  }

  /** Vixie rule: when both day fields are restricted either may match. */
  predicate DayFires(s: Schedule, n: int)
  {
    && Civil(n).month in s.month
    && if !s.wildcardDOM && !s.wildcardDOW then Civil(n).day in s.dom || Weekday(n) in s.dow
       else (s.wildcardDOM || Civil(n).day in s.dom) && (s.wildcardDOW || Weekday(n) in s.dow)
  }

  predicate Matches(s: Schedule, t: int)
  {
    DayFires(s, DayOf(t)) && HourOf(t) in s.hour && MinuteOf(t) in s.minute
  }

  ghost predicate Fires(s: Schedule) { exists t :: Matches(s, t) }

  ghost predicate NoMatch(s: Schedule, from: int, to: int)
  {
    forall u :: from <= u < to ==> !Matches(s, u)
  }

  /** The first whole minute strictly after the instant. */
  function FirstMinute(after: int): (t: int)
    ensures forall u :: u * NANOS_PER_MINUTE > after <==> u >= t
  {
    after / NANOS_PER_MINUTE + 1
  }

  predicate MonthOn(s: Schedule, k: int) { k % 12 + 1 in s.month }

  /**
   When the code's "not found" value stands in the way of a match: the search
   starts at or before the zero instant, meets no match before it, and either
   the match is the zero instant itself or a month jump lands on it.
   */
  ghost predicate ZeroHidesMatch(s: Schedule, from: int, zero: int)
  {
    || (from <= zero && NoMatch(s, from, zero) && Matches(s, zero))
    || JumpWillHitZero(s, from, zero)
  }

  ghost predicate JumpWillHitZero(s: Schedule, from: int, zero: int)
  {
    from < zero && NoMatch(s, from, zero) && exists k :: JumpTarget(s, k, zero)
  }

  predicate JumpTarget(s: Schedule, k: int, t: int)
  {
    t == FirstDay(k) * MINUTES_PER_DAY && MonthOn(s, k) && !MonthOn(s, k - 1)
  }

  /** From the zero instant on, "not found" is never confused with a match. */
  lemma ZeroHidesNothingLater(s: Schedule, after: int, zero: int)
    ensures zero * NANOS_PER_MINUTE <= after ==> !ZeroHidesMatch(s, FirstMinute(after), zero)
  {
    hide Matches, JumpTarget;
  }

  /**
   Before it, the code can miss a match that exists: asked in December of year 0
   for midnight on 1 January in UTC, Next answers "not found".
   */
  lemma ZeroHidesNewYear()
    ensures var s := Schedule({0}, {0}, {1}, {1}, {0, 1, 2, 3, 4, 5, 6}, false, true);
            Parsed(s) && Matches(s, 0) && Fires(s) && ZeroHidesMatch(s, -1440, 0)
  {
    hide DayNumber, DayOf, HourOf, MinuteOf;
    var s := Schedule({0}, {0}, {1}, {1}, {0, 1, 2, 3, 4, 5, 6}, false, true);
    CivilSuccessor(-1);
    ClockPartsUnique(0, 0, 0, 0);
    assert 0 in s.minute && 1 in s.dom && 0 in s.dow;
    assert Matches(s, 0);
    forall u | -1440 <= u < 0
      ensures !Matches(s, u)
    {
      ClockParts(u);
      assert DayOf(u) == -1;
      assert Civil(-1).month != 1 by { LastDayOfYearZero(); }
    }
  }

  lemma LastDayOfYearZero()
    ensures Civil(-1) == Date(0, 12, 31)
  {
    hide Civil;
    CivilOfDayNumber(Date(0, 12, 31));
  }

  // ---- which schedules fire at all ------------------------------------------------

  /** The longest a month ever gets: February counts 29 days. */
  function LongestMonth(m: int): int { DaysInMonth(true, m) }

  /**
   What Parse guarantees about the masks of a schedule. (Bit 0 of the day and
   month masks can get set when the bit loop overflows; no date ever asks for it.)
   */
  ghost predicate Parsed(s: Schedule)
  {
    && MaskWithin(s.minute, 0, 59) && MaskWithin(s.hour, 0, 23) && MaskWithin(s.dom, 1, 31)
    && MaskWithin(s.month, 1, 12) && MaskWithin(s.dow, 0, 6)
  }

  ghost predicate MaskWithin(mask: set<int>, lo: int, hi: int)
  {
    (exists v :: v in mask && lo <= v) && forall v :: v in mask ==> 0 <= v <= hi
  }

  /** Only the day of the month is restricted, to days no listed month has. */
  predicate OnlyImpossibleDays(s: Schedule)
  {
    && !s.wildcardDOM && s.wildcardDOW
    && forall m, d :: m in s.month && d in s.dom && m >= 1 && d >= 1 ==> d > LongestMonth(m)
  }

  lemma FiresOnDay(s: Schedule, n: int)
    requires Parsed(s) && DayFires(s, n)
    ensures Fires(s)
  {
    hide DayFires, DayOf, HourOf, MinuteOf;
    var h :| h in s.hour;
    var m :| m in s.minute;
    var t := n * MINUTES_PER_DAY + h * 60 + m;
    ClockPartsUnique(t, n, h, m);
    assert Matches(s, t);
  }

  /** Every weekday falls on one of the first seven days of a month. */
  lemma WeekdayInMonth(m: int, w: int) returns (d: Date)
    requires 1 <= m <= 12 && 0 <= w < 7
    ensures ValidDate(d) && d.month == m && Weekday(DayNumber(d.year, d.month, d.day)) == w
  {
    hide DayNumber;
    var first := DayNumber(4, m, 1);
    var k := (w - Weekday(first)) % 7;
    d := Date(4, m, 1 + k);
    LaterInMonth(4, m, k);
    assert (first + 1 + k) % 7 == w;
  }

  lemma LaterInMonth(y: int, m: int, k: int)
    requires 1 <= m <= 12
    ensures DayNumber(y, m, 1 + k) == DayNumber(y, m, 1) + k
  {
    hide DaysBeforeYear, DaysBeforeMonth, IsLeap;
  }

  /** A parsed schedule never fires exactly when it asks only for days that no month has. */
  lemma NeverFiresExactly(s: Schedule)
    requires Parsed(s)
    ensures !Fires(s) <==> OnlyImpossibleDays(s)
  {
    hide Civil, DayNumber, Weekday, Fires, Matches;
    if OnlyImpossibleDays(s) {
      ImpossibleDaysNeverFire(s);
    } else if !s.wildcardDOM && s.wildcardDOW {
      var m, k :| m in s.month && k in s.dom && m >= 1 && k >= 1 && k <= LongestMonth(m);
      CivilOfDayNumber(Date(4, m, k));
      FiresOnDay(s, DayNumber(4, m, k));
    } else {
      var m :| m in s.month && 1 <= m;
      var w :| w in s.dow;
      var d := WeekdayInMonth(m, w);
      CivilOfDayNumber(d);
      FiresOnDay(s, DayNumber(d.year, d.month, d.day));
    }
  }

  lemma ImpossibleDaysNeverFire(s: Schedule)
    requires OnlyImpossibleDays(s)
    ensures !Fires(s)
  {
    hide Civil, Weekday;
    forall t
      ensures !Matches(s, t)
    {
      var d := Civil(DayOf(t));
      assert d.day <= LongestMonth(d.month);
    }
  }

  // ---- the jumps skip nothing ----------------------------------------------------

  lemma MonthOfDay(s: Schedule, n: int)
    ensures MonthOn(s, MonthIndex(n)) <==> Civil(n).month in s.month
  {
    hide Civil;
    MonthIndexParts(n);
  }

  lemma MonthJumpSkipsNothing(s: Schedule, t: int, k: int)
    requires MonthIndex(DayOf(t)) < k
    requires forall j :: MonthIndex(DayOf(t)) <= j < k ==> !MonthOn(s, j)
    ensures t < FirstDay(k) * MINUTES_PER_DAY
    ensures NoMatch(s, t, FirstDay(k) * MINUTES_PER_DAY)
  {
    hide Civil, FirstDay, MonthIndex, MonthOn;
    var i := MonthIndex(DayOf(t));
    MonthSpan(DayOf(t), k);
    forall u | t <= u < FirstDay(k) * MINUTES_PER_DAY
      ensures !Matches(s, u)
    {
      MonthSpan(DayOf(u), k);
      MonthSpan(DayOf(u), i);
      MonthSpan(DayOf(t), i);
      MonthOfDay(s, DayOf(u));
    }
  }

  lemma DayJumpSkipsNothing(s: Schedule, t: int)
    requires !DayFires(s, DayOf(t))
    ensures t < (DayOf(t) + 1) * MINUTES_PER_DAY
    ensures NoMatch(s, t, (DayOf(t) + 1) * MINUTES_PER_DAY)
  {
    hide DayFires;
    forall u | t <= u < (DayOf(t) + 1) * MINUTES_PER_DAY
      ensures !Matches(s, u)
    {
      assert DayOf(u) == DayOf(t);
    }
  }

  function NextHour(t: int): int { DayOf(t) * MINUTES_PER_DAY + (HourOf(t) + 1) * 60 }

  lemma HourJumpSkipsNothing(s: Schedule, t: int)
    requires HourOf(t) !in s.hour
    ensures t < NextHour(t)
    ensures NoMatch(s, t, NextHour(t))
    ensures NextHour(t) <= (DayOf(t) + 1) * MINUTES_PER_DAY
  {
    hide DayFires, DayOf, HourOf, MinuteOf;
    ClockParts(t);
    if HourOf(t) < 23 {
      ClockPartsUnique(NextHour(t), DayOf(t), HourOf(t) + 1, 0);
    }
    forall u | t <= u < NextHour(t)
      ensures !Matches(s, u)
    {
      ClockPartsUnique(u, DayOf(t), HourOf(t), MinuteOf(t) + (u - t));
    }
  }

  lemma NoMatchJoin(s: Schedule, a: int, b: int, c: int)
    requires NoMatch(s, a, b) && NoMatch(s, b, c)
    ensures NoMatch(s, a, c)
  {
  }

  // ---- a schedule that fires at all fires soon ------------------------------------

  const PERIOD := DAYS_PER_400_YEARS * MINUTES_PER_DAY

  lemma DayFiresAgain(s: Schedule, n: int, k: int)
    ensures DayFires(s, n + DAYS_PER_400_YEARS * k) == DayFires(s, n)
  {
    hide Civil, Weekday;
    Period400(n, k);
  }

  lemma MatchesAgain(s: Schedule, t: int, k: int)
    ensures Matches(s, t + PERIOD * k) == Matches(s, t)
  {
    hide DayFires, DayOf, HourOf, MinuteOf;
    DayFiresAgain(s, DayOf(t), k);
    ClockParts(t);
    ClockPartsUnique(t + PERIOD * k, DayOf(t) + 146097 * k, HourOf(t), MinuteOf(t));
  }

  /** Whatever the starting minute, the next match is at most 400 years away. */
  lemma RecursSoon(s: Schedule, from: int) returns (m: int)
    requires Fires(s)
    ensures from <= m < from + PERIOD && Matches(s, m)
  {
    hide Matches;
    var t :| Matches(s, t);
    var k := (t - from) / PERIOD;
    m := t + PERIOD * (-k);
    MatchesAgain(s, t, -k);
  }

  lemma SameTimeOfDay(s: Schedule, m: int, n: int) returns (u: int)
    requires Matches(s, m) && DayFires(s, n)
    ensures Matches(s, u) && n * MINUTES_PER_DAY <= u < (n + 1) * MINUTES_PER_DAY
  {
    hide DayFires, DayOf, HourOf, MinuteOf;
    ClockParts(m);
    u := n * MINUTES_PER_DAY + HourOf(m) * 60 + MinuteOf(m);
    ClockPartsUnique(u, n, HourOf(m), MinuteOf(m));
  }

  // ---- the iteration budget ----------------------------------------------------------

  /** Iterations the search may have used by the time it stands at t. */
  function Budget(from: int, t: int): int
  {
    if DayOf(t) == DayOf(from) then t - from
    else MINUTES_PER_DAY + DayOf(t) - DayOf(from) + t % MINUTES_PER_DAY
  }

  /** After its first day the search only ever enters a day at midnight. */
  predicate Settled(s: Schedule, from: int, t: int)
  {
    DayOf(t) > DayOf(from) && t % MINUTES_PER_DAY != 0 ==> DayFires(s, DayOf(t))
  }

  /** Every jump pays for its iteration, given that a match m lies ahead. */
  lemma JumpPays(s: Schedule, from: int, t: int, next: int, m: int)
    requires from <= t < next && Settled(s, from, t)
    requires NoMatch(s, from, next)
    requires Matches(s, m) && from <= m
    requires next % MINUTES_PER_DAY == 0 || (DayOf(next) == DayOf(t) && DayFires(s, DayOf(t)))
    ensures Settled(s, from, next)
    ensures Budget(from, t) + 1 <= Budget(from, next)
    ensures next <= m
  {
    hide DayFires, Matches;
    if DayOf(from) < DayOf(t) < DayOf(next) && t % MINUTES_PER_DAY != 0 {
      var u := SameTimeOfDay(s, m, DayOf(t));
      assert false;
    }
  }

  lemma CapIsFarAway(from: int, t: int)
    requires from <= t <= from + PERIOD
    ensures Budget(from, t) < MAX_ITERATIONS
  {
  }

  // ---- the code ------------------------------------------------------------------------

  /**
   nextValidMonth: the first day of the next month in the mask, or nothing when
   thirteen steps find none. The result is a minute; Go's zero time is None.
   */
  method NextValidMonth(s: Schedule, t: int) returns (r: Option<int>)
    ensures r.None? ==> forall k :: !MonthOn(s, k)
    ensures r.Some? ==> exists k :: r.value == FirstDay(k) * MINUTES_PER_DAY && NextMonthOn(s, MonthIndex(DayOf(t)), k)
  {
    hide Civil, FirstDay, MonthIndex, DayNumber, DayOf;
    var y, m := Civil(DayOf(t)).year, Civil(DayOf(t)).month;
    MonthIndexParts(DayOf(t));
    ghost var start := MonthIndex(DayOf(t));
    for i := 0 to 13
      invariant 1 <= m <= 12 && start + i == 12 * y + m - 1
      invariant forall j :: start < j <= start + i ==> !MonthOn(s, j)
    {
      m := m + 1;
      if m > 12 {
        m := 1;
        y := y + 1;
      }
      FirstDayIs(start + i + 1, y, m);
      if m in s.month {
        return Some(DayNumber(y, m, 1) * MINUTES_PER_DAY);
      }
    }
    YearOfNoMonths(s, start);
    return None;
  }

  lemma YearOfNoMonths(s: Schedule, start: int)
    requires forall j :: start < j <= start + 13 ==> !MonthOn(s, j)
    ensures forall k :: !MonthOn(s, k)
  {
    forall k
      ensures !MonthOn(s, k)
    {
      var i := start + 1 + (k - start - 1) % 12;
      assert i % 12 == k % 12;
      assert !MonthOn(s, i);
    }
  }

  lemma FirstDayIs(k: int, y: int, m: int)
    requires 1 <= m <= 12 && k == 12 * y + m - 1
    ensures FirstDay(k) == DayNumber(y, m, 1)
    ensures k % 12 + 1 == m
  {
    hide DayNumber;
    assert k / 12 == y && k % 12 == m - 1;
  }

  ghost predicate NextMonthOn(s: Schedule, i: int, k: int)
  {
    i < k && MonthOn(s, k) && forall j :: i < j < k ==> !MonthOn(s, j)
  }

  /** time.Date in local minutes; day and hour may run over. */
  function GoDate(d: Date, days: int, hours: int): int
    requires ValidDate(d)
  {
    DayNumber(d.year, d.month, d.day + days) * MINUTES_PER_DAY + hours * 60
  }

  lemma GoDateOfDay(n: int, days: int, hours: int)
    ensures GoDate(Civil(n), days, hours) == (n + days) * MINUTES_PER_DAY + hours * 60
  {
    hide Civil, DaysBeforeYear, DaysBeforeMonth, IsLeap;
  }

  lemma MonthJumpExact(s: Schedule, t: int, k: int)
    requires Civil(DayOf(t)).month !in s.month
    requires NextMonthOn(s, MonthIndex(DayOf(t)), k)
    ensures t < FirstDay(k) * MINUTES_PER_DAY
    ensures NoMatch(s, t, FirstDay(k) * MINUTES_PER_DAY)
    ensures JumpTarget(s, k, FirstDay(k) * MINUTES_PER_DAY)
  {
    hide Civil, FirstDay, MonthIndex, MonthOn, Matches;
    MonthOfDay(s, DayOf(t));
    MonthJumpSkipsNothing(s, t, k);
  }

  /** Before the month whose start is the zero instant, no jump passes that start. */
  lemma StaysBeforeZero(s: Schedule, t: int, k: int, zero: int)
    requires JumpTarget(s, k, zero) && t < zero
    ensures Civil(DayOf(t)).month in s.month ==> (DayOf(t) + 1) * MINUTES_PER_DAY < zero
    ensures forall j :: NextMonthOn(s, MonthIndex(DayOf(t)), j) ==> FirstDay(j) * MINUTES_PER_DAY <= zero
  {
    hide Civil, FirstDay, MonthIndex, MonthOn;
    var i := MonthIndex(DayOf(t));
    MonthOfDay(s, DayOf(t));
    MonthSpan(DayOf(t), k);
    if MonthOn(s, i) {
      MonthSpan(DayOf(t), k - 1);
      FirstDayIncreases(k - 1, k);
    }
    forall j | NextMonthOn(s, i, j)
      ensures FirstDay(j) * MINUTES_PER_DAY <= zero
    {
      FirstDayIncreases(j, k);
    }
  }

  /** What the search loop knows after i iterations, standing at t. */
  ghost predicate Searching(s: Schedule, from: int, i: int, t: int)
  {
    && from <= t
    && NoMatch(s, from, t)
    && (Fires(s) ==> Settled(s, from, t) && i <= Budget(from, t))
  }

  lemma SearchAdvances(s: Schedule, from: int, i: int, t: int, next: int)
    requires Searching(s, from, i, t) && t < next && NoMatch(s, t, next)
    requires next % MINUTES_PER_DAY == 0 || (DayOf(next) == DayOf(t) && DayFires(s, DayOf(t)))
    ensures Searching(s, from, i + 1, next)
  {
    hide Matches, Budget, Settled, Fires;
    NoMatchJoin(s, from, t, next);
    if Fires(s) {
      var m := RecursSoon(s, from);
      JumpPays(s, from, t, next, m);
    }
  }

  lemma SearchMustHaveEnded(s: Schedule, from: int, zero: int, t: int)
    requires Loop(s, from, zero, MAX_ITERATIONS, t)
    ensures !Fires(s)
  {
    hide JumpWillHitZero, Matches, Budget, Settled, Fires;
    if Fires(s) {
      var m := RecursSoon(s, from);
      CapIsFarAway(from, t);
    }
  }

  /** The loop invariant of Next. */
  ghost predicate Loop(s: Schedule, from: int, zero: int, i: int, t: int)
  {
    Searching(s, from, i, t) && (JumpWillHitZero(s, from, zero) ==> t < zero)
  }

  lemma SearchBegins(s: Schedule, from: int, zero: int)
    ensures Loop(s, from, zero, 0, from)
  {
    hide DayFires, Fires, Matches, JumpTarget;
  }

  lemma NoMonthNeverFires(s: Schedule)
    requires forall k :: !MonthOn(s, k)
    ensures !Fires(s)
  {
    hide Civil;
    forall t
      ensures !Matches(s, t)
    {
      MonthOfDay(s, DayOf(t));
    }
  }

  lemma ZeroJump(s: Schedule, from: int, zero: int) returns (k: int)
    requires JumpWillHitZero(s, from, zero)
    ensures JumpTarget(s, k, zero)
  {
    hide JumpTarget;
    k :| JumpTarget(s, k, zero);
  }

  lemma MonthJump(s: Schedule, from: int, zero: int, i: int, t: int, next: int)
    requires Loop(s, from, zero, i, t) && Civil(DayOf(t)).month !in s.month
    requires exists j :: next == FirstDay(j) * MINUTES_PER_DAY && NextMonthOn(s, MonthIndex(DayOf(t)), j)
    ensures next == zero ==> ZeroHidesMatch(s, from, zero)
    ensures next != zero ==> Loop(s, from, zero, i + 1, next)
  {
    hide Civil, FirstDay, MonthIndex, Matches, NextMonthOn, JumpTarget, DayFires, Fires, Settled, Budget,
         DayOf, HourOf, MinuteOf, MonthOn;
    var j :| next == FirstDay(j) * MINUTES_PER_DAY && NextMonthOn(s, MonthIndex(DayOf(t)), j);
    MonthJumpExact(s, t, j);
    SearchAdvances(s, from, i, t, next);
    if JumpWillHitZero(s, from, zero) {
      var k := ZeroJump(s, from, zero);
      StaysBeforeZero(s, t, k, zero);
    }
  }

  lemma ClockJump(s: Schedule, from: int, zero: int, i: int, t: int, next: int)
    requires Loop(s, from, zero, i, t) && Civil(DayOf(t)).month in s.month
    requires t < next <= (DayOf(t) + 1) * MINUTES_PER_DAY && NoMatch(s, t, next)
    requires DayFires(s, DayOf(t)) || next == (DayOf(t) + 1) * MINUTES_PER_DAY
    ensures Loop(s, from, zero, i + 1, next)
  {
    hide Civil, FirstDay, MonthIndex, Matches, NextMonthOn, JumpTarget, DayFires, Fires, Settled, Budget;
    SearchAdvances(s, from, i, t, next);
    if JumpWillHitZero(s, from, zero) {
      var k := ZeroJump(s, from, zero);
      StaysBeforeZero(s, t, k, zero);
    }
  }

  lemma MinuteStep(s: Schedule, t: int)
    requires MinuteOf(t) !in s.minute
    ensures NoMatch(s, t, t + 1)
    ensures t + 1 <= (DayOf(t) + 1) * MINUTES_PER_DAY
  {
    hide DayFires, HourOf;
  }

  /** A search standing at a match has found the first one. */
  lemma SearchFound(s: Schedule, from: int, zero: int, i: int, t: int)
    requires Loop(s, from, zero, i, t)
    requires DayFires(s, DayOf(t)) && HourOf(t) in s.hour && MinuteOf(t) in s.minute
    ensures Matches(s, t) && Fires(s) && from <= t && NoMatch(s, from, t)
    ensures t == zero <==> ZeroHidesMatch(s, from, zero)
  {
    hide DayFires, DayOf, HourOf, MinuteOf, Budget, JumpTarget;
    assert Matches(s, t);
  }

  /** The four branches of the code's day check decide DayFires. */
  lemma VixieRule(s: Schedule, n: int)
    requires Civil(n).month in s.month
    ensures var domOK := s.wildcardDOM || Civil(n).day in s.dom;
            var dowOK := s.wildcardDOW || Weekday(n) in s.dow;
            DayFires(s, n) <==>
              if s.wildcardDOM && s.wildcardDOW then true
              else if s.wildcardDOM then dowOK
              else if s.wildcardDOW then domOK
              else domOK || dowOK
  {
    hide Civil, Weekday;
  }

  /**
   Schedule.Next: after is an instant in nanoseconds of local time. A result
   other than zero is the least firing minute strictly after it; the result is
   zero exactly when the schedule never fires or the zero value hides the match.
   */
  method Next(s: Schedule, after: int, zero: int) returns (r: int)
    ensures r != zero ==> r * NANOS_PER_MINUTE > after && Matches(s, r)
    ensures r != zero ==> forall u :: u * NANOS_PER_MINUTE > after && u < r ==> !Matches(s, u)
    ensures r == zero <==> !Fires(s) || ZeroHidesMatch(s, FirstMinute(after), zero)
  {
    hide Civil, FirstDay, MonthIndex, MonthOn, Matches, Fires, DayOf, HourOf, MinuteOf, GoDate, Weekday, DayFires,
         NextMonthOn, NextHour, FirstMinute, ZeroHidesMatch, Loop;
    var t := FirstMinute(after);
    ghost var from := t;
    SearchBegins(s, from, zero);
    for i := 0 to MAX_ITERATIONS
      invariant Loop(s, from, zero, i, t)
    {
      if Civil(DayOf(t)).month !in s.month {
        var jump := NextValidMonth(s, t);
        if jump.None? {
          NoMonthNeverFires(s);
          return zero;
        }
        MonthJump(s, from, zero, i, t, jump.value);
        if jump.value == zero {
          return zero;
        }
        t := jump.value;
        continue;
      }

      var domOK := s.wildcardDOM || Civil(DayOf(t)).day in s.dom;
      var dowOK := s.wildcardDOW || Weekday(DayOf(t)) in s.dow;
      var dayOK := false;
      if s.wildcardDOM && s.wildcardDOW {
        dayOK := true;
      } else if s.wildcardDOM {
        dayOK := dowOK;
      } else if s.wildcardDOW {
        dayOK := domOK;
      } else {
        dayOK := domOK || dowOK;
      }
      VixieRule(s, DayOf(t));
      if !dayOK {
        DayJumpSkipsNothing(s, t);
        GoDateOfDay(DayOf(t), 1, 0);
        ClockJump(s, from, zero, i, t, (DayOf(t) + 1) * MINUTES_PER_DAY);
        t := GoDate(Civil(DayOf(t)), 1, 0);
        continue;
      }

      if HourOf(t) !in s.hour {
        HourJumpSkipsNothing(s, t);
        NextHourIs(t);
        ClockJump(s, from, zero, i, t, NextHour(t));
        t := GoDate(Civil(DayOf(t)), 0, HourOf(t) + 1);
        continue;
      }

      if MinuteOf(t) !in s.minute {
        MinuteStep(s, t);
        ClockJump(s, from, zero, i, t, t + 1);
        t := t + 1;
        continue;
      }

      SearchFound(s, from, zero, i, t);
      return t;
    }
    SearchMustHaveEnded(s, from, zero, t);
    return zero;
  }

  /**
   What the answer "not found" means: for a parsed schedule, asked at or after the
   zero instant, exactly that no listed month ever has a listed day. The iteration
   cap cuts off nothing.
   */
  lemma NotFoundExactly(s: Schedule, after: int, zero: int)
    requires Parsed(s) && zero * NANOS_PER_MINUTE <= after
    ensures !Fires(s) || ZeroHidesMatch(s, FirstMinute(after), zero) <==> OnlyImpossibleDays(s)
  {
    hide Parsed, Fires, OnlyImpossibleDays, ZeroHidesMatch, FirstMinute;
    NeverFiresExactly(s);
    ZeroHidesNothingLater(s, after, zero);
  }

  lemma NextHourIs(t: int)
    ensures GoDate(Civil(DayOf(t)), 0, HourOf(t) + 1) == NextHour(t)
  {
    hide Civil, DayOf, HourOf, GoDate;
    GoDateOfDay(DayOf(t), 0, HourOf(t) + 1);
  }
}
