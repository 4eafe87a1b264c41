/**
 The proleptic Gregorian calendar behind Go's time.Time in a zone of fixed
 offset. Days are counted from 1 January of year 1, which is day 0 and a Monday.

 Tomorrow is the reference definition (how a wall calendar turns over); Civil is
 the closed form that counts 400-, 100-, 4- and 1-year cycles. CivilSuccessor
 connects the two; CivilOfDayNumber and the contract of Civil make it a bijection.
 */
module Calendar {

  const MINUTES_PER_DAY := 1440
  const DAYS_PER_400_YEARS := 146097

  datatype Date = Date(year: int, month: int, day: int)

  predicate IsLeap(y: int)
  {
    y % 4 == 0 && (y % 100 != 0 || y % 400 == 0)
  }

  function DaysInMonth(leap: bool, m: int): int
  {
    if m == 2 then (if leap then 29 else 28)
    else if m == 4 || m == 6 || m == 9 || m == 11 then 30
    else 31
  }

  predicate ValidDate(d: Date)
  {
    1 <= d.month <= 12 && 1 <= d.day <= DaysInMonth(IsLeap(d.year), d.month)
  }

  /** Days of the year before month m; m = 13 gives the length of the year. */
  function DaysBeforeMonth(leap: bool, m: int): (n: int)
    requires 1 <= m <= 13
    ensures m <= 12 ==> DaysBeforeMonth(leap, m + 1) == n + DaysInMonth(leap, m)
    decreases 13 - m
  {
    var shift := if leap && m > 2 then 1 else 0;
    shift + [0, 31, 59, 90, 120, 151, 181, 212, 243, 273, 304, 334, 365][m - 1]
  }

  function DaysBeforeYear(y: int): int
  {
    365 * (y - 1) + (y - 1) / 4 - (y - 1) / 100 + (y - 1) / 400
  }

  /** The day count Go's time.Date gives; day may run past the end of the month. */
  function DayNumber(y: int, m: int, day: int): int
    requires 1 <= m <= 12
  {
    DaysBeforeYear(y) + DaysBeforeMonth(IsLeap(y), m) + day - 1
  }

  function YearLength(y: int): int { if IsLeap(y) then 366 else 365 }

  function Min(a: int, b: int): int { if a < b then a else b }

  /** The year holding day n and the 0-based day of that year. */
  function YearAndDay(n: int): (int, int)
  {
    var n400, r400 := n / DAYS_PER_400_YEARS, n % DAYS_PER_400_YEARS;
    var n100 := Min(r400 / 36524, 3);
    var r100 := r400 - 36524 * n100;
    var n4, r4 := r100 / 1461, r100 % 1461;
    var n1 := Min(r4 / 365, 3);
    (400 * n400 + 100 * n100 + 4 * n4 + n1 + 1, r4 - 365 * n1)
  }

  /** The month holding the 0-based day of a year, searching from month m on. */
  function MonthOfYearDay(leap: bool, yday: int, m: int): (r: int)
    requires 1 <= m <= 12
    requires DaysBeforeMonth(leap, m) <= yday < DaysBeforeMonth(leap, 13)
    ensures m <= r <= 12
    ensures DaysBeforeMonth(leap, r) <= yday < DaysBeforeMonth(leap, r + 1)
    decreases 12 - m
  {
    if yday < DaysBeforeMonth(leap, m + 1) then m else MonthOfYearDay(leap, yday, m + 1)
  }

  lemma YearCycles(a: int, b: int, c: int, d: int)
    requires 0 <= b < 4 && 0 <= c < 25 && 0 <= d < 4
    ensures DaysBeforeYear(400 * a + 100 * b + 4 * c + d + 1) == 146097 * a + 36524 * b + 1461 * c + 365 * d
    ensures IsLeap(400 * a + 100 * b + 4 * c + d + 1) <==> d == 3 && (c != 24 || b == 3)
  {
    var x := 400 * a + 100 * b + 4 * c + d;
    assert x / 4 == 100 * a + 25 * b + c;
    assert x / 100 == 4 * a + b;
    assert x / 400 == a;
    assert (x + 1) % 4 == 0 <==> d == 3;
    assert (x + 1) % 100 == 0 <==> d == 3 && c == 24;
    assert (x + 1) % 400 == 0 <==> d == 3 && c == 24 && b == 3;
  }

  lemma YearAndDayExact(n: int)
    ensures var (y, yday) := YearAndDay(n);
            DaysBeforeYear(y) + yday == n && 0 <= yday < YearLength(y)
  {
    var n400, r400 := n / DAYS_PER_400_YEARS, n % DAYS_PER_400_YEARS;
    var n100 := Min(r400 / 36524, 3);
    var r100 := r400 - 36524 * n100;
    var n4, r4 := r100 / 1461, r100 % 1461;
    var n1 := Min(r4 / 365, 3);
    YearCycles(n400, n100, n4, n1);
  }

  /** The civil date of day n. */
  function Civil(n: int): (d: Date)
    ensures ValidDate(d)
    ensures DayNumber(d.year, d.month, d.day) == n
  {
    var (y, yday) := YearAndDay(n);
    YearAndDayExact(n);
    var m := MonthOfYearDay(IsLeap(y), yday, 1);
    Date(y, m, yday - DaysBeforeMonth(IsLeap(y), m) + 1)
  }

  lemma YearStep(y: int)
    ensures DaysBeforeYear(y + 1) == DaysBeforeYear(y) + YearLength(y)
  {
    assert y / 4 - (y - 1) / 4 == if y % 4 == 0 then 1 else 0;
    assert y / 100 - (y - 1) / 100 == if y % 100 == 0 then 1 else 0;
    assert y / 400 - (y - 1) / 400 == if y % 400 == 0 then 1 else 0;
  }

  // ---- months as one unbroken sequence -----------------------------------------

  /** Months numbered through all years: 12 * year + month - 1. */
  function MonthIndex(n: int): int
  {
    12 * Civil(n).year + Civil(n).month - 1
  }

  function FirstDay(k: int): int
  {
    DayNumber(k / 12, k % 12 + 1, 1)
  }

  lemma FirstDayStep(k: int)
    ensures FirstDay(k + 1) == FirstDay(k) + DaysInMonth(IsLeap(k / 12), k % 12 + 1)
  {
    if k % 12 == 11 {
      YearStep(k / 12);
      assert (k + 1) / 12 == k / 12 + 1 && (k + 1) % 12 == 0;
    } else {
      assert (k + 1) / 12 == k / 12 && (k + 1) % 12 == k % 12 + 1;
    }
  }

  lemma {:induction false} FirstDayIncreases(j: int, k: int)
    requires j <= k
    ensures FirstDay(j) + 28 * (k - j) <= FirstDay(k)
    decreases k - j
  {
    hide FirstDay;
    if j < k {
      FirstDayIncreases(j, k - 1);
      FirstDayStep(k - 1);
    }
  }

  lemma InOwnMonth(n: int)
    ensures FirstDay(MonthIndex(n)) <= n < FirstDay(MonthIndex(n) + 1)
  {
    hide Civil, DaysBeforeYear, DaysBeforeMonth, DaysInMonth, IsLeap;
    var d := Civil(n);
    var i := 12 * d.year + d.month - 1;
    assert i / 12 == d.year && i % 12 == d.month - 1;
    FirstDayStep(i);
  }

  /** A day lies in month k exactly when it falls between the two month starts. */
  lemma MonthSpan(n: int, k: int)
    ensures MonthIndex(n) == k <==> FirstDay(k) <= n < FirstDay(k + 1)
    ensures k <= MonthIndex(n) <==> FirstDay(k) <= n
  {
    InOwnMonth(n);
    MonthStartsBracket(n, MonthIndex(n), k);
  }

  lemma MonthStartsBracket(n: int, i: int, k: int)
    requires FirstDay(i) <= n < FirstDay(i + 1)
    ensures i == k <==> FirstDay(k) <= n < FirstDay(k + 1)
    ensures k <= i <==> FirstDay(k) <= n
  {
    hide FirstDay;
    if i < k {
      FirstDayIncreases(i + 1, k);
    } else {
      FirstDayIncreases(k, i);
      if k < i { FirstDayIncreases(k + 1, i); }
    }
  }

  lemma MonthIndexParts(n: int)
    ensures MonthIndex(n) / 12 == Civil(n).year && MonthIndex(n) % 12 == Civil(n).month - 1
  {
  }

  // ---- the calendar is the one on the wall -----------------------------------------

  /** Every valid date is the civil date of its own day number. */
  lemma CivilOfDayNumber(d: Date)
    requires ValidDate(d)
    ensures Civil(DayNumber(d.year, d.month, d.day)) == d
  {
    hide Civil, DaysBeforeYear, DaysBeforeMonth, DaysInMonth, IsLeap, MonthIndex;
    var n := DayNumber(d.year, d.month, d.day);
    var k := 12 * d.year + d.month - 1;
    assert k / 12 == d.year && k % 12 == d.month - 1;
    FirstDayStep(k);
    MonthSpan(n, k);
    MonthIndexParts(n);
  }

  lemma FirstDayOfAll()
    ensures DayNumber(1, 1, 1) == 0
  {
  }

  /** How a calendar date turns over at midnight. */
  function Tomorrow(d: Date): Date
  {
    if d.day < DaysInMonth(IsLeap(d.year), d.month) then d.(day := d.day + 1)
    else if d.month < 12 then Date(d.year, d.month + 1, 1)
    else Date(d.year + 1, 1, 1)
  }

  lemma CivilSuccessor(n: int)
    ensures Civil(0) == Date(1, 1, 1)
    ensures Civil(n + 1) == Tomorrow(Civil(n))
  {
    hide Civil, DayNumber;
    assert DayNumber(1, 1, 1) == 0 by { FirstDayOfAll(); }
    CivilOfDayNumber(Date(1, 1, 1));
    TomorrowIsNextDay(Civil(n));
    CivilOfDayNumber(Tomorrow(Civil(n)));
  }

  lemma TomorrowIsNextDay(d: Date)
    requires ValidDate(d)
    ensures var e := Tomorrow(d);
            ValidDate(e) && DayNumber(e.year, e.month, e.day) == DayNumber(d.year, d.month, d.day) + 1
  {
    YearStep(d.year);
  }

  /** 0 is Sunday; day 0, 1 January of year 1, is a Monday. */
  function Weekday(n: int): (w: int)
    ensures 0 <= w < 7
  {
    (n + 1) % 7
  }

  /** Weekdays follow one another. */
  lemma WeekdayTurnsOver(n: int)
    ensures Weekday(n + 1) == (Weekday(n) + 1) % 7
  {
  }

  /** 1 January 2024 was day 738885 and a Monday; with WeekdayTurnsOver this fixes every weekday. */
  lemma KnownMonday()
    ensures DayNumber(2024, 1, 1) == 738885 && Weekday(738885) == 1
  {
  }

  /** The first days of the months of a leap year and of the year after it, and the two kinds of century. */
  lemma KnownMonths()
    ensures forall k :: 0 <= k < 12 ==>
              DayNumber(2024, k + 1, 1) == [738885, 738916, 738945, 738976, 739006, 739037, 739067, 739098, 739129, 739159, 739190, 739220][k]
    ensures forall k :: 0 <= k < 12 ==>
              DayNumber(2025, k + 1, 1) == [739251, 739282, 739310, 739341, 739371, 739402, 739432, 739463, 739494, 739524, 739555, 739585][k]
    ensures DayNumber(1900, 3, 1) == DayNumber(1900, 2, 28) + 1 && DayNumber(2000, 3, 1) == DayNumber(2000, 2, 28) + 2
  {
  }

  lemma YearsLaterByCycles(y: int, k: int)
    ensures DaysBeforeYear(y + 400 * k) == DaysBeforeYear(y) + 146097 * k
    ensures IsLeap(y + 400 * k) == IsLeap(y)
  {
    hide DaysBeforeYear, IsLeap;
    var x := y - 1;
    var a, r := x / 400, x % 400;
    var b, s := r / 100, r % 100;
    var c, d := s / 4, s % 4;
    YearCycles(a, b, c, d);
    YearCycles(a + k, b, c, d);
  }

  lemma LaterByCycles(d: Date, k: int)
    requires ValidDate(d)
    ensures ValidDate(d.(year := d.year + 400 * k))
    ensures DayNumber(d.year + 400 * k, d.month, d.day) == DayNumber(d.year, d.month, d.day) + 146097 * k
  {
    hide DaysBeforeYear, IsLeap, DaysBeforeMonth, DaysInMonth;
    YearsLaterByCycles(d.year, k);
  }

  lemma SevenCycles(x: int, j: int)
    ensures (x + 7 * j) % 7 == x % 7
  {
  }

  lemma WeekdayCycles(n: int, k: int)
    ensures Weekday(n + 146097 * k) == Weekday(n)
  {
    SevenCycles(n + 1, 20871 * k);
  }

  /** Dates and weekdays repeat after 400 years. */
  lemma Period400(n: int, k: int)
    ensures Civil(n + 146097 * k) == Civil(n).(year := Civil(n).year + 400 * k)
    ensures Weekday(n + 146097 * k) == Weekday(n)
  {
    hide Civil, DayNumber;
    LaterByCycles(Civil(n), k);
    CivilOfDayNumber(Civil(n).(year := Civil(n).year + 400 * k));
    WeekdayCycles(n, k);
  }
}
