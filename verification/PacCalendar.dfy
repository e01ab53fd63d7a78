/** Days since the epoch to calendar dates: the branch-free algorithm against the Gregorian rules. */
module PacCalendar {

  datatype Date = Date(y: int, m: int, d: int)

  // ---- The algorithm ---------------------------------------------------------

  /** Division that truncates toward zero. */
  function Truncated(a: int, b: int): int
    requires b > 0
  {
    if a >= 0 then a / b else -((-a) / b)
  }

  function CivilFromDays(days: int): Date {
    var z := days + 719468;
    var era := Truncated(if z >= 0 then z else z - 146096, 146097);
    WithinEra(era, z - era * 146097)
  }

  function WithinEra(era: int, doe: int): Date {
    var yoe := YearGuess(doe);
    Assembled(era, yoe, doe - (365 * yoe + yoe / 4 - yoe / 100))
  }

  /** The year of the era, by a closed formula. */
  function YearGuess(doe: int): int {
    (doe - doe / 1460 + doe / 36524 - doe / 146096) / 365
  }

  /** The date at day `doy` of a year counted from 1 March. */
  function Assembled(era: int, yoe: int, doy: int): Date {
    var mp := (5 * doy + 2) / 153;
    var d := doy - (153 * mp + 2) / 5 + 1;
    var m := if mp < 10 then mp + 3 else mp - 9;
    var y := yoe + era * 400;
    Date(if m <= 2 then y + 1 else y, m, d)
  }

  function WeekdayFromDays(z: int): int {
    (z % 7 + 4) % 7
  }

  // ---- The Gregorian calendar ------------------------------------------------

  predicate Leap(y: int) {
    y % 4 == 0 && (y % 100 != 0 || y % 400 == 0)
  }

  function MonthLength(y: int, m: int): int {
    if m == 2 then (if Leap(y) then 29 else 28)
    else if m == 4 || m == 6 || m == 9 || m == 11 then 30
    else 31
  }

  predicate Valid(t: Date) {
    1 <= t.m <= 12 && 1 <= t.d <= MonthLength(t.y, t.m)
  }

  function Tomorrow(t: Date): Date {
    if t.d < MonthLength(t.y, t.m) then Date(t.y, t.m, t.d + 1)
    else if t.m < 12 then Date(t.y, t.m + 1, 1)
    else Date(t.y + 1, 1, 1)
  }

  /** Days before the first of `m` in year `y`. */
  function DaysBeforeMonth(y: int, m: int): int
    requires 1 <= m <= 12
    decreases m
  {
    if m == 1 then 0 else DaysBeforeMonth(y, m - 1) + MonthLength(y, m - 1)
  }

  /** Days from 1 January of year 1 to 1 January of year `y`, whatever the sign. */
  function DaysBeforeYear(y: int): int {
    365 * (y - 1) + (y - 1) / 4 - (y - 1) / 100 + (y - 1) / 400
  }

  /** The day number of a date, 1 January 1970 being day 0. */
  function DayCount(t: Date): int
    requires Valid(t)
  {
    DaysBeforeYear(t.y) - 719162 + DaysBeforeMonth(t.y, t.m) + t.d - 1
  }

  lemma Carries(y: int)
    ensures y / 4 - (y - 1) / 4 == if y % 4 == 0 then 1 else 0
    ensures y / 100 - (y - 1) / 100 == if y % 100 == 0 then 1 else 0
    ensures y / 400 - (y - 1) / 400 == if y % 400 == 0 then 1 else 0
  {
  }

  lemma By100(n: int, q: int)
    requires n == 100 * q
    ensures n % 100 == 0 && n % 4 == 0
  {
    assert n == 4 * (25 * q);
  }

  lemma Multiples(y: int)
    ensures y % 400 == 0 ==> y % 100 == 0
    ensures y % 100 == 0 ==> y % 4 == 0
  {
    if y % 100 == 0 { By100(y, y / 100); }
    if y % 400 == 0 { By100(y, 4 * (y / 400)); }
  }

  /** The closed form grows by each year's own length. */
  lemma YearLength(y: int)
    ensures DaysBeforeYear(y + 1) - DaysBeforeYear(y) == if Leap(y) then 366 else 365
  {
    Carries(y);
    Multiples(y);
  }

  // ---- Years of the 400-year era, counted from 1 March -----------------------

  /** The year estimate is exact on every day of the era. */
  lemma YearOfEra(doe: int) returns (yoe: int, doy: int)
    requires 0 <= doe < 146097
    ensures yoe == YearGuess(doe)
    ensures 0 <= yoe < 400 && doy == doe - (365 * yoe + yoe / 4 - yoe / 100)
    ensures 0 <= doy <= if Leap(yoe + 1) then 365 else 364
  {
    var c := if doe == 146096 then 3 else doe / 36524;
    var inCentury := doe - 36524 * c;
    var q := inCentury / 1461;
    var inQuad := inCentury - 1461 * q;
    var r := if inQuad == 1460 then 3 else inQuad / 365;
    doy := inQuad - 365 * r;
    assert doe == 36524 * c + 1461 * q + 365 * r + doy;
    assert 0 <= c <= 3 && 0 <= q <= 24 && 0 <= r <= 3 && 0 <= doy <= 365;
    Estimate(doe, c, q, r, doy);
    yoe := 100 * c + 4 * q + r;
    assert yoe / 4 == 25 * c + q && yoe / 100 == c;
  }

  lemma Estimate(doe: int, c: int, q: int, r: int, doy: int)
    requires 0 <= doe < 146097 && 0 <= c <= 3 && 0 <= q <= 24 && 0 <= r <= 3
    requires doe == 36524 * c + 1461 * q + 365 * r + doy
    requires 0 <= doy <= 364 || (doy == 365 && r == 3 && (q < 24 || c == 3))
    ensures YearGuess(doe) == 100 * c + 4 * q + r
  {
    var low := 24 * c + q + 365 * r + doy;
    var e := if low < 1460 then 0 else 1;
    assert doe / 1460 == 25 * c + q + e by { By1460(doe, 25 * c + q + e, low - 1460 * e); }
    assert doe / 36524 - doe / 146096 == c by { Centuries(doe, c); }
    By365(doe - doe / 1460 + c, 100 * c + 4 * q + r, doy - e);
  }

  lemma By1460(n: int, q: int, r: int)
    requires n == 1460 * q + r && 0 <= r < 1460
    ensures n / 1460 == q
  {
  }

  lemma By365(n: int, q: int, r: int)
    requires n == 365 * q + r && 0 <= r < 365
    ensures n / 365 == q
  {
  }

  /** Whole centuries of the era; its last day counts to the fourth. */
  lemma Centuries(doe: int, c: int)
    requires 0 <= doe < 146097 && 0 <= c <= 3
    requires 36524 * c <= doe && (doe < 36524 * (c + 1) || (c == 3 && doe == 146096))
    ensures doe / 36524 - doe / 146096 == c
  {
  }

  // ---- Months, counted from March --------------------------------------------

  /** Days from 1 March to the first of the `mp`-th month after it. */
  function MarchOffset(mp: int): int {
    (153 * mp + 2) / 5
  }

  lemma MonthStarts(y: int, m: int)
    requires 1 <= m <= 12
    ensures DaysBeforeMonth(y, m)
            == if m <= 2 then 31 * (m - 1) else (if Leap(y) then 60 else 59) + MarchOffset(m - 3)
  {
    var march := if Leap(y) then 60 else 59;
    assert DaysBeforeMonth(y, 2) == 31;
    assert DaysBeforeMonth(y, 3) == march;
    assert DaysBeforeMonth(y, 4) == march + 31;
    assert DaysBeforeMonth(y, 5) == march + 61;
    assert DaysBeforeMonth(y, 6) == march + 92;
    assert DaysBeforeMonth(y, 7) == march + 122;
    assert DaysBeforeMonth(y, 8) == march + 153;
    assert DaysBeforeMonth(y, 9) == march + 184;
    assert DaysBeforeMonth(y, 10) == march + 214;
    assert DaysBeforeMonth(y, 11) == march + 245;
    assert DaysBeforeMonth(y, 12) == march + 275;
  }

  /** The month estimate is exact: `doy` falls inside the month it picks. */
  lemma MonthOfYear(doy: int, mp: int)
    requires 0 <= doy <= 365 && mp == (5 * doy + 2) / 153
    ensures 0 <= mp <= 11 && MarchOffset(mp) <= doy
    ensures mp < 11 ==> doy < MarchOffset(mp + 1)
  {
  }

  lemma MarchMonthLength(y: int, mp: int)
    requires 0 <= mp < 11
    ensures var m := if mp < 10 then mp + 3 else mp - 9;
            MarchOffset(mp + 1) - MarchOffset(mp) == MonthLength(y, m)
  {
  }

  /** Where 1 March of a year falls, by era and year of era. */
  lemma MarchFirst(era: int, yoe: int)
    requires 0 <= yoe < 400
    ensures DaysBeforeYear(yoe + 400 * era + 1) == 146097 * era + 365 * yoe + yoe / 4 - yoe / 100
  {
    var y := yoe + 400 * era;
    assert y / 4 == 100 * era + yoe / 4;
    assert y / 100 == 4 * era + yoe / 100;
    assert y / 400 == era;
  }

  lemma LeapByEra(era: int, y: int)
    ensures Leap(y + 400 * era) == Leap(y)
  {
    assert (y + 400 * era) / 4 == y / 4 + 100 * era;
    assert (y + 400 * era) / 100 == y / 100 + 4 * era;
    assert (y + 400 * era) / 400 == y / 400 + era;
  }

  lemma EraIsFloor(z: int)
    ensures Truncated(if z >= 0 then z else z - 146096, 146097) == z / 146097
  {
  }

  // ---- Main results ------------------------------------------------------------

  lemma CivilByEra(days: int)
    ensures CivilFromDays(days) == WithinEra((days + 719468) / 146097, (days + 719468) % 146097)
  {
    EraIsFloor(days + 719468);
  }

  lemma EraParts(era: int, doe: int) returns (yoe: int, doy: int)
    requires 0 <= doe < 146097
    ensures 0 <= yoe < 400 && 0 <= doy <= if Leap(yoe + 1) then 365 else 364
    ensures doe == 365 * yoe + yoe / 4 - yoe / 100 + doy
    ensures WithinEra(era, doe) == Assembled(era, yoe, doy)
  {
    yoe, doy := YearOfEra(doe);
  }

  lemma AssembledIsValid(era: int, yoe: int, doy: int)
    requires 0 <= yoe < 400 && 0 <= doy <= if Leap(yoe + 1) then 365 else 364
    ensures Valid(Assembled(era, yoe, doy))
  {
    var mp := (5 * doy + 2) / 153;
    MonthOfYear(doy, mp);
    LeapByEra(era, yoe + 1);
    if mp < 11 { MarchMonthLength(Assembled(era, yoe, doy).y, mp); }
  }

  lemma AssembledCount(era: int, yoe: int, doy: int)
    requires 0 <= yoe < 400 && 0 <= doy <= if Leap(yoe + 1) then 365 else 364
    requires Valid(Assembled(era, yoe, doy))
    ensures DayCount(Assembled(era, yoe, doy)) + 719468
            == 146097 * era + 365 * yoe + yoe / 4 - yoe / 100 + doy
  {
    var t := Assembled(era, yoe, doy);
    var march := yoe + 400 * era;
    MonthOfYear(doy, (5 * doy + 2) / 153);
    MarchFirst(era, yoe);
    MonthStarts(t.y, t.m);
    if t.m > 2 { YearLength(march); }
  }

  /** Every day number, negative ones included, yields a real date with that day count. */
  lemma CivilIsInverse(days: int)
    ensures Valid(CivilFromDays(days)) && DayCount(CivilFromDays(days)) == days
  {
    CivilByEra(days);
    var era := (days + 719468) / 146097;
    var yoe, doy := EraParts(era, (days + 719468) % 146097);
    AssembledIsValid(era, yoe, doy);
    AssembledCount(era, yoe, doy);
  }

  lemma {:induction false} YearsAscend(y: int, y': int)
    requires y <= y'
    ensures DaysBeforeYear(y) <= DaysBeforeYear(y')
    decreases y' - y
  {
    if y < y' {
      YearLength(y);
      YearsAscend(y + 1, y');
    }
  }

  lemma {:induction false} MonthsAscend(y: int, m: int, m': int)
    requires 1 <= m < m' <= 12
    ensures DaysBeforeMonth(y, m) + MonthLength(y, m) <= DaysBeforeMonth(y, m')
    decreases m'
  {
    if m < m' - 1 { MonthsAscend(y, m, m' - 1); }
  }

  /** Dates in calendar order have day counts in the same order. */
  lemma CountsAscend(t: Date, t': Date)
    requires Valid(t) && Valid(t')
    requires t.y < t'.y || (t.y == t'.y && (t.m < t'.m || (t.m == t'.m && t.d < t'.d)))
    ensures DayCount(t) < DayCount(t')
  {
    if t.y < t'.y {
      YearLength(t.y);
      YearsAscend(t.y + 1, t'.y);
      MonthStarts(t.y, t.m);
      MonthStarts(t'.y, t'.m);
    } else if t.m < t'.m {
      MonthsAscend(t.y, t.m, t'.m);
    }
  }

  lemma SameCountSameDate(t: Date, t': Date)
    requires Valid(t) && Valid(t') && DayCount(t) == DayCount(t')
    ensures t == t'
  {
    if t != t' {
      if t.y < t'.y || (t.y == t'.y && (t.m < t'.m || (t.m == t'.m && t.d < t'.d))) {
        CountsAscend(t, t');
      } else {
        CountsAscend(t', t);
      }
    }
  }

  /** And conversely: every real date comes back from its day count. */
  lemma CountIsInverse(t: Date)
    requires Valid(t)
    ensures CivilFromDays(DayCount(t)) == t
  {
    CivilIsInverse(DayCount(t));
    SameCountSameDate(CivilFromDays(DayCount(t)), t);
  }

  lemma TomorrowCountsOne(t: Date)
    requires Valid(t)
    ensures Valid(Tomorrow(t)) && DayCount(Tomorrow(t)) == DayCount(t) + 1
  {
    if t.d == MonthLength(t.y, t.m) && t.m == 12 {
      MonthStarts(t.y, 12);
      YearLength(t.y);
    }
  }

  lemma DateOfNextDay(days: int, t: Date, t': Date)
    requires Valid(t) && DayCount(t) == days
    requires Valid(t') && DayCount(t') == days + 1
    ensures t' == Tomorrow(t)
  {
    TomorrowCountsOne(t);
    SameCountSameDate(t', Tomorrow(t));
  }

  /** Consecutive day numbers are consecutive dates. */
  lemma DaysAreConsecutive(days: int)
    ensures CivilFromDays(days + 1) == Tomorrow(CivilFromDays(days))
  {
    CivilIsInverse(days);
    CivilIsInverse(days + 1);
    DateOfNextDay(days, CivilFromDays(days), CivilFromDays(days + 1));
  }

  /** The epoch is 1 January 1970. */
  lemma EpochDate()
    ensures CivilFromDays(0) == Date(1970, 1, 1)
  {
  }

  /** The weekday advances by one modulo seven, from a Thursday (4) on day 0. */
  lemma WeekdaysAdvance(days: int)
    ensures 0 <= WeekdayFromDays(days) < 7 && WeekdayFromDays(0) == 4
    ensures WeekdayFromDays(days + 1) == (WeekdayFromDays(days) + 1) % 7
  {
  }
}
