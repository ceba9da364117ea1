/** Day numbers of calendar dates, as the request timestamps are turned into them. */
module Calendar {

  datatype Date = Date(y: int, m: int, d: int)

  predicate IsLeap(y: int) {
    (y % 4 == 0 && y % 100 != 0) || y % 400 == 0
  }

  const MONTH_DAYS_BEFORE: seq<int> := [0, 31, 59, 90, 120, 151, 181, 212, 243, 273, 304, 334]

  /** Integer division of the implementation language: towards zero. */
  function Quotient(a: int, b: int): int
    requires b > 0
  {
    if a >= 0 then a / b else -((-a) / b)
  }

  /** Jan 1 of year 1 is day 0. */
  function DayNumber(t: Date): int
    requires 1 <= t.m <= 12
  {
    YearStart(t.y) + MonthOffset(t.y, t.m) + t.d - 1
  }

  function YearStart(y: int): int {
    (y - 1) * 365 + Quotient(y - 1, 4) - Quotient(y - 1, 100) + Quotient(y - 1, 400)
  }

  function MonthOffset(y: int, m: int): int
    requires 1 <= m <= 12
  {
    MONTH_DAYS_BEFORE[m - 1] + if m > 2 && IsLeap(y) then 1 else 0
  }

  method DayNumberFromYmd(y: int, m: int, d: int) returns (days: int)
    requires 1 <= m <= 12
    ensures days == DayNumber(Date(y, m, d))
  {
    var yPrev := y - 1;
    days := yPrev * 365 + Quotient(yPrev, 4) - Quotient(yPrev, 100) + Quotient(yPrev, 400);
    days := days + MONTH_DAYS_BEFORE[m - 1] + d - 1;
    if m > 2 && IsLeap(y) {
      days := days + 1;
    }
  }

  // ----- The calendar itself -----

  function MonthLength(y: int, m: int): int {
    if m == 2 then if IsLeap(y) then 29 else 28
    else if m == 4 || m == 6 || m == 9 || m == 11 then 30 else 31
  }

  /** A date of the proleptic Gregorian calendar from year 0 on. */
  predicate Valid(t: Date) {
    0 <= t.y && 1 <= t.m <= 12 && 1 <= t.d <= MonthLength(t.y, t.m)
  }

  function NextDay(t: Date): (n: Date)
    requires Valid(t)
    ensures Valid(n)
  {
    if t.d < MonthLength(t.y, t.m) then Date(t.y, t.m, t.d + 1)
    else if t.m < 12 then Date(t.y, t.m + 1, 1)
    else Date(t.y + 1, 1, 1)
  }

  lemma LeapDays(y: int)
    requires y >= 1
    ensures (y / 4 - y / 100 + y / 400) - ((y - 1) / 4 - (y - 1) / 100 + (y - 1) / 400) == if IsLeap(y) then 1 else 0
  {
    StepDivides(y, 4);
    StepDivides(y, 100);
    StepDivides(y, 400);
    Multiples(y);
  }

  lemma Multiples(y: int)
    requires y >= 0
    ensures y % 400 == 0 ==> y % 100 == 0
    ensures y % 100 == 0 ==> y % 4 == 0
  {
    FourHundreds(y);
    Hundreds(y);
  }

  lemma FourHundreds(y: int)
    requires y >= 0
    ensures y % 400 == 0 ==> y % 100 == 0
  {
    if y % 400 == 0 {
      HundredTimes(y, 4 * (y / 400));
    }
  }

  lemma Hundreds(y: int)
    requires y >= 0
    ensures y % 100 == 0 ==> y % 4 == 0
  {
    if y % 100 == 0 {
      FourTimes(y, 25 * (y / 100));
    }
  }

  lemma HundredTimes(y: int, k: int)
    requires y == 100 * k
    ensures y % 100 == 0
  {
  }

  lemma FourTimes(y: int, k: int)
    requires y == 4 * k
    ensures y % 4 == 0
  {
  }

  lemma StepDivides(y: int, n: int)
    requires y >= 1 && (n == 4 || n == 100 || n == 400)
    ensures y / n - (y - 1) / n == if y % n == 0 then 1 else 0
  {
  }

  lemma YearLength(y: int)
    requires y >= 1
    ensures YearStart(y + 1) == YearStart(y) + 365 + if IsLeap(y) then 1 else 0
  {
    LeapDays(y);
    Sum(y, Quotient(y, 4), Quotient(y, 100), Quotient(y, 400), Quotient(y - 1, 4), Quotient(y - 1, 100),
        Quotient(y - 1, 400), if IsLeap(y) then 1 else 0);
  }

  lemma Sum(y: int, a: int, b: int, c: int, a': int, b': int, c': int, leap: int)
    requires (a - b + c) - (a' - b' + c') == leap
    ensures y * 365 + a - b + c == (y - 1) * 365 + a' - b' + c' + 365 + leap
  {
  }

  lemma YearEnds(y: int)
    requires y >= 0
    ensures DayNumber(Date(y + 1, 1, 1)) == DayNumber(Date(y, 12, 31)) + (if y == 0 then 0 else 1)
  {
    if y > 0 {
      YearLength(y);
    } else {
      assert YearStart(1) == 0 && YearStart(0) == -365;
    }
  }

  /** The day after gets the next number, for every date but the last of year 0,
      where division towards zero loses the leap day. */
  lemma NextDayNumber(t: Date)
    requires Valid(t)
    ensures DayNumber(NextDay(t)) == DayNumber(t) + 1 <==> t != Date(0, 12, 31)
  {
    if t.d == MonthLength(t.y, t.m) {
      if t.m == 12 {
        YearEnds(t.y);
      } else {
        NextMonth(t, YearStart(t.y));
      }
    }
  }

  lemma NextMonth(t: Date, start: int)
    requires Valid(t) && t.m < 12 && t.d == MonthLength(t.y, t.m)
    ensures start + MonthOffset(t.y, t.m + 1) + 1 - 1 == start + MonthOffset(t.y, t.m) + t.d - 1 + 1
  {
  }

  /** The n-th day from Jan 1 of year 1 on. */
  function Later(n: nat): (t: Date)
    ensures Valid(t) && t.y >= 1
  {
    if n == 0 then Date(1, 1, 1) else NextDay(Later(n - 1))
  }

  /** Day numbers count days since Jan 1 of year 1. */
  lemma {:induction false} DayNumberCounts(n: nat)
    ensures DayNumber(Later(n)) == n
  {
    if n > 0 {
      DayNumberCounts(n - 1);
      NextDayNumber(Later(n - 1));
    }
  }

  predicate Before(a: Date, b: Date) {
    a.y < b.y || (a.y == b.y && (a.m < b.m || (a.m == b.m && a.d < b.d)))
  }

  lemma {:induction false} YearsGrow(y: int, z: int)
    requires 1 <= y <= z
    ensures DayNumber(Date(y, 1, 1)) + (z - y) <= DayNumber(Date(z, 1, 1))
    decreases z - y
  {
  }

  /** Later dates have larger numbers, so equal numbers mean equal dates. */
  lemma DayNumberIsMonotone(a: Date, b: Date)
    requires Valid(a) && Valid(b) && a.y >= 1 && b.y >= 1
    ensures Before(a, b) <==> DayNumber(a) < DayNumber(b)
  {
    if Before(a, b) {
      DayNumberGrows(a, b);
    } else if Before(b, a) {
      DayNumberGrows(b, a);
    }
  }

  lemma DayNumberGrows(a: Date, b: Date)
    requires Valid(a) && Valid(b) && a.y >= 1 && b.y >= 1 && Before(a, b)
    ensures DayNumber(a) < DayNumber(b)
  {
    if a.y < b.y {
      YearEnds(a.y);
      YearsGrow(a.y + 1, b.y);
    }
  }

  /** Every date is reached, and its weekday number is that of its distance from a
      Monday. */
  lemma {:induction false} WeekdaysCycle(t: Date, n: nat)
    requires Valid(t) && t.y >= 1 && n == DayNumber(t)
    ensures t == Later(n)
    ensures DayNumber(NextDay(t)) % 7 == (DayNumber(t) + 1) % 7
  {
    DayNumberCounts(n);
    DayNumberIsMonotone(t, Later(n));
    DayNumberIsMonotone(Later(n), t);
    NextDayNumber(t);
  }
}
