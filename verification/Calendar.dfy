/** The proleptic Gregorian calendar, as the source's time library keeps it. Days count from 0000-01-01. */
module Calendar {

  predicate Leap(y: int) {
    y % 4 == 0 && (y % 100 != 0 || y % 400 == 0)
  }

  /** First day of year y. */
  function YearStart(y: int): int {
    365 * y + (y + 3) / 4 - (y + 99) / 100 + (y + 399) / 400
  }

  function DaysInMonth(leap: bool, m: int): int {
    if m == 2 then (if leap then 29 else 28)
    else if m == 4 || m == 6 || m == 9 || m == 11 then 30
    else 31
  }

  /** The lengths of the months, by the arithmetic of the knuckles. */
  lemma MonthLengths(leap: bool, m: int)
    requires 1 <= m <= 12
    ensures DaysInMonth(leap, m) == 28 + (m + m / 8) % 2 + 2 % m + 2 * (1 / m) + if leap && m == 2 then 1 else 0
  {
    assert || m == 1 || m == 2 || m == 3 || m == 4 || m == 5 || m == 6
           || m == 7 || m == 8 || m == 9 || m == 10 || m == 11 || m == 12;
  }

  /** Days of the year before month m; month 13 gives the length of the year. */
  function MonthStart(leap: bool, m: int): int
    requires 1 <= m <= 13
    decreases m
  {
    if m == 1 then 0 else MonthStart(leap, m - 1) + DaysInMonth(leap, m - 1)
  }

  datatype Date = Date(year: int, month: int, day: int)

  predicate ValidDate(d: Date) {
    1 <= d.month <= 12 && 1 <= d.day <= DaysInMonth(Leap(d.year), d.month)
  }

  /** Linear in the day, so that an overlong day runs into the next month, as AddDate normalizes it. */
  function DayNumber(d: Date): int
    requires 1 <= d.month <= 12
  {
    YearStart(d.year) + MonthStart(Leap(d.year), d.month) + d.day - 1
  }

  function YearOf(n: int): int {
    var y := 400 * n / 146097;
    if n < YearStart(y) then y - 1 else if n >= YearStart(y + 1) then y + 1 else y
  }

  /** The month of the year that day `k` (from 0) lies in, searched from month m on. */
  function MonthOf(leap: bool, k: int, m: int): int
    requires 1 <= m <= 12
    decreases 12 - m
  {
    if m == 12 || k < MonthStart(leap, m + 1) then m else MonthOf(leap, k, m + 1)
  }

  function DateOf(n: int): Date {
    var y := YearOf(n);
    var k := n - YearStart(y);
    var m := MonthOf(Leap(y), k, 1);
    MonthOfRange(Leap(y), k, 1);
    Date(y, m, k - MonthStart(Leap(y), m) + 1)
  }

  /** Sunday is 0; day 0 was a Saturday. */
  function Weekday(n: int): int {
    (n + 6) % 7
  }

  /** Rounded-up division by k steps at the multiples of k, for the three k of the leap rule. */
  lemma CeilingSteps(y: int)
    ensures (y + 4) / 4 - (y + 3) / 4 == if y % 4 == 0 then 1 else 0
    ensures (y + 100) / 100 - (y + 99) / 100 == if y % 100 == 0 then 1 else 0
    ensures (y + 400) / 400 - (y + 399) / 400 == if y % 400 == 0 then 1 else 0
  {
    assert y == 4 * (y / 4) + y % 4;
    assert y == 100 * (y / 100) + y % 100;
    assert y == 400 * (y / 400) + y % 400;
  }

  lemma MultiplesOf400(y: int)
    ensures y % 400 == 0 ==> y % 100 == 0
  {
    if y % 400 == 0 {
      assert y == 100 * (4 * (y / 400));
    }
  }

  lemma MultiplesOf100(y: int)
    ensures y % 100 == 0 ==> y % 4 == 0
  {
    if y % 100 == 0 {
      assert y == 4 * (25 * (y / 100));
    }
  }

  lemma YearLength(y: int)
    ensures YearStart(y + 1) - YearStart(y) == if Leap(y) then 366 else 365
  {
    CeilingSteps(y);
    MultiplesOf400(y);
    MultiplesOf100(y);
  }

  lemma {:induction false} YearStartsIncrease(a: int, b: int)
    requires a <= b
    ensures YearStart(b) - YearStart(a) >= 365 * (b - a)
    decreases b - a
  {
    if a < b {
      YearLength(b - 1);
      YearStartsIncrease(a, b - 1);
    }
  }

  lemma YearOfIsRight(n: int)
    ensures YearStart(YearOf(n)) <= n < YearStart(YearOf(n) + 1)
  {
    var y := 400 * n / 146097;
    YearStartBounds(y - 1);
    YearStartBounds(y);
    YearStartBounds(y + 1);
    YearStartBounds(y + 2);
  }

  /** 400 years are 146097 days; a year start is less than two days off the average. */
  lemma YearStartBounds(y: int)
    ensures -400 <= 400 * YearStart(y) - 146097 * y <= 800
  {
    var a, b, c := (y + 3) / 4, (y + 99) / 100, (y + 399) / 400;
    assert y <= 4 * a <= y + 3 && y <= 100 * b <= y + 99 && y <= 400 * c <= y + 399;
  }

  lemma YearIsUnique(n: int, y: int)
    requires YearStart(y) <= n < YearStart(y + 1)
    ensures YearOf(n) == y
  {
    YearOfIsRight(n);
    var z := YearOf(n);
    if z < y {
      YearStartsIncrease(z + 1, y);
    } else if y < z {
      YearStartsIncrease(y + 1, z);
    }
  }

  lemma {:induction false} MonthStartsIncrease(leap: bool, a: int, b: int)
    requires 1 <= a <= b <= 13
    ensures MonthStart(leap, b) - MonthStart(leap, a) >= 28 * (b - a)
    decreases b - a
  {
    if a < b {
      MonthStartsIncrease(leap, a, b - 1);
    }
  }

  lemma {:induction false} MonthOfRange(leap: bool, k: int, m: int)
    requires 1 <= m <= 12
    ensures m <= MonthOf(leap, k, m) <= 12
    decreases 12 - m
  {
    if m < 12 && k >= MonthStart(leap, m + 1) {
      MonthOfRange(leap, k, m + 1);
    }
  }

  lemma {:induction false} MonthOfIsRight(leap: bool, k: int, m: int)
    requires 1 <= m <= 12 && MonthStart(leap, m) <= k < MonthStart(leap, 13)
    ensures m <= MonthOf(leap, k, m) <= 12
    ensures MonthStart(leap, MonthOf(leap, k, m)) <= k < MonthStart(leap, MonthOf(leap, k, m) + 1)
    decreases 12 - m
  {
    if m < 12 && k >= MonthStart(leap, m + 1) {
      MonthOfIsRight(leap, k, m + 1);
    }
  }

  lemma YearHasMonths(leap: bool)
    ensures MonthStart(leap, 13) == if leap then 366 else 365
  {
    assert MonthStart(leap, 5) == 31 + DaysInMonth(leap, 2) + 31 + 30;
    assert MonthStart(leap, 9) == MonthStart(leap, 5) + 31 + 30 + 31 + 31;
    assert MonthStart(leap, 13) == MonthStart(leap, 9) + 30 + 31 + 30 + 31;
  }

  /** Every day has a valid date, and the date leads back to the day. */
  lemma DateOfDay(n: int)
    ensures ValidDate(DateOf(n)) && DayNumber(DateOf(n)) == n
  {
    YearOfIsRight(n);
    var y := YearOf(n);
    YearLength(y);
    YearHasMonths(Leap(y));
    MonthOfIsRight(Leap(y), n - YearStart(y), 1);
  }

  lemma DayOfDateInYear(d: Date)
    requires ValidDate(d)
    ensures YearStart(d.year) <= DayNumber(d) < YearStart(d.year + 1)
    ensures YearOf(DayNumber(d)) == d.year
  {
    var leap := Leap(d.year);
    MonthStartsIncrease(leap, 1, d.month);
    MonthStartsIncrease(leap, d.month + 1, 13);
    YearHasMonths(leap);
    YearLength(d.year);
    YearIsUnique(DayNumber(d), d.year);
  }

  lemma MonthIsUnique(leap: bool, k: int, m: int)
    requires 1 <= m <= 12 && 0 <= k < MonthStart(leap, 13) && MonthStart(leap, m) <= k < MonthStart(leap, m + 1)
    ensures MonthOf(leap, k, 1) == m
  {
    MonthOfIsRight(leap, k, 1);
    var z := MonthOf(leap, k, 1);
    if z < m {
      MonthStartsIncrease(leap, z + 1, m);
    } else if m < z {
      MonthStartsIncrease(leap, m + 1, z);
    }
  }

  /** Every valid date has a day, and the day leads back to the date. */
  lemma DayOfDate(d: Date)
    requires ValidDate(d)
    ensures DateOf(DayNumber(d)) == d
  {
    var leap := Leap(d.year);
    var k := DayNumber(d) - YearStart(d.year);
    DayOfDateInYear(d);
    MonthStartsIncrease(leap, 1, d.month);
    MonthStartsIncrease(leap, d.month + 1, 13);
    MonthIsUnique(leap, k, d.month);
  }

  /** Among any eight consecutive years one is a leap year; the longest gap is around a skipped century. */
  lemma LeapYearWithinEight(y: int) returns (z: int)
    ensures y < z <= y + 8 && Leap(z)
  {
    z := y + 4 - y % 4;
    if !Leap(z) {
      z := z + 4;
    }
  }

  /** Every month contains every weekday, within its first seven days. */
  lemma WeekdayInMonth(y: int, m: int, w: int) returns (d: int)
    requires 1 <= m <= 12 && 0 <= w <= 6
    ensures 1 <= d <= 7 && ValidDate(Date(y, m, d)) && Weekday(DayNumber(Date(y, m, d))) == w
  {
    var first := DayNumber(Date(y, m, 1));
    d := 1 + (w - Weekday(first)) % 7;
    assert DayNumber(Date(y, m, d)) == first + d - 1;
  }
}
