/** Calendar arithmetic of the date picker's day column: the Gregorian
    leap-year rule and the month-length table of its `switch`, including the
    `default` arm that gives 30 days to any month number outside the table. */
module Gregorian {

  /** `year % 4 == 0 && year % 100 != 0 || year % 400 == 0`. Only tests against
      zero occur, and those agree between Java's truncating `%` and Dafny's
      Euclidean `%`, so negative years are classified as in Java. */
  predicate IsLeapYear(year: int) {
    (year % 4 == 0 && year % 100 != 0) || year % 400 == 0
  }

  predicate IsLongMonth(month: int) {
    month == 1 || month == 3 || month == 5 || month == 7 ||
    month == 8 || month == 10 || month == 12
  }

  /** The number of days the day column shows for `month` (1-based) of `year`. */
  function DaysInMonth(year: int, month: int): (n: int)
    ensures 28 <= n <= 31
    ensures n == 29 <==> month == 2 && IsLeapYear(year)
    ensures n == 28 <==> month == 2 && !IsLeapYear(year)
    ensures n == 31 <==> IsLongMonth(month)
    ensures n == 30 <==> month != 2 && !IsLongMonth(month)
  {
    if month == 2 then (if IsLeapYear(year) then 29 else 28)
    else if IsLongMonth(month) then 31
    else 30
  }

  /** Days of the months `1..month` of `year`. */
  function DaysThroughMonth(year: int, month: nat): nat
    decreases month
  {
    if month == 0 then 0 else DaysThroughMonth(year, month - 1) + DaysInMonth(year, month)
  }

  /** The twelve rows of the table add up to the length of the Gregorian
      year: 366 days exactly in leap years, 365 otherwise. */
  lemma YearLength(year: int)
    ensures DaysThroughMonth(year, 12) == if IsLeapYear(year) then 366 else 365
  {
  }

  /** An independent formula for the months other than February: the
      "knuckle" rule, alternating 31 and 30 with the alternation restarting
      at August. */
  lemma KnuckleRule(year: int, month: int)
    requires 1 <= month <= 12 && month != 2
    ensures DaysInMonth(year, month) == 30 + (month + month / 8) % 2
  {
  }

  /** The rule repeats every 400 years. */
  lemma LeapYearPeriod(year: int)
    ensures IsLeapYear(year + 400) <==> IsLeapYear(year)
  {
    assert (year + 400) % 4 == year % 4;
    assert (year + 400) % 100 == year % 100;
    assert (year + 400) % 400 == year % 400;
  }

  /** The rule on four sample years, and the month lengths they imply. */
  lemma LeapYearExamples()
    ensures IsLeapYear(2024) && IsLeapYear(2000)
    ensures !IsLeapYear(1900) && !IsLeapYear(2023)
    ensures DaysInMonth(2024, 2) == 29 && DaysInMonth(2023, 2) == 28
    ensures DaysInMonth(2000, 2) == 29 && DaysInMonth(1900, 2) == 28
    ensures DaysInMonth(2024, 4) == 30 && DaysInMonth(2024, 1) == 31
  {
  }
}
