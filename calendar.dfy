/**
 * The calendar check behind the day-of-month question: the source accepts a
 * day when `DateTime.TryParse` succeeds on the text `year-month-day`, which
 * holds exactly when the three numbers name a day of the Gregorian calendar
 * between the years 1 and 9999.
 */
module Calendar {

  predicate IsLeapYear(year: int) {
    year % 4 == 0 && (year % 100 != 0 || year % 400 == 0)
  }

  /** The number of days of `month` in `year`; 0 for a number that is not a month. */
  function DaysInMonth(year: int, month: int): (days: nat)
    ensures 1 <= month <= 12 <==> days > 0
    ensures days <= 31
  {
    if month == 2 then (if IsLeapYear(year) then 29 else 28)
    else if month == 4 || month == 6 || month == 9 || month == 11 then 30
    else if 1 <= month <= 12 then 31
    else 0
  }

  /** True when `DateTime.TryParse` accepts the date `year-month-day`. */
  predicate IsCalendarDate(year: int, month: int, day: int)
    ensures IsCalendarDate(year, month, day) ==> 1 <= day <= 31 && (month == 2 ==> day <= 29)
  {
    1 <= year <= 9999 && 1 <= month <= 12 && 1 <= day <= DaysInMonth(year, month)
  }

  /**
   * Which days each month has: day 29 of February exists only in leap years,
   * day 30 in every month but February, day 31 in the seven long months, and
   * days 1 to 28 in every month.
   */
  lemma MonthLengths(year: int, month: int, day: int)
    requires 1 <= year <= 9999 && 1 <= month <= 12
    ensures 1 <= day <= 28 ==> IsCalendarDate(year, month, day)
    ensures day < 1 || day > 31 ==> !IsCalendarDate(year, month, day)
    ensures day == 29 ==> (IsCalendarDate(year, month, day) <==> month != 2 || IsLeapYear(year))
    ensures day == 30 ==> (IsCalendarDate(year, month, day) <==> month != 2)
    ensures day == 31 ==> (IsCalendarDate(year, month, day) <==> month in {1, 3, 5, 7, 8, 10, 12})
  {
  }
}
