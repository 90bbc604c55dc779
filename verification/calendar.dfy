/** Calendar conversion used where the SQL compares `MONTH(...)` and `YEAR(...)` of a
    stored date. Dates are day numbers counted from 1970-01-01 (day 0); instants are
    seconds counted from 1970-01-01T00:00:00 in the server's time zone. */
module Calendar {

  datatype CivilDate = CivilDate(year: int, month: int, day: int)

  /** The proleptic Gregorian date of a day number (the days-from-civil inverse in
      integer arithmetic; `/` and `%` floor, as the algorithm requires). */
  function CivilFromDays(days: int): CivilDate {
    var z := days + 719468;
    var era := z / 146097;
    var doe := z - era * 146097;
    var yoe := (doe - doe / 1460 + doe / 36524 - doe / 146096) / 365;
    var doy := doe - (365 * yoe + yoe / 4 - yoe / 100);
    var mp := (5 * doy + 2) / 153;
    var d := doy - (153 * mp + 2) / 5 + 1;
    var m := if mp < 10 then mp + 3 else mp - 9;
    var y := yoe + era * 400;
    CivilDate(if m <= 2 then y + 1 else y, m, d)
  }

  const SecondsPerDay := 86400

  /** The day number an instant falls on. */
  function DayOf(instant: int): int {
    instant / SecondsPerDay
  }

  /** `MONTH(t) = MONTH(u) AND YEAR(t) = YEAR(u)`. */
  predicate SameMonthAndYear(t: int, u: int) {
    var a := CivilFromDays(DayOf(t));
    var b := CivilFromDays(DayOf(u));
    a.month == b.month && a.year == b.year
  }

  /** `MONTH(t) = MONTH(u)`, the year ignored. */
  predicate SameMonth(t: int, u: int) {
    CivilFromDays(DayOf(t)).month == CivilFromDays(DayOf(u)).month
  }

}
