/**
 * The part of JavaScript's `Date` that `isValidDate` relies on: building a
 * date with `new Date(year, monthIndex, day)` and reading it back with
 * `getFullYear`, `getMonth` and `getDate`, in the proleptic Gregorian
 * calendar.  Months are counted from 0, as `Date` counts them.
 */
module Calendar {

  predicate IsLeapYear(y: int) {
    (y % 4 == 0 && y % 100 != 0) || y % 400 == 0
  }

  /** Days in month `m` (0 = January) of year `y`. */
  function DaysInMonth(y: int, m: int): (n: int)
    requires 0 <= m < 12
    ensures 28 <= n <= 31
  {
    if m == 1 then (if IsLeapYear(y) then 29 else 28)
    else if m == 3 || m == 5 || m == 8 || m == 10 then 30
    else 31
  }

  /** What the three getters of a `Date` report. */
  datatype DateFields = DateFields(year: int, month: int, day: int)

  /** Fields a `Date` can report: a month index 0 to 11 and a day inside that month. */
  predicate IsCalendarDate(d: DateFields) {
    0 <= d.month < 12 && 1 <= d.day <= DaysInMonth(d.year, d.month)
  }

  /**
   * Day number `d` counted from the first of month `m` of year `y`, carried
   * into the month it actually falls in: a day past the month's end moves
   * into the next month, a day below 1 into the previous one.
   */
  function CarryDay(y: int, m: int, d: int): (r: DateFields)
    requires 0 <= m < 12
    ensures IsCalendarDate(r)
    decreases if d < 1 then 1 - d else 0, d
  {
    if d < 1 then
      var py := if m == 0 then y - 1 else y;
      var pm := if m == 0 then 11 else m - 1;
      CarryDay(py, pm, d + DaysInMonth(py, pm))
    else if d > DaysInMonth(y, m) then
      var ny := if m == 11 then y + 1 else y;
      var nm := if m == 11 then 0 else m + 1;
      CarryDay(ny, nm, d - DaysInMonth(y, m))
    else DateFields(y, m, d)
  }

  /** Carrying a day of at least 1 only ever moves forward in time. */
  lemma {:induction false} CarryDayForward(y: int, m: int, d: int)
    requires 0 <= m < 12 && d >= 1
    ensures CarryDay(y, m, d).year >= y
    decreases d
  {
    if d > DaysInMonth(y, m) {
      var ny := if m == 11 then y + 1 else y;
      var nm := if m == 11 then 0 else m + 1;
      CarryDayForward(ny, nm, d - DaysInMonth(y, m));
    }
  }

  /**
   * `new Date(year, monthIndex, day)` read back through its getters.  As
   * ECMAScript prescribes, a year from 0 to 99 is taken as 1900 to 1999;
   * MakeDay then carries whole years out of the month index (floor division)
   * and the day into range.
   */
  function DateOf(year: int, monthIndex: int, day: int): (r: DateFields)
    ensures IsCalendarDate(r)
  {
    var y := if 0 <= year <= 99 then 1900 + year else year;
    CarryDay(y + monthIndex / 12, monthIndex % 12, day)
  }

  /**
   * The check `isValidDate` makes: building the date from a 1-based month
   * and reading it back gives the same year, month and day.
   */
  predicate RoundTrips(year: int, month: int, day: int) {
    DateOf(year, month - 1, day) == DateFields(year, month - 1, day)
  }

  /**
   * A year, month and day round-trip exactly when they name a real day of a
   * year from 100 on: years 0 to 99 come back as 1900 to 1999.
   */
  lemma RoundTripsIff(year: nat, month: int, day: int)
    ensures RoundTrips(year, month, day)
      <==> 100 <= year && 1 <= month <= 12 && 1 <= day <= DaysInMonth(year, month - 1)
  {
    var y := if 0 <= year <= 99 then 1900 + year else year;
    if RoundTrips(year, month, day) {
      var r := DateOf(year, month - 1, day);
      assert 0 <= month - 1 < 12;
      assert (month - 1) / 12 == 0 && (month - 1) % 12 == month - 1;
      CarryDayForward(y, month - 1, day);
    }
    if 100 <= year && 1 <= month <= 12 && 1 <= day <= DaysInMonth(year, month - 1) {
      assert (month - 1) / 12 == 0 && (month - 1) % 12 == month - 1;
    }
  }
}
