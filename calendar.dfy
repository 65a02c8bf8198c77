/** Civil dates and the part of JavaScript's `new Date(year, monthIndex, day)`
    the tax routes rely on: two-digit years and month-index overflow. Instants
    are epoch milliseconds; turning a civil date into an instant (time zone,
    daylight saving) belongs to the runtime and is a parameter wherever it is
    needed. */
module Calendar {

  /** Milliseconds in a day, as the routes write it: 24 * 60 * 60 * 1000. */
  const MsPerDay: int := 24 * 60 * 60 * 1000

  /** A calendar day; `month` runs from 1 (January) to 12 (December). */
  datatype CivilDate = CivilDate(year: int, month: int, day: int)

  /** The year `new Date` uses: a year argument from 0 to 99 means 1900 to 1999. */
  function FullYear(y: int): (full: int)
    ensures !(0 <= full <= 99)
    ensures !(0 <= y <= 99) ==> full == y
    ensures 0 <= y <= 99 ==> 1900 <= full <= 1999 && full % 100 == y
  {
    if 0 <= y <= 99 then 1900 + y else y
  }

  /** `new Date(year, monthIndex, day)` (local midnight of that day) for a day
      that exists in every month it may land in, so that only the month index
      can overflow: index 12 is January of the next year, index -1 December
      of the previous one. */
  function JsDate(year: int, monthIndex: int, day: int): (d: CivilDate)
    requires 1 <= day <= 28 || (1 <= day <= 30 && monthIndex % 12 != 1)
    ensures 1 <= d.month <= 12 && d.day == day
    ensures 12 * d.year + (d.month - 1) == 12 * FullYear(year) + monthIndex
  {
    CivilDate(FullYear(year) + monthIndex / 12, monthIndex % 12 + 1, day)
  }

  /** The month index is read modulo 12 and its overflow carried into the year. */
  lemma JsDateMonth(year: int, monthIndex: int, day: int)
    requires 1 <= day <= 28 || (1 <= day <= 30 && monthIndex % 12 != 1)
    ensures 0 <= monthIndex <= 11 ==> JsDate(year, monthIndex, day) == CivilDate(FullYear(year), monthIndex + 1, day)
    ensures monthIndex == 12 ==> JsDate(year, monthIndex, day) == CivilDate(FullYear(year) + 1, 1, day)
    ensures monthIndex == -1 ==> JsDate(year, monthIndex, day) == CivilDate(FullYear(year) - 1, 12, day)
  {
    var d := JsDate(year, monthIndex, day);
    assert 12 * d.year + (d.month - 1) == 12 * FullYear(year) + monthIndex;
  }
}
