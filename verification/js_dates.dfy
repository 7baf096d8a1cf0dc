/** Calendar dates as whole day numbers: day 0 is 1 January 1970.
    The stores build their thresholds with JavaScript's `new Date(year, monthIndex, day)`,
    whose month index counts from 0 (January) to 11 (December). */
module JsDates {

  /** Day number of the proleptic Gregorian date year-month-day, with `month` in 1..12.
      (The usual era-of-400-years construction; Dafny's `/` floors for a positive divisor.) */
  function CivilDay(year: int, month: int, day: int): int
  {
    var y := if month <= 2 then year - 1 else year;
    var era := y / 400;
    var yearOfEra := y - era * 400;
    var shiftedMonth := if month > 2 then month - 3 else month + 9;
    var dayOfYear := (153 * shiftedMonth + 2) / 5 + day - 1;
    var dayOfEra := yearOfEra * 365 + yearOfEra / 4 - yearOfEra / 100 + dayOfYear;
    era * 146097 + dayOfEra - 719468
  }

  /** `new Date(year, monthIndex, day)` as a day number: the month index is 0-based. */
  function JsDay(year: int, monthIndex: int, day: int): int
  {
    CivilDay(year, monthIndex + 1, day)
  }

  /** Users who joined after this day (1 July 2019) get the assistant. */
  const AssistantThreshold: int := JsDay(2019, 6, 1)

  /** Users who joined on or after this day (6 February 2020) do not get the Discover sidebar guide. */
  const DiscoverDate: int := JsDay(2020, 1, 6)

  lemma ThresholdDays()
    ensures AssistantThreshold == 18078
    ensures DiscoverDate == 18298
    ensures JsDay(1970, 0, 1) == 0
  {
  }
}
