// The trip card on the dashboard (src/components/TripCard.tsx): the length
// of the trip in days, and the date line.
module TripCard {
  import opened Common
  import opened Text
  import opened Numbers
  import opened Schema

  function Distance(a: int, b: int): nat
  {
    if a <= b then b - a else a - b
  }

  /** `Math.ceil(|end - start| / 86400000) + 1`: whole days spanned, counting both the first and the last. */
  function DayCount(start: Timestamp, end: Timestamp): (n: nat)
    ensures n >= 1
    ensures (n - 2) * MsPerDay < Distance(start, end) <= (n - 1) * MsPerDay
  {
    CeilDiv(Distance(start, end), MsPerDay) + 1
  }

  /** A trip from one midnight to another `k` days later lasts `k + 1` days. */
  lemma WholeDaysCountBothEnds(start: Timestamp, k: nat)
    ensures DayCount(start, start + k * MsPerDay) == k + 1
  {
    assert Distance(start, start + k * MsPerDay) == k * MsPerDay;
  }

  /** `getDuration`: empty without both dates, "1 day" for a count of one, "{n} days" otherwise. */
  function Duration(startDate: Option<Timestamp>, endDate: Option<Timestamp>): (r: string)
    ensures r == "" <==> startDate.None? || endDate.None?
    ensures startDate.Some? && endDate.Some? ==>
      var n := DayCount(startDate.value, endDate.value);
      (r == "1 day" <==> n == 1) && (n != 1 ==> r == NatToString(n) + " days")
  {
    if startDate.None? || endDate.None? then ""
    else
      var n := DayCount(startDate.value, endDate.value);
      if n == 1 then "1 day" else NatToString(n) + " days"
  }

  /** The absolute difference makes the duration the same with the dates swapped. */
  lemma DurationSymmetric(startDate: Option<Timestamp>, endDate: Option<Timestamp>)
    ensures Duration(startDate, endDate) == Duration(endDate, startDate)
  {
  }

  /** `formatDate`: "Date TBD" for a missing date; the locale's rendering otherwise. */
  function FormatDate(date: Option<Timestamp>, localeDate: Timestamp -> string): (r: string)
    ensures date.None? ==> r == "Date TBD"
    ensures date.Some? ==> r == localeDate(date.value)
  {
    if date.None? then "Date TBD" else localeDate(date.value)
  }

  /** The calendar line: both dates joined by " - ", or "Dates to be planned" unless both are set. */
  function DateLine(startDate: Option<Timestamp>, endDate: Option<Timestamp>, localeDate: Timestamp -> string): (r: string)
    ensures startDate.None? || endDate.None? ==> r == "Dates to be planned"
    ensures startDate.Some? && endDate.Some? ==>
      r == localeDate(startDate.value) + " - " + localeDate(endDate.value)
  {
    if startDate.Some? && endDate.Some? then
      FormatDate(startDate, localeDate) + " - " + FormatDate(endDate, localeDate)
    else "Dates to be planned"
  }
}
