/** The month key of a day (route.ts, lines 128-129). The handler writes
    `new Date(day.date).toLocaleDateString('en-US', { month: 'short' })`; on a server whose
    clock runs in UTC this is the English abbreviation of the `MM` field of the day's
    `YYYY-MM-DD` date, and for a string `Date` cannot parse it is the text "Invalid Date".
    The model assumes the server runs in UTC. */
module Dates {
  import opened Wrappers

  /** The fixed emission order of the monthly breakdown (route.ts, line 138). */
  const MonthOrder: seq<string> := ["Jan", "Feb", "Mar", "Apr", "May", "Jun", "Jul", "Aug", "Sep", "Oct", "Nov", "Dec"]

  /** What `toLocaleDateString` yields for an unparseable date. */
  const InvalidDateKey: string := "Invalid Date"

  predicate IsDigit(c: char) {
    '0' <= c <= '9'
  }

  function Digit(c: char): nat
    requires IsDigit(c)
  {
    c as int - '0' as int
  }

  function TwoDigits(hi: char, lo: char): nat
    requires IsDigit(hi) && IsDigit(lo)
  {
    10 * Digit(hi) + Digit(lo)
  }

  /** A calendar date in the `YYYY-MM-DD` form the API sends, with month 01..12 and
      day 01..31. */
  predicate IsIsoDate(s: string) {
    |s| == 10 &&
    IsDigit(s[0]) && IsDigit(s[1]) && IsDigit(s[2]) && IsDigit(s[3]) && s[4] == '-' &&
    IsDigit(s[5]) && IsDigit(s[6]) && s[7] == '-' && IsDigit(s[8]) && IsDigit(s[9]) &&
    1 <= TwoDigits(s[5], s[6]) <= 12 && 1 <= TwoDigits(s[8], s[9]) <= 31
  }

  /** The zero-based month of a well-formed date, `None` for any other string. */
  function MonthOf(date: string): (m: Option<nat>)
    ensures m.Some? <==> IsIsoDate(date)
    ensures m.Some? ==> m.value < 12
  {
    if IsIsoDate(date) then Some(TwoDigits(date[5], date[6]) - 1) else None
  }

  /** The key under which a day's count is accumulated. */
  function MonthKey(date: string): (key: string)
    ensures key == InvalidDateKey || key in MonthOrder
  {
    match MonthOf(date)
    case Some(m) => MonthOrder[m]
    case None => InvalidDateKey
  }

  /** A day lands in the bucket of month `i` exactly when the `MM` field of its date is
      `i + 1`; an unparseable date lands in no month's bucket. */
  lemma MonthKeyMatches(date: string, i: nat)
    requires i < 12
    ensures MonthKey(date) == MonthOrder[i] <==> MonthOf(date) == Some(i)
  {
  }

  function DigitChar(d: nat): (c: char)
    requires d < 10
    ensures IsDigit(c) && Digit(c) == d
  {
    ('0' as int + d) as char
  }

  /** `YYYY-MM-DD`, zero-padded: the form of the API's `date` field. */
  function IsoDate(year: nat, month: nat, day: nat): (s: string)
    requires year < 10000 && 1 <= month <= 12 && 1 <= day <= 31
    ensures |s| == 10
  {
    [DigitChar(year / 1000), DigitChar(year / 100 % 10), DigitChar(year / 10 % 10), DigitChar(year % 10), '-',
     DigitChar(month / 10), DigitChar(month % 10), '-', DigitChar(day / 10), DigitChar(day % 10)]
  }

  /** Reading the month back from a formatted date gives the month it was formatted with. */
  lemma MonthOfIsoDate(year: nat, month: nat, day: nat)
    requires year < 10000 && 1 <= month <= 12 && 1 <= day <= 31
    ensures MonthOf(IsoDate(year, month, day)) == Some(month - 1)
    ensures MonthKey(IsoDate(year, month, day)) == MonthOrder[month - 1]
  {
  }

  /** The month key as the handler computes it on a server whose local time is
      `offsetHours` from UTC: `new Date("YYYY-MM-DD")` is midnight UTC, which west of UTC is
      still the previous day, so the first day of a month is keyed under the month before. */
  function LocalMonthKey(date: string, offsetHours: int): (key: string)
    requires -24 < offsetHours < 24
    ensures key == InvalidDateKey <==> MonthOf(date).None?
  {
    match MonthOf(date)
    case Some(m) =>
      if offsetHours < 0 && TwoDigits(date[8], date[9]) == 1 then MonthOrder[(m + 11) % 12] else MonthOrder[m]
    case None => InvalidDateKey
  }

  /** At UTC or east of it the local key is the key the model uses. */
  lemma LocalMonthKeyEastOfUtc(date: string, offsetHours: int)
    requires 0 <= offsetHours < 24
    ensures LocalMonthKey(date, offsetHours) == MonthKey(date)
  {
  }

  /** On a server five hours behind UTC, the contributions of January 1st are counted as
      December's of the same year. */
  lemma NewYearInWesternZone()
    ensures MonthKey(IsoDate(2024, 1, 1)) == "Jan"
    ensures LocalMonthKey(IsoDate(2024, 1, 1), -5) == "Dec"
  {
  }
}
