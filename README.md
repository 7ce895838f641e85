# GitHub contributions report: the aggregation of the `POST` handler

This project models the core of the `POST /api/contributions` handler of a small Next.js
application that reports a GitHub user's contribution history. Given a username, an access
token and a number of years `N` (default 5), the handler asks GitHub's GraphQL API for the
contribution calendar of each of the years `currentYear, currentYear - 1, …,
currentYear - (N - 1)`, keeps the years that came back, sorts them by year and derives a report:
the total of all contributions, the average per year (`Math.round`), the best year (first
winner on ties), the number of years kept, and for every year a breakdown into the twelve
months Jan..Dec rebuilt from the daily counts.

The model, one Dafny module per part of the handler:

- `Calendar` (calendar.dfy): the records of the API and of the report, and the fetch call as an
  oracle `int -> Option<ContributionCalendar>`.
- `Dates` (dates.dfy): the month key of a day's `YYYY-MM-DD` date, read from its `MM` field.
- `Fetching` (fetching.dfy): the year loop, a method with a `while` loop that also returns the
  years it asked the oracle for, in call order.
- `Sorting` (sorting.dfy): `results.sort((a, b) => a.year - b.year)` as a stable insertion sort.
- `Stats` (stats.dfy): the two `reduce` folds (total, best year) and `Math.round(total / count)`.
- `Monthly` (monthly.dfy): the nested `forEach` loops that fill the month-keyed table, and the
  emission of the twelve months, as methods with loops over a `map<string, int>`.
- `Route` (route.dfy): the handler itself: the request check, the empty-result failure, and
  the report with everything that is proved about it.
- `Scenarios` (scenarios.dfy): worked examples on concrete inputs.

Assumptions stated in the model:

- The server runs in UTC. The handler keys a day by
  `new Date(day.date).toLocaleDateString('en-US', { month: 'short' })`, which parses the date
  as midnight UTC and formats it in the server's local time zone. Only in UTC and east of it
  is that the month of the `MM` field (`Dates.LocalMonthKeyEastOfUtc`); see "## Findings".
- `Math.round(t / n)` for a positive count `n` is round-half-up, computed exactly as
  `(2t + n) / (2n)` with floor division. This holds for every integer `t`, not only for
  non-negative ones.
- A date that is not of the form `YYYY-MM-DD` with month 01..12 and day 01..31 makes
  `toLocaleDateString` return "Invalid Date", which does not throw. Such a day's count is
  kept under the key "Invalid Date", which is never emitted. The code therefore drops it
  silently. A design note for this system asks for the whole request to fail instead. The
  model follows the code: the twelve monthly counts add up to the counts of the well-formed
  days (`Monthly.BreakdownSum`), and to all of the year's counts when every date is well
  formed (`Monthly.DatedTotalOfWellFormed`).
- When no year yields a calendar, the seedless `reduce` of line 117 throws, and the handler's
  `catch` answers the generic 500 "Failed to fetch contributions". The same design note asks
  for a distinct "no data" condition. The model follows the code.

## Model

| member | source | states |
|---|---|---|
| `Dates.MonthOf` | app/api/contributions/route.ts:128-129 | a date has a month exactly when it is a well-formed `YYYY-MM-DD` date, and that month is one of the twelve |
| `Dates.MonthKey` | app/api/contributions/route.ts:128-129 | a day's key is one of the twelve abbreviations or "Invalid Date" |
| `Dates.MonthKeyMatches` | app/api/contributions/route.ts:128-142 | a day's key is the i-th abbreviation of the emission order exactly when the `MM` field of its date is i + 1; a malformed date matches no month |
| `Dates.MonthOfIsoDate` | app/api/contributions/route.ts:128-129 | reading the month back from a formatted `YYYY-MM-DD` date gives the month it was formatted with, and its key is that month's abbreviation |
| `Dates.LocalMonthKey` | app/api/contributions/route.ts:128-129 | the key as computed in a server time zone `offsetHours` from UTC is "Invalid Date" exactly for malformed dates |
| `Dates.LocalMonthKeyEastOfUtc` | app/api/contributions/route.ts:128-129 | at UTC and east of it, the local key equals the key of the `MM` field |
| `Dates.NewYearInWesternZone` | app/api/contributions/route.ts:128-129 | January 1st is keyed "Jan" in UTC but "Dec" on a server five hours behind UTC |
| `Stats.TotalOfConcat` | app/api/contributions/route.ts:113 | the total of two lists of years joined is the sum of their totals |
| `Stats.TotalOfPermutation` | app/api/contributions/route.ts:110-113 | reordering the years leaves the total unchanged, so sorting before summing changes nothing |
| `Stats.RoundHalfUp` | app/api/contributions/route.ts:114 | the average is the integer nearest to total / count, the larger one on a tie |
| `Stats.RoundHalfUpUnique` | app/api/contributions/route.ts:114 | exactly one integer satisfies those bounds |
| `Stats.BestOf` | app/api/contributions/route.ts:117-119 | the best entry has the largest total, and every entry before it has a strictly smaller total |
| `Sorting.Insert` | app/api/contributions/route.ts:110 | inserting into a list sorted by year keeps it sorted and adds exactly that entry |
| `Sorting.SortByYear` | app/api/contributions/route.ts:110 | the result is sorted ascending by year and is a permutation of the input |
| `Sorting.InsertKeepsDistinct` | app/api/contributions/route.ts:110 | inserting an entry of a new year keeps the years distinct |
| `Sorting.SortStrictlyAscending` | app/api/contributions/route.ts:93-110 | sorting entries with distinct years gives a strictly ascending list |
| `Monthly.KeyTotalAppend` | app/api/contributions/route.ts:126-136 | the count under a key over two runs of days is the sum of the two counts |
| `Monthly.KeyTotalIsMonthTotal` | app/api/contributions/route.ts:128-142 | the count kept under a month's abbreviation is the sum over the days whose date is in that month |
| `Monthly.FirstMonthsTotalStep` | app/api/contributions/route.ts:138-144 | one more day adds its count to the first k months exactly when its month is among them |
| `Monthly.TwelveMonthsTotal` | app/api/contributions/route.ts:138-144 | the twelve month totals add up to the counts of all well-formed days |
| `Monthly.PrefixSum` | app/api/contributions/route.ts:139-144 | the first k emitted counts add up to the first k month totals |
| `Monthly.BreakdownSum` | app/api/contributions/route.ts:138-144 | the twelve emitted counts add up to the counts of all well-formed days |
| `Monthly.DatedTotalOfWellFormed` | app/api/contributions/route.ts:126-144 | when every date is well formed, the breakdown accounts for every contribution of the calendar |
| `Monthly.TallyWeek` | app/api/contributions/route.ts:127-135 | after a week, each key's entry has grown by the counts of that week's days with that key |
| `Monthly.Tally` | app/api/contributions/route.ts:124-136 | after all weeks, each key's entry is the sum of the counts of the calendar's days with that key (an absent key reads 0) |
| `Monthly.BucketYear` | app/api/contributions/route.ts:122-150 | the bucket has the year's number and exactly twelve entries Jan..Dec, each the sum over that month's days, together the counts of all well-formed days |
| `Fetching.WindowStep` | app/api/contributions/route.ts:93-107 | one iteration keeps the next older year exactly when the oracle yields a calendar for it |
| `Fetching.FetchYears` | app/api/contributions/route.ts:89-107 | the years asked for are `currentYear - i` for `i < N` in that order (none when N is not positive); the kept years are exactly those of the window with a calendar, newest first, each with `total = totalContributions`, no more than N, summing to the oracle's totals over the window |
| `Route.BestOfIsEarliest` | app/api/contributions/route.ts:110-119 | in the sorted years, the best year has the largest total and is the earliest year among equal maxima |
| `Route.PermutationFromOracle` | app/api/contributions/route.ts:110 | reordering keeps every entry the oracle's calendar for a year of the window |
| `Route.PermutationCovers` | app/api/contributions/route.ts:110 | reordering keeps every available year of the window present |
| `Route.SortedResults` | app/api/contributions/route.ts:109-113 | the sorted years are strictly ascending, exactly the available years of the window, at most N of them, with the same total |
| `Route.NonEmptyIffSomeCalendar` | app/api/contributions/route.ts:93-119 | the kept years are non-empty exactly when some requested year yields a calendar |
| `Route.MonthlyData` | app/api/contributions/route.ts:122-150 | one bucket per year, same order and year, each that year's twelve-month breakdown |
| `Route.BuildReport` | app/api/contributions/route.ts:112-165 | the report holds the years unchanged; total is their sum, yearsActive their number (not N), average the rounded quotient, best year the earliest maximum, and the monthly data as above |
| `Route.Post` | app/api/contributions/route.ts:78-173 | unreadable body: 500 and no fetch; missing or empty username or token: 400 "Username and token are required" and no fetch; otherwise the years asked for are `currentYear - i` for `i < N`, where N is `years`, or 5 when `years` is absent or 0, the answer is a report exactly when some of them yields a calendar and the generic 500 otherwise, and a report satisfies all of the properties above, with a total equal to the oracle's totals over the window |
| `Scenarios.ThreeYearsSorted` | app/api/contributions/route.ts:110 | years fetched as 2023, 2022, 2024 sort to 2022, 2023, 2024 |
| `Scenarios.ThreeYearsStats` | app/api/contributions/route.ts:113-119 | years 2022 (250), 2023 (100), 2024 (10) give total 360, average 120 and best year 2022 |
| `Scenarios.TieKeepsEarlier` | app/api/contributions/route.ts:117-119 | of 2022 and 2023 with equal totals, 2022 is the best year |
| `Scenarios.JanuaryOnly` | app/api/contributions/route.ts:122-150 | January 1st (5) and January 2nd (3) give the breakdown Jan 8 and 0 for the eleven other months |

## Left out

- The HTTP call and the GraphQL query of `fetchYearContributions` (route.ts lines 26-76), the
  `from`/`to` strings of lines 95-96 and JSON parsing: network I/O. The model keeps only the
  outcome per year, a calendar or `null`, as the oracle `fetch`. The oracle takes only the
  year: the username and token are fixed for a request.
- `new Date().getFullYear()` (line 89) reads the clock, so it is the parameter `currentYear`.
- `NextResponse.json` and `console.error`: transport and logging. A response is the datatype
  `Route.Response`, with the status and message of an error.
- JavaScript numbers: counts, totals, years and `years` are unbounded integers. Fractional or
  non-numeric `years`, NaN, and precision loss above 2^53 are not modelled. A request field of
  the wrong type (a number for `username`) is not modelled either.
- `Sorting.SortByYear`: `results.sort` updates the array in place. The model sorts a value and
  rebinds `results`, so in-place update is not captured. The sort is the runtime's, and the
  model reproduces its outcome (stable, ascending by year).
- `Math.round(total / results.length)` is evaluated before the `reduce` that throws on an empty
  list (NaN there). The model computes the average only on the non-empty path, where it is used.
- Date strings in other forms that `Date` also parses (with a time part, for example), and
  days 29-31 past the end of their month, whose parsing differs between engines: the model
  keys every date that is not `YYYY-MM-DD` with month 01..12 and day 01..31 as "Invalid Date".
  The API sends well-formed dates.
- `contributionLevel` is carried in `ContributionDay` and never used, as in the source.
- `app/page.tsx` is not part of this model: it is the user interface (state, local storage,
  the client `fetch`, charts).

## Findings

| source | as written | input that shows it | evidently intended | confidence | as-written member | corrected member |
|---|---|---|---|---|---|---|
| app/api/contributions/route.ts:128-129 | the month key formats the date, parsed as midnight UTC, in the server's local time zone | a day dated 2024-01-01 on a server five hours behind UTC is counted under "Dec" of 2024 | every day counted under the month of its own date ("Jan") | high, not executed | `Dates.LocalMonthKey` with `Dates.NewYearInWesternZone` | `Dates.MonthKey` with `Dates.MonthOfIsoDate` |
