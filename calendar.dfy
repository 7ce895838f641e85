/** The records exchanged between the contribution API and the `POST` handler of
    app/api/contributions/route.ts. All of them are immutable values. */
module Calendar {
  import opened Wrappers

  /** One day of a contribution calendar. `date` is the API's `YYYY-MM-DD` string;
      `contributionLevel` is passed through and never used in a computation. */
  datatype ContributionDay = ContributionDay(date: string, contributionCount: int, contributionLevel: string)

  /** A calendar week: up to seven days in chronological order. */
  datatype ContributionWeek = ContributionWeek(contributionDays: seq<ContributionDay>)

  /** The calendar of one year as the API returns it. `totalContributions` is trusted,
      not recomputed from the days. */
  datatype ContributionCalendar = ContributionCalendar(totalContributions: int, weeks: seq<ContributionWeek>)

  /** One successfully fetched year: `total` is a copy of `calendar.totalContributions`. */
  datatype YearContributions = YearContributions(year: int, total: int, calendar: ContributionCalendar)

  /** One entry of a year's monthly breakdown, e.g. `MonthCount("Jan", 8)`. */
  datatype MonthCount = MonthCount(month: string, count: int)

  /** The twelve monthly counts of one year. */
  datatype MonthlyBucket = MonthlyBucket(year: int, months: seq<MonthCount>)

  /** `fetchYearContributions` as the handler observes it: for a year, the calendar of that
      year, or `None` where the call yields `null` (a transport error, a GraphQL error, or a
      missing `user`/`contributionCalendar` path). */
  type Oracle = int -> Option<ContributionCalendar>
}
