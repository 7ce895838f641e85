/** The monthly breakdown of one year (route.ts, lines 122-150): nested `forEach` loops
    accumulate each day's count into a table keyed by month abbreviation, then the
    twelve months are emitted in calendar order. */
module Monthly {
  import opened Wrappers
  import opened Calendar
  import opened Dates

  /** All days of a calendar, week after week, in order. */
  function Flatten(weeks: seq<ContributionWeek>): seq<ContributionDay> {
    if weeks == [] then [] else Flatten(weeks[..|weeks| - 1]) + weeks[|weeks| - 1].contributionDays
  }

  /** The sum of `contributionCount` over all days. */
  function DayTotal(days: seq<ContributionDay>): int {
    if days == [] then 0 else DayTotal(days[..|days| - 1]) + days[|days| - 1].contributionCount
  }

  /** The sum of `contributionCount` over the days whose date is well formed. */
  function DatedTotal(days: seq<ContributionDay>): int {
    if days == [] then 0
    else
      var last := days[|days| - 1];
      DatedTotal(days[..|days| - 1]) + if MonthOf(last.date).Some? then last.contributionCount else 0
  }

  /** The sum of `contributionCount` over the days whose date falls in month `m` (zero-based). */
  function MonthTotal(days: seq<ContributionDay>, m: nat): int {
    if days == [] then 0
    else
      var last := days[|days| - 1];
      MonthTotal(days[..|days| - 1], m) + if MonthOf(last.date) == Some(m) then last.contributionCount else 0
  }

  /** The sum of `contributionCount` over the days whose month key is `key`. */
  function KeyTotal(days: seq<ContributionDay>, key: string): int {
    if days == [] then 0
    else
      var last := days[|days| - 1];
      KeyTotal(days[..|days| - 1], key) + if MonthKey(last.date) == key then last.contributionCount else 0
  }

  /** `monthCounts[key] || 0`: an absent key reads as 0. */
  function Lookup(counts: map<string, int>, key: string): int {
    if key in counts then counts[key] else 0
  }

  /** The sum of the counts of a list of months. */
  function MonthsSum(months: seq<MonthCount>): int {
    if months == [] then 0 else MonthsSum(months[..|months| - 1]) + months[|months| - 1].count
  }

  /** `months` is the breakdown of `days`: twelve entries Jan..Dec, each holding the sum of
      the counts of the days in that month. */
  predicate IsBreakdownOf(months: seq<MonthCount>, days: seq<ContributionDay>) {
    |months| == 12 &&
    forall m :: 0 <= m < 12 ==> months[m] == MonthCount(MonthOrder[m], MonthTotal(days, m))
  }

  /** The counts kept under a month's abbreviation are the counts of the days in that month. */
  lemma {:induction false} KeyTotalIsMonthTotal(days: seq<ContributionDay>, m: nat)
    requires m < 12
    ensures KeyTotal(days, MonthOrder[m]) == MonthTotal(days, m)
  {
    if days != [] {
      KeyTotalIsMonthTotal(days[..|days| - 1], m);
      MonthKeyMatches(days[|days| - 1].date, m);
    }
  }

  /** The sum over the first `k` months of the month totals. */
  function FirstMonthsTotal(days: seq<ContributionDay>, k: nat): int
    requires k <= 12
  {
    if k == 0 then 0 else FirstMonthsTotal(days, k - 1) + MonthTotal(days, k - 1)
  }

  /** One more day adds its count to the first `k` months' total exactly when its month is
      among them. */
  lemma {:induction false} FirstMonthsTotalStep(days: seq<ContributionDay>, day: ContributionDay, k: nat)
    requires k <= 12
    ensures FirstMonthsTotal(days + [day], k) ==
      FirstMonthsTotal(days, k) +
      (if MonthOf(day.date).Some? && MonthOf(day.date).value < k then day.contributionCount else 0)
  {
    assert (days + [day])[..|days|] == days;
    if k > 0 {
      FirstMonthsTotalStep(days, day, k - 1);
    }
  }

  /** Every day with a well-formed date is counted in exactly one of the twelve months. */
  lemma {:induction false} TwelveMonthsTotal(days: seq<ContributionDay>)
    ensures FirstMonthsTotal(days, 12) == DatedTotal(days)
  {
    if days == [] {
      assert FirstMonthsTotal(days, 12) == 0 by {
        forall k: nat | k <= 12 ensures FirstMonthsTotal([], k) == 0 {
          ZeroMonths(k);
        }
      }
    } else {
      var rest, last := days[..|days| - 1], days[|days| - 1];
      assert days == rest + [last];
      TwelveMonthsTotal(rest);
      FirstMonthsTotalStep(rest, last, 12);
    }
  }

  lemma {:induction false} ZeroMonths(k: nat)
    requires k <= 12
    ensures FirstMonthsTotal([], k) == 0
  {
    if k > 0 {
      ZeroMonths(k - 1);
    }
  }

  /** The twelve counts of a breakdown add up to the counts of all well-formed days. */
  lemma {:induction false} BreakdownSum(months: seq<MonthCount>, days: seq<ContributionDay>)
    requires IsBreakdownOf(months, days)
    ensures MonthsSum(months) == DatedTotal(days)
  {
    PrefixSum(months, days, 12);
    assert months[..12] == months;
    TwelveMonthsTotal(days);
  }

  lemma {:induction false} PrefixSum(months: seq<MonthCount>, days: seq<ContributionDay>, k: nat)
    requires IsBreakdownOf(months, days) && k <= 12
    ensures MonthsSum(months[..k]) == FirstMonthsTotal(days, k)
  {
    if k > 0 {
      PrefixSum(months, days, k - 1);
      assert months[..k][..k - 1] == months[..k - 1];
    }
  }

  /** When every date is well formed, the breakdown accounts for every contribution. */
  lemma {:induction false} DatedTotalOfWellFormed(days: seq<ContributionDay>)
    requires forall i :: 0 <= i < |days| ==> IsIsoDate(days[i].date)
    ensures DatedTotal(days) == DayTotal(days)
  {
    if days != [] {
      DatedTotalOfWellFormed(days[..|days| - 1]);
    }
  }

  lemma {:induction false} KeyTotalAppend(days: seq<ContributionDay>, more: seq<ContributionDay>, key: string)
    ensures KeyTotal(days + more, key) == KeyTotal(days, key) + KeyTotal(more, key)
  {
    if more == [] {
      assert days + more == days;
    } else {
      assert (days + more)[..|days + more| - 1] == days + more[..|more| - 1];
      KeyTotalAppend(days, more[..|more| - 1], key);
    }
  }

  /** The inner `week.contributionDays.forEach(...)`: adds each day's count to the entry of
      its month key, creating the entry at 0 when it is absent or 0. */
  method TallyWeek(counts: map<string, int>, days: seq<ContributionDay>) returns (monthCounts: map<string, int>)
    ensures forall key :: Lookup(monthCounts, key) == Lookup(counts, key) + KeyTotal(days, key)
  {
    monthCounts := counts;
    var d := 0;
    while d < |days|
      invariant 0 <= d <= |days|
      invariant forall key :: Lookup(monthCounts, key) == Lookup(counts, key) + KeyTotal(days[..d], key)
    {
      var day := days[d];
      var monthKey := MonthKey(day.date);
      if monthKey !in monthCounts || monthCounts[monthKey] == 0 {
        monthCounts := monthCounts[monthKey := 0];
      }
      monthCounts := monthCounts[monthKey := monthCounts[monthKey] + day.contributionCount];
      assert days[..d + 1][..d] == days[..d];
      forall key ensures Lookup(monthCounts, key) == Lookup(counts, key) + KeyTotal(days[..d + 1], key) {
        assert KeyTotal(days[..d + 1], key) ==
          KeyTotal(days[..d], key) + if monthKey == key then day.contributionCount else 0;
      }
      d := d + 1;
    }
    assert days[..d] == days;
  }

  /** The outer `yearData.calendar.weeks.forEach(...)`: the table of counts per month key
      over the whole calendar. */
  method Tally(weeks: seq<ContributionWeek>) returns (monthCounts: map<string, int>)
    ensures forall key :: Lookup(monthCounts, key) == KeyTotal(Flatten(weeks), key)
  {
    monthCounts := map[];
    var w := 0;
    while w < |weeks|
      invariant 0 <= w <= |weeks|
      invariant forall key :: Lookup(monthCounts, key) == KeyTotal(Flatten(weeks[..w]), key)
    {
      monthCounts := TallyWeek(monthCounts, weeks[w].contributionDays);
      assert weeks[..w + 1][..w] == weeks[..w];
      assert Flatten(weeks[..w + 1]) == Flatten(weeks[..w]) + weeks[w].contributionDays;
      forall key ensures Lookup(monthCounts, key) == KeyTotal(Flatten(weeks[..w + 1]), key) {
        KeyTotalAppend(Flatten(weeks[..w]), weeks[w].contributionDays, key);
      }
      w := w + 1;
    }
    assert weeks[..w] == weeks;
  }

  /** The body of `results.map(yearData => ...)`: the monthly bucket of one year, twelve
      entries Jan..Dec whose counts add up to the counts of the year's well-formed days. */
  method BucketYear(yearData: YearContributions) returns (bucket: MonthlyBucket)
    ensures bucket.year == yearData.year
    ensures IsBreakdownOf(bucket.months, Flatten(yearData.calendar.weeks))
    ensures MonthsSum(bucket.months) == DatedTotal(Flatten(yearData.calendar.weeks))
  {
    var monthCounts := Tally(yearData.calendar.weeks);
    ghost var days := Flatten(yearData.calendar.weeks);
    var months: seq<MonthCount> := [];
    for m := 0 to 12
      invariant |months| == m
      invariant forall j :: 0 <= j < m ==> months[j] == MonthCount(MonthOrder[j], MonthTotal(days, j))
    {
      var month := MonthOrder[m];
      KeyTotalIsMonthTotal(days, m);
      months := months + [MonthCount(month, if month in monthCounts then monthCounts[month] else 0)];
    }
    bucket := MonthlyBucket(yearData.year, months);
    BreakdownSum(months, days);
  }
}
