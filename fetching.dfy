/** The year loop of the handler (route.ts, lines 89-107): one call of
    `fetchYearContributions` per year, newest first, keeping the years that yield a
    calendar. */
module Fetching {
  import opened Wrappers
  import opened Calendar
  import opened Stats

  /** The handler's default when the request gives no `years`. */
  const DefaultYears: int := 5

  /** `years || 5`: an absent `years`, or 0, selects the default. */
  function YearsToFetch(years: Option<int>): int {
    match years
    case Some(n) => if n == 0 then DefaultYears else n
    case None => DefaultYears
  }

  /** Newest year first, no year repeated. */
  predicate StrictlyDescending(ys: seq<YearContributions>) {
    forall i, j :: 0 <= i < j < |ys| ==> ys[i].year > ys[j].year
  }

  /** Each entry holds the calendar the oracle yields for its year, and `total` is that
      calendar's `totalContributions`. */
  predicate FromOracle(ys: seq<YearContributions>, fetch: Oracle) {
    forall i :: 0 <= i < |ys| ==>
      fetch(ys[i].year) == Some(ys[i].calendar) && ys[i].total == ys[i].calendar.totalContributions
  }

  /** Every entry's year is one of `currentYear - n + 1 .. currentYear`. */
  predicate InWindow(ys: seq<YearContributions>, currentYear: int, n: int) {
    forall i :: 0 <= i < |ys| ==> currentYear - n < ys[i].year <= currentYear
  }

  /** Every year of the window for which the oracle yields a calendar has an entry. */
  predicate CoversWindow(ys: seq<YearContributions>, fetch: Oracle, currentYear: int, n: int) {
    forall y :: currentYear - n < y <= currentYear && fetch(y).Some? ==>
      exists i :: 0 <= i < |ys| && ys[i].year == y
  }

  /** The sum of `totalContributions` over the calendars the oracle yields for `years`. */
  function OracleTotal(fetch: Oracle, years: seq<int>): int {
    if years == [] then 0
    else
      OracleTotal(fetch, years[..|years| - 1]) +
      match fetch(years[|years| - 1])
      case Some(calendar) => calendar.totalContributions
      case None => 0
  }

  /** The entry the loop pushes for `year` when the oracle yields a calendar for it. */
  function Entry(year: int, calendar: ContributionCalendar): YearContributions {
    YearContributions(year, calendar.totalContributions, calendar)
  }

  /** One iteration keeps the loop's invariant: the window grows by the next older year,
      which is kept exactly when the oracle yields a calendar for it. */
  lemma WindowStep(results: seq<YearContributions>, next: seq<YearContributions>, fetch: Oracle, currentYear: int, i: int)
    requires i >= 0
    requires StrictlyDescending(results) && FromOracle(results, fetch)
    requires InWindow(results, currentYear, i) && CoversWindow(results, fetch, currentYear, i)
    requires next == match fetch(currentYear - i)
                     case Some(calendar) => results + [Entry(currentYear - i, calendar)]
                     case None => results
    ensures StrictlyDescending(next) && FromOracle(next, fetch)
    ensures InWindow(next, currentYear, i + 1) && CoversWindow(next, fetch, currentYear, i + 1)
  {
    forall y | currentYear - (i + 1) < y <= currentYear && fetch(y).Some?
      ensures exists k :: 0 <= k < |next| && next[k].year == y
    {
      if y == currentYear - i {
        assert next[|next| - 1].year == y;
      } else {
        var k :| 0 <= k < |results| && results[k].year == y;
        assert next[k].year == y;
      }
    }
  }

  /** The loop `for (let i = 0; i < yearsToFetch; i++)`. `requested` lists the years passed to
      the oracle, in call order: `currentYear, currentYear - 1, ...`, none when `n` is not
      positive. `results` holds exactly the years of that window that yield a calendar,
      newest first, and their totals add up to the oracle's totals over the window. */
  method FetchYears(fetch: Oracle, currentYear: int, n: int)
    returns (results: seq<YearContributions>, requested: seq<int>)
    ensures |requested| == if n < 0 then 0 else n
    ensures forall i :: 0 <= i < |requested| ==> requested[i] == currentYear - i
    ensures StrictlyDescending(results) && FromOracle(results, fetch)
    ensures InWindow(results, currentYear, n) && CoversWindow(results, fetch, currentYear, n)
    ensures |results| <= |requested|
    ensures TotalOf(results) == OracleTotal(fetch, requested)
  {
    results, requested := [], [];
    var i := 0;
    while i < n
      invariant 0 <= i && (n >= 0 ==> i <= n) && (n < 0 ==> i == 0)
      invariant |requested| == i && forall j :: 0 <= j < i ==> requested[j] == currentYear - j
      invariant StrictlyDescending(results) && FromOracle(results, fetch)
      invariant InWindow(results, currentYear, i) && CoversWindow(results, fetch, currentYear, i)
      invariant |results| <= i
      invariant TotalOf(results) == OracleTotal(fetch, requested)
    {
      var year := currentYear - i;
      ghost var before := results;
      assert (requested + [year])[..i] == requested;
      requested := requested + [year];
      var calendar := fetch(year);
      if calendar.Some? {
        assert (results + [Entry(year, calendar.value)])[..|results|] == results;
        results := results + [Entry(year, calendar.value)];
      }
      WindowStep(before, results, fetch, currentYear, i);
      i := i + 1;
    }
  }
}
