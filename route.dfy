/** The `POST` handler of app/api/contributions/route.ts (lines 78-173): checks the
    request, runs the year loop, sorts the kept years and derives the report. */
module Route {
  import opened Wrappers
  import opened Calendar
  import opened Stats
  import opened Sorting
  import opened Monthly
  import opened Fetching

  /** The parsed JSON body. A field the body leaves out is `None`. */
  datatype Request = Request(username: Option<string>, token: Option<string>, years: Option<int>)

  datatype BestYear = BestYear(year: int, total: int)

  datatype ReportStats = ReportStats(totalContributions: int, averagePerYear: int, bestYear: BestYear, yearsActive: int)

  /** What the handler answers: the report, or an error message with its HTTP status. */
  datatype Response =
    | Report(username: string, years: seq<YearContributions>, monthlyData: seq<MonthlyBucket>, stats: ReportStats)
    | Failure(status: int, error: string)

  /** The answer when the username or the token is missing. */
  const MissingCredentials: Response := Failure(400, "Username and token are required")

  /** The answer when anything inside the handler throws. */
  const ServerError: Response := Failure(500, "Failed to fetch contributions")

  /** JavaScript truthiness of a string field: present and not empty. */
  predicate Present(field: Option<string>) {
    field.Some? && field.value != ""
  }

  /** The reported years: ascending without repetition, each the oracle's calendar for its
      year, exactly the years of the requested window that yield a calendar, and no more
      of them than were requested. */
  predicate YearsOk(years: seq<YearContributions>, fetch: Oracle, currentYear: int, n: int) {
    StrictlyAscending(years) && FromOracle(years, fetch) &&
    InWindow(years, currentYear, n) && CoversWindow(years, fetch, currentYear, n) &&
    |years| <= if n < 0 then 0 else n
  }

  /** `best` is a year of `years` with the largest total, and the earliest such year. */
  predicate IsBestYear(years: seq<YearContributions>, best: BestYear) {
    (exists k :: 0 <= k < |years| && years[k].year == best.year && years[k].total == best.total) &&
    (forall j :: 0 <= j < |years| ==> years[j].total <= best.total) &&
    (forall j :: 0 <= j < |years| && years[j].total == best.total ==> best.year <= years[j].year)
  }

  /** The statistics of a non-empty list of years: the sum of the totals, the count of years,
      the sum divided by the count rounded to nearest with halves up, and the best year. */
  predicate StatsOk(years: seq<YearContributions>, stats: ReportStats) {
    |years| > 0 &&
    stats.totalContributions == TotalOf(years) &&
    stats.yearsActive == |years| &&
    |years| * (2 * stats.averagePerYear - 1) <= 2 * stats.totalContributions < |years| * (2 * stats.averagePerYear + 1) &&
    IsBestYear(years, stats.bestYear)
  }

  /** One monthly bucket per year, in the same order, each the year's twelve-month breakdown. */
  predicate MonthlyOk(years: seq<YearContributions>, monthlyData: seq<MonthlyBucket>) {
    |monthlyData| == |years| &&
    forall i :: 0 <= i < |years| ==>
      monthlyData[i].year == years[i].year &&
      IsBreakdownOf(monthlyData[i].months, Flatten(years[i].calendar.weeks)) &&
      MonthsSum(monthlyData[i].months) == DatedTotal(Flatten(years[i].calendar.weeks))
  }

  /** In a strictly ascending list, the fold's first winner is also the earliest year among
      those with the largest total. */
  lemma BestOfIsEarliest(years: seq<YearContributions>)
    requires |years| > 0 && StrictlyAscending(years)
    ensures IsBestYear(years, BestYear(BestOf(years).year, BestOf(years).total))
  {
  }

  /** A permutation of entries taken from the oracle within the window is still so. */
  lemma PermutationFromOracle(a: seq<YearContributions>, b: seq<YearContributions>, fetch: Oracle, currentYear: int, n: int)
    requires multiset(a) == multiset(b)
    requires FromOracle(a, fetch) && InWindow(a, currentYear, n)
    ensures FromOracle(b, fetch) && InWindow(b, currentYear, n)
  {
    forall i | 0 <= i < |b|
      ensures fetch(b[i].year) == Some(b[i].calendar) && b[i].total == b[i].calendar.totalContributions
      ensures currentYear - n < b[i].year <= currentYear
    {
      assert b[i] in multiset(a);
      var j :| 0 <= j < |a| && a[j] == b[i];
    }
  }

  /** A permutation of a list that covers the window still covers it. */
  lemma PermutationCovers(a: seq<YearContributions>, b: seq<YearContributions>, fetch: Oracle, currentYear: int, n: int)
    requires multiset(a) == multiset(b)
    requires CoversWindow(a, fetch, currentYear, n)
    ensures CoversWindow(b, fetch, currentYear, n)
  {
    forall y | currentYear - n < y <= currentYear && fetch(y).Some?
      ensures exists i :: 0 <= i < |b| && b[i].year == y
    {
      var j :| 0 <= j < |a| && a[j].year == y;
      assert a[j] in multiset(b);
      var i :| 0 <= i < |b| && b[i] == a[j];
    }
  }

  /** Sorting the loop's newest-first results gives the reported years and keeps their total. */
  lemma SortedResults(results: seq<YearContributions>, fetch: Oracle, currentYear: int, n: int)
    requires StrictlyDescending(results) && FromOracle(results, fetch)
    requires InWindow(results, currentYear, n) && CoversWindow(results, fetch, currentYear, n)
    requires |results| <= if n < 0 then 0 else n
    ensures YearsOk(SortByYear(results), fetch, currentYear, n)
    ensures TotalOf(SortByYear(results)) == TotalOf(results)
  {
    var sorted := SortByYear(results);
    assert |sorted| == |multiset(sorted)| == |multiset(results)| == |results|;
    SortStrictlyAscending(results);
    TotalOfPermutation(sorted, results);
    PermutationFromOracle(results, sorted, fetch, currentYear, n);
    PermutationCovers(results, sorted, fetch, currentYear, n);
  }

  /** A report exists exactly when some requested year yields a calendar. */
  lemma NonEmptyIffSomeCalendar(years: seq<YearContributions>, fetch: Oracle, currentYear: int, n: int, requested: seq<int>)
    requires FromOracle(years, fetch) && InWindow(years, currentYear, n) && CoversWindow(years, fetch, currentYear, n)
    requires |requested| == (if n < 0 then 0 else n)
    requires forall i :: 0 <= i < |requested| ==> requested[i] == currentYear - i
    ensures |years| > 0 <==> exists i :: 0 <= i < |requested| && fetch(requested[i]).Some?
  {
    if |years| > 0 {
      assert fetch(requested[currentYear - years[0].year]).Some?;
    } else {
      forall i | 0 <= i < |requested| ensures fetch(requested[i]).None? {
      }
    }
  }

  /** `results.map(yearData => ...)` (lines 122-150): one monthly bucket per year, in order. */
  method MonthlyData(results: seq<YearContributions>) returns (monthlyData: seq<MonthlyBucket>)
    ensures MonthlyOk(results, monthlyData)
  {
    monthlyData := [];
    for i := 0 to |results|
      invariant |monthlyData| == i
      invariant forall j :: 0 <= j < i ==>
        monthlyData[j].year == results[j].year &&
        IsBreakdownOf(monthlyData[j].months, Flatten(results[j].calendar.weeks)) &&
        MonthsSum(monthlyData[j].months) == DatedTotal(Flatten(results[j].calendar.weeks))
    {
      var bucket := BucketYear(results[i]);
      monthlyData := monthlyData + [bucket];
    }
  }

  /** Lines 113-165: the statistics and the monthly breakdown of a non-empty, ascending list
      of years. */
  method BuildReport(username: string, results: seq<YearContributions>) returns (response: Response)
    requires |results| > 0 && StrictlyAscending(results)
    ensures response.Report? && response.username == username && response.years == results
    ensures StatsOk(results, response.stats) && MonthlyOk(results, response.monthlyData)
  {
    var totalContributions := TotalOf(results);
    var averagePerYear := RoundHalfUp(totalContributions, |results|);
    var best := BestOf(results);
    BestOfIsEarliest(results);
    var monthlyData := MonthlyData(results);
    var stats := ReportStats(totalContributions, averagePerYear, BestYear(best.year, best.total), |results|);
    response := Report(username, results, monthlyData, stats);
  }

  /** The handler. `body` is `None` when the request's JSON cannot be read; `fetch` stands
      for `fetchYearContributions` and `currentYear` for `new Date().getFullYear()`.
      `requested` lists the years passed to `fetch`, in call order. */
  method Post(body: Option<Request>, fetch: Oracle, currentYear: int) returns (response: Response, requested: seq<int>)
    ensures body.None? ==> response == ServerError && requested == []
    ensures body.Some? && !(Present(body.value.username) && Present(body.value.token)) ==>
      response == MissingCredentials && requested == []
    ensures body.Some? && Present(body.value.username) && Present(body.value.token) ==>
      var n := YearsToFetch(body.value.years);
      |requested| == (if n < 0 then 0 else n) &&
      (forall i :: 0 <= i < |requested| ==> requested[i] == currentYear - i) &&
      (response.Report? <==> exists i :: 0 <= i < |requested| && fetch(requested[i]).Some?) &&
      (response.Failure? ==> response == ServerError) &&
      (response.Report? ==>
        response.username == body.value.username.value &&
        YearsOk(response.years, fetch, currentYear, n) &&
        StatsOk(response.years, response.stats) &&
        response.stats.totalContributions == OracleTotal(fetch, requested) &&
        MonthlyOk(response.years, response.monthlyData))
  {
    if body.None? {
      return ServerError, [];
    }
    var request := body.value;
    if !Present(request.username) || !Present(request.token) {
      return MissingCredentials, [];
    }
    var n := YearsToFetch(request.years);
    var results;
    results, requested := FetchYears(fetch, currentYear, n);
    ghost var fetched := results;
    results := SortByYear(results);
    SortedResults(fetched, fetch, currentYear, n);

    NonEmptyIffSomeCalendar(results, fetch, currentYear, n, requested);
    if |results| == 0 {
      // `reduce` without a seed throws on an empty array; the handler's catch answers 500.
      return ServerError, requested;
    }
    response := BuildReport(request.username.value, results);
  }
}
