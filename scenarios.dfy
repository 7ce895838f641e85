/** Worked examples of the aggregation on small concrete inputs. */
module Scenarios {
  import opened Calendar
  import opened Dates
  import opened Stats
  import opened Sorting
  import opened Monthly

  /** Years fetched as 2023 (100), 2022 (250), 2024 (10) sort to 2022, 2023, 2024. */
  lemma ThreeYearsSorted(calendar: ContributionCalendar)
    ensures var ys := [YearContributions(2023, 100, calendar), YearContributions(2022, 250, calendar),
                       YearContributions(2024, 10, calendar)];
      SortByYear(ys) == [ys[1], ys[0], ys[2]]
  {
  }

  /** The sorted years 2022 (250), 2023 (100), 2024 (10): total 360, average 120, best
      year 2022. */
  lemma ThreeYearsStats(calendar: ContributionCalendar)
    ensures var sorted := [YearContributions(2022, 250, calendar), YearContributions(2023, 100, calendar),
                           YearContributions(2024, 10, calendar)];
      TotalOf(sorted) == 360 && RoundHalfUp(TotalOf(sorted), |sorted|) == 120 && BestOf(sorted) == sorted[0]
  {
    var sorted := [YearContributions(2022, 250, calendar), YearContributions(2023, 100, calendar),
                   YearContributions(2024, 10, calendar)];
    assert sorted[..2] == [sorted[0], sorted[1]];
    assert sorted[..2][..1] == [sorted[0]];
    assert [sorted[0]][..0] == [];
    assert TotalOf([sorted[0]]) == 250;
    assert TotalOf(sorted[..2]) == 350;
    assert BestOf(sorted[..2]) == sorted[0];
  }

  /** Two years with the same total: the earlier one is the best year. */
  lemma TieKeepsEarlier(calendar: ContributionCalendar)
    ensures BestOf([YearContributions(2022, 250, calendar), YearContributions(2023, 250, calendar)]).year == 2022
  {
  }

  /** A single week holding January 1st (5) and January 2nd (3): the breakdown is Jan 8 and
      0 for every other month. */
  lemma JanuaryOnly()
    ensures var days := [ContributionDay(IsoDate(2024, 1, 1), 5, "NONE"), ContributionDay(IsoDate(2024, 1, 2), 3, "NONE")];
      IsBreakdownOf([MonthCount("Jan", 8), MonthCount("Feb", 0), MonthCount("Mar", 0), MonthCount("Apr", 0),
                     MonthCount("May", 0), MonthCount("Jun", 0), MonthCount("Jul", 0), MonthCount("Aug", 0),
                     MonthCount("Sep", 0), MonthCount("Oct", 0), MonthCount("Nov", 0), MonthCount("Dec", 0)], days)
  {
    var days := [ContributionDay(IsoDate(2024, 1, 1), 5, "NONE"), ContributionDay(IsoDate(2024, 1, 2), 3, "NONE")];
    MonthOfIsoDate(2024, 1, 1);
    MonthOfIsoDate(2024, 1, 2);
    assert days[..1] == [days[0]];
    assert [days[0]][..0] == [];
    forall m: nat | m < 12 ensures MonthTotal(days, m) == if m == 0 then 8 else 0 {
      assert MonthTotal([days[0]], m) == if m == 0 then 5 else 0;
      assert MonthTotal(days, m) == MonthTotal([days[0]], m) + if m == 0 then 3 else 0;
    }
  }
}
