/** `results.sort((a, b) => a.year - b.year)` (route.ts, line 110). The sort is the
    JavaScript runtime's stable `Array.prototype.sort`; it is modelled by a stable
    insertion sort on values with the same outcome. */
module Sorting {
  import opened Calendar

  /** Ascending by year, equal years allowed. */
  predicate SortedByYear(ys: seq<YearContributions>) {
    forall i, j :: 0 <= i < j < |ys| ==> ys[i].year <= ys[j].year
  }

  /** No year occurs twice. */
  predicate DistinctYears(ys: seq<YearContributions>) {
    forall i, j :: 0 <= i < j < |ys| ==> ys[i].year != ys[j].year
  }

  /** Ascending by year with no year repeated. */
  predicate StrictlyAscending(ys: seq<YearContributions>) {
    forall i, j :: 0 <= i < j < |ys| ==> ys[i].year < ys[j].year
  }

  /** Puts `y` in front of the first entry whose year is not smaller, so that `y` stays
      ahead of entries with the same year that came after it in the input. */
  function Insert(y: YearContributions, s: seq<YearContributions>): (r: seq<YearContributions>)
    requires SortedByYear(s)
    ensures SortedByYear(r)
    ensures multiset(r) == multiset(s) + multiset{y}
  {
    if s == [] then [y]
    else if y.year <= s[0].year then [y] + s
    else
      var tail := Insert(y, s[1..]);
      assert s == [s[0]] + s[1..];
      assert forall k :: 0 <= k < |tail| ==> s[0].year <= tail[k].year by {
        forall k | 0 <= k < |tail| ensures s[0].year <= tail[k].year {
          assert tail[k] in multiset(s[1..]) + multiset{y};
        }
      }
      assert multiset([s[0]] + tail) == multiset{s[0]} + multiset(tail);
      [s[0]] + tail
  }

  /** The years in ascending order, a permutation of the input. */
  function SortByYear(s: seq<YearContributions>): (r: seq<YearContributions>)
    ensures SortedByYear(r)
    ensures multiset(r) == multiset(s)
  {
    if s == [] then []
    else
      assert s == [s[0]] + s[1..];
      Insert(s[0], SortByYear(s[1..]))
  }

  lemma {:induction false} InsertKeepsDistinct(y: YearContributions, s: seq<YearContributions>)
    requires SortedByYear(s) && DistinctYears(s)
    requires forall z :: z in s ==> z.year != y.year
    ensures DistinctYears(Insert(y, s))
  {
    if s != [] && y.year > s[0].year {
      InsertKeepsDistinct(y, s[1..]);
      var tail := Insert(y, s[1..]);
      forall z | z in tail ensures z.year != s[0].year {
        assert z in multiset(tail);
      }
    }
  }

  /** Sorting a list whose years are distinct yields a strictly ascending list: the years
      the handler reports come out in increasing order without repetition. */
  lemma {:induction false} SortStrictlyAscending(s: seq<YearContributions>)
    requires DistinctYears(s)
    ensures StrictlyAscending(SortByYear(s))
  {
    if s != [] {
      SortStrictlyAscending(s[1..]);
      var rest := SortByYear(s[1..]);
      forall z | z in rest ensures z.year != s[0].year {
        assert z in multiset(rest);
      }
      InsertKeepsDistinct(s[0], rest);
    }
  }
}
