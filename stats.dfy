/** The summary statistics of the report (route.ts, lines 113-119): two `reduce` folds
    and one rounded division. */
module Stats {
  import opened Calendar

  /** `results.reduce((sum, y) => sum + y.total, 0)`: a left fold over the years. */
  function TotalOf(ys: seq<YearContributions>): int {
    if ys == [] then 0 else TotalOf(ys[..|ys| - 1]) + ys[|ys| - 1].total
  }

  lemma {:induction false} TotalOfConcat(a: seq<YearContributions>, b: seq<YearContributions>)
    ensures TotalOf(a + b) == TotalOf(a) + TotalOf(b)
  {
    if b != [] {
      assert (a + b)[..|a + b| - 1] == a + b[..|b| - 1];
      TotalOfConcat(a, b[..|b| - 1]);
    } else {
      assert a + b == a;
    }
  }

  /** The total does not depend on the order of the years: reordering them (as the sort
      does) leaves the sum unchanged. */
  lemma {:induction false} TotalOfPermutation(a: seq<YearContributions>, b: seq<YearContributions>)
    requires multiset(a) == multiset(b)
    ensures TotalOf(a) == TotalOf(b)
  {
    if a == [] {
      assert |b| == |multiset(b)| == 0;
    } else {
      var x := a[|a| - 1];
      var rest := a[..|a| - 1];
      assert a == rest + [x];
      assert x in multiset(b);
      var k :| 0 <= k < |b| && b[k] == x;
      var left, right := b[..k], b[k + 1..];
      assert b == left + [x] + right;
      assert multiset(b) == multiset(left) + multiset{x} + multiset(right);
      assert multiset(a) == multiset(rest) + multiset{x};
      assert multiset(left + right) == multiset(left) + multiset(right);
      assert multiset(rest) == multiset(a) - multiset{x};
      assert multiset(left + right) == multiset(b) - multiset{x};
      TotalOfPermutation(rest, left + right);
      TotalOfConcat(left + [x], right);
      TotalOfConcat(left, [x]);
      TotalOfConcat(left, right);
      assert TotalOf([x]) == x.total by { assert [x][..0] == []; }
    }
  }

  /** `Math.round(total / count)` for a positive count: JavaScript rounds half-way cases up,
      so the result is the integer nearest to `total / count`, the larger one on a tie. */
  function RoundHalfUp(total: int, count: int): (r: int)
    requires count > 0
    ensures count * (2 * r - 1) <= 2 * total < count * (2 * r + 1)
  {
    var q := (2 * total + count) / (2 * count);
    assert 2 * count * q <= 2 * total + count < 2 * count * q + 2 * count;
    q
  }

  /** The rounding is determined by its bounds: no other integer is within half of the
      quotient on the low side and strictly within half on the high side. */
  lemma RoundHalfUpUnique(total: int, count: int, r: int)
    requires count > 0
    requires count * (2 * r - 1) <= 2 * total < count * (2 * r + 1)
    ensures r == RoundHalfUp(total, count)
  {
  }

  /** `results.reduce((best, curr) => curr.total > best.total ? curr : best)`: a fold seeded
      with the first year. The winner has the largest total, and every year before it has a
      strictly smaller total, so on a tie the first winner is kept. */
  function BestOf(ys: seq<YearContributions>): (best: YearContributions)
    requires |ys| > 0
    ensures forall j :: 0 <= j < |ys| ==> ys[j].total <= best.total
    ensures exists k :: 0 <= k < |ys| && ys[k] == best && forall j :: 0 <= j < k ==> ys[j].total < best.total
  {
    if |ys| == 1 then ys[0]
    else
      var best := BestOf(ys[..|ys| - 1]);
      var curr := ys[|ys| - 1];
      if curr.total > best.total then curr else best
  }
}
