/** Value at risk and its tail mean against order statistics of the distribution. */
module QuantileLaws {
  import opened Sequences
  import opened TailRisk

  ghost predicate Ascending(s: seq<real>) {
    forall i, j :: 0 <= i < j < |s| ==> s[i] <= s[j]
  }

  /** The outcomes in ascending order: there is only one such list. */
  ghost predicate IsRanking(s: seq<real>, dist: seq<real>) {
    |s| == |dist| && Ascending(s) && multiset(s) == multiset(dist)
  }

  lemma LastIsLargest(s: seq<real>, x: real)
    requires Ascending(s) && x in multiset(s)
    ensures x <= s[|s| - 1]
  {
    var i :| 0 <= i < |s| && s[i] == x;
  }

  lemma LastsOfRankings(s: seq<real>, t: seq<real>)
    requires Ascending(s) && Ascending(t) && s != [] && t != [] && multiset(s) == multiset(t)
    ensures s[|s| - 1] == t[|t| - 1]
  {
    var a, b := s[|s| - 1], t[|t| - 1];
    assert a in multiset(s) && b in multiset(t);
    hide Ascending;
    LastIsLargest(t, a);
    LastIsLargest(s, b);
  }

  lemma InitsOfRankings(s: seq<real>, t: seq<real>)
    requires s != [] && t != [] && multiset(s) == multiset(t) && s[|s| - 1] == t[|t| - 1]
    ensures multiset(s[..|s| - 1]) == multiset(t[..|t| - 1])
  {
    assert s == s[..|s| - 1] + [s[|s| - 1]];
    assert t == t[..|t| - 1] + [t[|t| - 1]];
    assert multiset(s[..|s| - 1]) == multiset(s) - multiset{s[|s| - 1]};
    assert multiset(t[..|t| - 1]) == multiset(t) - multiset{t[|t| - 1]};
  }

  lemma {:induction false} OneRanking(s: seq<real>, t: seq<real>)
    requires Ascending(s) && Ascending(t) && |s| == |t| && multiset(s) == multiset(t)
    ensures s == t
  {
    if s != [] {
      LastsOfRankings(s, t);
      InitsOfRankings(s, t);
      OneRanking(s[..|s| - 1], t[..|t| - 1]);
      assert s == s[..|s| - 1] + [s[|s| - 1]] && t == t[..|t| - 1] + [t[|t| - 1]];
    }
  }

  lemma RankingIsTheSort(s: seq<real>, dist: seq<real>)
    requires IsRanking(s, dist)
    ensures Sort(dist, Identity) == s && |s| == |dist|
  {
    var sorted := Sort(dist, Identity);
    forall i, j | 0 <= i < j < |sorted| ensures sorted[i] <= sorted[j] {
      Ordered(sorted, i, j);
    }
    OneRanking(sorted, s);
  }

  /** The place of a level among the ranks 0 .. n - 1. */
  function Place(n: nat, q: real): real {
    q * (n - 1) as real
  }

  /** The point above rank `k` by a part of the way to the next. */
  function Above(s: seq<real>, k: nat, part: real): real
    requires k + 1 < |s|
  {
    s[k] + part * (s[k + 1] - s[k])
  }

  lemma PositionIs(n: nat, q: real)
    requires n > 0 && 0.0 <= q <= 1.0
    ensures Position(n, q) == Place(n, q)
  {
  }

  lemma InterpolateBetween(s: seq<real>, h: real, k: nat)
    requires k + 1 < |s| && 0.0 <= h <= (|s| - 1) as real && k as real <= h <= (k + 1) as real
    ensures Interpolate(s, h) == Above(s, k, h - k as real)
  {
    if h < (k + 1) as real {
      assert h.Floor == k;
    } else {
      assert h.Floor == k + 1;
    }
  }

  lemma InterpolateAt(s: seq<real>, k: nat)
    requires k < |s|
    ensures Interpolate(s, k as real) == s[k]
  {
    assert (k as real).Floor == k;
  }

  /** Between two neighbouring ranks the quantile runs straight from the lower outcome to the upper. */
  lemma QuantileIsLinearBetweenRanks(dist: seq<real>, q: real, k: nat, s: seq<real>)
    requires 0.0 <= q <= 1.0 && IsRanking(s, dist) && k + 1 < |s|
    requires k as real <= Place(|dist|, q) <= (k + 1) as real
    ensures dist != [] && Quantile(dist, q) == Above(s, k, Place(|dist|, q) - k as real)
  {
    RankingIsTheSort(s, dist);
    hide Position, Sort, Interpolate, Place, Above, IsRanking;
    PositionIs(|dist|, q);
    InterpolateBetween(s, Place(|dist|, q), k);
  }

  /** At a rank the quantile is the outcome of that rank. */
  lemma QuantileAtRank(dist: seq<real>, q: real, k: nat, s: seq<real>)
    requires 0.0 <= q <= 1.0 && IsRanking(s, dist) && k < |s| && Place(|dist|, q) == k as real
    ensures dist != [] && Quantile(dist, q) == s[k]
  {
    RankingIsTheSort(s, dist);
    hide Position, Sort, Interpolate, Place, IsRanking;
    PositionIs(|dist|, q);
    InterpolateAt(s, k);
  }

  /** Value at risk at confidence c is the quantile at 1 - c. */
  lemma VaRIsLinearBetweenRanks(dist: seq<real>, c: real, k: nat, s: seq<real>)
    requires 0.0 <= c <= 1.0 && IsRanking(s, dist) && k + 1 < |s|
    requires k as real <= Place(|dist|, 1.0 - c) <= (k + 1) as real
    ensures dist != [] && VaR(dist, c) == Above(s, k, Place(|dist|, 1.0 - c) - k as real)
  {
    hide Quantile, Place, Above, IsRanking;
    QuantileIsLinearBetweenRanks(dist, 1.0 - c, k, s);
  }

  lemma VaRAtRank(dist: seq<real>, c: real, k: nat, s: seq<real>)
    requires 0.0 <= c <= 1.0 && IsRanking(s, dist) && k < |s| && Place(|dist|, 1.0 - c) == k as real
    ensures dist != [] && VaR(dist, c) == s[k]
  {
    hide Quantile, Place, IsRanking;
    QuantileAtRank(dist, 1.0 - c, k, s);
  }

  /** Of -200, 0 and 200 the 95% value at risk is -180. */
  lemma VaROfThree()
    ensures VaR([-200.0, 0.0, 200.0], 0.95) == -180.0
  {
    var dist := [-200.0, 0.0, 200.0];
    assert Place(3, 1.0 - 0.95) == 0.1 && Above(dist, 0, 0.1) == -180.0;
    hide VaR, Place, Above;
    VaRIsLinearBetweenRanks(dist, 0.95, 0, dist);
  }

  // ---------- the tail ----------

  function SumUpTo(dist: seq<real>, t: real): real {
    if dist == [] then 0.0
    else SumUpTo(dist[..|dist| - 1], t) + if dist[|dist| - 1] <= t then dist[|dist| - 1] else 0.0
  }

  lemma {:induction false} TailCount(dist: seq<real>, t: real)
    ensures |Tail(dist, t)| == |set i | 0 <= i < |dist| && dist[i] <= t|
  {
    hide Tail, Sum;
    if dist == [] {
      NoTail(t);
    } else {
      var init, last, n := dist[..|dist| - 1], dist[|dist| - 1], |dist| - 1;
      TailCount(init, t);
      assert dist == init + [last];
      TailAppend(init, last, t);
      UpToAppend(dist, t);
    }
  }

  lemma UpToAppend(dist: seq<real>, t: real)
    requires dist != []
    ensures var init, n := dist[..|dist| - 1], |dist| - 1;
            |set i | 0 <= i < |dist| && dist[i] <= t|
              == |set i | 0 <= i < |init| && init[i] <= t| + if dist[n] <= t then 1 else 0
  {
    var init, n := dist[..|dist| - 1], |dist| - 1;
    var before := set i | 0 <= i < |init| && init[i] <= t;
    assert (set i | 0 <= i < |dist| && dist[i] <= t) == if dist[n] <= t then before + {n} else before;
  }

  lemma {:induction false} TailSum(dist: seq<real>, t: real)
    ensures Sum(Tail(dist, t)) == SumUpTo(dist, t)
  {
    hide Tail, Sum;
    if dist == [] {
      NoTail(t);
    } else {
      var init, last := dist[..|dist| - 1], dist[|dist| - 1];
      TailSum(init, t);
      TailAppend(init, last, t);
      assert dist == init + [last];
    }
  }

  /** CVaR times the number of outcomes at or below VaR is the sum of those outcomes. */
  lemma CVaRIsTheTailMean(dist: seq<real>, c: real)
    requires dist != [] && 0.0 <= c <= 1.0
    ensures var count := |set i | 0 <= i < |dist| && dist[i] <= VaR(dist, c)|;
            count > 0 && CVaR(dist, c) * count as real == SumUpTo(dist, VaR(dist, c))
  {
    hide Quantile, Tail, Sum, VaR;
    TailIsNotEmpty(dist, c);
    TailCount(dist, VaR(dist, c));
    TailSum(dist, VaR(dist, c));
    var sum, n := Sum(Tail(dist, VaR(dist, c))), |Tail(dist, VaR(dist, c))| as real;
    assert sum / n * n == sum;
  }

  // ---------- the bootstrap ----------

  /** A sample is as long as the trade list, and holds the trade drawn at each place. */
  lemma SampleIsDrawn(pnl: seq<real>, draw: (nat, nat) -> nat, i: nat, k: nat)
    requires k < |pnl| && draw(i, k) < |pnl|
    ensures |Sample(pnl, draw, i)| == |pnl| && Sample(pnl, draw, i)[k] == pnl[draw(i, k)]
  {
  }
}
