/** The running-peak drawdown against its all-pairs definition, and its relation to the total return. */
module DrawdownLaws {
  import opened Sequences
  import opened Backtest
  import BacktestLaws

  /** The fall from one point to another, relative to the first. */
  function Fall(from: real, to: real): real
    requires from > 0.0
  {
    (from - to) / from
  }

  ghost predicate FallsBetween(curve: seq<real>, i: nat, j: nat, fall: real) {
    i <= j < |curve| && curve[i] > 0.0 && fall == Fall(curve[i], curve[j])
  }

  lemma {:induction false} QuotientOrder(x: real, a: real, b: real)
    requires x >= 0.0 && 0.0 < a <= b
    ensures x / b <= x / a
  {
    var p, q := x / a, x / b;
    assert p * a == x && q * b == x;
    ProductNonNegative(p, b - a);
    assert (p - q) * b == p * (b - a);
  }

  lemma FallIsOneMinusRatio(from: real, to: real)
    requires from > 0.0
    ensures Fall(from, to) == 1.0 - to / from
  {
    var f, q := Fall(from, to), to / from;
    assert f * from == from - to && q * from == to;
    var gap := f - (1.0 - q);
    assert gap * from == f * from - from + q * from == 0.0;
    assert gap > 0.0 ==> gap * from > 0.0;
    assert gap < 0.0 ==> gap * from < 0.0;
  }

  lemma {:induction false} DeepestIsLeast(curve: seq<real>, n: nat)
    requires 0 < n <= |curve| && curve[0] > 0.0
    ensures forall j :: 0 <= j < n ==> DeepestDrawdown(curve, n) <= DrawdownAt(curve, j)
    ensures exists j :: 0 <= j < n && DeepestDrawdown(curve, n) == DrawdownAt(curve, j)
    ensures DeepestDrawdown(curve, n) <= 0.0
  {
    if n > 1 {
      DeepestIsLeast(curve, n - 1);
    } else {
      assert DrawdownAt(curve, 0) == 0.0;
    }
  }

  lemma PeakIsAttained(curve: seq<real>, n: nat) returns (i: nat)
    requires 0 < n <= |curve|
    ensures i < n && curve[i] == Peak(curve, n)
  {
    i :| 0 <= i < n && curve[i] == Peak(curve, n);
  }

  /** Every drawdown point is the fall from some earlier positive point. */
  lemma DrawdownIsAFall(curve: seq<real>, j: nat) returns (i: nat)
    requires j < |curve| && curve[0] > 0.0
    ensures FallsBetween(curve, i, j, -DrawdownAt(curve, j))
  {
    i := PeakIsAttained(curve, j + 1);
    FallIsOneMinusRatio(curve[i], curve[j]);
  }

  /** No earlier point sees a larger fall than the running peak does, as long as equity is not negative. */
  lemma PeakSeesTheLargestFall(curve: seq<real>, i: nat, j: nat)
    requires i <= j < |curve| && curve[0] > 0.0 && curve[i] > 0.0 && curve[j] >= 0.0
    ensures Fall(curve[i], curve[j]) <= -DrawdownAt(curve, j)
  {
    QuotientOrder(curve[j], curve[i], Peak(curve, j + 1));
    FallIsOneMinusRatio(curve[i], curve[j]);
  }

  /** No fall from a positive point to a later one is larger. */
  ghost predicate BoundsEveryFall(curve: seq<real>, bound: real) {
    forall i, j :: 0 <= i <= j < |curve| && curve[i] > 0.0 ==> Fall(curve[i], curve[j]) <= bound
  }

  /** The least positive one of the first `n` points. */
  function LowestPositive(curve: seq<real>, n: nat): (low: real)
    requires 0 < n <= |curve| && curve[0] > 0.0
    ensures low > 0.0 && low in curve[..n]
    ensures forall i :: 0 <= i < n && curve[i] > 0.0 ==> low <= curve[i]
  {
    if n == 1 then curve[0]
    else
      var low := LowestPositive(curve, n - 1);
      if 0.0 < curve[n - 1] < low then curve[n - 1] else low
  }

  /** To a negative point the fall from the lowest positive point is the largest. */
  lemma LowestSeesTheLargestFall(curve: seq<real>, i: nat, j: nat)
    requires i <= j < |curve| && curve[0] > 0.0 && curve[i] > 0.0 && curve[j] < 0.0
    ensures Fall(curve[i], curve[j]) <= Fall(LowestPositive(curve, j + 1), curve[j])
  {
    var low := LowestPositive(curve, j + 1);
    hide LowestPositive;
    FallOfNegativeOrder(curve[i], low, curve[j]);
  }

  lemma FallOfNegativeOrder(x: real, low: real, c: real)
    requires 0.0 < low <= x && c < 0.0
    ensures Fall(x, c) <= Fall(low, c)
  {
    FallIsOneMinusRatio(x, c);
    FallIsOneMinusRatio(low, c);
    NegatedQuotient(c, x);
    NegatedQuotient(c, low);
    QuotientOrder(-c, low, x);
    hide Fall;
  }

  lemma NegatedQuotient(a: real, b: real)
    requires b > 0.0
    ensures (-a) / b == -(a / b)
  {
    var p, q := (-a) / b, a / b;
    assert p * b == -a && q * b == a;
    assert (p + q) * b == 0.0;
  }

  /** A negative point fallen to from the lowest positive point before it by more than `bound`. */
  predicate SinksBelow(curve: seq<real>, j: nat, bound: real)
    requires j < |curve| && curve[0] > 0.0
  {
    curve[j] < 0.0 && Fall(LowestPositive(curve, j + 1), curve[j]) > bound
  }

  /**
   `max_drawdown` is always one of the falls (eq_i - eq_j) / eq_i with i <= j. It is their maximum exactly
   when no negative point sinks below it, measured from the lowest positive point before.
   */
  lemma MaxDrawdownIsQuadraticIff(curve: seq<real>)
    requires curve != [] && curve[0] > 0.0
    ensures exists i, j :: FallsBetween(curve, i, j, MaxDrawdown(curve))
    ensures BoundsEveryFall(curve, MaxDrawdown(curve)) <==>
              (forall j :: 0 <= j < |curve| ==> !SinksBelow(curve, j, MaxDrawdown(curve)))
  {
    var bound := MaxDrawdown(curve);
    MaxDrawdownIsAFall(curve);
    DeepestIsLeast(curve, |curve|);
    hide MaxDrawdown, Fall, DrawdownAt, DeepestDrawdown;
    if BoundsEveryFall(curve, bound) {
      forall j | 0 <= j < |curve| ensures !SinksBelow(curve, j, bound) {
        var i :| 0 <= i < j + 1 && curve[i] == LowestPositive(curve, j + 1);
      }
    } else {
      var i, j :| 0 <= i <= j < |curve| && curve[i] > 0.0 && Fall(curve[i], curve[j]) > bound;
      DrawdownIsBounded(curve, j);
      if curve[j] >= 0.0 {
        PeakSeesTheLargestFall(curve, i, j);
        assert false;
      } else {
        LowestSeesTheLargestFall(curve, i, j);
        assert SinksBelow(curve, j, bound);
      }
    }
  }

  lemma DrawdownIsBounded(curve: seq<real>, j: nat)
    requires j < |curve| && curve[0] > 0.0
    ensures -DrawdownAt(curve, j) <= MaxDrawdown(curve)
  {
    hide DrawdownAt, DeepestDrawdown;
    DeepestIsLeast(curve, |curve|);
  }

  lemma MaxDrawdownIsAFall(curve: seq<real>)
    requires curve != [] && curve[0] > 0.0
    ensures exists i, j :: FallsBetween(curve, i, j, MaxDrawdown(curve))
  {
    hide DrawdownAt, DeepestDrawdown;
    DeepestIsLeast(curve, |curve|);
    var j :| 0 <= j < |curve| && DeepestDrawdown(curve, |curve|) == DrawdownAt(curve, j);
    var i := DrawdownIsAFall(curve, j);
    assert FallsBetween(curve, i, j, MaxDrawdown(curve));
  }

  /** So without negative equities `max_drawdown` is the maximum over all i <= j of (eq_i - eq_j) / eq_i. */
  lemma MaxDrawdownIsQuadratic(curve: seq<real>)
    requires curve != [] && curve[0] > 0.0
    requires forall i :: 0 <= i < |curve| ==> curve[i] >= 0.0
    ensures BoundsEveryFall(curve, MaxDrawdown(curve))
    ensures exists i, j :: FallsBetween(curve, i, j, MaxDrawdown(curve))
  {
    hide MaxDrawdown, BoundsEveryFall;
    MaxDrawdownIsQuadraticIff(curve);
  }

  lemma {:induction false} RatioSign(a: real, b: real)
    requires b > 0.0
    ensures a / b < 0.0 <==> a < 0.0
  {
    assert (a / b) * b == a;
  }

  /** The reported drawdown exceeds one exactly when equity was negative at some bar. */
  lemma DrawdownExceedsOneIffNegative(curve: seq<real>)
    requires curve != [] && curve[0] > 0.0
    ensures MaxDrawdown(curve) > 1.0 <==> exists i :: 0 <= i < |curve| && curve[i] < 0.0
  {
    hide DrawdownAt, DeepestDrawdown;
    DeepestIsLeast(curve, |curve|);
    forall j | 0 <= j < |curve| ensures DrawdownAt(curve, j) < -1.0 <==> curve[j] < 0.0 {
      DrawdownBelowMinusOne(curve, j);
    }
  }

  lemma DrawdownBelowMinusOne(curve: seq<real>, j: nat)
    requires j < |curve| && curve[0] > 0.0
    ensures DrawdownAt(curve, j) < -1.0 <==> curve[j] < 0.0
  {
    RatioSign(curve[j], Peak(curve, j + 1));
  }

  lemma {:induction false} QuotientsCompare(a: real, b: real, c: real, d: real)
    requires b > 0.0 && d > 0.0
    ensures a / b <= c / d <==> a * d <= c * b
  {
    var p, q := a / b, c / d;
    var w := b * d;
    assert w > 0.0 && p * b == a && q * d == c;
    RatioTimes(p, b, d);
    RatioTimes(q, d, b);
    ScaledOrder(p, q, w);
  }

  lemma RatioTimes(p: real, b: real, d: real)
    ensures p * b * d == p * (b * d) == p * (d * b)
  {
  }

  lemma ScaledOrder(p: real, q: real, w: real)
    requires w > 0.0
    ensures p <= q <==> p * w <= q * w
  {
    var gap := q - p;
    assert gap * w == q * w - p * w;
    assert gap < 0.0 ==> gap * w < 0.0;
    assert gap >= 0.0 ==> gap * w >= 0.0;
  }

  /** The bar stood at least as low against its peak as the last one stands against the first. */
  predicate AsLowAt(curve: seq<real>, j: nat)
    requires j < |curve|
  {
    curve[j] * curve[0] <= curve[|curve| - 1] * Peak(curve, j + 1)
  }

  ghost predicate WasAsLow(curve: seq<real>) {
    exists j :: 0 <= j < |curve| && AsLowAt(curve, j)
  }

  lemma ReturnBoundIff(curve: seq<real>)
    requires curve != [] && curve[0] > 0.0
    ensures curve[|curve| - 1] / curve[0] - 1.0 >= -MaxDrawdown(curve) <==> WasAsLow(curve)
  {
    var deepest, lost := DeepestDrawdown(curve, |curve|), curve[|curve| - 1] / curve[0] - 1.0;
    DeepestIsLeast(curve, |curve|);
    hide DrawdownAt, DeepestDrawdown, AsLowAt;
    assert -MaxDrawdown(curve) == deepest;
    forall j | 0 <= j < |curve| ensures DrawdownAt(curve, j) <= lost <==> AsLowAt(curve, j) {
      DrawdownCompares(curve, j);
    }
    hide MaxDrawdown;
  }

  lemma DrawdownCompares(curve: seq<real>, j: nat)
    requires j < |curve| && curve[0] > 0.0
    ensures DrawdownAt(curve, j) <= curve[|curve| - 1] / curve[0] - 1.0 <==> AsLowAt(curve, j)
  {
    var peak := Peak(curve, j + 1);
    assert peak >= curve[0];
    assert DrawdownAt(curve, j) == curve[j] / peak - 1.0;
    assert AsLowAt(curve, j) <==> curve[j] * curve[0] <= curve[|curve| - 1] * peak;
    hide Peak, DrawdownAt, AsLowAt;
    QuotientsCompare(curve[j], peak, curve[|curve| - 1], curve[0]);
  }

  /** The run ends at or above zero, the peak never rose above the start, or an earlier negative bar stood as low. */
  ghost predicate LossIsCovered(curve: seq<real>)
    requires curve != []
  {
    || curve[|curve| - 1] >= 0.0
    || Peak(curve, |curve|) <= curve[0]
    || exists j :: 0 <= j < |curve| - 1 && curve[j] < 0.0 && AsLowAt(curve, j)
  }

  lemma NonNegativeIsNotAsLow(curve: seq<real>, j: nat)
    requires j < |curve| && curve[0] > 0.0 && curve[|curve| - 1] < 0.0 && curve[j] >= 0.0
    ensures !AsLowAt(curve, j)
  {
    var final, peak := curve[|curve| - 1], Peak(curve, j + 1);
    assert peak >= curve[0];
    assert AsLowAt(curve, j) <==> curve[j] * curve[0] <= final * peak;
    hide Peak, AsLowAt;
    ProductNonNegative(curve[j], curve[0]);
    assert final * peak < 0.0;
  }

  /** The last bar compares its own peak with the start. */
  lemma LastIsAsLow(curve: seq<real>)
    requires curve != [] && curve[0] > 0.0
    ensures AsLowAt(curve, |curve| - 1) <==> (curve[|curve| - 1] >= 0.0 || Peak(curve, |curve|) <= curve[0])
  {
    var n, final := |curve|, curve[|curve| - 1];
    assert n - 1 + 1 == n;
    assert AsLowAt(curve, n - 1) <==> final * curve[0] <= final * Peak(curve, n);
    assert Peak(curve, n) >= curve[0];
    hide *;
    ScaledRise(final, curve[0], Peak(curve, n));
  }

  lemma ScaledRise(final: real, from: real, to: real)
    requires from <= to
    ensures final * from <= final * to <==> (final >= 0.0 || to <= from)
  {
    var rise := to - from;
    assert final * rise == final * to - final * from;
    if final >= 0.0 {
      ProductNonNegative(final, rise);
    } else if rise > 0.0 {
      assert final * rise < 0.0;
    }
  }

  lemma WasAsLowIffCovered(curve: seq<real>)
    requires curve != [] && curve[0] > 0.0
    ensures WasAsLow(curve) <==> LossIsCovered(curve)
  {
    hide AsLowAt, Peak;
    LastIsAsLow(curve);
    if curve[|curve| - 1] < 0.0 {
      forall j | 0 <= j < |curve| && curve[j] >= 0.0 ensures !AsLowAt(curve, j) {
        NonNegativeIsNotAsLow(curve, j);
      }
    }
  }

  /**
   A run loses no more than its maximum drawdown exactly when it ends at or above zero, never rose above its
   capital, or at an earlier negative bar stood as low against its peak as the end stands against the capital.
   */
  lemma TotalReturnAtLeastMinusDrawdownIff(sim: Simulation)
    requires sim.config.initialCapital > 0.0
    ensures var r := Report(sim.config.initialCapital, Final(sim).curve, Final(sim).trades);
            && r.totalReturn.Finite? && r.maxDrawdown.Finite?
            && (r.totalReturn.value >= -r.maxDrawdown.value <==> sim.bars == [] || LossIsCovered(r.equityCurve))
            && (r.finalCapital >= 0.0 ==> r.totalReturn.value >= -r.maxDrawdown.value)
  {
    hide MaxDrawdown, WasAsLow, AsLowAt, Peak, ProfitFactor, Pnls;
    var curve := Final(sim).curve;
    if curve != [] {
      BacktestLaws.CurveStartsAtCapital(sim);
      ReturnBoundIff(curve);
      WasAsLowIffCovered(curve);
    } else {
      NoBarsNoDrawdown(curve);
    }
  }

  lemma NoBarsNoDrawdown(curve: seq<real>)
    requires curve == []
    ensures MaxDrawdown(curve) == 0.0
  {
  }

  // ---------- a run on which both bounds fail ----------

  /** A round trip that doubles the capital of 100, and one that loses 300 of it. */
  function RiseAndRuin(): Simulation {
    BacktestLaws.RoundTrips(
      Config(CommissionModel(0.0, 0.0), SlippageModel(0.0, false, (x: real) => x), MarginModel(0.02),
             false, false, true, 100.0),
      [100.0, 200.0, 300.0, 0.0])
  }

  lemma SignalsOfRiseAndRuin()
    ensures var sim := RiseAndRuin();
            && |sim.bars| == 4 && Size(sim.params) == 1.0 && !sim.config.slippage && !sim.config.commission
            && sim.bars[0].close == 100.0 && sim.bars[1].close == 200.0
            && sim.bars[2].close == 300.0 && sim.bars[3].close == 0.0 && sim.config.initialCapital == 100.0
            && SignalAt(sim, 0) == Buy && SignalAt(sim, 1) == Close && SignalAt(sim, 2) == Buy && SignalAt(sim, 3) == Close
            && sim.config.marginModel.CalculateRequired(1.0, 100.0) == 2.0
            && sim.config.marginModel.CalculateRequired(1.0, 300.0) == 6.0
  {
  }

  lemma CurveOfRiseAndRuin()
    ensures Final(RiseAndRuin()).curve == [100.0, 200.0, 200.0, -100.0]
  {
    var sim := RiseAndRuin();
    SignalsOfRiseAndRuin();
    hide After, RiseAndRuin, MarginModel.CalculateRequired, SignalAt, Size;
    BacktestLaws.RunsAtStart(sim);
    BacktestLaws.OpenIsTaken(sim, 0);
    BacktestLaws.CloseSettles(sim, 1);
    BacktestLaws.OpenIsTaken(sim, 2);
    BacktestLaws.CloseSettles(sim, 3);
    forall n: nat | 0 < n <= 4 ensures Final(sim).curve[n - 1] == After(sim, n).equity {
      BacktestLaws.LastPointIsEquity(sim, n);
      BacktestLaws.RunsExtend(sim, n, 4);
    }
    assert Final(sim).curve == [After(sim, 1).equity, After(sim, 2).equity, After(sim, 3).equity, After(sim, 4).equity];
  }

  /** Its fall from the first point, 2, and its loss, 2, both exceed the reported drawdown of 1.5. */
  lemma RiseAndRuinBreaksBothBounds()
    ensures var curve := Final(RiseAndRuin()).curve;
            && curve == [100.0, 200.0, 200.0, -100.0]
            && MaxDrawdown(curve) == 1.5
            && Fall(curve[0], curve[3]) == 2.0
            && curve[3] / curve[0] - 1.0 == -2.0
  {
    CurveOfRiseAndRuin();
    DrawdownOfRiseAndRuin();
    hide RiseAndRuin, Final, MaxDrawdown;
    assert [100.0, 200.0, 200.0, -100.0][0] == 100.0;
  }

  lemma DrawdownOfRiseAndRuin()
    ensures MaxDrawdown([100.0, 200.0, 200.0, -100.0]) == 1.5
  {
    var curve := [100.0, 200.0, 200.0, -100.0];
    assert Peak(curve, 1) == 100.0 && Peak(curve, 2) == 200.0 && Peak(curve, 3) == 200.0 && Peak(curve, 4) == 200.0;
    assert DrawdownAt(curve, 0) == 0.0 && DrawdownAt(curve, 1) == 0.0 && DrawdownAt(curve, 2) == 0.0;
    assert DrawdownAt(curve, 3) == -1.5;
    assert DeepestDrawdown(curve, 1) == 0.0 && DeepestDrawdown(curve, 2) == 0.0 && DeepestDrawdown(curve, 3) == 0.0;
    assert DeepestDrawdown(curve, 4) == -1.5;
  }
}
