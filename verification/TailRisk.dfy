/** Bootstrap tail risk: the resampled distribution, value at risk and conditional value at risk. */
module TailRisk {
  import opened Sequences

  function Lerp(a: real, b: real, f: real): real {
    a + f * (b - a)
  }

  /** The value at fractional position `h` of a sorted sequence, linear between neighbours. */
  function Interpolate(s: seq<real>, h: real): real
    requires s != [] && 0.0 <= h <= (|s| - 1) as real
  {
    var lo := h.Floor;
    if lo + 1 < |s| then Lerp(s[lo], s[lo + 1], h - lo as real) else s[lo]
  }

  function Identity(x: real): real {
    x
  }

  function Position(n: nat, q: real): (h: real)
    requires n > 0 && 0.0 <= q <= 1.0
    ensures 0.0 <= h <= (n - 1) as real
  {
    var m := (n - 1) as real;
    ProductNonNegative(q, m);
    ProductNonNegative(1.0 - q, m);
    assert (1.0 - q) * m == m - q * m;
    q * m
  }

  function Quantile(dist: seq<real>, q: real): real
    requires dist != [] && 0.0 <= q <= 1.0
  {
    Interpolate(Sort(dist, Identity), Position(|dist|, q))
  }

  function Tail(dist: seq<real>, t: real): seq<real> {
    Filter((x: real) => x <= t, dist)
  }

  function Mean(s: seq<real>): real
    requires s != []
  {
    Sum(s) / |s| as real
  }

  predicate ValidLevel(c: real) {
    0.0 <= c <= 1.0
  }

  function VaR(dist: seq<real>, c: real): real
    requires dist != [] && ValidLevel(c)
  {
    Quantile(dist, 1.0 - c)
  }

  /** The tail set always holds the least outcome, so its mean exists. */
  function CVaR(dist: seq<real>, c: real): real
    requires dist != [] && ValidLevel(c)
  {
    TailIsNotEmpty(dist, c);
    Mean(Tail(dist, VaR(dist, c)))
  }

  function Sample(pnl: seq<real>, draw: (nat, nat) -> nat, i: nat): (s: seq<real>)
    requires pnl != []
    ensures |s| == |pnl|
  {
    seq(|pnl|, k requires 0 <= k => pnl[draw(i, k) % |pnl|])
  }

  datatype RiskReport = RiskReport(distribution: seq<real>, var_: map<real, real>, cvar: map<real, real>)

  datatype RiskError = LevelOutOfRange | EmptyDistribution

  method MonteCarlo(pnl: seq<real>, iterations: int, draw: (nat, nat) -> nat, levels: seq<real>)
    returns (r: Result<RiskReport, RiskError>)
    ensures pnl == [] ==> r == Ok(RiskReport([], map[], map[]))
    ensures pnl != [] ==> (r.Ok? <==> (forall c :: c in levels ==> ValidLevel(c)) && (iterations > 0 || levels == []))
    ensures pnl != [] && r.Ok? ==>
              && |r.value.distribution| == (if iterations < 0 then 0 else iterations)
              && (forall i :: 0 <= i < |r.value.distribution| ==>
                    r.value.distribution[i] == Sum(Sample(pnl, draw, i)))
              && r.value.var_.Keys == r.value.cvar.Keys == (set c | c in levels)
              && (forall c :: c in levels ==>
                    && r.value.distribution != []
                    && r.value.var_[c] == VaR(r.value.distribution, c)
                    && r.value.cvar[c] == CVaR(r.value.distribution, c))
  {
    hide VaR, CVaR, Sum;
    if pnl == [] {
      return Ok(RiskReport([], map[], map[]));
    }
    var dist: seq<real> := [];
    var i := 0;
    while i < iterations
      invariant 0 <= i && (iterations >= 0 ==> i <= iterations)
      invariant iterations < 0 ==> i == 0
      invariant |dist| == i
      invariant forall k :: 0 <= k < i ==> dist[k] == Sum(Sample(pnl, draw, k))
    {
      dist := dist + [Sum(Sample(pnl, draw, i))];
      i := i + 1;
    }
    var var_, cvar: map<real, real> := map[], map[];
    for n := 0 to |levels|
      invariant forall c :: c in levels[..n] ==> ValidLevel(c)
      invariant n > 0 ==> dist != []
      invariant var_.Keys == cvar.Keys == (set c | c in levels[..n])
      invariant forall c :: c in levels[..n] ==> var_[c] == VaR(dist, c) && cvar[c] == CVaR(dist, c)
    {
      var c := levels[n];
      if dist == [] {
        return Err(EmptyDistribution);
      }
      if !ValidLevel(c) {
        return Err(LevelOutOfRange);
      }
      var_ := var_[c := VaR(dist, c)];
      cvar := cvar[c := CVaR(dist, c)];
      assert levels[..n + 1] == levels[..n] + [c];
    }
    assert levels[..|levels|] == levels;
    r := Ok(RiskReport(dist, var_, cvar));
  }

  // ---------- laws ----------

  lemma LerpLiesBetween(a: real, b: real, f: real)
    requires a <= b && 0.0 <= f <= 1.0
    ensures a <= Lerp(a, b, f) <= b
  {
    var d := b - a;
    assert f * d >= 0.0 && (1.0 - f) * d >= 0.0;
    assert (1.0 - f) * d == d - f * d;
  }

  lemma LerpIsMonotone(a: real, b: real, f: real, g: real)
    requires a <= b && f <= g
    ensures Lerp(a, b, f) <= Lerp(a, b, g)
  {
    var d := b - a;
    assert (g - f) * d >= 0.0;
    assert (g - f) * d == g * d - f * d;
  }

  lemma Ordered(s: seq<real>, i: nat, j: nat)
    requires SortedBy(s, Identity) && i <= j < |s|
    ensures s[i] <= s[j]
  {
    assert Identity(s[i]) <= Identity(s[j]);
  }

  lemma InterpolationLiesBetween(s: seq<real>, h: real)
    requires s != [] && 0.0 <= h <= (|s| - 1) as real && SortedBy(s, Identity)
    ensures s[h.Floor] <= Interpolate(s, h)
    ensures h.Floor + 1 < |s| ==> Interpolate(s, h) <= s[h.Floor + 1]
    ensures s[0] <= Interpolate(s, h) <= s[|s| - 1]
  {
    hide Lerp;
    var lo := h.Floor;
    Ordered(s, 0, lo);
    Ordered(s, lo, |s| - 1);
    if lo + 1 < |s| {
      Ordered(s, lo, lo + 1);
      Ordered(s, lo + 1, |s| - 1);
      LerpLiesBetween(s[lo], s[lo + 1], h - lo as real);
    }
  }

  lemma InterpolationIsMonotone(s: seq<real>, h: real, k: real)
    requires s != [] && 0.0 <= h <= k <= (|s| - 1) as real && SortedBy(s, Identity)
    ensures Interpolate(s, h) <= Interpolate(s, k)
  {
    hide Lerp, SortedBy;
    InterpolationLiesBetween(s, h);
    InterpolationLiesBetween(s, k);
    var lo := h.Floor;
    if lo == k.Floor {
      if lo + 1 < |s| {
        Ordered(s, lo, lo + 1);
        LerpIsMonotone(s[lo], s[lo + 1], h - lo as real, k - lo as real);
      }
    } else {
      Ordered(s, lo + 1, k.Floor);
    }
  }

  lemma PositionIsMonotone(n: nat, p: real, q: real)
    requires n > 0 && 0.0 <= p <= q <= 1.0
    ensures Position(n, p) <= Position(n, q)
  {
    var m := (n - 1) as real;
    ProductNonNegative(q - p, m);
    assert (q - p) * m == q * m - p * m;
  }

  lemma QuantileIsMonotone(dist: seq<real>, p: real, q: real)
    requires dist != [] && 0.0 <= p <= q <= 1.0
    ensures Quantile(dist, p) <= Quantile(dist, q)
  {
    hide Position, Interpolate, SortedBy;
    PositionIsMonotone(|dist|, p, q);
    InterpolationIsMonotone(Sort(dist, Identity), Position(|dist|, p), Position(|dist|, q));
  }

  /** Every quantile lies between some outcome below it and some outcome above it. */
  lemma QuantileLiesInRange(dist: seq<real>, q: real)
    requires dist != [] && 0.0 <= q <= 1.0
    ensures exists i :: 0 <= i < |dist| && dist[i] <= Quantile(dist, q)
    ensures exists i :: 0 <= i < |dist| && Quantile(dist, q) <= dist[i]
  {
    hide Position, Interpolate, SortedBy;
    var s := Sort(dist, Identity);
    InterpolationLiesBetween(s, Position(|dist|, q));
    SortMembers(dist, Identity);
    assert s[0] in s && s[|s| - 1] in s;
  }

  lemma TailIsNotEmpty(dist: seq<real>, c: real)
    requires dist != [] && ValidLevel(c)
    ensures Tail(dist, VaR(dist, c)) != []
  {
    hide Quantile;
    QuantileLiesInRange(dist, 1.0 - c);
    var i :| 0 <= i < |dist| && dist[i] <= VaR(dist, c);
    FilterMembers((x: real) => x <= VaR(dist, c), dist);
    assert dist[i] in Tail(dist, VaR(dist, c));
  }

  lemma {:induction false} TailSumBound(dist: seq<real>, t: real)
    ensures Sum(Tail(dist, t)) <= |Tail(dist, t)| as real * t
  {
    if dist != [] {
      TailSumBound(dist[..|dist| - 1], t);
      SumAppend(Tail(dist[..|dist| - 1], t), dist[|dist| - 1]);
    }
  }

  lemma TailAppend(dist: seq<real>, x: real, t: real)
    ensures Tail(dist + [x], t) == if x <= t then Tail(dist, t) + [x] else Tail(dist, t)
    ensures Sum(Tail(dist + [x], t)) == if x <= t then Sum(Tail(dist, t)) + x else Sum(Tail(dist, t))
  {
    FilterAppend((x: real) => x <= t, dist, x);
    SumAppend(Tail(dist, t), x);
  }

  /** Raising the threshold only adds outcomes above the old one. */
  lemma {:induction false} TailGrowth(dist: seq<real>, t: real, u: real)
    requires t <= u
    ensures |Tail(dist, t)| <= |Tail(dist, u)|
    ensures Sum(Tail(dist, u)) - Sum(Tail(dist, t)) >= (|Tail(dist, u)| - |Tail(dist, t)|) as real * t
  {
    hide Tail, Sum;
    if dist == [] {
      NoTail(t);
      NoTail(u);
    } else {
      var init, last := dist[..|dist| - 1], dist[|dist| - 1];
      TailGrowth(init, t, u);
      assert dist == init + [last];
      TailAppend(init, last, t);
      TailAppend(init, last, u);
      AddOne(|Tail(init, u)| - |Tail(init, t)|, t);
    }
  }

  lemma NoTail(t: real)
    ensures Tail([], t) == [] && Sum([]) == 0.0
  {
  }

  lemma AddOne(n: int, t: real)
    ensures (n + 1) as real * t == n as real * t + t
  {
    assert (n + 1) as real == n as real + 1.0;
  }

  lemma {:induction false} QuotientAtMost(a: real, b: real, t: real)
    requires b > 0.0 && a <= b * t
    ensures a / b <= t
  {
    var q := a / b;
    assert q * b == a;
    assert (t - q) * b >= 0.0;
  }

  lemma MeansGrow(a: real, n: real, b: real, m: real)
    requires 0.0 < n <= m && b - a >= (m - n) * (a / n)
    ensures a / n <= b / m
  {
    var p, q := a / n, b / m;
    assert p * n == a && q * m == b;
    assert (m - n) * p == m * p - n * p;
    assert (q - p) * m >= 0.0;
  }

  /** CVaR never exceeds VaR. */
  lemma CVaRAtMostVaR(dist: seq<real>, c: real)
    requires dist != [] && ValidLevel(c)
    ensures CVaR(dist, c) <= VaR(dist, c)
  {
    hide Quantile, Tail, Sum;
    TailIsNotEmpty(dist, c);
    var t := VaR(dist, c);
    TailSumBound(dist, t);
    QuotientAtMost(Sum(Tail(dist, t)), |Tail(dist, t)| as real, t);
  }

  /** A higher confidence never gives a larger VaR or a larger CVaR. */
  lemma RiskFallsWithConfidence(dist: seq<real>, c: real, d: real)
    requires dist != [] && ValidLevel(c) && ValidLevel(d) && c <= d
    ensures VaR(dist, d) <= VaR(dist, c)
    ensures CVaR(dist, d) <= CVaR(dist, c)
  {
    hide Quantile, Tail;
    QuantileIsMonotone(dist, 1.0 - d, 1.0 - c);
    TailIsNotEmpty(dist, c);
    TailIsNotEmpty(dist, d);
    CVaRAtMostVaR(dist, d);
    TailGrowth(dist, VaR(dist, d), VaR(dist, c));
    TailMeansGrow(Tail(dist, VaR(dist, d)), Tail(dist, VaR(dist, c)), VaR(dist, d));
  }

  lemma TailMeansGrow(small: seq<real>, large: seq<real>, t: real)
    requires small != [] && |small| <= |large| && Mean(small) <= t
    requires Sum(large) - Sum(small) >= (|large| - |small|) as real * t
    ensures Mean(small) <= Mean(large)
  {
    hide Sum;
    var a, n := Sum(small), |small| as real;
    var b, m := Sum(large), |large| as real;
    var p := a / n;
    assert (m - n) * (t - p) >= 0.0;
    assert (m - n) * (t - p) == (m - n) * t - (m - n) * p;
    MeansGrow(a, n, b, m);
  }

  lemma {:induction false} SumBounds(s: seq<real>, lo: real, hi: real)
    requires forall i :: 0 <= i < |s| ==> lo <= s[i] <= hi
    ensures |s| as real * lo <= Sum(s) <= |s| as real * hi
  {
    if s != [] {
      SumBounds(s[..|s| - 1], lo, hi);
    }
  }

  /** Whatever is drawn, a bootstrap sum stays between n * min(pnl) and n * max(pnl). */
  lemma BootstrapSumBounds(pnl: seq<real>, draw: (nat, nat) -> nat, i: nat, lo: real, hi: real)
    requires pnl != [] && forall x :: x in pnl ==> lo <= x <= hi
    ensures |pnl| as real * lo <= Sum(Sample(pnl, draw, i)) <= |pnl| as real * hi
  {
    var s := Sample(pnl, draw, i);
    forall k | 0 <= k < |s| ensures lo <= s[k] <= hi {
      assert s[k] == pnl[draw(i, k) % |pnl|];
      assert pnl[draw(i, k) % |pnl|] in pnl;
    }
    SumBounds(s, lo, hi);
  }
}
