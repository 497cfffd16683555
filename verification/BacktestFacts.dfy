/** What the cost models, the strategy call and the report mean, without going through their own bodies. */
module BacktestFacts {
  import opened Sequences
  import opened Timestamps
  import opened Backtest
  import opened BacktestLaws

  // ---------- the strategy is handed the prefix and its parameters ----------

  /** Two strategies that answer alike on every prefix, given the parameters of the run, trade alike. */
  lemma {:induction false} SameAnswersSameRun(config: Config, s: Strategy, t: Strategy, params: Params, bars: seq<Bar>, n: nat)
    requires n <= |bars| && forall i :: 0 < i <= |bars| ==> s(bars[..i], params) == t(bars[..i], params)
    ensures After(Simulation(config, s, params, bars), n) == After(Simulation(config, t, params, bars), n)
  {
    if n > 0 {
      SameAnswersSameRun(config, s, t, params, bars, n - 1);
      hide Step;
    }
  }

  /** A strategy sees the parameters of its run and no others: fixing them beforehand changes nothing. */
  lemma ParametersReachTheStrategy(config: Config, s: Strategy, params: Params, bars: seq<Bar>)
    ensures Final(Simulation(config, s, params, bars))
              == Final(Simulation(config, (seen: seq<Bar>, q: Params) => s(seen, params), params, bars))
  {
    var fixed: Strategy := (seen: seq<Bar>, q: Params) => s(seen, params);
    SameAnswersSameRun(config, s, fixed, params, bars, |bars|);
  }

  /** Trades only when told to by a parameter. */
  function OnRequest(seen: seq<Bar>, params: Params): Signal {
    if "go" !in params then Hold else RoundTrip(seen, params)
  }

  /** The same strategy on the same two bars makes one trade with the parameter and none without. */
  lemma AParameterDecides(config: Config, closes: seq<real>)
    requires !config.margin && |closes| == 2
    ensures |Final(Simulation(config, OnRequest, map["go" := 1.0], MonthlyBars(closes))).trades| == 1
    ensures |Final(Simulation(config, OnRequest, map[], MonthlyBars(closes))).trades| == 0
  {
    var bars := MonthlyBars(closes);
    var told, untold := Simulation(config, OnRequest, map["go" := 1.0], bars), Simulation(config, OnRequest, map[], bars);
    assert SignalAt(told, 0) == Buy && SignalAt(told, 1) == Close;
    assert SignalAt(untold, 0) == Hold && SignalAt(untold, 1) == Hold;
    CountTrades(told);
    CountTrades(untold);
  }

  /** Over two bars without a margin check: one trade exactly when the first opens and the second closes. */
  lemma CountTrades(sim: Simulation)
    requires |sim.bars| == 2 && !sim.config.margin
    ensures |Final(sim).trades| == if Opens(SignalAt(sim, 0)) && SignalAt(sim, 1) == Close then 1 else 0
  {
    hide SignalAt, Step;
    RunsAtStart(sim);
    PositionStep(sim, 0);
    PositionStep(sim, 1);
    TradesAreFills(sim, 2);
  }

  // ---------- cost models ----------

  /** Above the minimum the fee is proportional to the size; below it is the minimum. The sign of the size is irrelevant. */
  lemma FeeGrowsWithSize(model: CommissionModel, k: real, volume: real, price: real, other: real)
    requires k >= 1.0 && model.perLot >= 0.0
    ensures model.Calculate(volume, price) >= model.minimum
    ensures model.Calculate(volume, price) > model.minimum ==>
              model.Calculate(k * volume, other) == k * model.Calculate(volume, price)
    ensures model.minimum <= 0.0 ==> model.Calculate(1.0, price) == model.perLot
    ensures model.Calculate(-volume, other) == model.Calculate(volume, price)
  {
    AbsOfProduct(k, volume);
    var a := Abs(volume);
    ProductNonNegative(a, model.perLot);
    var fee := a * model.perLot;
    assert k * a * model.perLot == k * fee;
    ProductNonNegative(k - 1.0, fee);
    assert (k - 1.0) * fee == k * fee - fee;
  }

  lemma AbsOfProduct(k: real, x: real)
    requires k >= 0.0
    ensures Abs(k * x) == k * Abs(x)
  {
    if x >= 0.0 {
      ProductNonNegative(k, x);
    } else {
      ProductNonNegative(k, -x);
      assert k * -x == -(k * x);
    }
  }

  /** Slippage is proportional to price and rate, and grows by the factor 1 + |volatility| only when asked to. */
  lemma SlippageGrowsWithPriceAndVolatility(model: SlippageModel, k: real, price: real, volume: real, volatility: real)
    ensures model.Calculate(k * price, volume, Some(volatility)) == k * model.Calculate(price, volume, Some(volatility))
    ensures model.Calculate(price, volume, Some(volatility))
              == if model.volatilityMultiplier then (1.0 + Abs(volatility)) * model.Calculate(price, volume, None)
                 else model.Calculate(price, volume, None)
    ensures model.Calculate(1.0, volume, None) == model.base * model.log1p(Abs(volume))
    ensures model.Calculate(price, -volume, None) == model.Calculate(price, volume, None)
  {
    assert Abs(-volume) == Abs(volume);
    var rate := model.log1p(Abs(volume));
    var mult := if model.volatilityMultiplier then 1.0 + Abs(volatility) else 1.0;
    Regroup(k, price, model.base, mult, rate);
    Regroup(mult, price, model.base, 1.0, rate);
    Regroup(1.0, price, model.base, mult, rate);
    assert price * model.base * mult * rate == mult * (price * model.base * rate);
  }

  lemma Regroup(k: real, price: real, base: real, mult: real, rate: real)
    ensures k * price * base * mult * rate == k * (price * base * mult * rate)
  {
  }

  /** What a bar costs depends on its own close and volatility. */
  lemma SlippageUsesTheBar(config: Config, bar: Bar, k: real, volatility: real, qty: real)
    requires config.slippage && config.slippageModel.volatilityMultiplier
    ensures SlippageAt(config, bar.(volatility := Some(volatility)), qty)
              == (1.0 + Abs(volatility)) * SlippageAt(config, bar.(volatility := None), qty)
    ensures SlippageAt(config, bar.(close := k * bar.close, volatility := Some(volatility)), qty)
              == k * SlippageAt(config, bar.(volatility := Some(volatility)), qty)
  {
    hide SlippageModel.Calculate;
    SlippageGrowsWithPriceAndVolatility(config.slippageModel, k, bar.close, qty, volatility);
  }

  /** The margin asked for is the rate times the amount traded, whichever way round. */
  lemma MarginIsRateTimesAmount(model: MarginModel, k: real, volume: real, price: real)
    requires k >= 0.0
    ensures model.CalculateRequired(k * volume, price) == k * model.CalculateRequired(volume, price)
    ensures model.CalculateRequired(-volume, price) == model.CalculateRequired(volume, price)
    ensures model.CalculateRequired(1.0, 1.0) == model.forexRate
    ensures price >= 0.0 ==> model.CalculateRequired(1.0, price) == price * model.forexRate
  {
    AbsOfProduct(k, volume * price);
    assert k * volume * price == k * (volume * price);
    assert k * Abs(volume * price) * model.forexRate == k * (Abs(volume * price) * model.forexRate);
    assert -volume * price == -(volume * price);
  }

  /** The size of a position is the parameter of that name, one lot without it. */
  lemma SizeIsTheParameter(params: Params, x: real)
    ensures Size(params["size" := x]) == x && Size(params - {"size"}) == 1.0
  {
  }

  // ---------- the report ----------

  /** The reported figures against the trades of the run: counts, final capital, return and profit factor. */
  lemma ReportIsTrue(sim: Simulation)
    requires sim.bars != []
    ensures var r, trades := Report(sim.config.initialCapital, Final(sim).curve, Final(sim).trades), Final(sim).trades;
            && r.initialCapital == sim.config.initialCapital
            && r.finalCapital == sim.config.initialCapital + Sum(Pnls(trades))
            && r.equityCurve == Final(sim).curve && r.trades == trades && r.totalTrades == |trades|
            && r.winningTrades == |set i | 0 <= i < |trades| && trades[i].pnl > 0.0|
            && r.losingTrades == |set i | 0 <= i < |trades| && trades[i].pnl <= 0.0|
            && (r.totalReturn.Finite? ==> r.totalReturn.value * r.initialCapital == Sum(Pnls(trades)))
            && (r.profitFactor.Finite? ==>
                  r.profitFactor.value * -Sum(Losses(Pnls(trades))) == Sum(Wins(Pnls(trades))))
            && (r.profitFactor.Infinite? <==> r.losingTrades == 0)
  {
    var trades := Final(sim).trades;
    var pnls, capital := Pnls(trades), sim.config.initialCapital;
    hide After, Peak, DeepestDrawdown;
    EquityIsConserved(sim, |sim.bars| - 1);
    PrefixOfAll(sim);
    WinsAndLossesPartition(pnls);
    CountOfPnls(trades);
    if capital != 0.0 {
      var q := (capital + Sum(pnls)) / capital;
      assert q * capital == capital + Sum(pnls);
      assert (q - 1.0) * capital == q * capital - capital;
    }
    ProfitFactorTimesLosses(pnls);
  }

  lemma PrefixOfAll(sim: Simulation)
    requires sim.bars != []
    ensures After(sim, |sim.bars| - 1 + 1) == Final(sim)
  {
    hide Step;
  }

  lemma CountOfPnls(trades: seq<Trade>)
    ensures |Wins(Pnls(trades))| == |set i | 0 <= i < |trades| && trades[i].pnl > 0.0|
    ensures |Losses(Pnls(trades))| == |set i | 0 <= i < |trades| && trades[i].pnl <= 0.0|
  {
    var pnls := Pnls(trades);
    CountWins(pnls);
    CountLosses(pnls);
    hide Wins, Losses;
    assert (set i | 0 <= i < |pnls| && pnls[i] > 0.0) == (set i | 0 <= i < |trades| && trades[i].pnl > 0.0);
    assert (set i | 0 <= i < |pnls| && pnls[i] <= 0.0) == (set i | 0 <= i < |trades| && trades[i].pnl <= 0.0);
  }

  lemma {:induction false} CountWins(pnls: seq<real>)
    ensures |Wins(pnls)| == |set i | 0 <= i < |pnls| && pnls[i] > 0.0|
  {
    if pnls != [] {
      var init, n := pnls[..|pnls| - 1], |pnls| - 1;
      CountWins(init);
      var won := set i | 0 <= i < |init| && init[i] > 0.0;
      assert (set i | 0 <= i < |pnls| && pnls[i] > 0.0) == if pnls[n] > 0.0 then won + {n} else won;
    }
  }

  lemma {:induction false} CountLosses(pnls: seq<real>)
    ensures |Losses(pnls)| == |set i | 0 <= i < |pnls| && pnls[i] <= 0.0|
  {
    if pnls != [] {
      var init, n := pnls[..|pnls| - 1], |pnls| - 1;
      CountLosses(init);
      var lost := set i | 0 <= i < |init| && init[i] <= 0.0;
      assert (set i | 0 <= i < |pnls| && pnls[i] <= 0.0) == if pnls[n] <= 0.0 then lost + {n} else lost;
    }
  }

  lemma ProfitFactorTimesLosses(pnls: seq<real>)
    ensures ProfitFactor(pnls).Finite? ==> ProfitFactor(pnls).value * -Sum(Losses(pnls)) == Sum(Wins(pnls))
    ensures ProfitFactor(pnls).Infinite? <==> |Losses(pnls)| == 0
  {
    WinsAndLossesPartition(pnls);
    if ProfitFactor(pnls).Finite? {
      var lost := -Sum(Losses(pnls));
      assert Sum(Wins(pnls)) / lost * lost == Sum(Wins(pnls));
    }
  }

  /** The engine works through its data in time order, and through all of them. */
  lemma DataAreInTimeOrder(data: seq<Bar>)
    ensures multiset(SortBars(data)) == multiset(data)
    ensures forall i, j :: 0 <= i < j < |data| ==> !Before(SortBars(data)[j].time, SortBars(data)[i].time)
  {
    var bars := SortBars(data);
    forall i, j | 0 <= i < j < |data| ensures !Before(bars[j].time, bars[i].time) {
      assert BarKey(bars[i]) <= BarKey(bars[j]);
    }
  }
}
