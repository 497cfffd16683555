/** For which settings costs can help at all: over every strategy and every series of prices. */
module CostLaws {
  import opened Sequences
  import opened Timestamps
  import opened Backtest
  import opened BacktestLaws

  ghost predicate NonNegativeSettings(config: Config, qty: real) {
    && qty > 0.0 && config.slippageModel.base >= 0.0 && config.marginModel.forexRate >= 0.0
    && (forall v: real :: v >= 0.0 ==> config.slippageModel.log1p(v) >= 0.0)
    && (config.commissionModel.perLot >= 0.0 || config.commissionModel.minimum >= 0.0)
  }

  ghost predicate NonNegativePrices(bars: seq<Bar>) {
    forall i :: 0 <= i < |bars| ==> bars[i].close >= 0.0
  }

  /** A round trip of this size costs something, at some price at least. */
  predicate CostsSomething(config: Config, qty: real) {
    || (config.commission && config.commissionModel.Calculate(qty, 0.0) > 0.0)
    || (config.slippage && config.slippageModel.base > 0.0 && config.slippageModel.log1p(Abs(qty)) > 0.0)
  }

  ghost predicate CostsHelp(sim: Simulation) {
    exists i :: 0 <= i < |sim.bars| && CostsHelpAt(sim, i)
  }

  ghost predicate CostsHelpAt(sim: Simulation, i: nat)
    requires i < |sim.bars|
  {
    |Final(sim).curve| == |Final(CostFree(sim)).curve| == |sim.bars|
    && Final(sim).curve[i] > Final(CostFree(sim)).curve[i]
  }

  ghost predicate CostsCanHelp(config: Config, params: Params) {
    exists strategy, bars :: NonNegativePrices(bars) && CostsHelp(Simulation(config, strategy, params, bars))
  }

  lemma CurvePoint(sim: Simulation, i: nat)
    requires i < |sim.bars|
    ensures |Final(sim).curve| == |sim.bars| && Final(sim).curve[i] == After(sim, i + 1).equity
  {
    RunsExtend(sim, i + 1, |sim.bars|);
    LastPointIsEquity(sim, i + 1);
  }

  // ---------- settings under which costs cannot help ----------

  /** With a negative capital and the margin check on, nothing is ever opened. */
  lemma {:induction false} NothingOpens(sim: Simulation, n: nat)
    requires n <= |sim.bars| && sim.config.margin && sim.config.initialCapital < 0.0
    requires sim.config.marginModel.forexRate >= 0.0
    ensures After(sim, n).position.None? && After(sim, n).equity == sim.config.initialCapital
  {
    if n == 0 {
      RunsAtStart(sim);
    } else {
      NothingOpens(sim, n - 1);
      PositionStep(sim, n - 1);
      BarSettlesOrLeaves(sim, n);
      RequiredIsNotNegative(sim.config.marginModel, Size(sim.params), sim.bars[n - 1].close);
      hide After, MarginModel.CalculateRequired, Fills;
    }
  }

  lemma RequiredIsNotNegative(model: MarginModel, volume: real, price: real)
    requires model.forexRate >= 0.0
    ensures model.CalculateRequired(volume, price) >= 0.0
  {
    ProductNonNegative(Abs(volume * price), model.forexRate);
  }

  lemma SlippageWithoutRate(config: Config, bar: Bar, qty: real)
    requires !config.slippage || config.slippageModel.base == 0.0 || config.slippageModel.log1p(Abs(qty)) == 0.0
    ensures SlippageAt(config, bar, qty) == 0.0
  {
    var model := config.slippageModel;
    var mult := 1.0 + if model.volatilityMultiplier && bar.volatility.Some? then Abs(bar.volatility.value) else 0.0;
    if model.base == 0.0 {
      assert bar.close * model.base == 0.0;
    }
  }

  lemma FeeWithoutRate(config: Config, qty: real, price: real)
    requires NonNegativeSettings(config, qty) && !CostsSomething(config, qty)
    ensures FeeAt(config, qty, price) == 0.0
  {
    if config.commissionModel.perLot >= 0.0 {
      ProductNonNegative(Abs(qty), config.commissionModel.perLot);
    }
  }

  lemma FillCostsNothing(sim: Simulation, f: Fill)
    requires NonNegativeSettings(sim.config, Size(sim.params)) && !CostsSomething(sim.config, Size(sim.params))
    ensures FillCost(sim, f) == 0.0
  {
    if FillOk(sim, f) {
      var qty := Size(sim.params);
      SlippageWithoutRate(sim.config, sim.bars[f.entry], qty);
      SlippageWithoutRate(sim.config, sim.bars[f.exit], qty);
      FeeWithoutRate(sim.config, qty, ExitPrice(sim.config, sim.bars[f.exit], SideOf(SignalAt(sim, f.entry)), qty));
      hide SlippageAt, FeeAt, NonNegativeSettings, CostsSomething, ExitPrice;
    }
  }

  lemma NothingIsPaid(sim: Simulation, n: nat)
    requires n <= |sim.bars|
    requires NonNegativeSettings(sim.config, Size(sim.params)) && !CostsSomething(sim.config, Size(sim.params))
    ensures CostsPaid(sim, n) == 0.0
  {
    hide NonNegativeSettings, CostsSomething, FillCost;
    var costs := Map((f: Fill) => FillCost(sim, f), Fills(sim, n));
    forall k | 0 <= k < |costs| ensures costs[k] == 0.0 {
      FillCostsNothing(sim, Fills(sim, n)[k]);
    }
    SumOfZeros(costs);
  }

  /** Where nothing is paid, the margin checks never differ. */
  lemma {:induction false} FreeCostsAgree(sim: Simulation, n: nat)
    requires n <= |sim.bars|
    requires NonNegativeSettings(sim.config, Size(sim.params)) && !CostsSomething(sim.config, Size(sim.params))
    ensures ChecksAgree(sim, n)
  {
    hide *;
    if n == 0 {
      NoBarsAgree(sim);
    } else {
      FreeCostsAgree(sim, n - 1);
      SameEquityWhileNothingIsPaid(sim, n - 1);
      ChecksAgreeBefore(sim, n - 1);
      SameEquitySameAnswer(sim, n - 1);
    }
  }

  lemma NoBarsAgree(sim: Simulation)
    ensures ChecksAgree(sim, 0)
  {
  }

  lemma SameEquitySameAnswer(sim: Simulation, i: nat)
    requires i < |sim.bars| && After(CostFree(sim), i).equity == After(sim, i).equity
    ensures Refuses(CostFree(sim), i) == Refuses(sim, i)
  {
    hide After;
  }

  lemma SameEquityWhileNothingIsPaid(sim: Simulation, n: nat)
    requires n <= |sim.bars| && ChecksAgree(sim, n)
    requires NonNegativeSettings(sim.config, Size(sim.params)) && !CostsSomething(sim.config, Size(sim.params))
    ensures After(CostFree(sim), n).equity == After(sim, n).equity
  {
    hide GrossProfit, CostsPaid, After, NonNegativeSettings, CostsSomething, Fills;
    CostsMoveNoTrade(sim, n);
    SameFillsSameGross(sim, n);
    EquityIsGrossMinusCosts(sim, n);
    EquityIsGrossMinusCosts(CostFree(sim), n);
    NothingIsPaid(sim, n);
    NothingPaidWithoutCosts(sim, n);
  }

  lemma SoundSettingsNeverHelp(sim: Simulation, i: nat)
    requires i < |sim.bars| && NonNegativePrices(sim.bars) && NonNegativeSettings(sim.config, Size(sim.params))
    requires !(sim.config.margin && sim.config.initialCapital >= 0.0 && CostsSomething(sim.config, Size(sim.params)))
    ensures !CostsHelpAt(sim, i)
  {
    CurvePoint(sim, i);
    CurvePoint(CostFree(sim), i);
    hide After, Final, CostsSomething;
    if !sim.config.margin {
      CostsNeverHelpWithoutMargin(sim, i);
    } else if sim.config.initialCapital < 0.0 {
      NothingOpens(sim, i + 1);
      NothingOpens(CostFree(sim), i + 1);
    } else {
      FreeCostsAgree(sim, i + 1);
      SameEquityWhileNothingIsPaid(sim, i + 1);
    }
  }

  // ---------- a run in which costs help ----------

  /** A round trip over two bars: refused, or paid out at its gross profit less its cost. */
  lemma RoundTripStep(sim: Simulation, n: nat)
    requires n + 1 < |sim.bars| && After(sim, n).position.None?
    requires Opens(SignalAt(sim, n)) && SignalAt(sim, n + 1) == Close
    ensures After(sim, n + 2).position.None?
    ensures var f := Fill(n, n + 1);
            After(sim, n + 2).equity == After(sim, n).equity
              + if Refuses(sim, n) then 0.0 else FillGross(sim, f) - FillCost(sim, f)
  {
    var f := Fill(n, n + 1);
    hide *;
    AppendGrows(Fills(sim, n), f);
    PositionStep(sim, n);
    BarSettlesOrLeaves(sim, n + 1);
    PositionStep(sim, n + 1);
    if Refuses(sim, n) {
      BarSettlesOrLeaves(sim, n + 2);
    } else {
      TripSettles(sim, n);
    }
  }

  lemma TripSettles(sim: Simulation, n: nat)
    requires n + 1 < |sim.bars| && SignalAt(sim, n + 1) == Close
    requires After(sim, n + 1).position.Some? && OpenBar(sim, n + 1) == n
    ensures After(sim, n + 2).equity
              == After(sim, n + 1).equity + FillGross(sim, Fill(n, n + 1)) - FillCost(sim, Fill(n, n + 1))
  {
    assert Closes(sim, n + 1);
    hide *;
    BarSettles(sim, n + 2);
    TradeIsGrossMinusCost(sim, Fill(n, n + 1));
  }

  lemma AppendGrows(fills: seq<Fill>, f: Fill)
    ensures fills + [f] != fills
    ensures Opens(Buy) && Opens(Sell) && !Opens(Close)
  {
    assert |fills + [f]| != |fills|;
  }

  /** Buy for one round trip, then sell for two. */
  function UpAndTwiceDown(seen: seq<Bar>, params: Params): Signal {
    if |seen| == 1 then Buy else if |seen| == 3 || |seen| == 5 then Sell else Close
  }

  /** The slippage at a price without a volatility column. */
  function SlipFrom(config: Config, qty: real, price: real): real {
    if config.slippage then price * config.slippageModel.base * 1.0 * config.slippageModel.log1p(Abs(qty)) else 0.0
  }

  /** What a round trip from a price of zero to this one costs. */
  function TripCost(config: Config, qty: real, exit: real): real {
    SlipFrom(config, qty, exit) * qty + FeeAt(config, qty, 0.0)
  }

  function Amount(price: real, qty: real): real {
    price * qty
  }

  /** Three round trips that all open at a price of zero. */
  function Ruinous(config: Config, params: Params, down: real, loss: real): Simulation {
    Simulation(config, UpAndTwiceDown, params, MonthlyBars([0.0, 1.0, 0.0, down, 0.0, loss]))
  }

  lemma RuinousSignals(config: Config, params: Params, down: real, loss: real)
    ensures var sim := Ruinous(config, params, down, loss);
            && |sim.bars| == 6
            && SignalAt(sim, 0) == Buy && SignalAt(sim, 2) == Sell && SignalAt(sim, 4) == Sell
            && SignalAt(sim, 1) == Close && SignalAt(sim, 3) == Close && SignalAt(sim, 5) == Close
  {
    hide MonthlyBars;
    assert |Ruinous(config, params, down, loss).bars| == 6;
  }

  lemma QuotientTimes(a: real, b: real)
    requires b > 0.0
    ensures a / b * b == a
    ensures a >= 0.0 ==> a / b >= 0.0
  {
    var q := a / b;
    assert q * b == a;
    assert q < 0.0 ==> q * b < 0.0;
  }

  lemma TripIsAFill(sim: Simulation, n: nat)
    requires n + 1 < |sim.bars| && Opens(SignalAt(sim, n)) && SignalAt(sim, n + 1) == Close
    ensures FillOk(sim, Fill(n, n + 1))
  {
  }

  lemma TripMakes(sim: Simulation, n: nat)
    requires n + 1 < |sim.bars| && FillOk(sim, Fill(n, n + 1)) && sim.bars[n].close == 0.0
    ensures Opens(SignalAt(sim, n))
    ensures FillGross(sim, Fill(n, n + 1)) == SideOf(SignalAt(sim, n)).Signed(Amount(sim.bars[n + 1].close, Size(sim.params)))
  {
    hide SignalAt, Size;
  }

  lemma TripCosts(sim: Simulation, n: nat)
    requires n + 1 < |sim.bars| && FillOk(sim, Fill(n, n + 1))
    requires sim.bars[n].close == 0.0 && sim.bars[n + 1].volatility.None?
    ensures FillCost(sim, Fill(n, n + 1)) == TripCost(sim.config, Size(sim.params), sim.bars[n + 1].close)
  {
    var qty, side := Size(sim.params), SideOf(SignalAt(sim, n));
    hide SignalAt, Size, SlippageAt, SlipFrom, ExitPrice, CommissionModel.Calculate;
    SlipAtZero(sim.config, sim.bars[n], qty);
    SlipWithoutVolatility(sim.config, sim.bars[n + 1], qty);
    FeeIgnoresPrice(sim.config, qty, ExitPrice(sim.config, sim.bars[n + 1], side, qty));
    hide FeeAt;
  }

  lemma FeeIgnoresPrice(config: Config, qty: real, price: real)
    ensures FeeAt(config, qty, price) == FeeAt(config, qty, 0.0)
  {
  }

  lemma SlipAtZero(config: Config, bar: Bar, qty: real)
    requires bar.close == 0.0
    ensures SlippageAt(config, bar, qty) == 0.0
  {
    assert bar.close * config.slippageModel.base == 0.0;
  }

  lemma SlipWithoutVolatility(config: Config, bar: Bar, qty: real)
    requires bar.volatility.None?
    ensures SlippageAt(config, bar, qty) == SlipFrom(config, qty, bar.close)
  {
  }

  lemma OpeningAtZero(sim: Simulation, n: nat)
    requires n < |sim.bars| && sim.bars[n].close == 0.0 && sim.config.margin
    ensures Refuses(sim, n) <==> After(sim, n).equity < 0.0
  {
    var volume, price := Size(sim.params), sim.bars[n].close;
    assert volume * price == 0.0;
    assert sim.config.marginModel.CalculateRequired(volume, price) == 0.0;
    hide After, MarginModel.CalculateRequired;
  }

  /** One trip of `Ruinous`: nothing happens to a run that is already under water. */
  lemma Trip(sim: Simulation, n: nat)
    requires n + 1 < |sim.bars| && After(sim, n).position.None? && sim.config.margin
    requires Opens(SignalAt(sim, n)) && SignalAt(sim, n + 1) == Close
    requires sim.bars[n].close == 0.0 && sim.bars[n + 1].volatility.None?
    ensures After(sim, n + 2).position.None?
    ensures After(sim, n + 2).equity
              == if After(sim, n).equity < 0.0 then After(sim, n).equity
                 else After(sim, n).equity + SideOf(SignalAt(sim, n)).Signed(Amount(sim.bars[n + 1].close, Size(sim.params)))
                      - TripCost(sim.config, Size(sim.params), sim.bars[n + 1].close)
  {
    hide *;
    RoundTripStep(sim, n);
    OpeningAtZero(sim, n);
    TripIsAFill(sim, n);
    TripMakes(sim, n);
    TripCosts(sim, n);
  }

  lemma TripCostNotNegative(config: Config, qty: real, exit: real)
    requires NonNegativeSettings(config, qty) && exit >= 0.0
    ensures TripCost(config, qty, exit) >= 0.0
    ensures TripCost(config.(commission := false, slippage := false), qty, exit) == 0.0
    ensures CostsSomething(config, qty) && exit == 1.0 ==> TripCost(config, qty, exit) > 0.0
  {
    var model := config.slippageModel;
    FeeNotNegative(config, qty);
    var rate := model.log1p(Abs(qty));
    ProductNonNegative(exit, model.base);
    ProductNonNegative(exit * model.base, rate);
    ProductNonNegative(exit * model.base * 1.0 * rate, qty);
    if config.slippage && model.base > 0.0 && rate > 0.0 && exit == 1.0 {
      PositiveProduct(model.base, rate, qty);
      assert 1.0 * model.base * 1.0 * rate * qty == model.base * rate * qty;
    }
  }

  lemma FeeNotNegative(config: Config, qty: real)
    requires NonNegativeSettings(config, qty)
    ensures FeeAt(config, qty, 0.0) >= 0.0
  {
    if config.commissionModel.perLot >= 0.0 {
      ProductNonNegative(Abs(qty), config.commissionModel.perLot);
    }
  }

  lemma PositiveProduct(a: real, b: real, c: real)
    requires a > 0.0 && b > 0.0 && c > 0.0
    ensures a * b * c > 0.0
  {
    assert a * b > 0.0;
  }

  /** The balances after each of three such trips. */
  lemma ThreeTrips(sim: Simulation)
    requires |sim.bars| == 6 && sim.config.margin && sim.config.initialCapital >= 0.0
    requires sim.bars[0].close == sim.bars[2].close == sim.bars[4].close == 0.0
    requires sim.bars[1].volatility.None? && sim.bars[3].volatility.None? && sim.bars[5].volatility.None?
    requires SignalAt(sim, 0) == Buy && SignalAt(sim, 2) == Sell && SignalAt(sim, 4) == Sell
    requires SignalAt(sim, 1) == Close && SignalAt(sim, 3) == Close && SignalAt(sim, 5) == Close
    ensures var qty, e2, e4, e6 := Size(sim.params), After(sim, 2).equity, After(sim, 4).equity, After(sim, 6).equity;
            && e2 == sim.config.initialCapital + Amount(sim.bars[1].close, qty) - TripCost(sim.config, qty, sim.bars[1].close)
            && e4 == (if e2 < 0.0 then e2
                      else e2 - Amount(sim.bars[3].close, qty) - TripCost(sim.config, qty, sim.bars[3].close))
            && e6 == (if e4 < 0.0 then e4
                      else e4 - Amount(sim.bars[5].close, qty) - TripCost(sim.config, qty, sim.bars[5].close))
  {
    hide *;
    RunsAtStart(sim);
    AppendGrows([], Fill(0, 1));
    SidesOfSignals();
    Trip(sim, 0);
    Trip(sim, 2);
    Trip(sim, 4);
  }

  lemma RuinousTrips(config: Config, params: Params, down: real, loss: real)
    requires config.margin && config.initialCapital >= 0.0
    ensures var sim, qty := Ruinous(config, params, down, loss), Size(params);
            && |sim.bars| == 6
            && var e2, e4, e6 := After(sim, 2).equity, After(sim, 4).equity, After(sim, 6).equity;
            && e2 == config.initialCapital + Amount(1.0, qty) - TripCost(config, qty, 1.0)
            && e4 == (if e2 < 0.0 then e2 else e2 - Amount(down, qty) - TripCost(config, qty, down))
            && e6 == (if e4 < 0.0 then e4 else e4 - Amount(loss, qty) - TripCost(config, qty, loss))
  {
    RuinousBars(down, loss);
    RuinousSignals(config, params, down, loss);
    hide After, TripCost, SignalAt, MonthlyBars, Amount;
    ThreeTrips(Ruinous(config, params, down, loss));
  }

  lemma SidesOfSignals()
    ensures forall x: real :: SideOf(Buy).Signed(x) == x && SideOf(Sell).Signed(x) == -x
  {
  }

  lemma RuinousBars(down: real, loss: real)
    ensures var bars := MonthlyBars([0.0, 1.0, 0.0, down, 0.0, loss]);
            && |bars| == 6 && bars[0].close == bars[2].close == bars[4].close == 0.0
            && bars[1].close == 1.0 && bars[3].close == down && bars[5].close == loss
            && bars[1].volatility.None? && bars[3].volatility.None? && bars[5].volatility.None?
  {
  }

  /** Prices at which the second trip uses up the capital and the gain of the first, and the third outweighs all costs. */
  lemma RuinousPrices(config: Config, qty: real) returns (down: real, loss: real)
    requires NonNegativeSettings(config, qty) && config.initialCapital >= 0.0
    ensures down >= 0.0 && loss >= 0.0
    ensures Amount(1.0, qty) == qty && Amount(down, qty) == config.initialCapital + qty
    ensures TripCost(config, qty, 1.0) >= 0.0 && TripCost(config, qty, down) >= 0.0
    ensures Amount(loss, qty) == TripCost(config, qty, 1.0) + TripCost(config, qty, down) + 1.0
  {
    hide TripCost;
    down := (config.initialCapital + qty) / qty;
    QuotientTimes(config.initialCapital + qty, qty);
    var first, second := TripCost(config, qty, 1.0), TripCost(config, qty, down);
    TripCostNotNegative(config, qty, 1.0);
    TripCostNotNegative(config, qty, down);
    loss := (first + second + 1.0) / qty;
    QuotientTimes(first + second + 1.0, qty);
  }

  /** Whoever pays something on the first trip is under water before the third, and misses it. */
  lemma RuinousArithmetic(
    capital: real, qty: real, first: real, second: real, e2: real, e4: real, e6: real, down: real, loss: real, third: real)
    requires capital >= 0.0 && qty > 0.0 && first > 0.0 && second >= 0.0
    requires down == capital + qty && loss == first + second + 1.0
    requires e2 == capital + qty - first
    requires e4 == if e2 < 0.0 then e2 else e2 - down - second
    requires e6 == if e4 < 0.0 then e4 else e4 - loss - third
    ensures e6 > -loss
  {
  }

  lemma RuinousFreeRuns(config: Config, params: Params, down: real, loss: real)
    requires NonNegativeSettings(config, Size(params)) && config.margin && config.initialCapital >= 0.0
    requires down >= 0.0 && loss >= 0.0
    requires Amount(1.0, Size(params)) == Size(params) && Amount(down, Size(params)) == config.initialCapital + Size(params)
    ensures var free, qty := Ruinous(config.(commission := false, slippage := false), params, down, loss), Size(params);
            |free.bars| == 6 && After(free, 6).equity == -Amount(loss, qty)
  {
    var qty := Size(params);
    assert qty > 0.0;
    hide *;
    TripCostNotNegative(config, qty, 1.0);
    TripCostNotNegative(config, qty, down);
    TripCostNotNegative(config, qty, loss);
    RuinousTrips(config.(commission := false, slippage := false), params, down, loss);
  }

  /** The costed run is under water before the third trip and misses it; the cost-free one takes its loss. */
  lemma RuinousEnds(config: Config, params: Params) returns (down: real, loss: real)
    requires NonNegativeSettings(config, Size(params))
    requires config.margin && config.initialCapital >= 0.0 && CostsSomething(config, Size(params))
    ensures down >= 0.0 && loss >= 0.0
    ensures var sim := Ruinous(config, params, down, loss);
            var free := Ruinous(config.(commission := false, slippage := false), params, down, loss);
            |sim.bars| == |free.bars| == 6 && After(sim, 6).equity > After(free, 6).equity
  {
    var qty := Size(params);
    assert qty > 0.0;
    hide *;
    down, loss := RuinousPrices(config, qty);
    TripCostNotNegative(config, qty, 1.0);
    RuinousTrips(config, params, down, loss);
    RuinousFreeRuns(config, params, down, loss);
    var sim := Ruinous(config, params, down, loss);
    RuinousArithmetic(config.initialCapital, qty, TripCost(config, qty, 1.0), TripCost(config, qty, down),
                      After(sim, 2).equity, After(sim, 4).equity, After(sim, 6).equity,
                      Amount(down, qty), Amount(loss, qty), TripCost(config, qty, loss));
  }

  lemma RuinousHelps(config: Config, params: Params)
    requires NonNegativeSettings(config, Size(params))
    requires config.margin && config.initialCapital >= 0.0 && CostsSomething(config, Size(params))
    ensures CostsCanHelp(config, params)
  {
    hide CostsSomething, After, MonthlyBars, TripCost, NonNegativeSettings;
    var down, loss := RuinousEnds(config, params);
    var sim := Ruinous(config, params, down, loss);
    RuinousBars(down, loss);
    CurvePoint(sim, 5);
    CurvePoint(CostFree(sim), 5);
    assert CostsHelpAt(sim, 5);
    assert CostsHelp(sim) && NonNegativePrices(sim.bars);
  }

  /**
   Costs can help under some strategy and series exactly when the margin check is on, the capital is not
   negative, and a round trip costs anything.
   */
  lemma CostsCanHelpIff(config: Config, params: Params)
    requires NonNegativeSettings(config, Size(params))
    ensures CostsCanHelp(config, params) <==>
              (config.margin && config.initialCapital >= 0.0 && CostsSomething(config, Size(params)))
  {
    hide CostsSomething, NonNegativeSettings, NonNegativePrices, CostsHelpAt;
    if config.margin && config.initialCapital >= 0.0 && CostsSomething(config, Size(params)) {
      RuinousHelps(config, params);
    } else {
      forall strategy, bars | NonNegativePrices(bars) ensures !CostsHelp(Simulation(config, strategy, params, bars)) {
        var sim := Simulation(config, strategy, params, bars);
        forall i | 0 <= i < |bars| ensures !CostsHelpAt(sim, i) {
          SoundSettingsNeverHelp(sim, i);
        }
      }
    }
  }
}
