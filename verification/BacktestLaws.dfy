/**
 Laws of the bar loop over every strategy and every price series: the shape of the trade list,
 conservation of equity, the absence of look-ahead, and the exact price of costs.
 */
module BacktestLaws {
  import opened Sequences
  import opened Timestamps
  import opened Backtest

  // ---------- the shape of the trade list ----------

  /** A closed trade, named by the bars at which it was opened and closed. */
  datatype Fill = Fill(entry: nat, exit: nat)

  predicate Opens(signal: Signal) {
    signal == Buy || signal == Sell
  }

  /** The bar at which the position held after `n` bars was opened. */
  ghost function OpenBar(sim: Simulation, n: nat): (i: nat)
    requires n <= |sim.bars| && After(sim, n).position.Some?
    ensures i < n
  {
    if After(sim, n - 1).position.None? then n - 1 else OpenBar(sim, n - 1)
  }

  ghost function Fills(sim: Simulation, n: nat): (fills: seq<Fill>)
    requires n <= |sim.bars|
  {
    if n == 0 then []
    else if After(sim, n - 1).position.Some? && SignalAt(sim, n - 1) == Close then
      Fills(sim, n - 1) + [Fill(OpenBar(sim, n - 1), n - 1)]
    else Fills(sim, n - 1)
  }

  /** A fill enters on a buy or sell signal and exits at the first close signal after it. */
  ghost predicate FillOk(sim: Simulation, f: Fill) {
    && f.entry < f.exit < |sim.bars|
    && Opens(SignalAt(sim, f.entry))
    && SignalAt(sim, f.exit) == Close
    && forall i :: f.entry < i < f.exit ==> SignalAt(sim, i) != Close
  }

  /** What is bought or sold at a bar, read off the bar and the signal alone. */
  ghost function PositionFrom(sim: Simulation, i: nat): Position
    requires i < |sim.bars| && Opens(SignalAt(sim, i))
  {
    var side, qty := SideOf(SignalAt(sim, i)), Size(sim.params);
    Position(side, qty, EntryPrice(sim.config, sim.bars[i], side, qty), sim.bars[i].time)
  }

  /** The trade record of a fill, read off its two bars alone. */
  ghost function TradeOf(sim: Simulation, f: Fill): Trade
    requires FillOk(sim, f)
  {
    var p := PositionFrom(sim, f.entry);
    var exit := ExitPrice(sim.config, sim.bars[f.exit], p.side, p.qty);
    var fee := FeeAt(sim.config, p.qty, exit);
    Trade(p.time, sim.bars[f.exit].time, p.side, p.entry, exit, p.qty,
          GrossPnl(p.side, p.entry, exit, p.qty) - fee, fee)
  }

  lemma {:induction false} OpenPositionIsFromItsBar(sim: Simulation, n: nat)
    requires n <= |sim.bars| && After(sim, n).position.Some?
    ensures Opens(SignalAt(sim, OpenBar(sim, n)))
    ensures After(sim, n).position.value == PositionFrom(sim, OpenBar(sim, n))
    ensures forall i :: OpenBar(sim, n) < i < n ==> SignalAt(sim, i) != Close
  {
    hide SlippageModel.Calculate, CommissionModel.Calculate, MarginModel.CalculateRequired, GrossPnl;
    if After(sim, n - 1).position.Some? {
      OpenPositionIsFromItsBar(sim, n - 1);
    }
  }

  ghost predicate FillsOrdered(fills: seq<Fill>) {
    forall j, k :: 0 <= j < k < |fills| ==> fills[j].exit < fills[k].entry
  }

  /** Trades never overlap: each closes before the next one opens. */
  lemma {:induction false} FillsAreOrdered(sim: Simulation, n: nat)
    requires n <= |sim.bars|
    ensures forall f :: f in Fills(sim, n) ==> FillOk(sim, f) && f.exit < n
    ensures FillsOrdered(Fills(sim, n))
    ensures After(sim, n).position.Some? ==> forall f :: f in Fills(sim, n) ==> f.exit < OpenBar(sim, n)
  {
    hide SlippageModel.Calculate, CommissionModel.Calculate, MarginModel.CalculateRequired, GrossPnl;
    if n > 0 {
      FillsAreOrdered(sim, n - 1);
      if After(sim, n - 1).position.Some? {
        OpenPositionIsFromItsBar(sim, n - 1);
      }
    }
  }

  /** A bar either closes the open position as a fill and pays it out, or leaves trades and equity alone. */
  lemma BarSettlesOrLeaves(sim: Simulation, n: nat)
    requires 0 < n <= |sim.bars|
    ensures Fills(sim, n) != Fills(sim, n - 1) ==>
              && Fills(sim, n) != []
              && var f := Fills(sim, n)[|Fills(sim, n)| - 1];
              && Fills(sim, n) == Fills(sim, n - 1) + [f]
              && FillOk(sim, f)
              && After(sim, n).trades == After(sim, n - 1).trades + [TradeOf(sim, f)]
              && After(sim, n).equity == After(sim, n - 1).equity + TradeOf(sim, f).pnl
    ensures Fills(sim, n) == Fills(sim, n - 1) ==>
              After(sim, n).trades == After(sim, n - 1).trades && After(sim, n).equity == After(sim, n - 1).equity
  {
    hide *;
    if Closes(sim, n - 1) {
      BarSettles(sim, n);
    } else {
      BarLeaves(sim, n);
    }
  }

  predicate Closes(sim: Simulation, i: nat)
    requires i < |sim.bars|
  {
    After(sim, i).position.Some? && SignalAt(sim, i) == Close
  }

  lemma BarSettles(sim: Simulation, n: nat)
    requires 0 < n <= |sim.bars| && Closes(sim, n - 1)
    ensures var f := Fill(OpenBar(sim, n - 1), n - 1);
            && Fills(sim, n) == Fills(sim, n - 1) + [f]
            && FillOk(sim, f)
            && After(sim, n).trades == After(sim, n - 1).trades + [TradeOf(sim, f)]
            && After(sim, n).equity == After(sim, n - 1).equity + TradeOf(sim, f).pnl
  {
    hide SlippageModel.Calculate, CommissionModel.Calculate, MarginModel.CalculateRequired, GrossPnl;
    OpenPositionIsFromItsBar(sim, n - 1);
  }

  lemma BarLeaves(sim: Simulation, n: nat)
    requires 0 < n <= |sim.bars| && !Closes(sim, n - 1)
    ensures Fills(sim, n) == Fills(sim, n - 1)
    ensures After(sim, n).trades == After(sim, n - 1).trades && After(sim, n).equity == After(sim, n - 1).equity
  {
    hide SlippageModel.Calculate, CommissionModel.Calculate, MarginModel.CalculateRequired, GrossPnl;
  }

  /** Every trade is exactly what its two bars say. */
  lemma {:induction false} TradesAreFills(sim: Simulation, n: nat)
    requires n <= |sim.bars|
    ensures |After(sim, n).trades| == |Fills(sim, n)|
    ensures forall k :: 0 <= k < |Fills(sim, n)| ==>
              FillOk(sim, Fills(sim, n)[k]) && After(sim, n).trades[k] == TradeOf(sim, Fills(sim, n)[k])
  {
    if n > 0 {
      hide *;
      TradesAreFills(sim, n - 1);
      BarSettlesOrLeaves(sim, n);
    }
  }

  /** Every trade uses up two bars of its own. */
  lemma {:induction false} TwoBarsPerTrade(sim: Simulation, n: nat)
    requires n <= |sim.bars|
    ensures 2 * |After(sim, n).trades| + (if After(sim, n).position.Some? then 1 else 0) <= n
  {
    hide SlippageModel.Calculate, CommissionModel.Calculate, MarginModel.CalculateRequired, GrossPnl;
    if n > 0 {
      TwoBarsPerTrade(sim, n - 1);
    }
  }

  // ---------- conservation of equity ----------

  lemma {:induction false} EquityIsCapitalPlusPnl(sim: Simulation, n: nat)
    requires n <= |sim.bars|
    ensures After(sim, n).equity == sim.config.initialCapital + Sum(Pnls(After(sim, n).trades))
  {
    if n > 0 {
      EquityIsCapitalPlusPnl(sim, n - 1);
      BarSettlesOrLeaves(sim, n);
      hide *;
      if Fills(sim, n) != Fills(sim, n - 1) {
        PnlsAppend(After(sim, n - 1).trades, TradeOf(sim, Fills(sim, n)[|Fills(sim, n)| - 1]));
      }
    }
  }

  lemma PnlsAppend(trades: seq<Trade>, t: Trade)
    ensures Sum(Pnls(trades + [t])) == Sum(Pnls(trades)) + t.pnl
  {
    MapAppend((t: Trade) => t.pnl, trades, t);
    SumAppend(Pnls(trades), t.pnl);
  }

  /** One more run of bars only extends the curve and the trade list. */
  lemma {:induction false} RunsExtend(sim: Simulation, k: nat, n: nat)
    requires k <= n <= |sim.bars|
    ensures After(sim, k).curve <= After(sim, n).curve
    ensures After(sim, k).trades <= After(sim, n).trades
    decreases n - k
  {
    hide SlippageModel.Calculate, CommissionModel.Calculate, MarginModel.CalculateRequired, GrossPnl;
    if k < n {
      RunsExtend(sim, k, n - 1);
    }
  }

  lemma LastPointIsEquity(sim: Simulation, n: nat)
    requires 0 < n <= |sim.bars|
    ensures After(sim, n).curve[n - 1] == After(sim, n).equity
  {
    hide SlippageModel.Calculate, CommissionModel.Calculate, MarginModel.CalculateRequired, GrossPnl;
  }

  /** Every bar adds one point: the initial capital plus the pnl of the trades closed so far. */
  lemma EquityIsConserved(sim: Simulation, i: nat)
    requires i < |sim.bars|
    ensures |Final(sim).curve| == |sim.bars|
    ensures After(sim, i + 1).trades <= Final(sim).trades
    ensures Final(sim).curve[i] == sim.config.initialCapital + Sum(Pnls(After(sim, i + 1).trades))
  {
    RunsExtend(sim, i + 1, |sim.bars|);
    LastPointIsEquity(sim, i + 1);
    EquityIsCapitalPlusPnl(sim, i + 1);
  }

  /** Nothing can be closed at the first bar, so the curve starts at the initial capital. */
  lemma CurveStartsAtCapital(sim: Simulation)
    requires sim.bars != []
    ensures Final(sim).curve[0] == sim.config.initialCapital
  {
    EquityIsConserved(sim, 0);
    TwoBarsPerTrade(sim, 1);
  }

  // ---------- wins, losses and the profit factor ----------

  lemma {:induction false} WinsAndLossesPartition(pnls: seq<real>)
    ensures Sum(Wins(pnls)) + Sum(Losses(pnls)) == Sum(pnls)
    ensures |Wins(pnls)| + |Losses(pnls)| == |pnls|
    ensures Sum(Wins(pnls)) >= 0.0 && Sum(Losses(pnls)) <= 0.0
    ensures Wins(pnls) != [] ==> Sum(Wins(pnls)) > 0.0
  {
    if pnls != [] {
      var init, last := pnls[..|pnls| - 1], pnls[|pnls| - 1];
      WinsAndLossesPartition(init);
      SumAppend(Wins(init), last);
      SumAppend(Losses(init), last);
    }
  }

  lemma {:induction false} RatioAboveOne(a: real, b: real)
    requires b > 0.0
    ensures a / b > 1.0 <==> a > b
    ensures a / b == 1.0 <==> a == b
  {
    var q := a / b;
    assert q * b == a;
    assert (q - 1.0) * b == a - b;
  }

  /** The profit factor tells, whenever it is a number, on which side of the capital the run ended. */
  lemma ProfitFactorTellsTheOutcome(sim: Simulation)
    requires sim.bars != []
    ensures var result := Report(sim.config.initialCapital, Final(sim).curve, Final(sim).trades);
            && (result.profitFactor.Finite? ==>
                  && (result.profitFactor.value > 1.0 <==> result.finalCapital > result.initialCapital)
                  && (result.profitFactor.value == 1.0 <==> result.finalCapital == result.initialCapital))
            && (result.profitFactor.Infinite? ==>
                  (result.finalCapital > result.initialCapital <==> result.totalTrades > 0))
            && (result.profitFactor.Undefined? ==> result.finalCapital >= result.initialCapital)
            && result.winningTrades + result.losingTrades == result.totalTrades
            && 2 * result.totalTrades <= |sim.bars|
  {
    var st := Final(sim);
    var pnls := Pnls(st.trades);
    EquityIsConserved(sim, |sim.bars| - 1);
    WinsAndLossesPartition(pnls);
    TwoBarsPerTrade(sim, |sim.bars|);
    if ProfitFactor(pnls).Finite? {
      RatioAboveOne(Sum(Wins(pnls)), Abs(Sum(Losses(pnls))));
    } else if pnls == [] {
      assert Sum(pnls) == 0.0;
    }
  }

  // ---------- no look-ahead ----------

  lemma {:induction false} PrefixRunsAlike(sim: Simulation, k: nat, n: nat)
    requires n <= k <= |sim.bars|
    ensures After(sim.(bars := sim.bars[..k]), n) == After(sim, n)
  {
    hide SlippageModel.Calculate, CommissionModel.Calculate, MarginModel.CalculateRequired, GrossPnl;
    if n > 0 {
      PrefixRunsAlike(sim, k, n - 1);
      assert sim.bars[..k][..n] == sim.bars[..n];
    }
  }

  /** Running on the first `k` bars gives the first `k` points of the full curve and a prefix of its trades. */
  lemma NoLookAhead(sim: Simulation, k: nat)
    requires k <= |sim.bars|
    ensures Final(sim.(bars := sim.bars[..k])).curve == Final(sim).curve[..k]
    ensures Final(sim.(bars := sim.bars[..k])).trades <= Final(sim).trades
  {
    PrefixRunsAlike(sim, k, k);
    RunsExtend(sim, k, |sim.bars|);
  }

  // ---------- when costs move trades ----------

  ghost function CostFree(sim: Simulation): Simulation {
    sim.(config := sim.config.(commission := false, slippage := false))
  }

  /** The margin check at a bar turns an opening signal away. */
  predicate Refuses(sim: Simulation, i: nat)
    requires i < |sim.bars|
  {
    sim.config.margin
    && sim.config.marginModel.CalculateRequired(Size(sim.params), sim.bars[i].close) > After(sim, i).equity
  }

  /** At each of the first `n` bars that finds the run flat and signals an opening, both runs' margin checks answer alike. */
  ghost predicate ChecksAgree(sim: Simulation, n: nat)
    requires n <= |sim.bars|
  {
    forall i :: 0 <= i < n && After(sim, i).position.None? && Opens(SignalAt(sim, i)) ==>
      Refuses(CostFree(sim), i) == Refuses(sim, i)
  }

  ghost predicate SamePositions(sim: Simulation, n: nat)
    requires n <= |sim.bars|
  {
    forall m :: 0 <= m <= n ==> After(CostFree(sim), m).position.Some? == After(sim, m).position.Some?
  }

  lemma WithoutMarginChecksAgree(sim: Simulation, n: nat)
    requires n <= |sim.bars| && !sim.config.margin
    ensures ChecksAgree(sim, n)
  {
  }

  /** What the next bar does to the position and the fills of a run, from its signal and its margin check alone. */
  lemma PositionStep(sim: Simulation, n: nat)
    requires n < |sim.bars|
    ensures After(sim, n + 1).position.Some? <==>
              if After(sim, n).position.Some? then SignalAt(sim, n) != Close
              else Opens(SignalAt(sim, n)) && !Refuses(sim, n)
    ensures After(sim, n + 1).position.Some? ==>
              OpenBar(sim, n + 1) == if After(sim, n).position.None? then n else OpenBar(sim, n)
    ensures Fills(sim, n + 1) == if After(sim, n).position.Some? && SignalAt(sim, n) == Close
                                   then Fills(sim, n) + [Fill(OpenBar(sim, n), n)] else Fills(sim, n)
  {
    hide SlippageModel.Calculate, CommissionModel.Calculate, MarginModel.CalculateRequired, GrossPnl;
  }

  /** While the checks agree, costs change neither when positions are opened nor when they are closed. */
  lemma {:induction false} CostsMoveNoTrade(sim: Simulation, n: nat)
    requires n <= |sim.bars| && ChecksAgree(sim, n)
    ensures After(CostFree(sim), n).position.Some? == After(sim, n).position.Some?
    ensures After(sim, n).position.Some? ==> OpenBar(CostFree(sim), n) == OpenBar(sim, n)
    ensures Fills(CostFree(sim), n) == Fills(sim, n)
  {
    hide *;
    if n == 0 {
      RunsAtStart(sim);
      RunsAtStart(CostFree(sim));
    } else {
      ChecksAgreeBefore(sim, n - 1);
      CostsMoveNoTrade(sim, n - 1);
      PositionStep(sim, n - 1);
      PositionStep(CostFree(sim), n - 1);
    }
  }

  lemma ChecksAgreeBefore(sim: Simulation, n: nat)
    requires n < |sim.bars|
    ensures |CostFree(sim).bars| == |sim.bars| && SignalAt(CostFree(sim), n) == SignalAt(sim, n)
    ensures ChecksAgree(sim, n + 1) <==>
              (ChecksAgree(sim, n)
               && (After(sim, n).position.None? && Opens(SignalAt(sim, n)) ==> Refuses(CostFree(sim), n) == Refuses(sim, n)))
  {
    hide After, Refuses, Opens, SignalAt;
    assert SignalAt(CostFree(sim), n) == SignalAt(sim, n) by { SignalsDependOnPrices(sim, n); }
  }

  lemma SignalsDependOnPrices(sim: Simulation, n: nat)
    requires n < |sim.bars|
    ensures SignalAt(CostFree(sim), n) == SignalAt(sim, n)
  {
  }

  /** Costs move no position exactly when they change no answer of the margin check. */
  lemma SamePositionsIff(sim: Simulation, n: nat)
    requires n <= |sim.bars|
    ensures SamePositions(sim, n) <==> ChecksAgree(sim, n)
  {
    hide After, Refuses;
    if ChecksAgree(sim, n) {
      forall m | 0 <= m <= n ensures After(CostFree(sim), m).position.Some? == After(sim, m).position.Some? {
        CostsMoveNoTrade(sim, m);
      }
    }
    if SamePositions(sim, n) {
      forall i | 0 <= i < n && After(sim, i).position.None? && Opens(SignalAt(sim, i))
        ensures Refuses(CostFree(sim), i) == Refuses(sim, i)
      {
        assert After(CostFree(sim), i).position.Some? == After(sim, i).position.Some?;
        assert After(CostFree(sim), i + 1).position.Some? == After(sim, i + 1).position.Some?;
        PositionStep(sim, i);
        PositionStep(CostFree(sim), i);
      }
    }
  }

  // ---------- the exact price of costs ----------

  /** (entry slip + exit slip) * qty + fee, from the two bars of a fill. */
  ghost function FillCost(sim: Simulation, f: Fill): real {
    if !FillOk(sim, f) then 0.0
    else
      var qty := Size(sim.params);
      var side := SideOf(SignalAt(sim, f.entry));
      var entry, exit := sim.bars[f.entry], sim.bars[f.exit];
      (SlippageAt(sim.config, entry, qty) + SlippageAt(sim.config, exit, qty)) * qty
        + FeeAt(sim.config, qty, ExitPrice(sim.config, exit, side, qty))
  }

  /** What a fill makes at the closing prices of its two bars. */
  ghost function FillGross(sim: Simulation, f: Fill): real {
    if !FillOk(sim, f) then 0.0
    else GrossPnl(SideOf(SignalAt(sim, f.entry)), sim.bars[f.entry].close, sim.bars[f.exit].close, Size(sim.params))
  }

  ghost function CostsPaid(sim: Simulation, n: nat): real
    requires n <= |sim.bars|
  {
    Sum(Map((f: Fill) => FillCost(sim, f), Fills(sim, n)))
  }

  ghost function GrossProfit(sim: Simulation, n: nat): real
    requires n <= |sim.bars|
  {
    Sum(Map((f: Fill) => FillGross(sim, f), Fills(sim, n)))
  }

  lemma SlippedPnl(side: Side, entry: real, exit: real, slipIn: real, slipOut: real, qty: real)
    ensures GrossPnl(side, entry + side.Signed(slipIn), exit - side.Signed(slipOut), qty)
              == GrossPnl(side, entry, exit, qty) - (slipIn + slipOut) * qty
  {
    var g := exit - entry;
    var c := slipIn + slipOut;
    assert (g - c) * qty == g * qty - c * qty;
    assert (g + c) * qty == g * qty + c * qty;
  }

  lemma TradeIsGrossMinusCost(sim: Simulation, f: Fill)
    requires FillOk(sim, f)
    ensures TradeOf(sim, f).pnl == FillGross(sim, f) - FillCost(sim, f)
  {
    hide SlippageModel.Calculate, CommissionModel.Calculate, MarginModel.CalculateRequired;
    var qty, side := Size(sim.params), SideOf(SignalAt(sim, f.entry));
    var entry, exit := sim.bars[f.entry], sim.bars[f.exit];
    SlippedPnl(side, entry.close, exit.close, SlippageAt(sim.config, entry, qty), SlippageAt(sim.config, exit, qty), qty);
  }

  lemma MapSumAppend(g: Fill -> real, fills: seq<Fill>, f: Fill)
    ensures Sum(Map(g, fills + [f])) == Sum(Map(g, fills)) + g(f)
  {
    MapAppend(g, fills, f);
    SumAppend(Map(g, fills), g(f));
  }

  lemma FillIsBooked(sim: Simulation, n: nat, f: Fill)
    requires 0 < n <= |sim.bars| && Fills(sim, n) == Fills(sim, n - 1) + [f]
    ensures CostsPaid(sim, n) == CostsPaid(sim, n - 1) + FillCost(sim, f)
    ensures GrossProfit(sim, n) == GrossProfit(sim, n - 1) + FillGross(sim, f)
  {
    hide FillCost, FillGross, Fills;
    MapSumAppend((f: Fill) => FillCost(sim, f), Fills(sim, n - 1), f);
    MapSumAppend((f: Fill) => FillGross(sim, f), Fills(sim, n - 1), f);
  }

  /** Equity is the capital plus the gross profit minus the costs of the trades closed so far. */
  lemma {:induction false} EquityIsGrossMinusCosts(sim: Simulation, n: nat)
    requires n <= |sim.bars|
    ensures After(sim, n).equity == sim.config.initialCapital + GrossProfit(sim, n) - CostsPaid(sim, n)
  {
    if n > 0 {
      EquityIsGrossMinusCosts(sim, n - 1);
      BarSettlesOrLeaves(sim, n);
      if Fills(sim, n) == Fills(sim, n - 1) {
        hide After, FillCost, FillGross, Fills;
      } else {
        hide *;
        var f := Fills(sim, n)[|Fills(sim, n)| - 1];
        FillIsBooked(sim, n, f);
        TradeIsGrossMinusCost(sim, f);
      }
    }
  }

  lemma {:induction false} SumOfZeros(s: seq<real>)
    requires forall i :: 0 <= i < |s| ==> s[i] == 0.0
    ensures Sum(s) == 0.0
  {
    if s != [] {
      SumOfZeros(s[..|s| - 1]);
    }
  }

  /** A fill means the same bars and prices in both runs, and costs nothing in the cost-free one. */
  lemma FillWithoutCosts(sim: Simulation, f: Fill)
    ensures FillCost(CostFree(sim), f) == 0.0
    ensures FillGross(CostFree(sim), f) == FillGross(sim, f)
  {
    hide MarginModel.CalculateRequired, GrossPnl;
    forall i | 0 <= i < |sim.bars| ensures SignalAt(CostFree(sim), i) == SignalAt(sim, i) {
    }
  }

  lemma NothingPaidWithoutCosts(sim: Simulation, n: nat)
    requires n <= |sim.bars|
    ensures CostsPaid(CostFree(sim), n) == 0.0
  {
    var free := CostFree(sim);
    var costs := Map((f: Fill) => FillCost(free, f), Fills(free, n));
    forall k | 0 <= k < |costs| ensures costs[k] == 0.0 {
      FillWithoutCosts(sim, Fills(free, n)[k]);
    }
    SumOfZeros(costs);
  }

  lemma SameFillsSameGross(sim: Simulation, n: nat)
    requires n <= |sim.bars| && Fills(CostFree(sim), n) == Fills(sim, n)
    ensures GrossProfit(CostFree(sim), n) == GrossProfit(sim, n)
  {
    var free, fills := CostFree(sim), Fills(sim, n);
    forall k | 0 <= k < |fills| ensures FillGross(free, fills[k]) == FillGross(sim, fills[k]) {
      FillWithoutCosts(sim, fills[k]);
    }
    assert Map((f: Fill) => FillGross(free, f), fills) == Map((f: Fill) => FillGross(sim, f), fills);
  }

  /** In every run, the cost-free curve is ahead by the costs paid and by what its other trades make more. */
  lemma CostGap(sim: Simulation, i: nat)
    requires i < |sim.bars|
    ensures Final(CostFree(sim)).curve[i] - Final(sim).curve[i]
              == CostsPaid(sim, i + 1) + (GrossProfit(CostFree(sim), i + 1) - GrossProfit(sim, i + 1))
  {
    hide GrossProfit, CostsPaid, Step;
    var free := CostFree(sim);
    EquityIsGrossMinusCosts(sim, i + 1);
    EquityIsGrossMinusCosts(free, i + 1);
    NothingPaidWithoutCosts(sim, i + 1);
    RunsExtend(sim, i + 1, |sim.bars|);
    RunsExtend(free, i + 1, |sim.bars|);
    LastPointIsEquity(sim, i + 1);
    LastPointIsEquity(free, i + 1);
  }

  /** Costs are accounted for exactly: while the checks agree, same trades on the same bars and a gap of their costs. */
  lemma CostsAreExact(sim: Simulation, i: nat)
    requires i < |sim.bars| && ChecksAgree(sim, i + 1)
    ensures Fills(CostFree(sim), i + 1) == Fills(sim, i + 1)
    ensures Final(CostFree(sim)).curve[i] - Final(sim).curve[i] == CostsPaid(sim, i + 1)
  {
    CostsMoveNoTrade(sim, i + 1);
    SameFillsSameGross(sim, i + 1);
    CostGap(sim, i);
  }

  ghost predicate NonNegativeCosts(sim: Simulation) {
    && Size(sim.params) > 0.0
    && (forall i :: 0 <= i < |sim.bars| ==> sim.bars[i].close >= 0.0)
    && sim.config.slippageModel.base >= 0.0
    && (forall v: real :: v >= 0.0 ==> sim.config.slippageModel.log1p(v) >= 0.0)
    && (sim.config.commissionModel.perLot >= 0.0 || sim.config.commissionModel.minimum >= 0.0)
  }

  lemma FillCostNonNegative(sim: Simulation, f: Fill)
    requires NonNegativeCosts(sim)
    ensures FillCost(sim, f) >= 0.0
  {
    if FillOk(sim, f) {
      var qty := Size(sim.params);
      SlippageNonNegative(sim, f.entry);
      SlippageNonNegative(sim, f.exit);
      FeeNonNegative(sim, ExitPrice(sim.config, sim.bars[f.exit], SideOf(SignalAt(sim, f.entry)), qty));
      ProductNonNegative(
        SlippageAt(sim.config, sim.bars[f.entry], qty) + SlippageAt(sim.config, sim.bars[f.exit], qty), qty);
    }
  }

  lemma SlippageNonNegative(sim: Simulation, i: nat)
    requires NonNegativeCosts(sim) && i < |sim.bars|
    ensures SlippageAt(sim.config, sim.bars[i], Size(sim.params)) >= 0.0
  {
    var model, bar, qty := sim.config.slippageModel, sim.bars[i], Size(sim.params);
    var mult := 1.0 + if model.volatilityMultiplier && bar.volatility.Some? then Abs(bar.volatility.value) else 0.0;
    ProductNonNegative(bar.close, model.base);
    ProductNonNegative(bar.close * model.base, mult);
    ProductNonNegative(bar.close * model.base * mult, model.log1p(Abs(qty)));
  }

  lemma FeeNonNegative(sim: Simulation, price: real)
    requires NonNegativeCosts(sim)
    ensures FeeAt(sim.config, Size(sim.params), price) >= 0.0
  {
    var model := sim.config.commissionModel;
    if model.perLot >= 0.0 {
      ProductNonNegative(Abs(Size(sim.params)), model.perLot);
    }
  }

  lemma {:induction false} SumNonNegative(s: seq<real>)
    requires forall i :: 0 <= i < |s| ==> s[i] >= 0.0
    ensures Sum(s) >= 0.0
  {
    if s != [] {
      SumNonNegative(s[..|s| - 1]);
    }
  }

  lemma CostsPaidNonNegative(sim: Simulation, n: nat)
    requires n <= |sim.bars| && NonNegativeCosts(sim)
    ensures CostsPaid(sim, n) >= 0.0
  {
    var costs := Map((f: Fill) => FillCost(sim, f), Fills(sim, n));
    forall k | 0 <= k < |costs| ensures costs[k] >= 0.0 {
      FillCostNonNegative(sim, Fills(sim, n)[k]);
    }
    SumNonNegative(costs);
  }

  /** With a positive size and non-negative prices and rates, costs never help as long as the margin checks agree. */
  lemma CostsNeverHelp(sim: Simulation, i: nat)
    requires i < |sim.bars| && ChecksAgree(sim, i + 1) && NonNegativeCosts(sim)
    ensures Final(sim).curve[i] <= Final(CostFree(sim)).curve[i]
  {
    CostsAreExact(sim, i);
    CostsPaidNonNegative(sim, i + 1);
  }

  /** So without the margin check they never help at all. */
  lemma CostsNeverHelpWithoutMargin(sim: Simulation, i: nat)
    requires i < |sim.bars| && !sim.config.margin && NonNegativeCosts(sim)
    ensures Fills(CostFree(sim), i + 1) == Fills(sim, i + 1)
    ensures Final(sim).curve[i] <= Final(CostFree(sim)).curve[i]
  {
    WithoutMarginChecksAgree(sim, i + 1);
    CostsAreExact(sim, i);
    CostsNeverHelp(sim, i);
  }

  // ---------- where the margin checks differ ----------

  /** The first time the checks differ, it is the costed run that is refused an opening the other is granted. */
  lemma FirstDifferenceIsARefusal(sim: Simulation, i: nat)
    requires i < |sim.bars| && NonNegativeCosts(sim)
    requires ChecksAgree(sim, i) && !ChecksAgree(sim, i + 1)
    ensures Refuses(sim, i) && !Refuses(CostFree(sim), i)
    ensures After(sim, i).position.None? && Opens(SignalAt(sim, i))
  {
    hide GrossProfit, CostsPaid, Step, NonNegativeCosts;
    EquityIsGrossMinusCosts(sim, i);
    EquityIsGrossMinusCosts(CostFree(sim), i);
    CostsMoveNoTrade(sim, i);
    SameFillsSameGross(sim, i);
    NothingPaidWithoutCosts(sim, i);
    CostsPaidNonNegative(sim, i);
  }

  // ---------- a run in which costs help ----------

  /** A strategy that buys on every odd bar and closes on every even one. */
  function RoundTrip(seen: seq<Bar>, params: Params): Signal {
    if |seen| % 2 == 1 then Buy else Close
  }

  function MonthlyBars(closes: seq<real>): (bars: seq<Bar>)
    ensures |bars| == |closes|
    ensures forall i :: 0 <= i < |bars| ==> bars[i].close == closes[i]
  {
    seq(|closes|, i requires 0 <= i < |closes| => Bar(AddMonths(CalendarTime(2020, 1, 1, 0), i), closes[i], None))
  }

  function RoundTrips(config: Config, closes: seq<real>): Simulation {
    Simulation(config, RoundTrip, map[], MonthlyBars(closes))
  }

  /** Two round trips, the second a loss; a fee of 7 on a capital of 10 leaves too little margin for the second. */
  ghost predicate FeeBlocksALoss(sim: Simulation) {
    && sim.config.initialCapital == 10.0 && sim.config.margin && sim.config.commission && !sim.config.slippage
    && sim.config.marginModel.forexRate == 0.5
    && sim.config.commissionModel == CommissionModel(7.0, 0.0)
    && Size(sim.params) == 1.0
    && |sim.bars| == 4
    && sim.bars[0].close == sim.bars[1].close == sim.bars[2].close == 10.0 && sim.bars[3].close == 1.0
    && SignalAt(sim, 0) == SignalAt(sim, 2) == Buy && SignalAt(sim, 1) == SignalAt(sim, 3) == Close
  }

  lemma OpenIsRefused(sim: Simulation, n: nat)
    requires n < |sim.bars| && After(sim, n).position.None? && SignalAt(sim, n) == Buy && sim.config.margin
    requires sim.config.marginModel.CalculateRequired(Size(sim.params), sim.bars[n].close) > After(sim, n).equity
    ensures After(sim, n + 1).position.None? && After(sim, n + 1).equity == After(sim, n).equity
  {
  }

  lemma OpenIsTaken(sim: Simulation, n: nat)
    requires n < |sim.bars| && After(sim, n).position.None? && SignalAt(sim, n) == Buy && !sim.config.slippage
    requires sim.config.marginModel.CalculateRequired(Size(sim.params), sim.bars[n].close) <= After(sim, n).equity
    ensures After(sim, n + 1).equity == After(sim, n).equity
    ensures After(sim, n + 1).position
              == Some(Position(Long, Size(sim.params), sim.bars[n].close, sim.bars[n].time))
  {
  }

  lemma CloseSettles(sim: Simulation, n: nat)
    requires n < |sim.bars| && After(sim, n).position.Some? && SignalAt(sim, n) == Close && !sim.config.slippage
    requires After(sim, n).position.value.side == Long && After(sim, n).position.value.qty == 1.0
    ensures After(sim, n + 1).position.None?
    ensures After(sim, n + 1).equity == After(sim, n).equity + sim.bars[n].close - After(sim, n).position.value.entry
                                        - FeeAt(sim.config, 1.0, sim.bars[n].close)
  {
  }

  /** The margin check makes equity feed back into trading, and then a costed run can end ahead. */
  lemma MarginCheckCanMakeCostsHelp(sim: Simulation)
    requires FeeBlocksALoss(sim)
    ensures Final(sim).curve[3] == 3.0 && Final(CostFree(sim)).curve[3] == 1.0
  {
    var free := CostFree(sim);
    assert forall i :: 0 <= i < 4 ==> SignalAt(free, i) == SignalAt(sim, i);
    assert sim.config.marginModel.CalculateRequired(1.0, 10.0) == 5.0;
    hide After, FeeBlocksALoss, MarginModel.CalculateRequired;
    RunsAtStart(sim);
    RunsAtStart(free);
    OpenIsTaken(sim, 0);
    CloseSettles(sim, 1);
    OpenIsRefused(sim, 2);
    OpenIsTaken(free, 0);
    CloseSettles(free, 1);
    OpenIsTaken(free, 2);
    CloseSettles(free, 3);
    CloseWhileFlat(sim, 3);
    LastPointIsEquity(sim, 4);
    LastPointIsEquity(free, 4);
  }

  /** The family above is not empty. */
  lemma FeeBlocksALossHappens()
    ensures exists sim :: FeeBlocksALoss(sim)
  {
    var config := Config(CommissionModel(7.0, 0.0), SlippageModel(0.0, false, (x: real) => x), MarginModel(0.5),
                         true, false, true, 10.0);
    var sim := RoundTrips(config, [10.0, 10.0, 10.0, 1.0]);
    assert SignalAt(sim, 0) == Buy && SignalAt(sim, 1) == Close && SignalAt(sim, 2) == Buy && SignalAt(sim, 3) == Close;
    assert FeeBlocksALoss(sim);
  }

  lemma RunsAtStart(sim: Simulation)
    ensures After(sim, 0).position.None? && After(sim, 0).equity == sim.config.initialCapital && Fills(sim, 0) == []
  {
  }

  lemma CloseWhileFlat(sim: Simulation, n: nat)
    requires n < |sim.bars| && After(sim, n).position.None? && SignalAt(sim, n) == Close
    ensures After(sim, n + 1).position.None? && After(sim, n + 1).equity == After(sim, n).equity
  {
  }
}
