/**
 The bar-by-bar backtest: cost models, the position state machine and the result it reports.
 Prices, quantities and money are `real`; the strategy is any function of the bars seen so far.
 */
module Backtest {
  import opened Sequences
  import opened Timestamps

  datatype Signal = Buy | Sell | Close | Hold

  datatype Bar = Bar(time: Timestamp, close: real, volatility: Option<real>)

  type Params = map<string, real>

  type Strategy = (seq<Bar>, Params) -> Signal

  datatype CommissionModel = CommissionModel(perLot: real, minimum: real) {
    function Calculate(volume: real, price: real): real {
      Max(minimum, Abs(volume) * perLot)
    }
  }

  datatype SlippageModel = SlippageModel(base: real, volatilityMultiplier: bool, log1p: real -> real) {
    function Calculate(price: real, volume: real, volatility: Option<real>): real {
      var mult := 1.0 + if volatilityMultiplier && volatility.Some? then Abs(volatility.value) else 0.0;
      price * base * mult * log1p(Abs(volume))
    }
  }

  datatype MarginModel = MarginModel(forexRate: real) {
    function CalculateRequired(volume: real, price: real): real {
      Abs(volume * price) * forexRate
    }
  }

  /** The engine's models and the switches of one call to `run`. */
  datatype Config = Config(
    commissionModel: CommissionModel, slippageModel: SlippageModel, marginModel: MarginModel,
    commission: bool, slippage: bool, margin: bool, initialCapital: real)

  datatype Side = Long | Short {
    /** `x * (1 if side == "buy" else -1)` */
    function Signed(x: real): real {
      if this == Long then x else -x
    }
  }

  datatype Position = Position(side: Side, qty: real, entry: real, time: Timestamp)

  datatype Trade = Trade(
    entryTime: Timestamp, exitTime: Timestamp, side: Side, entry: real, exit: real, qty: real,
    pnl: real, commission: real)

  datatype State = State(equity: real, curve: seq<real>, trades: seq<Trade>, position: Option<Position>)

  /** One simulation: configuration, strategy with its parameters, and the bars in time order. */
  datatype Simulation = Simulation(config: Config, strategy: Strategy, params: Params, bars: seq<Bar>)

  function Size(params: Params): real {
    if "size" in params then params["size"] else 1.0
  }

  function SlippageAt(config: Config, bar: Bar, qty: real): real {
    if config.slippage then config.slippageModel.Calculate(bar.close, qty, bar.volatility) else 0.0
  }

  function FeeAt(config: Config, qty: real, price: real): real {
    if config.commission then config.commissionModel.Calculate(qty, price) else 0.0
  }

  function SideOf(signal: Signal): Side
    requires signal == Buy || signal == Sell
  {
    if signal == Buy then Long else Short
  }

  function EntryPrice(config: Config, bar: Bar, side: Side, qty: real): real {
    bar.close + side.Signed(SlippageAt(config, bar, qty))
  }

  function ExitPrice(config: Config, bar: Bar, side: Side, qty: real): real {
    bar.close - side.Signed(SlippageAt(config, bar, qty))
  }

  function GrossPnl(side: Side, entry: real, exit: real, qty: real): real {
    side.Signed((exit - entry) * qty)
  }

  /** The body of the bar loop. */
  function Step(config: Config, params: Params, signal: Signal, bar: Bar, st: State): State {
    if st.position.None? && (signal == Buy || signal == Sell) then
      var qty := Size(params);
      var side := SideOf(signal);
      if config.margin && config.marginModel.CalculateRequired(qty, bar.close) > st.equity then
        st.(curve := st.curve + [st.equity])
      else
        st.(position := Some(Position(side, qty, EntryPrice(config, bar, side, qty), bar.time)),
            curve := st.curve + [st.equity])
    else if st.position.Some? && signal == Close then
      var p := st.position.value;
      var exit := ExitPrice(config, bar, p.side, p.qty);
      var fee := FeeAt(config, p.qty, exit);
      var pnl := GrossPnl(p.side, p.entry, exit, p.qty) - fee;
      var equity := st.equity + pnl;
      State(equity, st.curve + [equity],
            st.trades + [Trade(p.time, bar.time, p.side, p.entry, exit, p.qty, pnl, fee)], None)
    else
      st.(curve := st.curve + [st.equity])
  }

  /** The state after the first `n` bars. */
  function After(sim: Simulation, n: nat): (st: State)
    requires n <= |sim.bars|
    ensures |st.curve| == n
  {
    if n == 0 then State(sim.config.initialCapital, [], [], None)
    else Step(sim.config, sim.params, SignalAt(sim, n - 1), sim.bars[n - 1], After(sim, n - 1))
  }

  /** The strategy sees the bars up to and including bar `i`. */
  function SignalAt(sim: Simulation, i: nat): Signal
    requires i < |sim.bars|
  {
    sim.strategy(sim.bars[..i + 1], sim.params)
  }

  function Final(sim: Simulation): State {
    After(sim, |sim.bars|)
  }

  function SortBars(data: seq<Bar>): seq<Bar> {
    Sort(data, BarKey)
  }

  function BarKey(bar: Bar): real {
    bar.time.Key() as real
  }

  // ---------- what `run` reports ----------

  datatype Ratio = Finite(value: real) | Infinite | Undefined

  function Pnls(trades: seq<Trade>): seq<real> {
    Map((t: Trade) => t.pnl, trades)
  }

  function Wins(pnls: seq<real>): seq<real> {
    Filter((x: real) => x > 0.0, pnls)
  }

  function Losses(pnls: seq<real>): seq<real> {
    Filter((x: real) => x <= 0.0, pnls)
  }

  /** `sum(wins) / abs(sum(losses))`, infinite without a losing trade; no value when every loss is zero. */
  function ProfitFactor(pnls: seq<real>): Ratio {
    if Losses(pnls) == [] then Infinite
    else if Sum(Losses(pnls)) == 0.0 then Undefined
    else Finite(Sum(Wins(pnls)) / Abs(Sum(Losses(pnls))))
  }

  /** The largest of the first `n` points, a running maximum. */
  function Peak(curve: seq<real>, n: nat): (r: real)
    requires 0 < n <= |curve|
    ensures r in curve[..n]
    ensures forall i :: 0 <= i < n ==> curve[i] <= r
  {
    if n == 1 then curve[0] else Max(Peak(curve, n - 1), curve[n - 1])
  }

  function DrawdownAt(curve: seq<real>, i: nat): real
    requires i < |curve| && curve[0] > 0.0
  {
    curve[i] / Peak(curve, i + 1) - 1.0
  }

  /** The least of the first `n` drawdown points. */
  function DeepestDrawdown(curve: seq<real>, n: nat): real
    requires 0 < n <= |curve| && curve[0] > 0.0
  {
    if n == 1 then DrawdownAt(curve, 0)
    else
      var d := DeepestDrawdown(curve, n - 1);
      if DrawdownAt(curve, n - 1) < d then DrawdownAt(curve, n - 1) else d
  }

  /** The reported figure is the absolute value of the deepest point, 0 for an empty curve. */
  function MaxDrawdown(curve: seq<real>): real
    requires curve == [] || curve[0] > 0.0
  {
    if curve == [] then 0.0 else Abs(DeepestDrawdown(curve, |curve|))
  }

  datatype BacktestResult = BacktestResult(
    initialCapital: real, finalCapital: real, totalReturn: Ratio, maxDrawdown: Ratio,
    profitFactor: Ratio, totalTrades: nat, winningTrades: nat, losingTrades: nat,
    equityCurve: seq<real>, trades: seq<Trade>)

  function Report(initialCapital: real, curve: seq<real>, trades: seq<Trade>): BacktestResult {
    var final := if curve == [] then initialCapital else curve[|curve| - 1];
    BacktestResult(
      initialCapital, final,
      if curve == [] then Finite(0.0)
      else if initialCapital == 0.0 then Undefined
      else Finite(final / initialCapital - 1.0),
      if curve == [] || curve[0] > 0.0 then Finite(MaxDrawdown(curve)) else Undefined,
      ProfitFactor(Pnls(trades)), |trades|, |Wins(Pnls(trades))|, |Losses(Pnls(trades))|,
      curve, trades)
  }

  /** The bar loop over time-ordered data. */
  method Simulate(config: Config, strategy: Strategy, params: Params, bars: seq<Bar>)
    returns (curve: seq<real>, trades: seq<Trade>)
    ensures curve == Final(Simulation(config, strategy, params, bars)).curve
    ensures trades == Final(Simulation(config, strategy, params, bars)).trades
  {
    hide SlippageModel.Calculate, CommissionModel.Calculate, MarginModel.CalculateRequired, GrossPnl;
    ghost var sim := Simulation(config, strategy, params, bars);
    var equity := config.initialCapital;
    curve, trades := [], [];
    var position: Option<Position> := None;
    for i := 0 to |bars|
      invariant State(equity, curve, trades, position) == After(sim, i)
    {
      var signal := strategy(bars[..i + 1], params);
      var bar := bars[i];
      if position.None? && (signal == Buy || signal == Sell) {
        var qty := Size(params);
        var required := config.marginModel.CalculateRequired(qty, bar.close);
        if config.margin && required > equity {
          curve := curve + [equity];
          continue;
        }
        var entry := bar.close;
        if config.slippage {
          entry := entry + SideOf(signal).Signed(
                     config.slippageModel.Calculate(bar.close, qty, bar.volatility));
        }
        position := Some(Position(SideOf(signal), qty, entry, bar.time));
      } else if position.Some? && signal == Close {
        var p := position.value;
        var exit := bar.close;
        if config.slippage {
          exit := exit - p.side.Signed(
                    config.slippageModel.Calculate(bar.close, p.qty, bar.volatility));
        }
        var pnl := GrossPnl(p.side, p.entry, exit, p.qty);
        var fee := if config.commission then config.commissionModel.Calculate(p.qty, exit) else 0.0;
        pnl := pnl - fee;
        equity := equity + pnl;
        trades := trades + [Trade(p.time, bar.time, p.side, p.entry, exit, p.qty, pnl, fee)];
        position := None;
      }
      curve := curve + [equity];
    }
  }

  /** The engine's entry point: sort the data, run the bar loop, report. */
  method Run(config: Config, strategy: Strategy, params: Params, data: seq<Bar>)
    returns (result: BacktestResult)
    ensures var st := Final(Simulation(config, strategy, params, SortBars(data)));
            result == Report(config.initialCapital, st.curve, st.trades)
  {
    var curve, trades := Simulate(config, strategy, params, SortBars(data));
    result := Report(config.initialCapital, curve, trades);
  }
}
