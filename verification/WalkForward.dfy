/** Walk-forward analysis: calendar-stepped windows, parameter selection in sample, one run out of sample. */
module WalkForward {
  import opened Sequences
  import opened Timestamps
  import opened Backtest

  /** [start, split) is in sample, [split, end) is out of sample. */
  datatype Window = Window(start: Timestamp, split: Timestamp, end: Timestamp)

  function WindowAt(cursor: Timestamp, years: int, months: int): Window {
    var split := AddYears(cursor, years);
    Window(cursor, split, AddMonths(split, months))
  }

  /** The cursor after `j` month steps; each step clamps the day, so steps need not compose. */
  function Cursor(start: Timestamp, months: int, j: nat): Timestamp {
    if j == 0 then start else AddMonths(Cursor(start, months, j - 1), months)
  }

  function Windows(start: Timestamp, years: int, months: int, j: nat): Window {
    WindowAt(Cursor(start, months, j), years, months)
  }

  /** `df[(df.index >= from) & (df.index < to)]` */
  function Slice(bars: seq<Bar>, from: Timestamp, to: Timestamp): seq<Bar> {
    Filter((b: Bar) => !Before(b.time, from) && Before(b.time, to), bars)
  }

  function InSample(bars: seq<Bar>, w: Window): seq<Bar> {
    Slice(bars, w.start, w.split)
  }

  function OutSample(bars: seq<Bar>, w: Window): seq<Bar> {
    Slice(bars, w.split, w.end)
  }

  predicate Enough(bars: seq<Bar>, w: Window) {
    |InSample(bars, w)| >= 50 && |OutSample(bars, w)| >= 20
  }

  const SHARPE_FLOOR: real := -1000000000.0

  /** The first of the highest scores above the floor. */
  function BestTry(scores: seq<real>): (best: Option<nat>)
    ensures best.None? <==> forall i :: 0 <= i < |scores| ==> scores[i] <= SHARPE_FLOOR
    ensures best.Some? ==> best.value < |scores|
    ensures best.Some? ==> forall i :: 0 <= i < |scores| ==> scores[i] <= scores[best.value]
    ensures best.Some? ==> forall i :: 0 <= i < best.value ==> scores[i] < scores[best.value]
  {
    if scores == [] then None
    else
      var n := |scores| - 1;
      var best := BestTry(scores[..n]);
      var bar := if best.Some? then scores[best.value] else SHARPE_FLOOR;
      if scores[n] > bar then Some(n) else best
  }

  /** Everything a walk-forward run is given: the engine's models, the strategy, random draws and the score. */
  datatype Study = Study(
    config: Config, strategy: Strategy, years: int, months: int, iterations: int,
    paramSpace: bool, draw: (nat, nat) -> Params, sharpe: BacktestResult -> real)
  {
    /** The parameter sets tried for window `j`: one empty set when there is no parameter space. */
    function Tries(j: nat): seq<Params> {
      if !paramSpace then [map[]]
      else if iterations <= 0 then []
      else seq(iterations, i requires 0 <= i => draw(j, i))
    }

    function RunOn(params: Params, bars: seq<Bar>): BacktestResult {
      var st := Final(Simulation(config, strategy, params, SortBars(bars)));
      Report(config.initialCapital, st.curve, st.trades)
    }

    function Scores(tries: seq<Params>, bars: seq<Bar>): (scores: seq<real>)
      ensures |scores| == |tries|
    {
      seq(|tries|, i requires 0 <= i < |tries| => sharpe(RunOn(tries[i], bars)))
    }

    /** The parameters with the best in-sample score, none when no score clears the floor. */
    function Chosen(j: nat, inSample: seq<Bar>): Params {
      var best := BestTry(Scores(Tries(j), inSample));
      if best.None? then map[] else Tries(j)[best.value]
    }

    /** The result appended for window `j`: the chosen parameters, run on bars they were not chosen on. */
    function ResultFor(bars: seq<Bar>, j: nat, w: Window): BacktestResult {
      var params := Chosen(j, InSample(bars, w))["optimization_iterations" := iterations as real];
      RunOn(params, OutSample(bars, w))
    }

    predicate Continues(bars: seq<Bar>, j: nat)
      requires bars != []
    {
      var w := Windows(bars[0].time, years, months, j);
      Before(w.start, bars[|bars| - 1].time) && Enough(bars, w)
    }
  }

  lemma ScoresAre(study: Study, tries: seq<Params>, bars: seq<Bar>)
    ensures forall i :: 0 <= i < |tries| ==> study.Scores(tries, bars)[i] == study.sharpe(study.RunOn(tries[i], bars))
  {
  }

  lemma BestOfOneMore(scores: seq<real>, i: nat)
    requires i < |scores|
    ensures var best := BestTry(scores[..i]);
            BestTry(scores[..i + 1])
              == if scores[i] > (if best.Some? then scores[best.value] else SHARPE_FLOOR) then Some(i) else best
  {
    assert scores[..i + 1][..i] == scores[..i];
  }

  /** The inner optimisation loop. */
  method SelectParams(study: Study, j: nat, inSample: seq<Bar>) returns (params: Params)
    ensures params == study.Chosen(j, inSample)
  {
    params := map[];
    var bestSharpe := SHARPE_FLOOR;
    var tries := study.Tries(j);
    ghost var scores := study.Scores(tries, inSample);
    assert BestTry(scores[..0]) == None;
    ScoresAre(study, tries, inSample);
    hide BestTry, Study.Scores;
    for i := 0 to |tries|
      invariant var best := BestTry(scores[..i]);
                if best.None? then params == map[] && bestSharpe == SHARPE_FLOOR
                else params == tries[best.value] && bestSharpe == scores[best.value]
    {
      var result := Run(study.config, study.strategy, tries[i], inSample);
      assert result == study.RunOn(tries[i], inSample);
      BestOfOneMore(scores, i);
      if study.sharpe(result) > bestSharpe {
        bestSharpe, params := study.sharpe(result), tries[i];
      }
    }
    assert scores[..|tries|] == scores;
  }

  /** One window: select in sample, run out of sample. */
  method RunSegment(study: Study, bars: seq<Bar>, j: nat, w: Window) returns (result: BacktestResult)
    ensures result == study.ResultFor(bars, j, w)
  {
    var params := SelectParams(study, j, InSample(bars, w));
    result := Run(study.config, study.strategy,
                  params["optimization_iterations" := study.iterations as real], OutSample(bars, w));
  }

  /** No step forward means an empty out-of-sample window. */
  lemma NoMonthsNoOutSample(bars: seq<Bar>, cursor: Timestamp, years: int, months: int)
    requires months <= 0
    ensures OutSample(bars, WindowAt(cursor, years, months)) == []
  {
    var w := WindowAt(cursor, years, months);
    if months < 0 {
      LaterMonthIsLater(w.end, w.split);
    }
    EmptySlice(bars, w.split, w.end);
  }

  lemma {:induction false} EmptySlice(bars: seq<Bar>, from: Timestamp, to: Timestamp)
    requires !Before(from, to)
    ensures Slice(bars, from, to) == []
  {
    if bars != [] {
      EmptySlice(bars[..|bars| - 1], from, to);
    }
  }

  /** The window loop over time-ordered bars; it terminates for every step size. */
  method Walk(study: Study, bars: seq<Bar>) returns (results: seq<BacktestResult>)
    ensures bars == [] ==> results == []
    ensures bars != [] ==>
              && (forall j :: 0 <= j < |results| ==> study.Continues(bars, j))
              && !study.Continues(bars, |results|)
              && (forall j :: 0 <= j < |results| ==>
                    results[j] == study.ResultFor(bars, j, Windows(bars[0].time, study.years, study.months, j)))
  {
    hide Study.ResultFor, Slice, AddMonths, AddYears;
    results := [];
    if bars == [] {
      return;
    }
    var start, end := bars[0].time, bars[|bars| - 1].time;
    var cursor := start;
    while Before(cursor, end)
      invariant cursor == Cursor(start, study.months, |results|)
      invariant forall j :: 0 <= j < |results| ==> study.Continues(bars, j)
      invariant forall j :: 0 <= j < |results| ==>
                  results[j] == study.ResultFor(bars, j, Windows(start, study.years, study.months, j))
      decreases end.MonthIndex() - cursor.MonthIndex()
    {
      var w := WindowAt(cursor, study.years, study.months);
      if |InSample(bars, w)| < 50 || |OutSample(bars, w)| < 20 {
        break;
      }
      assert study.months > 0 && cursor.MonthIndex() <= end.MonthIndex() by {
        if study.months <= 0 {
          NoMonthsNoOutSample(bars, cursor, study.years, study.months);
        }
        if end.MonthIndex() < cursor.MonthIndex() {
          LaterMonthIsLater(end, cursor);
        }
      }
      var result := RunSegment(study, bars, |results|, w);
      results := results + [result];
      cursor := AddMonths(cursor, study.months);
    }
  }

  method RunWalkForward(study: Study, data: seq<Bar>) returns (results: seq<BacktestResult>)
    ensures var bars := SortBars(data);
            && (bars == [] ==> results == [])
            && (bars != [] ==>
                  && (forall j :: 0 <= j < |results| ==> study.Continues(bars, j))
                  && !study.Continues(bars, |results|)
                  && (forall j :: 0 <= j < |results| ==>
                        results[j] == study.ResultFor(bars, j, Windows(bars[0].time, study.years, study.months, j))))
  {
    results := Walk(study, SortBars(data));
  }
}
