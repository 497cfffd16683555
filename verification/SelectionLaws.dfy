/** What a walk-forward window is run with: the first best try on its in-sample bars, tested on the bars after them. */
module SelectionLaws {
  import opened Sequences
  import opened Timestamps
  import opened Backtest
  import opened WalkForward

  // ---------- slices ----------

  predicate InSpan(b: Bar, from: Timestamp, to: Timestamp) {
    from.Key() <= b.time.Key() < to.Key()
  }

  lemma {:induction false} SliceCopies(bars: seq<Bar>, from: Timestamp, to: Timestamp, b: Bar)
    ensures multiset(Slice(bars, from, to))[b] == if InSpan(b, from, to) then multiset(bars)[b] else 0
  {
    if bars != [] {
      var init, last := bars[..|bars| - 1], bars[|bars| - 1];
      assert bars == init + [last];
      SliceCopies(init, from, to, b);
    }
  }

  lemma {:induction false} SliceCount(bars: seq<Bar>, from: Timestamp, to: Timestamp)
    ensures |Slice(bars, from, to)| == |set i | 0 <= i < |bars| && InSpan(bars[i], from, to)|
  {
    if bars != [] {
      var init, last, n := bars[..|bars| - 1], bars[|bars| - 1], |bars| - 1;
      assert |Slice(bars, from, to)| == |Slice(init, from, to)| + if InSpan(last, from, to) then 1 else 0;
      SliceCount(init, from, to);
      hide Slice, InSpan;
      var before := set i | 0 <= i < |init| && InSpan(init[i], from, to);
      assert (set i | 0 <= i < |bars| && InSpan(bars[i], from, to))
             == if InSpan(last, from, to) then before + {n} else before;
    }
  }

  /** A slice holds exactly the bars of its half-open span, as often as they occur. */
  lemma SliceHolds(bars: seq<Bar>, from: Timestamp, to: Timestamp)
    ensures forall b :: multiset(Slice(bars, from, to))[b] == if InSpan(b, from, to) then multiset(bars)[b] else 0
    ensures |Slice(bars, from, to)| == |set i | 0 <= i < |bars| && InSpan(bars[i], from, to)|
  {
    hide Slice, InSpan;
    SliceCount(bars, from, to);
    forall b ensures multiset(Slice(bars, from, to))[b] == if InSpan(b, from, to) then multiset(bars)[b] else 0 {
      SliceCopies(bars, from, to, b);
    }
  }

  lemma {:induction false} SliceKeepsOrder(bars: seq<Bar>, from: Timestamp, to: Timestamp)
    requires forall i, j :: 0 <= i < j < |bars| ==> bars[i].time.Key() <= bars[j].time.Key()
    ensures var s := Slice(bars, from, to);
            && (forall i, j :: 0 <= i < j < |s| ==> s[i].time.Key() <= s[j].time.Key())
            && (forall i :: 0 <= i < |s| ==> s[i] in bars)
  {
    if bars != [] {
      var init, last := bars[..|bars| - 1], bars[|bars| - 1];
      SliceKeepsOrder(init, from, to);
      forall b | b in Slice(init, from, to) ensures b in bars && b.time.Key() <= last.time.Key() {
        var k :| 0 <= k < |init| && init[k] == b;
        assert bars[k] == b;
      }
      hide CalendarTime.Key;
    }
  }

  /** A result needs fifty bars in the years before its split, twenty in the months after it, and a start before the end. */
  lemma ContinuesIff(study: Study, bars: seq<Bar>, j: nat)
    requires bars != []
    ensures var start := Cursor(bars[0].time, study.months, j);
            var split := AddYears(start, study.years);
            var end := AddMonths(split, study.months);
            study.Continues(bars, j) <==>
              (&& start.Key() < bars[|bars| - 1].time.Key()
               && |set i | 0 <= i < |bars| && InSpan(bars[i], start, split)| >= 50
               && |set i | 0 <= i < |bars| && InSpan(bars[i], split, end)| >= 20)
  {
    var start := Cursor(bars[0].time, study.months, j);
    var split := AddYears(start, study.years);
    SliceHolds(bars, start, split);
    SliceHolds(bars, split, AddMonths(split, study.months));
    hide Slice, AddMonths, AddYears, CalendarTime.Key, InSpan;
  }

  // ---------- what a window is run with ----------

  /** The report of running the strategy with these parameters on these bars. */
  function Outcome(study: Study, params: Params, bars: seq<Bar>): BacktestResult {
    var st := Final(Simulation(study.config, study.strategy, params, SortBars(bars)));
    Report(study.config.initialCapital, st.curve, st.trades)
  }

  /** The i-th parameter set tried for window `j`. */
  predicate IsTry(study: Study, j: nat, i: int, params: Params) {
    if study.paramSpace then 0 <= i < study.iterations && params == study.draw(j, i)
    else i == 0 && params == map[]
  }

  /** The first of the tries with the highest score on the given bars, and that score is above -1e9. */
  ghost predicate IsFirstBest(study: Study, j: nat, bars: seq<Bar>, i: int, params: Params) {
    && IsTry(study, j, i, params)
    && study.sharpe(Outcome(study, params, bars)) > -1000000000.0
    && forall k, p :: IsTry(study, j, k, p) ==>
         && study.sharpe(Outcome(study, p, bars)) <= study.sharpe(Outcome(study, params, bars))
         && (k < i ==> study.sharpe(Outcome(study, p, bars)) < study.sharpe(Outcome(study, params, bars)))
  }

  ghost predicate NoneClears(study: Study, j: nat, bars: seq<Bar>) {
    forall k, p :: IsTry(study, j, k, p) ==> study.sharpe(Outcome(study, p, bars)) <= -1000000000.0
  }

  lemma TriesAre(study: Study, j: nat)
    ensures forall k, p :: IsTry(study, j, k, p) <==> 0 <= k < |study.Tries(j)| && study.Tries(j)[k] == p
  {
  }

  lemma ScoreOf(study: Study, tries: seq<Params>, bars: seq<Bar>, k: nat)
    requires k < |tries|
    ensures study.Scores(tries, bars)[k] == study.sharpe(Outcome(study, tries[k], bars))
  {
    assert study.RunOn(tries[k], bars) == Outcome(study, tries[k], bars);
  }

  /** What the optimisation loop chooses on the bars it is given. */
  lemma ChosenIsFirstBest(study: Study, j: nat, bars: seq<Bar>, i: int, params: Params)
    ensures IsFirstBest(study, j, bars, i, params) ==> study.Chosen(j, bars) == params
    ensures NoneClears(study, j, bars) ==> study.Chosen(j, bars) == map[]
    ensures NoneClears(study, j, bars) || exists k, p :: IsFirstBest(study, j, bars, k, p)
  {
    var tries := study.Tries(j);
    var scores := study.Scores(tries, bars);
    TriesAre(study, j);
    forall k | 0 <= k < |tries| ensures scores[k] == study.sharpe(Outcome(study, tries[k], bars)) {
      ScoreOf(study, tries, bars, k);
    }
    hide Study.Tries, Study.Scores, Outcome, IsTry;
    var best := BestTry(scores);
    hide BestTry;
    if best.Some? {
      FirstBestIs(study, j, bars, tries, scores, best.value);
    } else {
      forall k, p | IsTry(study, j, k, p) ensures study.sharpe(Outcome(study, p, bars)) <= -1000000000.0 {
        assert scores[k] <= SHARPE_FLOOR;
      }
    }
    if IsFirstBest(study, j, bars, i, params) {
      assert tries[i] == params && scores[i] > SHARPE_FLOOR;
      assert best.Some?;
      assert best.value == i by {
        assert IsTry(study, j, best.value, tries[best.value]);
      }
    }
  }

  lemma FirstBestIs(study: Study, j: nat, bars: seq<Bar>, tries: seq<Params>, scores: seq<real>, n: nat)
    requires |scores| == |tries| && n < |tries| && BestTry(scores) == Some(n)
    requires forall k, p :: IsTry(study, j, k, p) <==> 0 <= k < |tries| && tries[k] == p
    requires forall k :: 0 <= k < |tries| ==> scores[k] == study.sharpe(Outcome(study, tries[k], bars))
    ensures IsFirstBest(study, j, bars, n, tries[n]) && !NoneClears(study, j, bars)
  {
    hide Outcome, IsTry;
    assert scores[n] > SHARPE_FLOOR;
    hide BestTry;
    assert IsTry(study, j, n, tries[n]);
  }

  /** The report a window adds: its chosen parameters, with the number of iterations beside them, out of sample. */
  ghost function Tested(study: Study, params: Params, bars: seq<Bar>, w: Window): BacktestResult {
    Outcome(study, params["optimization_iterations" := study.iterations as real], OutSample(bars, w))
  }

  /** A window is run out of sample with the first best try of its in-sample bars, or with none if no score clears the floor. */
  lemma WindowRunsTheFirstBest(study: Study, bars: seq<Bar>, j: nat, w: Window, i: int, params: Params)
    ensures IsFirstBest(study, j, InSample(bars, w), i, params) ==> study.ResultFor(bars, j, w) == Tested(study, params, bars, w)
    ensures NoneClears(study, j, InSample(bars, w)) ==> study.ResultFor(bars, j, w) == Tested(study, map[], bars, w)
    ensures NoneClears(study, j, InSample(bars, w)) || exists k, p :: IsFirstBest(study, j, InSample(bars, w), k, p)
  {
    hide Study.Chosen, SortBars, Report, InSample, OutSample, IsFirstBest, NoneClears;
    ChosenIsFirstBest(study, j, InSample(bars, w), i, params);
  }

  /** So it is with every result of a walk. */
  lemma EveryResultIsTestedOutOfSample(
    study: Study, bars: seq<Bar>, results: seq<BacktestResult>, j: nat, i: int, params: Params)
    requires bars != [] && j < |results|
    requires forall k :: 0 <= k < |results| ==>
               results[k] == study.ResultFor(bars, k, Windows(bars[0].time, study.years, study.months, k))
    ensures var w := Windows(bars[0].time, study.years, study.months, j);
            && (IsFirstBest(study, j, InSample(bars, w), i, params) ==> results[j] == Tested(study, params, bars, w))
            && (NoneClears(study, j, InSample(bars, w)) ==> results[j] == Tested(study, map[], bars, w))
  {
    WindowRunsTheFirstBest(study, bars, j, Windows(bars[0].time, study.years, study.months, j), i, params);
  }

  /** Two series with the same in-sample slice are tested with the same parameters, whatever follows. */
  lemma SameInSampleSameChoice(study: Study, bars: seq<Bar>, others: seq<Bar>, j: nat, w: Window) returns (params: Params)
    requires InSample(bars, w) == InSample(others, w)
    ensures study.ResultFor(bars, j, w) == Tested(study, params, bars, w)
    ensures study.ResultFor(others, j, w) == Tested(study, params, others, w)
  {
    hide InSample, OutSample, Outcome, IsFirstBest, NoneClears, Study.ResultFor;
    WindowRunsTheFirstBest(study, bars, j, w, 0, map[]);
    if NoneClears(study, j, InSample(bars, w)) {
      params := map[];
      WindowRunsTheFirstBest(study, others, j, w, 0, map[]);
    } else {
      var i, p :| IsFirstBest(study, j, InSample(bars, w), i, p);
      params := p;
      WindowRunsTheFirstBest(study, bars, j, w, i, p);
      WindowRunsTheFirstBest(study, others, j, w, i, p);
    }
  }
}
