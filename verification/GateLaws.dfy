/** Approvals, the kill switch, the throttle and broker deduplication, over every interleaved run. */
module GateLaws {
  import opened Sequences
  import opened Orders
  import opened RiskGate
  import opened Connector
  import opened TradingSystem
  import TradingLaws

  // ---------- each broker call follows its own approval ----------

  ghost predicate CheckedAt(log: seq<Event>, k: int, attempt: nat) {
    0 <= k < |log| && log[k].Checked? && log[k].attempt == attempt
  }

  ghost predicate CalledAt(log: seq<Event>, k: int, attempt: nat) {
    0 <= k < |log| && log[k].Called? && log[k].attempt == attempt
  }

  /** Some check of the attempt before position `n` approved it with the kill switch off. */
  ghost predicate ApprovedBefore(log: seq<Event>, n: int, attempt: nat) {
    exists j :: j < n && CheckedAt(log, j, attempt) && log[j].approved && !log[j].killed
  }

  ghost predicate AttemptsOk(st: State) {
    && (forall k :: 0 <= k < |st.log| ==> st.log[k].attempt < st.attempts)
    && (forall i, j, n :: i < j && CheckedAt(st.log, i, n) ==> !CheckedAt(st.log, j, n))
    && (forall i, j, n :: i < j && CalledAt(st.log, i, n) ==> !CalledAt(st.log, j, n))
    && (forall k, n :: CalledAt(st.log, k, n) ==> ApprovedBefore(st.log, k, n))
    && (st.submission.Some? ==>
          var sub := st.submission.value;
          && sub.attempt < st.attempts
          && (Early(sub.at) ==> forall k :: 0 <= k < |st.log| ==> st.log[k].attempt != sub.attempt)
          && (Cleared(sub.at) ==>
                && ApprovedBefore(st.log, |st.log|, sub.attempt)
                && forall k :: !CalledAt(st.log, k, sub.attempt)))
  }

  lemma ApprovalSurvives(log: seq<Event>, more: seq<Event>, n: int, attempt: nat)
    requires log <= more && n <= |log| && ApprovedBefore(log, n, attempt)
    ensures ApprovedBefore(more, n, attempt)
  {
    var j :| j < n && CheckedAt(log, j, attempt) && log[j].approved && !log[j].killed;
    assert CheckedAt(more, j, attempt);
  }

  predicate Early(at: SubmitPoint) {
    at in {AtEntry, AtRejectQuantity, AtRiskCheck}
  }

  predicate Cleared(at: SubmitPoint) {
    at in {AtValidate, AtSave, AtBroker}
  }

  predicate IsCheck(st: State, a: Action)
    requires Enabled(st, a)
  {
    a.StepSubmit? && st.submission.value.at == AtRiskCheck
  }

  predicate IsCall(st: State, a: Action)
    requires Enabled(st, a)
  {
    a.StepSubmit? && st.submission.value.at == AtBroker
  }

  /** Nothing but the table and the place of the submission differs. */
  predicate OnlyMoves(st: State, s: State) {
    && s.log == st.log && s.ids == st.ids && s.risk.lastTrade == st.risk.lastTrade
    && s.attempts == st.attempts && Advances(st, s)
  }

  lemma UpdateOnlyMoves(st: State, status: Status, changes: Orders.Changes, next: Option<SubmitPoint>)
    requires st.submission.Some?
    requires next.Some? ==> !Early(next.value) && (Cleared(next.value) ==> Cleared(st.submission.value.at))
    ensures OnlyMoves(st, UpdateThen(st, status, changes, next))
  {
    hide Update;
  }

  lemma QuietSubmission(st: State, account: Account, terminal: Terminal)
    requires st.submission.Some? && st.submission.value.at !in {AtRiskCheck, AtBroker}
    ensures OnlyMoves(st, StepSubmission(st, account, terminal))
  {
    hide UpdateThen, Save, Check, Respond, Remember, Sends;
    var sub := st.submission.value;
    match sub.at
    case AtEntry =>
    case AtRejectQuantity =>
      UpdateOnlyMoves(st, Rejected, Reason(Some("quantity must be positive")), None);
    case AtRejectRisk(reason) => UpdateOnlyMoves(st, Rejected, Reason(reason), None);
    case AtValidate => UpdateOnlyMoves(st, Validated, NoChange, Some(AtSave));
    case AtSave =>
    case AtRejectBroker(error) => UpdateOnlyMoves(st, Rejected, Reason(Some(error)), None);
    case AtSubmitted(deal) =>
      UpdateOnlyMoves(st, Submitted, Opened(st.now), if deal != 0 then Some(AtFilled) else None);
    case AtFilled => UpdateOnlyMoves(st, Filled, Fill(sub.order.quantity, st.now), None);
  }

  /** A step other than the check and the call logs nothing and leaves the gate's clock and the known ids alone. */
  lemma QuietStep(st: State, a: Action)
    requires Enabled(st, a) && !IsCheck(st, a) && !IsCall(st, a)
    ensures a.BeginSubmit? ==>
              Next(st, a) == st.(submission := Some(Submission(st.attempts, a.order, AtEntry)), attempts := st.attempts + 1)
    ensures !a.BeginSubmit? ==> OnlyMoves(st, Next(st, a))
  {
    hide StepSubmission, Save, Update;
    if a.StepSubmit? {
      QuietSubmission(st, a.account, a.terminal);
    }
  }

  /** The submission, if it goes on, keeps its attempt and does not move from one side of the check to the other. */
  predicate Advances(st: State, s: State) {
    s.submission.Some? ==>
      && st.submission.Some? && s.submission.value.attempt == st.submission.value.attempt
      && (Early(s.submission.value.at) ==> Early(st.submission.value.at))
      && (Cleared(s.submission.value.at) ==> Cleared(st.submission.value.at))
  }

  lemma CheckStep(st: State, a: Action)
    requires Enabled(st, a) && IsCheck(st, a)
    ensures var s, sub := Next(st, a), st.submission.value;
            var checked := Check(st.risk, a.account, st.now);
            var event := Checked(sub.attempt, sub.order, st.now, checked.1.approved, st.risk.killSwitch,
                                 checked.1.warning.Some?, checked.1.reason);
            && s.log == st.log + [event] && s.ids == st.ids && s.attempts == st.attempts && s.risk == checked.0
            && (event.approved ==> !event.killed)
            && s.submission.Some? && s.submission.value.attempt == sub.attempt
            && (s.submission.value.at == AtValidate || s.submission.value.at.AtRejectRisk?)
            && (s.submission.value.at == AtValidate ==> event.approved)
  {
  }

  lemma CallStep(st: State, a: Action)
    requires Enabled(st, a) && IsCall(st, a)
    ensures var s, sub := Next(st, a), st.submission.value;
            var event := Called(sub.attempt, sub.order, Sends(st.ids, sub.order, a.terminal),
                                Respond(st.ids, sub.order, a.terminal));
            && s.log == st.log + [event] && s.ids == Remember(st.ids, sub.order, a.terminal)
            && s.attempts == st.attempts && s.risk == st.risk
            && (s.submission.Some? ==>
                  && s.submission.value.attempt == sub.attempt
                  && !Early(s.submission.value.at) && !Cleared(s.submission.value.at))
  {
    hide Respond, Remember, Sends;
  }

  lemma QuietStepKeepsAttempts(st: State, s: State)
    requires AttemptsOk(st) && s.log == st.log && st.attempts == s.attempts && Advances(st, s)
    ensures AttemptsOk(s)
  {
  }

  lemma BeginKeepsAttempts(st: State, s: State, order: Order)
    requires AttemptsOk(st) && s.log == st.log && s.attempts == st.attempts + 1
    requires s.submission == Some(Submission(st.attempts, order, AtEntry))
    ensures AttemptsOk(s)
  {
  }

  lemma CheckKeepsAttempts(st: State, s: State, event: Event)
    requires AttemptsOk(st) && st.submission.Some? && st.submission.value.at == AtRiskCheck
    requires s.log == st.log + [event] && s.attempts == st.attempts
    requires event.Checked? && event.attempt == st.submission.value.attempt && (event.approved ==> !event.killed)
    requires s.submission.Some? && s.submission.value.attempt == event.attempt
    requires s.submission.value.at == AtValidate || s.submission.value.at.AtRejectRisk?
    requires s.submission.value.at == AtValidate ==> event.approved
    ensures AttemptsOk(s)
  {
    var n := |st.log|;
    forall k, a | CalledAt(s.log, k, a) ensures ApprovedBefore(s.log, k, a) {
      assert CalledAt(st.log, k, a);
      ApprovalSurvives(st.log, s.log, k, a);
    }
    forall i, j, a | i < j && CheckedAt(s.log, i, a) ensures !CheckedAt(s.log, j, a) {
      assert CheckedAt(st.log, i, a) || i == n;
      assert CheckedAt(s.log, j, a) ==> CheckedAt(st.log, j, a) || (j == n && a == event.attempt);
      assert i < n ==> st.log[i].attempt != event.attempt;
    }
    forall i, j, a | i < j && CalledAt(s.log, i, a) ensures !CalledAt(s.log, j, a) {
      assert CalledAt(st.log, i, a);
      assert CalledAt(s.log, j, a) ==> CalledAt(st.log, j, a);
    }
    forall k ensures !CalledAt(s.log, k, event.attempt) {
      assert CalledAt(s.log, k, event.attempt) ==> CalledAt(st.log, k, event.attempt);
    }
    if event.approved {
      assert CheckedAt(s.log, n, event.attempt);
    }
  }

  lemma CallKeepsAttempts(st: State, s: State, event: Event)
    requires AttemptsOk(st) && st.submission.Some? && st.submission.value.at == AtBroker
    requires s.log == st.log + [event] && s.attempts == st.attempts
    requires event.Called? && event.attempt == st.submission.value.attempt
    requires s.submission.Some? ==>
               && s.submission.value.attempt == event.attempt
               && !Early(s.submission.value.at) && !Cleared(s.submission.value.at)
    ensures AttemptsOk(s)
  {
    var n := |st.log|;
    forall k, a | CalledAt(s.log, k, a) ensures ApprovedBefore(s.log, k, a) {
      if k < n {
        assert CalledAt(st.log, k, a);
      }
      ApprovalSurvives(st.log, s.log, k, a);
    }
    forall i, j, a | i < j && CheckedAt(s.log, i, a) ensures !CheckedAt(s.log, j, a) {
      assert CheckedAt(st.log, i, a);
      assert CheckedAt(s.log, j, a) ==> CheckedAt(st.log, j, a);
    }
    forall i, j, a | i < j && CalledAt(s.log, i, a) ensures !CalledAt(s.log, j, a) {
      assert CalledAt(st.log, i, a) || i == n;
      assert CalledAt(s.log, j, a) ==> CalledAt(st.log, j, a) || j == n;
    }
  }

  lemma StepKeepsAttempts(st: State, a: Action)
    requires Enabled(st, a) && AttemptsOk(st)
    ensures AttemptsOk(Next(st, a))
  {
    hide AttemptsOk, Next, Check, Respond, Remember, Sends, Advances, Early, Cleared;
    var s := Next(st, a);
    if IsCheck(st, a) {
      CheckStep(st, a);
      CheckKeepsAttempts(st, s, s.log[|st.log|]);
    } else if IsCall(st, a) {
      CallStep(st, a);
      CallKeepsAttempts(st, s, s.log[|st.log|]);
    } else {
      QuietStep(st, a);
      if a.BeginSubmit? {
        BeginKeepsAttempts(st, s, a.order);
      } else {
        QuietStepKeepsAttempts(st, s);
      }
    }
  }

  lemma {:induction false} AttemptsHold(run: seq<State>)
    requires IsRun(run)
    ensures AttemptsOk(run[|run| - 1])
  {
    if |run| > 1 {
      TradingLaws.PrefixIsRun(run, |run| - 1);
      AttemptsHold(run[..|run| - 1]);
      assert IsStep(run[|run| - 2], run[|run| - 1]);
      var a :| Enabled(run[|run| - 2], a) && Next(run[|run| - 2], a) == run[|run| - 1];
      StepKeepsAttempts(run[|run| - 2], a);
    }
  }

  /** Every broker call follows an approval of its own attempt, given with the kill switch off; no two calls share one. */
  lemma CallsFollowDistinctApprovals(run: seq<State>, k: nat)
    requires IsRun(run) && k < |run[|run| - 1].log| && run[|run| - 1].log[k].Called?
    ensures var log := run[|run| - 1].log;
            && ApprovedBefore(log, k, log[k].attempt)
            && forall j :: 0 <= j < |log| && j != k && log[j].Called? ==> log[j].attempt != log[k].attempt
  {
    AttemptsHold(run);
    var log := run[|run| - 1].log;
    assert CalledAt(log, k, log[k].attempt);
    forall j | 0 <= j < |log| && j != k && log[j].Called? ensures log[j].attempt != log[k].attempt {
      if log[j].attempt == log[k].attempt {
        assert CalledAt(log, j, log[k].attempt);
      }
    }
  }

  /** A submission checked while the kill switch is set never reaches the broker. */
  lemma KilledNeverReachesBroker(run: seq<State>, k: nat)
    requires IsRun(run) && k < |run[|run| - 1].log| && run[|run| - 1].log[k].Checked? && run[|run| - 1].log[k].killed
    ensures var log := run[|run| - 1].log;
            forall j :: 0 <= j < |log| && log[j].Called? ==> log[j].attempt != log[k].attempt
  {
    AttemptsHold(run);
    var log := run[|run| - 1].log;
    assert CheckedAt(log, k, log[k].attempt);
    forall j | 0 <= j < |log| && log[j].Called? ensures log[j].attempt != log[k].attempt {
      assert CalledAt(log, j, log[j].attempt);
      assert ApprovedBefore(log, j, log[j].attempt);
      var i :| i < j && CheckedAt(log, i, log[j].attempt) && log[i].approved && !log[i].killed;
    }
  }

  // ---------- the throttle ----------

  /** The times of approvals, with a warning or without. */
  ghost function ApprovalTimes(log: seq<Event>): seq<real> {
    if log == [] then []
    else
      var times := ApprovalTimes(log[..|log| - 1]);
      var e := log[|log| - 1];
      if e.Checked? && e.approved then times + [e.time] else times
  }

  /** The times of approvals without a warning. */
  ghost function CleanTimes(log: seq<Event>): seq<real> {
    if log == [] then []
    else
      var times := CleanTimes(log[..|log| - 1]);
      var e := log[|log| - 1];
      if e.Checked? && e.approved && !e.warned then times + [e.time] else times
  }

  lemma CleanTimesAppend(log: seq<Event>, e: Event)
    ensures CleanTimes(log + [e]) ==
              if e.Checked? && e.approved && !e.warned then CleanTimes(log) + [e.time] else CleanTimes(log)
  {
    assert (log + [e])[..|log|] == log;
  }

  ghost predicate NoWarnings(log: seq<Event>) {
    forall k :: 0 <= k < |log| && log[k].Checked? ==> !log[k].warned
  }

  lemma {:induction false} WithoutWarningsAllAreClean(log: seq<Event>)
    requires NoWarnings(log)
    ensures ApprovalTimes(log) == CleanTimes(log)
  {
    if log != [] {
      WithoutWarningsAllAreClean(log[..|log| - 1]);
    }
  }

  /** Any two approvals are at least `gap` apart. */
  ghost predicate Spaced(times: seq<real>, gap: real) {
    forall i, j :: 0 <= i < j < |times| ==> times[j] - times[i] >= gap
  }

  ghost predicate ThrottleOk(st: State, gap: real) {
    var times := CleanTimes(st.log);
    && Spaced(times, gap)
    && (times != [] ==> st.risk.lastTrade == Some(times[|times| - 1]))
  }

  lemma RefusalRecordsNothing(risk: RiskState, account: Account, now: real)
    requires !Check(risk, account, now).1.approved
    ensures Check(risk, account, now).0 == risk
  {
    hide FirstViolation;
  }

  lemma CheckKeepsThrottle(st: State, account: Account, s: State, e: Event, gap: real)
    requires gap > 0.0 && KeepsGap(st.risk.rules, gap) && ThrottleOk(st, gap)
    requires e.Checked? && e.time == st.now && e.approved == Check(st.risk, account, st.now).1.approved
    requires e.warned == Check(st.risk, account, st.now).1.warning.Some?
    requires s.log == st.log + [e] && s.risk == Check(st.risk, account, st.now).0
    ensures ThrottleOk(s, gap)
  {
    hide Check, KeepsGap;
    CleanTimesAppend(st.log, e);
    if Check(st.risk, account, st.now).1.warning.Some? {
      WarnedApprovalIsUnrecorded(st.risk, account, st.now);
    } else if !e.approved {
      RefusalRecordsNothing(st.risk, account, st.now);
    } else {
      CleanApprovalIsSpaced(st.risk, account, st.now, gap);
      hide CleanTimes;
      var times := CleanTimes(st.log);
      var more := times + [e.time];
      forall i, j | 0 <= i < j < |more| ensures more[j] - more[i] >= gap {
        assert j == |times| && i < |times| - 1 ==> times[|times| - 1] - times[i] >= gap;
      }
    }
  }

  lemma OtherStepKeepsThrottle(st: State, s: State, gap: real)
    requires ThrottleOk(st, gap) && s.risk.lastTrade == st.risk.lastTrade
    requires s.log == st.log || exists e :: s.log == st.log + [e] && e.Called?
    ensures ThrottleOk(s, gap)
  {
    if s.log != st.log {
      var e :| s.log == st.log + [e] && e.Called?;
      CleanTimesAppend(st.log, e);
    }
  }

  lemma StepKeepsThrottle(st: State, a: Action, gap: real)
    requires gap > 0.0 && Enabled(st, a) && KeepsGap(st.risk.rules, gap) && ThrottleOk(st, gap)
    ensures ThrottleOk(Next(st, a), gap)
  {
    hide ThrottleOk, KeepsGap, Next, Check, Respond, Remember, Sends, Advances;
    var s := Next(st, a);
    if IsCheck(st, a) {
      CheckStep(st, a);
      CheckKeepsThrottle(st, a.account, s, s.log[|st.log|], gap);
    } else {
      if IsCall(st, a) {
        CallStep(st, a);
        assert s.log == st.log + [s.log[|st.log|]] && s.log[|st.log|].Called?;
      } else {
        QuietStep(st, a);
      }
      OtherStepKeepsThrottle(st, s, gap);
    }
  }

  /** The run keeps, at every state, a rule with a minimum gap of at least `gap` seconds. */
  ghost predicate GapRun(run: seq<State>, gap: real) {
    forall i :: 0 <= i < |run| ==> KeepsGap(run[i].risk.rules, gap)
  }

  /** And, besides, no soft rule that could be violated. */
  ghost predicate GuardedRun(run: seq<State>, gap: real) {
    forall i :: 0 <= i < |run| ==> Guarded(run[i].risk.rules, gap)
  }

  lemma {:induction false} ThrottleHolds(run: seq<State>, gap: real)
    requires IsRun(run) && gap > 0.0 && GapRun(run, gap)
    ensures ThrottleOk(run[|run| - 1], gap)
  {
    if |run| > 1 {
      TradingLaws.PrefixIsRun(run, |run| - 1);
      ThrottleHolds(run[..|run| - 1], gap);
      assert IsStep(run[|run| - 2], run[|run| - 1]);
      var a :| Enabled(run[|run| - 2], a) && Next(run[|run| - 2], a) == run[|run| - 1];
      StepKeepsThrottle(run[|run| - 2], a, gap);
    }
  }

  lemma HardStepDoesNotWarn(st: State, a: Action)
    requires Enabled(st, a) && AllHard(st.risk.rules) && NoWarnings(st.log)
    ensures NoWarnings(Next(st, a).log)
  {
    hide Next, Check, Respond, Remember, Sends, Advances;
    if IsCheck(st, a) {
      CheckStep(st, a);
      if Check(st.risk, a.account, st.now).1.warning.Some? {
        WarnedApprovalIsUnrecorded(st.risk, a.account, st.now);
      }
    } else if IsCall(st, a) {
      CallStep(st, a);
    } else {
      QuietStep(st, a);
    }
  }

  lemma {:induction false} HardRunsDoNotWarn(run: seq<State>)
    requires IsRun(run) && forall i :: 0 <= i < |run| ==> AllHard(run[i].risk.rules)
    ensures NoWarnings(run[|run| - 1].log)
  {
    if |run| > 1 {
      TradingLaws.PrefixIsRun(run, |run| - 1);
      HardRunsDoNotWarn(run[..|run| - 1]);
      assert IsStep(run[|run| - 2], run[|run| - 1]);
      var a :| Enabled(run[|run| - 2], a) && Next(run[|run| - 2], a) == run[|run| - 1];
      HardStepDoesNotWarn(run[|run| - 2], a);
    }
  }

  function Within(times: seq<real>, from: real, length: real): seq<real> {
    Filter((t: real) => from <= t <= from + length, times)
  }

  lemma {:induction false} WithinIsSpaced(times: seq<real>, gap: real, from: real, length: real)
    requires Spaced(times, gap)
    ensures Spaced(Within(times, from, length), gap)
  {
    if times != [] {
      var init, last := times[..|times| - 1], times[|times| - 1];
      WithinIsSpaced(init, gap, from, length);
      FilterMembers((t: real) => from <= t <= from + length, init);
      var w := Within(init, from, length);
      forall i | 0 <= i < |w| ensures last - w[i] >= gap {
        assert w[i] in init;
      }
    }
  }

  lemma {:induction false} SpacedSpan(times: seq<real>, gap: real)
    requires Spaced(times, gap) && times != [] && gap > 0.0
    ensures (|times| - 1) as real * gap <= times[|times| - 1] - times[0]
  {
    if |times| > 1 {
      SpacedSpan(times[..|times| - 1], gap);
    }
  }

  lemma CountFromSpan(n: nat, gap: real, length: real)
    requires gap > 0.0 && length >= 0.0 && (n > 0 ==> (n - 1) as real * gap <= length)
    ensures n <= (length / gap).Floor + 1
  {
    var q := length / gap;
    assert q * gap == length;
    if n > 0 {
      var m := (n - 1) as real;
      assert (q - m) * gap >= 0.0;
      assert q >= m;
    } else {
      assert q >= 0.0;
    }
  }

  lemma SpacedWindowCount(times: seq<real>, gap: real, from: real, length: real)
    requires Spaced(times, gap) && gap > 0.0 && length >= 0.0
    ensures |Within(times, from, length)| <= (length / gap).Floor + 1
  {
    hide Spaced;
    var w := Within(times, from, length);
    WithinIsSpaced(times, gap, from, length);
    FilterMembers((t: real) => from <= t <= from + length, times);
    if w != [] {
      SpacedSpan(w, gap);
      assert w[0] in w && w[|w| - 1] in w;
      assert w[|w| - 1] - w[0] <= length;
    }
    hide *;
    CountFromSpan(|w|, gap, length);
  }

  /** Soft rules or not, any interval of length L contains at most floor(L / s) + 1 approvals without a warning. */
  lemma CleanApprovalsAreThrottled(run: seq<State>, gap: real, from: real, length: real)
    requires IsRun(run) && gap > 0.0 && GapRun(run, gap) && length >= 0.0
    ensures Spaced(CleanTimes(run[|run| - 1].log), gap)
    ensures |Within(CleanTimes(run[|run| - 1].log), from, length)| <= (length / gap).Floor + 1
  {
    ThrottleHolds(run, gap);
    hide Within, Spaced;
    SpacedWindowCount(CleanTimes(run[|run| - 1].log), gap, from, length);
  }

  /** So all approvals are spaced and throttled as long as none came with a warning. */
  lemma ApprovalsAreThrottledUnlessWarned(run: seq<State>, gap: real, from: real, length: real)
    requires IsRun(run) && gap > 0.0 && GapRun(run, gap) && length >= 0.0 && NoWarnings(run[|run| - 1].log)
    ensures Spaced(ApprovalTimes(run[|run| - 1].log), gap)
    ensures |Within(ApprovalTimes(run[|run| - 1].log), from, length)| <= (length / gap).Floor + 1
  {
    hide Within, Spaced;
    CleanApprovalsAreThrottled(run, gap, from, length);
    WithoutWarningsAllAreClean(run[|run| - 1].log);
  }

  /** Where every rule that can be violated is hard, none does: any interval of length L contains at most floor(L / s) + 1 approvals. */
  lemma ApprovalsAreThrottled(run: seq<State>, gap: real, from: real, length: real)
    requires IsRun(run) && gap > 0.0 && GuardedRun(run, gap) && length >= 0.0
    ensures |Within(ApprovalTimes(run[|run| - 1].log), from, length)| <= (length / gap).Floor + 1
  {
    hide IsRun, AllHard, KeepsGap;
    HardRunsDoNotWarn(run);
    ApprovalsAreThrottledUnlessWarned(run, gap, from, length);
  }

  // ---------- broker idempotency ----------

  /** A call that reached the broker under a client id and came back with a broker id. */
  ghost predicate Placed(e: Event) {
    e.Called? && e.sent && e.order.clientOrderId != "" && e.response.Answered? && e.response.brokerId != 0
  }

  ghost predicate IdsOk(st: State) {
    && (forall k :: 0 <= k < |st.log| && Placed(st.log[k]) ==>
          var c := st.log[k].order.clientOrderId;
          c in st.ids && st.ids[c] == st.log[k].response.brokerId)
    && (forall i, j :: 0 <= i < j < |st.log| && Placed(st.log[i]) && st.log[j].Called?
                       && st.log[j].order.clientOrderId == st.log[i].order.clientOrderId ==>
          !st.log[j].sent && st.log[j].response == Duplicate(st.log[i].response.brokerId))
  }

  lemma CallKeepsIds(st: State, order: Order, terminal: Terminal, e: Event, s: State)
    requires IdsOk(st)
    requires e.Called? && e.order == order && e.sent == Sends(st.ids, order, terminal)
    requires e.response == Respond(st.ids, order, terminal)
    requires s.log == st.log + [e] && s.ids == Remember(st.ids, order, terminal)
    ensures IdsOk(s)
  {
    hide Refusal;
  }

  lemma StepKeepsIds(st: State, a: Action)
    requires Enabled(st, a) && IdsOk(st)
    ensures IdsOk(Next(st, a))
  {
    hide IdsOk, Next, Check, Respond, Remember, Sends, Advances;
    var s := Next(st, a);
    if IsCheck(st, a) {
      CheckStep(st, a);
      CheckKeepsIds(st, s, s.log[|st.log|]);
    } else if IsCall(st, a) {
      CallStep(st, a);
      CallKeepsIds(st, st.submission.value.order, a.terminal, s.log[|st.log|], s);
    } else {
      QuietStep(st, a);
      SameLogKeepsIds(st, s);
    }
  }

  lemma CheckKeepsIds(st: State, s: State, e: Event)
    requires IdsOk(st) && e.Checked? && s.log == st.log + [e] && s.ids == st.ids
    ensures IdsOk(s)
  {
  }

  lemma SameLogKeepsIds(st: State, s: State)
    requires IdsOk(st) && s.log == st.log && s.ids == st.ids
    ensures IdsOk(s)
  {
  }

  lemma {:induction false} IdsHold(run: seq<State>)
    requires IsRun(run)
    ensures IdsOk(run[|run| - 1])
  {
    if |run| > 1 {
      TradingLaws.PrefixIsRun(run, |run| - 1);
      IdsHold(run[..|run| - 1]);
      assert IsStep(run[|run| - 2], run[|run| - 1]);
      var a :| Enabled(run[|run| - 2], a) && Next(run[|run| - 2], a) == run[|run| - 1];
      StepKeepsIds(run[|run| - 2], a);
    }
  }

  /** Once a send returned a broker id, no later call under the client id sends, and each returns that id. */
  lemma PlacedOnce(run: seq<State>, i: nat, j: nat)
    requires IsRun(run) && i < j < |run[|run| - 1].log|
    requires Placed(run[|run| - 1].log[i]) && run[|run| - 1].log[j].Called?
    requires run[|run| - 1].log[j].order.clientOrderId == run[|run| - 1].log[i].order.clientOrderId
    ensures !run[|run| - 1].log[j].sent
    ensures run[|run| - 1].log[j].response == Duplicate(run[|run| - 1].log[i].response.brokerId)
  {
    IdsHold(run);
  }
}
