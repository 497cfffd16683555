/** Exactly which rule tables keep approvals apart, over every run that keeps the table. */
module ThrottleLaws {
  import opened Sequences
  import opened Orders
  import opened RiskGate
  import opened Connector
  import opened TradingSystem
  import opened GateLaws
  import TradingLaws
  import DealLaws

  ghost predicate KeepsTable(run: seq<State>, rules: seq<RiskRule>) {
    forall i :: 0 <= i < |run| ==> run[i].risk.rules == rules
  }

  /** In every run that keeps the table, any two approvals are at least `gap` apart. */
  ghost predicate Throttles(rules: seq<RiskRule>, gap: real) {
    forall run: seq<State> :: IsRun(run) && KeepsTable(run, rules) ==> Spaced(ApprovalTimes(run[|run| - 1].log), gap)
  }

  // ---------- what can be read off a table ----------

  predicate IsLossRule(rule: RiskRule) {
    rule.type_ == MaxDrawdown || rule.type_ == MaxDailyLoss
  }

  function Limit(rule: RiskRule): real {
    if rule.type_ == MaxDrawdown then Parameter(rule, "max_drawdown", 0.2) else Parameter(rule, "max_daily_loss", 0.1)
  }

  /** A daily-loss rule with a negative limit is violated by every account; a drawdown can be as negative as one likes. */
  predicate AlwaysViolated(rule: RiskRule) {
    rule.enabled && rule.type_ == MaxDailyLoss && Limit(rule) < 0.0
  }

  /** A soft drawdown or daily-loss rule that some account can violate first. */
  ghost predicate CanWarnAt(rules: seq<RiskRule>, i: int) {
    && 0 <= i < |rules| && rules[i].enabled && IsLossRule(rules[i]) && rules[i].severity != "hard"
    && forall j :: 0 <= j < i ==> !AlwaysViolated(rules[j])
  }

  ghost predicate CanWarn(rules: seq<RiskRule>) {
    exists i :: CanWarnAt(rules, i)
  }

  ghost predicate NeverClean(rules: seq<RiskRule>) {
    exists i :: 0 <= i < |rules| && AlwaysViolated(rules[i])
  }

  predicate IsGapRule(rule: RiskRule) {
    rule.enabled && rule.type_ == MinTimeBetweenTrades
  }

  ghost predicate GapRulesHard(rules: seq<RiskRule>) {
    forall i :: 0 <= i < |rules| && IsGapRule(rules[i]) ==> rules[i].severity == "hard"
  }

  function Seconds(rule: RiskRule): real {
    Parameter(rule, "seconds", 1.0)
  }

  ghost predicate HardGap(rules: seq<RiskRule>, gap: real) {
    exists i :: 0 <= i < |rules| && IsGapRule(rules[i]) && rules[i].severity == "hard" && Seconds(rules[i]) >= gap
  }

  // ---------- tables that throttle ----------

  lemma DailyLossIsNotNegative(account: Account)
    ensures DailyLoss(account) >= 0.0
  {
    if account.balance > 0.0 {
      var loss := if account.profit < 0.0 then -account.profit else 0.0;
      var q := loss / account.balance;
      assert q * account.balance == loss;
      assert q < 0.0 ==> q * account.balance < 0.0;
    }
  }

  lemma AlwaysViolatedIs(rule: RiskRule, account: Account, lastTrade: Option<real>, now: real)
    requires AlwaysViolated(rule)
    ensures Violated(rule, account, lastTrade, now)
  {
    DailyLossIsNotNegative(account);
  }

  /** A warning other than from a soft gap rule could have come as the first answer of all. */
  lemma WarningNeedsLossRule(rules: seq<RiskRule>, account: Account, lastTrade: Option<real>, now: real)
    requires var violated := FirstViolation(rules, account, lastTrade, now);
             violated.Some? && violated.value.severity != "hard"
    requires lastTrade.None? || GapRulesHard(rules)
    ensures CanWarn(rules)
  {
    var rule := FirstViolation(rules, account, lastTrade, now).value;
    var i :| 0 <= i < |rules| && rules[i] == rule && rule.enabled && Violated(rule, account, lastTrade, now)
             && forall j :: 0 <= j < i && rules[j].enabled ==> !Violated(rules[j], account, lastTrade, now);
    forall j | 0 <= j < i ensures !AlwaysViolated(rules[j]) {
      if AlwaysViolated(rules[j]) {
        AlwaysViolatedIs(rules[j], account, lastTrade, now);
      }
    }
    assert CanWarnAt(rules, i);
  }

  lemma HardGapIsTheGapRule(rules: seq<RiskRule>, gap: real)
    requires DistinctTypes(rules) && HardGap(rules, gap)
    ensures KeepsGap(rules, gap) && GapRulesHard(rules)
  {
  }

  lemma StepDoesNotWarn(st: State, a: Action)
    requires Enabled(st, a) && NoWarnings(st.log) && !CanWarn(st.risk.rules) && GapRulesHard(st.risk.rules)
    ensures NoWarnings(Next(st, a).log)
  {
    hide Next, Check, Respond, Remember, Sends, Advances, CanWarn, GapRulesHard;
    if IsCheck(st, a) {
      CheckStep(st, a);
      WarnedApprovalIsUnrecorded(st.risk, a.account, st.now);
      if Check(st.risk, a.account, st.now).1.warning.Some? {
        WarningNeedsLossRule(st.risk.rules, a.account, st.risk.lastTrade, st.now);
      }
    } else if IsCall(st, a) {
      CallStep(st, a);
    } else {
      QuietStep(st, a);
    }
  }

  lemma {:induction false} RunDoesNotWarn(run: seq<State>, rules: seq<RiskRule>)
    requires IsRun(run) && KeepsTable(run, rules) && !CanWarn(rules) && GapRulesHard(rules)
    ensures NoWarnings(run[|run| - 1].log)
  {
    if |run| > 1 {
      hide NoWarnings, CanWarn, GapRulesHard, Next, Enabled;
      TradingLaws.PrefixIsRun(run, |run| - 1);
      RunDoesNotWarn(run[..|run| - 1], rules);
      assert IsStep(run[|run| - 2], run[|run| - 1]);
      var a :| Enabled(run[|run| - 2], a) && Next(run[|run| - 2], a) == run[|run| - 1];
      StepDoesNotWarn(run[|run| - 2], a);
    }
  }

  ghost predicate NothingApproved(st: State) {
    st.risk.lastTrade == None && forall k :: 0 <= k < |st.log| && st.log[k].Checked? ==> !st.log[k].approved
  }

  /** With a rule that is always violated, a gate that cannot warn approves nothing. */
  lemma BlockedCheckRejects(risk: RiskState, account: Account, now: real)
    requires NeverClean(risk.rules) && !CanWarn(risk.rules) && risk.lastTrade == None
    ensures !Check(risk, account, now).1.approved && Check(risk, account, now).0 == risk
  {
    var i :| 0 <= i < |risk.rules| && AlwaysViolated(risk.rules[i]);
    AlwaysViolatedIs(risk.rules[i], account, None, now);
    var violated := FirstViolation(risk.rules, account, None, now);
    if violated.Some? && violated.value.severity != "hard" {
      WarningNeedsLossRule(risk.rules, account, None, now);
    }
  }

  lemma StepApprovesNothing(st: State, a: Action)
    requires Enabled(st, a) && NothingApproved(st) && NeverClean(st.risk.rules) && !CanWarn(st.risk.rules)
    ensures NothingApproved(Next(st, a))
  {
    hide Next, Check, Respond, Remember, Sends, Advances, CanWarn, NeverClean;
    if IsCheck(st, a) {
      CheckStep(st, a);
      BlockedCheckRejects(st.risk, a.account, st.now);
    } else if IsCall(st, a) {
      CallStep(st, a);
    } else {
      QuietStep(st, a);
    }
  }

  lemma {:induction false} RunApprovesNothing(run: seq<State>, rules: seq<RiskRule>)
    requires IsRun(run) && KeepsTable(run, rules) && NeverClean(rules) && !CanWarn(rules)
    ensures NothingApproved(run[|run| - 1])
  {
    if |run| > 1 {
      hide NothingApproved, CanWarn, NeverClean, Next, Enabled;
      TradingLaws.PrefixIsRun(run, |run| - 1);
      RunApprovesNothing(run[..|run| - 1], rules);
      assert IsStep(run[|run| - 2], run[|run| - 1]);
      var a :| Enabled(run[|run| - 2], a) && Next(run[|run| - 2], a) == run[|run| - 1];
      StepApprovesNothing(run[|run| - 2], a);
    }
  }

  lemma {:induction false} NoApprovalsNoTimes(log: seq<Event>)
    requires forall k :: 0 <= k < |log| && log[k].Checked? ==> !log[k].approved
    ensures ApprovalTimes(log) == []
  {
    if log != [] {
      NoApprovalsNoTimes(log[..|log| - 1]);
    }
  }

  lemma SoundTableThrottles(rules: seq<RiskRule>, gap: real)
    requires gap > 0.0 && DistinctTypes(rules) && !CanWarn(rules) && (HardGap(rules, gap) || NeverClean(rules))
    ensures Throttles(rules, gap)
  {
    hide IsStep, CanWarn;
    forall run: seq<State> | IsRun(run) && KeepsTable(run, rules) ensures Spaced(ApprovalTimes(run[|run| - 1].log), gap) {
      if HardGap(rules, gap) {
        HardGapIsTheGapRule(rules, gap);
        RunDoesNotWarn(run, rules);
        ApprovalsAreThrottledUnlessWarned(run, gap, 0.0, 0.0);
      } else {
        RunApprovesNothing(run, rules);
        NoApprovalsNoTimes(run[|run| - 1].log);
      }
    }
  }

  // ---------- accounts that pass or fail the loss rules ----------

  /** The limit of the drawdown rule, if there is one. */
  function DrawdownLimit(rules: seq<RiskRule>): real {
    var i := IndexOf(rules, MaxDrawdown);
    if i < |rules| then Limit(rules[i]) else 0.0
  }

  /** At the drawdown limit and with no loss. */
  function CalmAccount(rules: seq<RiskRule>): Account {
    Account(1.0, 1.0 - DrawdownLimit(rules), 0.0)
  }

  /** Past the limit of one loss rule and, if need be, at that of the other. */
  function FailingAccount(rules: seq<RiskRule>, rule: RiskRule): Account {
    if rule.type_ == MaxDrawdown then Account(1.0, -Limit(rule), 0.0)
    else Account(1.0, 1.0 - DrawdownLimit(rules), -Abs(Limit(rule)) - 1.0)
  }

  lemma CalmPasses(rules: seq<RiskRule>, i: nat, now: real)
    requires DistinctTypes(rules) && i < |rules| && !AlwaysViolated(rules[i]) && rules[i].enabled
    ensures !Violated(rules[i], CalmAccount(rules), None, now)
    ensures IsLossRule(rules[i]) ==> forall t :: !Violated(rules[i], CalmAccount(rules), t, now)
  {
    if rules[i].type_ == MaxDrawdown {
      IndexIs(rules, i);
      assert DrawdownLimit(rules) == Limit(rules[i]);
    }
    assert Drawdown(CalmAccount(rules)) == DrawdownLimit(rules);
    assert DailyLoss(CalmAccount(rules)) == 0.0;
  }

  lemma FailingFails(rules: seq<RiskRule>, i: nat, now: real)
    requires DistinctTypes(rules) && CanWarnAt(rules, i)
    ensures var account := FailingAccount(rules, rules[i]);
            && Violated(rules[i], account, None, now)
            && forall j :: 0 <= j < i && rules[j].enabled ==> !Violated(rules[j], account, None, now)
  {
    var account := FailingAccount(rules, rules[i]);
    forall j | 0 <= j < i && rules[j].enabled ensures !Violated(rules[j], account, None, now) {
      assert !AlwaysViolated(rules[j]) && rules[j].type_ != rules[i].type_;
      if rules[j].type_ == MaxDrawdown {
        IndexIs(rules, j);
        assert Drawdown(account) == DrawdownLimit(rules) == Limit(rules[j]);
      }
    }
  }

  lemma FirstIsUnique(rules: seq<RiskRule>, i: nat, account: Account, lastTrade: Option<real>, now: real)
    requires i < |rules| && rules[i].enabled && Violated(rules[i], account, lastTrade, now)
    requires forall j :: 0 <= j < i && rules[j].enabled ==> !Violated(rules[j], account, lastTrade, now)
    ensures FirstViolation(rules, account, lastTrade, now) == Some(rules[i])
  {
    var violated := FirstViolation(rules, account, lastTrade, now);
    assert violated.Some?;
    var k :| 0 <= k < |rules| && rules[k] == violated.value && violated.value.enabled
             && Violated(violated.value, account, lastTrade, now)
             && forall j :: 0 <= j < k && rules[j].enabled ==> !Violated(rules[j], account, lastTrade, now);
    assert k == i;
  }

  /** A table that can warn approves the failing account, and goes on doing so. */
  lemma WarnsAtOnce(rules: seq<RiskRule>, i: nat)
    requires DistinctTypes(rules) && CanWarnAt(rules, i)
    ensures var risk, account := RiskState(false, rules, None), FailingAccount(rules, rules[i]);
            Check(risk, account, 0.0).1.approved && Check(risk, account, 0.0).0 == risk
  {
    var account := FailingAccount(rules, rules[i]);
    FailingFails(rules, i, 0.0);
    hide FailingAccount, CanWarnAt;
    FirstIsUnique(rules, i, account, None, 0.0);
  }

  /** How long a calm account has to wait for a second approval. */
  function Wait(rules: seq<RiskRule>): real {
    var i := IndexOf(rules, MinTimeBetweenTrades);
    if i < |rules| && rules[i].enabled && rules[i].severity == "hard" then Max(0.0, Seconds(rules[i])) else 0.0
  }

  lemma CalmIsApproved(rules: seq<RiskRule>)
    requires DistinctTypes(rules) && !NeverClean(rules)
    ensures Check(RiskState(false, rules, None), CalmAccount(rules), 0.0)
              == (RiskState(false, rules, Some(0.0)), Approval(true, None, None, None))
  {
    var account := CalmAccount(rules);
    forall i | 0 <= i < |rules| && rules[i].enabled ensures !Violated(rules[i], account, None, 0.0) {
      CalmPasses(rules, i, 0.0);
    }
    hide CalmAccount, NeverClean;
  }

  lemma CalmIsApprovedAgain(rules: seq<RiskRule>)
    requires DistinctTypes(rules) && !NeverClean(rules)
    ensures Check(RiskState(false, rules, Some(0.0)), CalmAccount(rules), Wait(rules)).1.approved
  {
    var account, now := CalmAccount(rules), Wait(rules);
    var violated := FirstViolation(rules, account, Some(0.0), now);
    if violated.Some? {
      var i :| 0 <= i < |rules| && rules[i] == violated.value && rules[i].enabled
               && Violated(rules[i], account, Some(0.0), now);
      CalmPasses(rules, i, now);
      IndexIs(rules, i);
      assert rules[i].type_ == MinTimeBetweenTrades;
      assert rules[i].severity != "hard";
    }
  }

  lemma WaitIsShort(rules: seq<RiskRule>, gap: real)
    requires DistinctTypes(rules) && gap > 0.0 && !HardGap(rules, gap)
    ensures 0.0 <= Wait(rules) < gap
  {
    var i := IndexOf(rules, MinTimeBetweenTrades);
    if i < |rules| && rules[i].enabled && rules[i].severity == "hard" {
      assert IsGapRule(rules[i]);
    }
  }

  // ---------- two submissions ----------

  function NoAccount(): Account {
    Account(0.0, 0.0, 0.0)
  }

  lemma ExtendUnderRules(run: seq<State>, a: Action) returns (more: seq<State>)
    requires IsRun(run) && Enabled(run[|run| - 1], a) && !a.SetRules?
    requires forall i :: 0 <= i < |run| ==> run[i].risk.rules == run[0].risk.rules
    ensures IsRun(more) && more == run + [Next(run[|run| - 1], a)]
    ensures forall i :: 0 <= i < |more| ==> more[i].risk.rules == run[0].risk.rules
  {
    more := TradingLaws.Extend(run, a);
    RulesStay(run[|run| - 1], a);
  }

  lemma RulesStay(st: State, a: Action)
    requires Enabled(st, a) && !a.SetRules?
    ensures Next(st, a).risk.rules == st.risk.rules
  {
    hide Respond, Remember, Sends, Update, Save, Check, StepSubmission, StepCancellation;
    match a
    case StepSubmit(account, terminal) => SubmissionKeepsRules(st, account, terminal);
    case StepCancel(task, ok) => CancellationKeepsRisk(st, task, ok);
    case _ =>
  }

  lemma SubmissionKeepsRules(st: State, account: Account, terminal: Terminal)
    requires st.submission.Some?
    ensures StepSubmission(st, account, terminal).risk.rules == st.risk.rules
  {
    if st.submission.value.at == AtBroker {
      hide Check, Respond, Remember, Sends, Update, Save;
    } else {
      hide Check, Respond, Remember, Sends, Update, Save, AfterCall;
      CheckKeepsRules(st.risk, account, st.now);
    }
  }

  lemma CheckKeepsRules(risk: RiskState, account: Account, now: real)
    ensures Check(risk, account, now).0.rules == risk.rules
  {
    hide FirstViolation;
  }

  lemma CancellationKeepsRisk(st: State, task: nat, ok: bool)
    requires task in st.cancels
    ensures StepCancellation(st, task, ok).risk == st.risk
  {
    hide Update;
  }

  function ClosedMarket(): Terminal {
    Terminal(None, None, false, None, None, None)
  }

  lemma ClosedMarketRefuses(ids: Idempotency, order: Order)
    requires order.clientOrderId !in ids && order.symbol != "" && order.quantity > 0.0
    ensures Respond(ids, order, ClosedMarket()) == Failed("symbol not found")
    ensures Remember(ids, order, ClosedMarket()) == ids
  {
  }

  /** A submission the gate approves, up to its validation. */
  lemma NextIsApproved(run: seq<State>, order: Order, account: Account) returns (more: seq<State>)
    requires IsRun(run) && forall i :: 0 <= i < |run| ==> run[i].risk.rules == run[0].risk.rules
    requires var st := run[|run| - 1]; st.submission.None? && Check(st.risk, account, st.now).1.approved
    requires order.status == Pending && order.quantity > 0.0
    ensures IsRun(more) && |run| < |more| && more[0] == run[0]
    ensures forall i :: 0 <= i < |more| ==> more[i].risk.rules == more[0].risk.rules
    ensures var st, checked := run[|run| - 1], Check(run[|run| - 1].risk, account, run[|run| - 1].now);
            more[|more| - 1] == st.(submission := Some(Submission(st.attempts, order, AtValidate)),
                                    attempts := st.attempts + 1, risk := checked.0,
                                    log := st.log + [Checked(st.attempts, order, st.now, true, st.risk.killSwitch,
                                                             checked.1.warning.Some?, checked.1.reason)])
  {
    var submit := StepSubmit(account, ClosedMarket());
    hide Check, ClosedMarket, IsStep;
    more := ExtendUnderRules(run, BeginSubmit(order));
    more := ExtendUnderRules(more, submit);
    more := ExtendUnderRules(more, submit);
  }

  /** The four steps an approved submission of a stored order takes on a closed market. */
  lemma ClosedMarketSteps(st: State, order: Order)
    requires st.submission == Some(Submission(0, order, AtValidate))
    requires order.id in st.rows && st.rows[order.id] == order && order.status == Pending
    requires order.clientOrderId !in st.ids && order.symbol != "" && order.quantity > 0.0
    ensures var saving := StepSubmission(st, NoAccount(), ClosedMarket());
            && saving.submission == Some(Submission(0, order, AtSave)) && saving.log == st.log
            && (var calling := StepSubmission(saving, NoAccount(), ClosedMarket());
                && calling.submission == Some(Submission(0, order, AtBroker)) && calling.log == st.log
                && (var rejecting := StepSubmission(calling, NoAccount(), ClosedMarket());
                    && rejecting.submission == Some(Submission(0, order, AtRejectBroker("symbol not found")))
                    && |rejecting.log| == |st.log| + 1 && st.log <= rejecting.log && rejecting.log[|st.log|].Called?
                    && (var end := StepSubmission(rejecting, NoAccount(), ClosedMarket());
                        && end.submission.None? && end.log == rejecting.log
                        && end.risk == st.risk && end.now == st.now && end.attempts == st.attempts)))
  {
    ClosedMarketRefuses(st.ids, order);
    hide Respond, Remember, Sends, ClosedMarket, NoAccount;
    var rows := StepSubmission(st, NoAccount(), ClosedMarket()).rows;
    assert order.id in rows && rows[order.id].clientOrderId == order.clientOrderId;
  }

  /** On a closed market an approved submission is rejected and ends. */
  lemma ApprovedIsRejected(run: seq<State>, order: Order) returns (more: seq<State>)
    requires IsRun(run) && forall i :: 0 <= i < |run| ==> run[i].risk.rules == run[0].risk.rules
    requires var st := run[|run| - 1];
             && st.submission == Some(Submission(0, order, AtValidate))
             && order.id in st.rows && st.rows[order.id] == order && order.status == Pending
             && order.clientOrderId !in st.ids && order.symbol != "" && order.quantity > 0.0
    ensures IsRun(more) && |run| < |more| && more[0] == run[0]
    ensures forall i :: 0 <= i < |more| ==> more[i].risk.rules == more[0].risk.rules
    ensures var st, s := run[|run| - 1], more[|more| - 1];
            && s.submission.None? && s.risk == st.risk && s.now == st.now && s.attempts == st.attempts
            && |s.log| == |st.log| + 1 && st.log <= s.log && s.log[|st.log|].Called?
  {
    var submit := StepSubmit(NoAccount(), ClosedMarket());
    ClosedMarketSteps(run[|run| - 1], order);
    hide StepSubmission, ClosedMarket, NoAccount;
    more := ExtendUnderRules(run, submit);
    more := ExtendUnderRules(more, submit);
    more := ExtendUnderRules(more, submit);
    more := ExtendUnderRules(more, submit);
  }

  /** Two orders are stored; the first is approved and rejected by the broker; after a wait the second is approved. */
  lemma TwoApprovalsRun(rules: seq<RiskRule>, account: Account, wait: real) returns (run: seq<State>)
    requires wait >= 0.0
    requires var first := Check(RiskState(false, rules, None), account, 0.0);
             first.1.approved && Check(first.0, account, wait).1.approved
    ensures IsRun(run) && KeepsTable(run, rules)
    ensures ApprovalTimes(run[|run| - 1].log) == [0.0, wait]
  {
    var order := DealLaws.PlainOrder();
    var other := order.(id := "id2", clientOrderId := "client2");
    run := [Start(0.0, rules)];
    run := ExtendUnderRules(run, SaveNew(order));
    run := ExtendUnderRules(run, SaveNew(other));
    hide IsRun, Check;
    run := NextIsApproved(run, order, account);
    run := ApprovedIsRejected(run, order);
    run := ExtendUnderRules(run, TradingSystem.Tick(wait));
    run := NextIsApproved(run, other, account);
    TwoApprovals(run[|run| - 1].log);
  }

  lemma TwoApprovals(log: seq<Event>)
    requires |log| == 3 && log[0].Checked? && log[1].Called? && log[2].Checked?
    requires log[0].approved && log[2].approved
    ensures ApprovalTimes(log) == [log[0].time, log[2].time]
  {
    assert log[..2][..1] == log[..1];
    assert ApprovalTimes(log[..1]) == [log[0].time];
    assert ApprovalTimes(log[..2]) == [log[0].time];
  }

  lemma CrowdedRunRefutes(rules: seq<RiskRule>, account: Account, wait: real, gap: real)
    requires 0.0 <= wait < gap
    requires var first := Check(RiskState(false, rules, None), account, 0.0);
             first.1.approved && Check(first.0, account, wait).1.approved
    ensures !Throttles(rules, gap)
  {
    hide Check, IsStep;
    var run := TwoApprovalsRun(rules, account, wait);
    var times := ApprovalTimes(run[|run| - 1].log);
    assert times[1] - times[0] == wait;
  }

  /**
   A table keeps approvals `gap` seconds apart in every run exactly when it cannot warn at once and, unless a
   rule that is always violated lets nothing through, it has an enabled hard rule that asks for at least `gap`.
   */
  lemma ThrottlesIff(rules: seq<RiskRule>, gap: real)
    requires gap > 0.0 && DistinctTypes(rules)
    ensures Throttles(rules, gap) <==> (!CanWarn(rules) && (HardGap(rules, gap) || NeverClean(rules)))
  {
    hide Throttles, Check, NeverClean, HardGap, CanWarnAt;
    if CanWarn(rules) {
      var i :| CanWarnAt(rules, i);
      CanWarnInRange(rules, i);
      WarnsAtOnce(rules, i);
      CrowdedRunRefutes(rules, FailingAccount(rules, rules[i]), 0.0, gap);
    } else if HardGap(rules, gap) || NeverClean(rules) {
      SoundTableThrottles(rules, gap);
    } else {
      CalmIsApproved(rules);
      CalmIsApprovedAgain(rules);
      WaitIsShort(rules, gap);
      CrowdedRunRefutes(rules, CalmAccount(rules), Wait(rules), gap);
    }
  }

  lemma CanWarnInRange(rules: seq<RiskRule>, i: int)
    requires CanWarnAt(rules, i)
    ensures 0 <= i < |rules|
  {
  }

  /** With a hard gap rule and no negative loss limit, exactly when every enabled loss rule is hard. */
  lemma HardGapThrottlesIff(rules: seq<RiskRule>, gap: real)
    requires gap > 0.0 && DistinctTypes(rules) && HardGap(rules, gap) && !NeverClean(rules)
    ensures Throttles(rules, gap) <==>
              (forall i :: 0 <= i < |rules| && rules[i].enabled && IsLossRule(rules[i]) ==> rules[i].severity == "hard")
  {
    hide Throttles, HardGap;
    ThrottlesIff(rules, gap);
    if i :| 0 <= i < |rules| && rules[i].enabled && IsLossRule(rules[i]) && rules[i].severity != "hard" {
      assert CanWarnAt(rules, i);
    }
  }

  // ---------- a hard gap rule that does not throttle ----------

  /** A soft drawdown rule ahead of a hard minimum gap of one second. */
  function SoftFirst(): seq<RiskRule> {
    [RiskRule(MaxDrawdown, map["max_drawdown" := 0.1], "soft", true, "drawdown"),
     RiskRule(MinTimeBetweenTrades, map["seconds" := 1.0], "hard", true, "too many trades")]
  }

  /** Two submissions approved at the same instant, with a hard minimum gap of a second in the table throughout. */
  lemma WarnedApprovalsCanCrowd() returns (run: seq<State>)
    ensures IsRun(run) && GapRun(run, 1.0) && HardGap(SoftFirst(), 1.0) && KeepsTable(run, SoftFirst())
    ensures ApprovalTimes(run[|run| - 1].log) == [0.0, 0.0] && !Spaced(ApprovalTimes(run[|run| - 1].log), 1.0)
  {
    var rules := SoftFirst();
    assert CanWarnAt(rules, 0);
    assert IsGapRule(rules[1]) && Seconds(rules[1]) == 1.0;
    HardGapIsTheGapRule(rules, 1.0);
    WarnsAtOnce(rules, 0);
    hide Check, IsStep, SoftFirst, KeepsGap, HardGap;
    run := TwoApprovalsRun(rules, FailingAccount(rules, rules[0]), 0.0);
    var times := ApprovalTimes(run[|run| - 1].log);
    assert times[1] - times[0] == 0.0;
  }
}
