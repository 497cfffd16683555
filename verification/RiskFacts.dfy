/** What each risk rule asks of an account, in its own currency. */
module RiskFacts {
  import opened Sequences
  import opened RiskGate

  function Scaled(account: Account, k: real): Account {
    Account(k * account.balance, k * account.equity, k * account.profit)
  }

  lemma CancelFactor(k: real, x: real, b: real)
    requires k > 0.0 && b > 0.0
    ensures k * b > 0.0 && (k * x) / (k * b) == x / b
  {
    var q := x / b;
    assert q * b == x;
    assert q * (k * b) == k * (q * b);
    var r := (k * x) / (k * b);
    assert r * (k * b) == k * x;
    assert (r - q) * (k * b) == r * (k * b) - q * (k * b);
  }

  lemma FiguresDoNotScale(account: Account, k: real)
    requires k > 0.0
    ensures Drawdown(Scaled(account, k)) == Drawdown(account)
    ensures DailyLoss(Scaled(account, k)) == DailyLoss(account)
  {
    var b := account.balance;
    Signs(k, b);
    Signs(k, account.profit);
    if b > 0.0 {
      CancelFactor(k, b - account.equity, b);
      assert k * (b - account.equity) == k * b - k * account.equity;
      CancelFactor(k, -account.profit, b);
      CancelFactor(k, 0.0, b);
      assert k * -account.profit == -(k * account.profit);
      assert k * 0.0 == 0.0;
    }
  }

  lemma Signs(k: real, x: real)
    requires k > 0.0
    ensures (k * x > 0.0 <==> x > 0.0) && (k * x < 0.0 <==> x < 0.0)
  {
    assert x > 0.0 ==> k * x > 0.0;
    assert x < 0.0 ==> k * x < 0.0;
  }

  lemma {:induction false} SameViolations(rules: seq<RiskRule>, a: Account, b: Account, lastTrade: Option<real>, now: real)
    requires forall r :: Violated(r, a, lastTrade, now) == Violated(r, b, lastTrade, now)
    ensures FirstViolation(rules, a, lastTrade, now) == FirstViolation(rules, b, lastTrade, now)
  {
    hide Violated, IsFirstViolated;
    if rules != [] {
      SameViolations(rules[1..], a, b, lastTrade, now);
    }
  }

  /** The gate looks at ratios only: an account in another currency gets the same answer. */
  lemma CurrencyDoesNotMatter(st: RiskState, account: Account, k: real, now: real)
    requires k > 0.0
    ensures Check(st, Scaled(account, k), now) == Check(st, account, now)
  {
    FiguresDoNotScale(account, k);
    hide Drawdown, DailyLoss, Scaled;
    SameViolations(st.rules, Scaled(account, k), account, st.lastTrade, now);
    hide Violated, FirstViolation;
  }

  lemma RatioExceeds(x: real, b: real, limit: real)
    requires b > 0.0
    ensures x / b > limit <==> x > limit * b
  {
    var q := x / b;
    assert q * b == x;
    assert (q - limit) * b == x - limit * b;
    assert q - limit > 0.0 ==> (q - limit) * b > 0.0;
    assert q - limit <= 0.0 ==> (q - limit) * b <= 0.0;
  }

  /** A funded account breaks the drawdown rule when it is down by more than the limit times its balance, 0.2 by default. */
  lemma DrawdownRule(rule: RiskRule, account: Account, lastTrade: Option<real>, now: real)
    requires rule.type_ == MaxDrawdown && account.balance > 0.0
    ensures var limit := if "max_drawdown" in rule.parameters then rule.parameters["max_drawdown"] else 0.2;
            Violated(rule, account, lastTrade, now) <==> account.balance - account.equity > limit * account.balance
  {
    RatioExceeds(account.balance - account.equity, account.balance, Parameter(rule, "max_drawdown", 0.2));
  }

  /** It breaks the daily-loss rule when it has lost more than the limit times its balance, 0.1 by default. */
  lemma DailyLossRule(rule: RiskRule, account: Account, lastTrade: Option<real>, now: real)
    requires rule.type_ == MaxDailyLoss && account.balance > 0.0
    ensures var limit := if "max_daily_loss" in rule.parameters then rule.parameters["max_daily_loss"] else 0.1;
            Violated(rule, account, lastTrade, now) <==>
              (if account.profit < 0.0 then -account.profit else 0.0) > limit * account.balance
  {
    var loss := if account.profit < 0.0 then -account.profit else 0.0;
    RatioExceeds(loss, account.balance, Parameter(rule, "max_daily_loss", 0.1));
  }

  /** An account without a balance counts as neither down nor losing. */
  lemma UnfundedAccount(rule: RiskRule, account: Account, lastTrade: Option<real>, now: real)
    requires account.balance <= 0.0
    ensures rule.type_ == MaxDrawdown ==>
              (Violated(rule, account, lastTrade, now) <==> Parameter(rule, "max_drawdown", 0.2) < 0.0)
    ensures rule.type_ == MaxDailyLoss ==>
              (Violated(rule, account, lastTrade, now) <==> Parameter(rule, "max_daily_loss", 0.1) < 0.0)
  {
  }

  /** The gap rule is broken until the seconds it asks for, one by default, have passed; no other rule ever is. */
  lemma GapRule(rule: RiskRule, account: Account, lastTrade: Option<real>, now: real)
    ensures rule.type_ == MinTimeBetweenTrades ==>
              (Violated(rule, account, lastTrade, now) <==>
                 lastTrade.Some? && now < lastTrade.value + (if "seconds" in rule.parameters then rule.parameters["seconds"] else 1.0))
    ensures !Evaluated(rule.type_) ==> !Violated(rule, account, lastTrade, now)
  {
  }
}
