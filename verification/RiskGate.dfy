/** The pre-trade gate: an ordered table of rules, the kill switch, and the time of the last approval. */
module RiskGate {
  import opened Sequences

  datatype RuleType =
    | MaxPositionSize | MaxDrawdown | MaxDailyLoss | MaxLeverage | MinTimeBetweenTrades
    | CorrelationLimit | MaxSymbolConcentration | MaxOpenPositions | MaxOrderCount | MaxExposure
    | StopLossRequired | TakeProfitRequired | MaxSpread | MaxSlippage | TradingHoursOnly

  datatype RiskRule = RiskRule(
    type_: RuleType, parameters: map<string, real>, severity: string, enabled: bool, errorMessage: string)

  datatype Approval = Approval(approved: bool, reason: Option<string>, rule: Option<RuleType>, warning: Option<string>)

  /** Missing account figures count as zero. */
  datatype Account = Account(balance: real, equity: real, profit: real)

  function Parameter(rule: RiskRule, name: string, default: real): real {
    if name in rule.parameters then rule.parameters[name] else default
  }

  function Drawdown(account: Account): real {
    if account.balance > 0.0 then (account.balance - account.equity) / account.balance else 0.0
  }

  function DailyLoss(account: Account): real {
    var loss := if account.profit < 0.0 then -account.profit else 0.0;
    if account.balance > 0.0 then loss / account.balance else 0.0
  }

  /** Only three rule types are evaluated; the others are never violated. */
  predicate Violated(rule: RiskRule, account: Account, lastTrade: Option<real>, now: real) {
    match rule.type_
    case MaxDrawdown => Drawdown(account) > Parameter(rule, "max_drawdown", 0.2)
    case MaxDailyLoss => DailyLoss(account) > Parameter(rule, "max_daily_loss", 0.1)
    case MinTimeBetweenTrades => lastTrade.Some? && now - lastTrade.value < Parameter(rule, "seconds", 1.0)
    case _ => false
  }

  datatype RiskState = RiskState(killSwitch: bool, rules: seq<RiskRule>, lastTrade: Option<real>)

  /** The first enabled rule that is violated, in table order. */
  function FirstViolation(rules: seq<RiskRule>, account: Account, lastTrade: Option<real>, now: real): (r: Option<RiskRule>)
    ensures r.Some? ==> IsFirstViolated(rules, r.value, account, lastTrade, now)
    ensures r.None? <==> forall i :: 0 <= i < |rules| && rules[i].enabled ==> !Violated(rules[i], account, lastTrade, now)
  {
    if rules == [] then None
    else if rules[0].enabled && Violated(rules[0], account, lastTrade, now) then Some(rules[0])
    else
      var r := FirstViolation(rules[1..], account, lastTrade, now);
      assert forall i :: 1 <= i < |rules| ==> rules[i] == rules[1..][i - 1];
      r
  }

  /** The rule is violated and enabled, and no enabled rule before it is violated. */
  ghost predicate IsFirstViolated(
    rules: seq<RiskRule>, rule: RiskRule, account: Account, lastTrade: Option<real>, now: real)
  {
    exists i :: 0 <= i < |rules| && rules[i] == rule && rule.enabled && Violated(rule, account, lastTrade, now)
                && forall j :: 0 <= j < i && rules[j].enabled ==> !Violated(rules[j], account, lastTrade, now)
  }

  /** A hard violation rejects; a soft one approves at once, without looking further or recording the time. */
  function Check(st: RiskState, account: Account, now: real): (RiskState, Approval) {
    if st.killSwitch then (st, Approval(false, Some("Kill switch active"), None, None))
    else
      var violated := FirstViolation(st.rules, account, st.lastTrade, now);
      if violated.None? then (st.(lastTrade := Some(now)), Approval(true, None, None, None))
      else if violated.value.severity == "hard" then
        (st, Approval(false, Some(violated.value.errorMessage), Some(violated.value.type_), None))
      else (st, Approval(true, None, None, Some(violated.value.errorMessage)))
  }

  function IndexOf(rules: seq<RiskRule>, t: RuleType): (i: nat)
    ensures i <= |rules|
    ensures i < |rules| ==> rules[i].type_ == t
    ensures forall k :: 0 <= k < i ==> rules[k].type_ != t
  {
    IndexWhere(rules, (r: RiskRule) => r.type_ == t)
  }

  /** The table is keyed by rule type. */
  ghost predicate DistinctTypes(rules: seq<RiskRule>) {
    forall i, j :: 0 <= i < j < |rules| ==> rules[i].type_ != rules[j].type_
  }

  function RuleFor(rules: seq<RiskRule>, t: RuleType): Option<RiskRule> {
    var i := IndexOf(rules, t);
    if i < |rules| then Some(rules[i]) else None
  }

  function Types(rules: seq<RiskRule>): (types: seq<RuleType>)
    ensures |types| == |rules|
  {
    Map((r: RiskRule) => r.type_, rules)
  }

  class RiskEngine {
    var killSwitch: bool
    var rules: seq<RiskRule>
    var lastTrade: Option<real>

    ghost predicate Valid()
      reads this
    {
      DistinctTypes(rules)
    }

    constructor ()
      ensures Valid() && !killSwitch && lastTrade == None
      ensures |rules| == 5 && forall i :: 0 <= i < 5 ==> rules[i].enabled && rules[i].severity == "hard"
      ensures rules[4].type_ == MinTimeBetweenTrades && Parameter(rules[4], "seconds", 1.0) == 1.0
    {
      killSwitch, lastTrade := false, None;
      rules := [
        RiskRule(MaxPositionSize, map["max_percent" := 0.05], "hard", true, "Max position size exceeded"),
        RiskRule(MaxDrawdown, map["max_drawdown" := 0.2], "hard", true, "Max drawdown exceeded"),
        RiskRule(MaxDailyLoss, map["max_daily_loss" := 0.1], "hard", true, "Max daily loss exceeded"),
        RiskRule(MaxLeverage, map["max_leverage" := 50.0], "hard", true, "Max leverage exceeded"),
        RiskRule(MinTimeBetweenTrades, map["seconds" := 1.0], "hard", true, "Too many trades")];
    }

    function View(): RiskState
      reads this
    {
      RiskState(killSwitch, rules, lastTrade)
    }

    /** The rule now stands for its type, every other type is as before; a known type keeps its place, a new one goes last. */
    method AddRule(rule: RiskRule)
      requires Valid()
      modifies this`rules
      ensures Valid()
      ensures RuleFor(rules, rule.type_) == Some(rule)
      ensures forall t :: t != rule.type_ ==> RuleFor(rules, t) == RuleFor(old(rules), t)
      ensures Types(rules) == Types(old(rules)) + if RuleFor(old(rules), rule.type_).None? then [rule.type_] else []
    {
      var i := IndexOf(rules, rule.type_);
      rules := if i < |rules| then rules[i := rule] else rules + [rule];
      forall t | t != rule.type_ ensures RuleFor(rules, t) == RuleFor(old(rules), t) {
        SameIndex(old(rules), rules, t);
      }
      IndexIs(rules, i);
    }

    /** No rule of the type remains; every other type is as before, in the same order. */
    method RemoveRule(t: RuleType)
      requires Valid()
      modifies this`rules
      ensures Valid()
      ensures RuleFor(rules, t) == None
      ensures forall u :: u != t ==> RuleFor(rules, u) == RuleFor(old(rules), u)
      ensures Types(rules) == Filter((u: RuleType) => u != t, Types(old(rules)))
    {
      var i := IndexOf(rules, t);
      if i < |rules| {
        rules := rules[..i] + rules[i + 1..];
      }
      RemovalKeepsOthers(old(rules), i, t);
    }

    method PreTradeCheck(account: Account, now: real) returns (approval: Approval)
      modifies this`lastTrade
      ensures (View(), approval) == Check(old(View()), account, now)
    {
      if killSwitch {
        return Approval(false, Some("Kill switch active"), None, None);
      }
      for i := 0 to |rules|
        invariant FirstViolation(rules, account, lastTrade, now) == FirstViolation(rules[i..], account, lastTrade, now)
        invariant lastTrade == old(lastTrade)
      {
        var rule := rules[i];
        assert rules[i..][1..] == rules[i + 1..];
        if !rule.enabled {
          continue;
        }
        if Violated(rule, account, lastTrade, now) {
          if rule.severity == "hard" {
            return Approval(false, Some(rule.errorMessage), Some(rule.type_), None);
          }
          return Approval(true, None, None, Some(rule.errorMessage));
        }
      }
      lastTrade := Some(now);
      return Approval(true, None, None, None);
    }

    method SetKillSwitch(on: bool)
      modifies this`killSwitch
      ensures View() == old(View()).(killSwitch := on)
    {
      killSwitch := on;
    }
  }

  // ---------- laws of the table ----------

  /** In a table with distinct types, a rule is found where it stands. */
  lemma IndexIs(rules: seq<RiskRule>, i: nat)
    requires DistinctTypes(rules) && i < |rules|
    ensures IndexOf(rules, rules[i].type_) == i
  {
  }

  lemma AbsentType(rules: seq<RiskRule>, t: RuleType)
    requires forall i :: 0 <= i < |rules| ==> rules[i].type_ != t
    ensures RuleFor(rules, t) == None
  {
  }

  lemma PresentRule(rules: seq<RiskRule>, i: nat)
    requires DistinctTypes(rules) && i < |rules|
    ensures RuleFor(rules, rules[i].type_) == Some(rules[i])
  {
    IndexIs(rules, i);
  }

  /** Tables that differ only in places of other types find the same rule of a type. */
  lemma SameIndex(before: seq<RiskRule>, after: seq<RiskRule>, t: RuleType)
    requires DistinctTypes(before) && DistinctTypes(after)
    requires forall r: RiskRule :: r.type_ == t ==> (r in before <==> r in after)
    ensures RuleFor(before, t) == RuleFor(after, t)
  {
    if r: RiskRule :| r in before && r.type_ == t {
      var i :| 0 <= i < |before| && before[i] == r;
      var j :| 0 <= j < |after| && after[j] == r;
      PresentRule(before, i);
      PresentRule(after, j);
    } else {
      assert forall j :: 0 <= j < |after| ==> after[j] in after;
      assert forall i :: 0 <= i < |before| ==> before[i] in before;
    }
  }

  function Removed(rules: seq<RiskRule>, i: nat): seq<RiskRule> {
    if i < |rules| then rules[..i] + rules[i + 1..] else rules
  }

  function OfOtherType(t: RuleType): RiskRule -> bool {
    (r: RiskRule) => r.type_ != t
  }

  lemma RemovalIsFilter(rules: seq<RiskRule>, i: nat, t: RuleType)
    requires DistinctTypes(rules) && i == IndexOf(rules, t)
    ensures Removed(rules, i) == Filter(OfOtherType(t), rules)
  {
    hide IndexOf;
    var p := OfOtherType(t);
    if i < |rules| {
      var before, after := rules[..i], rules[i + 1..];
      assert rules == before + [rules[i]] + after;
      FilterAll(p, before);
      FilterAll(p, after);
      FilterAppend(p, before, rules[i]);
      FilterConcat(p, before + [rules[i]], after);
    } else {
      FilterAll(p, rules);
    }
  }

  lemma {:induction false} TypesOfOthers(rules: seq<RiskRule>, t: RuleType)
    ensures Types(Filter(OfOtherType(t), rules)) == Filter((u: RuleType) => u != t, Types(rules))
  {
    var p := (u: RuleType) => u != t;
    if rules == [] {
      assert Types([]) == [];
    } else {
      var init, last := rules[..|rules| - 1], rules[|rules| - 1];
      assert rules == init + [last];
      assert OfOtherType(t)(last) == p(last.type_);
      hide Filter, Types, OfOtherType;
      TypesOfOthers(init, t);
      FilterAppend(OfOtherType(t), init, last);
      FilterAppend(p, Types(init), last.type_);
      TypesAppend(init, last);
      TypesAppend(Filter(OfOtherType(t), init), last);
    }
  }

  lemma TypesAppend(rules: seq<RiskRule>, rule: RiskRule)
    ensures Types(rules + [rule]) == Types(rules) + [rule.type_]
  {
  }

  lemma RemovalKeepsDistinct(rules: seq<RiskRule>, i: nat)
    requires DistinctTypes(rules)
    ensures DistinctTypes(Removed(rules, i))
  {
  }

  lemma RemovalKeepsOthers(rules: seq<RiskRule>, i: nat, t: RuleType)
    requires DistinctTypes(rules) && i == IndexOf(rules, t)
    ensures var after := Removed(rules, i);
            && DistinctTypes(after) && RuleFor(after, t) == None
            && (forall u :: u != t ==> RuleFor(after, u) == RuleFor(rules, u))
            && Types(after) == Filter((u: RuleType) => u != t, Types(rules))
  {
    var after := Removed(rules, i);
    RemovalIsFilter(rules, i, t);
    RemovalKeepsDistinct(rules, i);
    TypesOfOthers(rules, t);
    FilterMembers(OfOtherType(t), rules);
    hide Removed, RuleFor, IndexOf;
    AbsentType(after, t) by {
      forall k | 0 <= k < |after| ensures after[k].type_ != t {
        assert after[k] in after;
      }
    }
    forall u | u != t ensures RuleFor(after, u) == RuleFor(rules, u) {
      SameIndex(rules, after, u);
    }
  }

  /** What `RuleFor` and `Types` say is all there is to a table. */
  lemma TableIsDetermined(rules: seq<RiskRule>, others: seq<RiskRule>)
    requires DistinctTypes(rules) && DistinctTypes(others) && Types(rules) == Types(others)
    requires forall t :: RuleFor(rules, t) == RuleFor(others, t)
    ensures rules == others
  {
    forall i | 0 <= i < |rules| ensures rules[i] == others[i] {
      assert Types(rules)[i] == Types(others)[i];
      PresentRule(rules, i);
      PresentRule(others, i);
    }
  }

  // ---------- laws of one check ----------

  /** An enabled rule asks for at least `gap` seconds between approvals. */
  ghost predicate KeepsGap(rules: seq<RiskRule>, gap: real) {
    exists i :: 0 <= i < |rules| && rules[i].enabled && rules[i].type_ == MinTimeBetweenTrades
                && Parameter(rules[i], "seconds", 1.0) >= gap
  }

  /** The rule types the engine evaluates; a rule of another type is never violated. */
  predicate Evaluated(t: RuleType) {
    t in {MaxDrawdown, MaxDailyLoss, MinTimeBetweenTrades}
  }

  ghost predicate AllHard(rules: seq<RiskRule>) {
    forall i :: 0 <= i < |rules| && rules[i].enabled && Evaluated(rules[i].type_) ==> rules[i].severity == "hard"
  }

  /** Every enabled rule that is evaluated is hard, and an enabled rule keeps approvals at least `gap` seconds apart. */
  ghost predicate Guarded(rules: seq<RiskRule>, gap: real) {
    AllHard(rules) && KeepsGap(rules, gap)
  }

  /** Whatever else is in the table, an approval without a warning is spaced from the last recorded one, and is recorded. */
  lemma CleanApprovalIsSpaced(st: RiskState, account: Account, now: real, gap: real)
    requires KeepsGap(st.rules, gap) && Check(st, account, now).1.approved && Check(st, account, now).1.warning.None?
    ensures st.lastTrade.Some? ==> now - st.lastTrade.value >= gap
    ensures Check(st, account, now).0 == st.(lastTrade := Some(now))
  {
  }

  /**
   An approval carries a warning exactly when the first violated rule is soft. It then records nothing, and
   no other approval fails to be recorded.
   */
  lemma WarnedApprovalIsUnrecorded(st: RiskState, account: Account, now: real)
    ensures var checked := Check(st, account, now);
            var violated := FirstViolation(st.rules, account, st.lastTrade, now);
            && (checked.1.warning.Some? <==> !st.killSwitch && violated.Some? && violated.value.severity != "hard")
            && (checked.1.warning.Some? ==> checked.1.approved && checked.0 == st && !AllHard(st.rules))
            && (checked.1.approved && checked.0.lastTrade != Some(now) ==> checked.1.warning.Some?)
  {
  }

  /** Under a guarded table an approval is spaced from the last one, and is recorded. */
  lemma GuardedApprovalIsSpaced(st: RiskState, account: Account, now: real, gap: real)
    requires Guarded(st.rules, gap) && Check(st, account, now).1.approved
    ensures !st.killSwitch
    ensures st.lastTrade.Some? ==> now - st.lastTrade.value >= gap
    ensures Check(st, account, now).0 == st.(lastTrade := Some(now))
  {
  }

  /** A rejection always carries a reason. */
  lemma RejectionHasReason(st: RiskState, account: Account, now: real)
    ensures !Check(st, account, now).1.approved ==> Check(st, account, now).1.reason.Some?
  {
  }
}
