/** What becomes of an order the gate, the broker or its own quantity refuses, under every interleaving. */
module RefusalLaws {
  import opened Sequences
  import opened Orders
  import opened RiskGate
  import opened Connector
  import opened TradingSystem
  import opened GateLaws
  import TradingLaws
  import DealLaws

  // ---------- a refusal that is still to be recorded ----------

  /** What the engine writes when the broker's answer is not a success. */
  function ErrorOf(response: Response): string {
    if response.Failed? then response.error else "broker rejected"
  }

  /** The submission has been refused for this reason, and its next steps will record it. */
  predicate Due(st: State, attempt: nat, order: Order, reason: Option<string>) {
    && st.submission.Some? && st.submission.value.attempt == attempt && st.submission.value.order == order
    && attempt < st.attempts
    && (match st.submission.value.at
        case AtEntry => order.status == Pending && order.quantity <= 0.0 && reason == Some("quantity must be positive")
        case AtRejectQuantity => reason == Some("quantity must be positive")
        case AtRejectRisk(why) => reason == why
        case AtRejectBroker(error) => reason == Some(error)
        case _ => false)
  }

  predicate Open(rows: Rows, id: string) {
    id in rows && rows[id].status in {Pending, Validated, Submitted, Partial, Rejected}
  }

  predicate IsCanceled(rows: Rows, id: string) {
    id in rows && rows[id].status == Canceled
  }

  predicate IsRejected(rows: Rows, id: string) {
    id in rows && rows[id].status == Rejected
  }

  predicate WillReject(st: State, attempt: nat, order: Order, reason: Option<string>) {
    Due(st, attempt, order, reason) && Open(st.rows, order.id)
  }

  predicate DidReject(st: State, attempt: nat, id: string) {
    DealLaws.Ended(st, attempt) && attempt < st.attempts && IsRejected(st.rows, id)
  }

  /** The action is a cancellation of this order that takes effect. */
  predicate IsEffectiveCancel(st: State, a: Action, id: string)
    requires Enabled(st, a)
  {
    && a.StepCancel? && st.cancels[a.task] == Cancellation(id, AtCancelUpdate)
    && id in st.rows && st.rows[id].status in {Pending, Validated, Submitted, Partial}
  }

  ghost predicate EffectiveCancel(s: State, t: State, id: string) {
    exists a :: Enabled(s, a) && Next(s, a) == t && IsEffectiveCancel(s, a, id)
  }

  // ---------- one step ----------

  lemma CancelCancels(st: State, a: Action, id: string)
    requires Enabled(st, a) && IsEffectiveCancel(st, a, id)
    ensures IsCanceled(Next(st, a).rows, id)
  {
  }

  lemma CanceledStays(before: Rows, after: Rows, id: string)
    requires Moves(before, after)
    ensures IsCanceled(before, id) ==> IsCanceled(after, id)
    ensures IsRejected(before, id) ==> IsRejected(after, id)
  {
  }

  /** The step of the submission that records its refusal, or brings it nearer. */
  lemma RecordingStep(st: State, account: Account, terminal: Terminal, attempt: nat, order: Order, reason: Option<string>)
    requires WillReject(st, attempt, order, reason)
    ensures var s := StepSubmission(st, account, terminal);
            || WillReject(s, attempt, order, reason)
            || (DidReject(s, attempt, order.id) && s.rows[order.id].rejectionReason == reason)
  {
  }

  lemma WillRejectStep(st: State, a: Action, attempt: nat, order: Order, reason: Option<string>)
    requires Enabled(st, a) && WillReject(st, attempt, order, reason) && !IsEffectiveCancel(st, a, order.id)
    ensures var s := Next(st, a);
            || WillReject(s, attempt, order, reason)
            || (DidReject(s, attempt, order.id) && s.rows[order.id].rejectionReason == reason)
  {
    hide StepSubmission, HasClientId;
    match a
    case StepSubmit(account, terminal) => RecordingStep(st, account, terminal, attempt, order, reason);
    case _ =>
  }

  lemma EndedStays(st: State, a: Action, attempt: nat)
    requires Enabled(st, a) && DealLaws.Ended(st, attempt) && attempt < st.attempts
    ensures DealLaws.Ended(Next(st, a), attempt) && attempt < Next(st, a).attempts
  {
    hide Check, Respond, Remember, Sends, Update, Save;
  }

  lemma DidRejectStep(st: State, a: Action, attempt: nat, id: string)
    requires Enabled(st, a) && DidReject(st, attempt, id)
    ensures DidReject(Next(st, a), attempt, id)
  {
    EndedStays(st, a, attempt);
    TradingLaws.StepMoves(st, a);
    hide Next, Enabled, Moves;
    CanceledStays(st.rows, Next(st, a).rows, id);
  }

  /** While nobody submits the order again, its reason stays as it is. */
  lemma ReasonStays(st: State, a: Action, id: string)
    requires Enabled(st, a) && IsRejected(st.rows, id)
    requires st.submission.Some? ==> st.submission.value.order.id != id
    ensures IsRejected(Next(st, a).rows, id) && Next(st, a).rows[id].rejectionReason == st.rows[id].rejectionReason
  {
    hide StepSubmission, HasClientId;
    match a
    case StepSubmit(account, terminal) => SubmissionTouchesItsOwn(st, account, terminal, id);
    case _ =>
  }

  lemma SubmissionTouchesItsOwn(st: State, account: Account, terminal: Terminal, id: string)
    requires st.submission.Some? && st.submission.value.order.id != id && id in st.rows
    ensures var rows := StepSubmission(st, account, terminal).rows; id in rows && rows[id] == st.rows[id]
  {
    if st.submission.value.at == AtBroker {
      hide Check, Respond, Remember, Sends, Update, Save;
    } else {
      hide Check, Respond, Remember, Sends, HasClientId, AfterCall;
    }
  }

  // ---------- from the refusal to the end of the run ----------

  ghost predicate CanceledBetween(run: seq<State>, i: nat, j: nat, id: string)
    requires j < |run|
  {
    exists k :: i <= k < j && EffectiveCancel(run[k], run[k + 1], id)
  }

  /** From state `i` on, no other submission names the order. */
  ghost predicate LastAttempt(run: seq<State>, i: nat, attempt: nat, id: string) {
    forall k :: i <= k < |run| && run[k].submission.Some? && run[k].submission.value.order.id == id ==>
      run[k].submission.value.attempt == attempt
  }

  ghost predicate Fate(run: seq<State>, i: nat, j: nat, attempt: nat, order: Order, reason: Option<string>)
    requires j < |run|
  {
    if CanceledBetween(run, i, j, order.id) then IsCanceled(run[j].rows, order.id)
    else
      || WillReject(run[j], attempt, order, reason)
      || (DidReject(run[j], attempt, order.id)
          && (LastAttempt(run, i, attempt, order.id) ==> run[j].rows[order.id].rejectionReason == reason))
  }

  lemma FateStep(run: seq<State>, i: nat, j: nat, attempt: nat, order: Order, reason: Option<string>, a: Action)
    requires i <= j && j + 1 < |run| && Fate(run, i, j, attempt, order, reason)
    requires Enabled(run[j], a) && Next(run[j], a) == run[j + 1]
    ensures Fate(run, i, j + 1, attempt, order, reason)
  {
    var st, id := run[j], order.id;
    hide Next, Enabled, IsEffectiveCancel, WillReject, IsCanceled, LastAttempt, EffectiveCancel;
    assert CanceledBetween(run, i, j + 1, id) <==>
             (CanceledBetween(run, i, j, id) || EffectiveCancel(run[j], run[j + 1], id)) by { BetweenStep(run, i, j, id); }
    if CanceledBetween(run, i, j, id) {
      TradingLaws.StepMoves(st, a);
      hide Moves;
      CanceledStays(st.rows, run[j + 1].rows, id);
    } else if EffectiveCancel(run[j], run[j + 1], id) {
      EffectiveCancelCancels(run[j], run[j + 1], id);
    } else {
      NotEffective(st, a, run[j + 1], id);
      if WillReject(st, attempt, order, reason) {
        WillRejectStep(st, a, attempt, order, reason);
      } else {
        DidRejectStep(st, a, attempt, id);
        if LastAttempt(run, i, attempt, id) {
          NobodyElse(run, i, j, attempt, id);
          ReasonStays(st, a, id);
        }
      }
    }
  }

  lemma BetweenStep(run: seq<State>, i: nat, j: nat, id: string)
    requires i <= j && j + 1 < |run|
    ensures CanceledBetween(run, i, j + 1, id) <==>
              (CanceledBetween(run, i, j, id) || EffectiveCancel(run[j], run[j + 1], id))
  {
    hide EffectiveCancel;
  }

  lemma EffectiveCancelCancels(s: State, t: State, id: string)
    requires EffectiveCancel(s, t, id)
    ensures IsCanceled(t.rows, id)
  {
    var a :| Enabled(s, a) && Next(s, a) == t && IsEffectiveCancel(s, a, id);
    CancelCancels(s, a, id);
  }

  lemma NotEffective(st: State, a: Action, t: State, id: string)
    requires Enabled(st, a) && Next(st, a) == t && !EffectiveCancel(st, t, id)
    ensures !IsEffectiveCancel(st, a, id)
  {
    hide IsEffectiveCancel, Next;
  }

  lemma NobodyElse(run: seq<State>, i: nat, j: nat, attempt: nat, id: string)
    requires i <= j < |run| && LastAttempt(run, i, attempt, id) && DealLaws.Ended(run[j], attempt)
    ensures run[j].submission.Some? ==> run[j].submission.value.order.id != id
  {
  }

  lemma {:induction false} Follow(run: seq<State>, i: nat, j: nat, attempt: nat, order: Order, reason: Option<string>)
    requires IsRun(run) && i <= j < |run| && WillReject(run[i], attempt, order, reason)
    ensures Fate(run, i, j, attempt, order, reason)
    decreases j - i
  {
    hide Fate, WillReject, Next, Enabled;
    if i < j {
      Follow(run, i, j - 1, attempt, order, reason);
      assert IsStep(run[j - 1], run[j - 1 + 1]);
      var a :| Enabled(run[j - 1], a) && Next(run[j - 1], a) == run[j];
      FateStep(run, i, j - 1, attempt, order, reason, a);
    } else {
      FateAtStart(run, i, attempt, order, reason);
    }
  }

  lemma FateAtStart(run: seq<State>, i: nat, attempt: nat, order: Order, reason: Option<string>)
    requires i < |run| && WillReject(run[i], attempt, order, reason)
    ensures Fate(run, i, i, attempt, order, reason)
  {
  }

  /**
   Once a refused submission of a stored order has ended, the order is rejected exactly when no cancellation of it
   has taken effect since, and canceled otherwise; unless it is submitted again, it keeps the reason it was refused for.
   */
  lemma RefusalIsRecorded(run: seq<State>, i: nat, attempt: nat, order: Order, reason: Option<string>)
    requires IsRun(run) && i < |run| && WillReject(run[i], attempt, order, reason)
    requires DealLaws.Ended(run[|run| - 1], attempt)
    ensures var st, id := run[|run| - 1], order.id;
            && id in st.rows
            && (st.rows[id].status == Rejected <==> !CanceledBetween(run, i, |run| - 1, id))
            && (st.rows[id].status == Canceled <==> CanceledBetween(run, i, |run| - 1, id))
            && (st.rows[id].status == Rejected && LastAttempt(run, i, attempt, id) ==> st.rows[id].rejectionReason == reason)
  {
    Follow(run, i, |run| - 1, attempt, order, reason);
    hide IsRun, LastAttempt, CanceledBetween;
  }

  /** An order of no positive quantity is refused as soon as it is submitted. */
  lemma QuantityIsRefused(run: seq<State>, i: nat, order: Order)
    requires IsRun(run) && i + 1 < |run|
    requires run[i].submission.None? && run[i + 1] == Next(run[i], BeginSubmit(order))
    requires order.status == Pending && order.quantity <= 0.0 && Open(run[i].rows, order.id)
    requires DealLaws.Ended(run[|run| - 1], run[i].attempts)
    ensures var st, id := run[|run| - 1], order.id;
            && id in st.rows
            && (st.rows[id].status == Rejected <==> !CanceledBetween(run, i + 1, |run| - 1, id))
            && (st.rows[id].status == Canceled <==> CanceledBetween(run, i + 1, |run| - 1, id))
            && (st.rows[id].status == Rejected && LastAttempt(run, i + 1, run[i].attempts, id) ==>
                  st.rows[id].rejectionReason == Some("quantity must be positive"))
  {
    RefusalIsRecorded(run, i + 1, run[i].attempts, order, Some("quantity must be positive"));
  }

  /** A rejected order that is submitted again and refused by the gate is left with the new reason. */
  lemma ResubmissionOverwritesReason(run: seq<State>, i: nat, attempt: nat, order: Order, reason: Option<string>)
    requires IsRun(run) && i < |run| && IsRejected(run[i].rows, order.id) && Due(run[i], attempt, order, reason)
    requires DealLaws.Ended(run[|run| - 1], attempt) && LastAttempt(run, i, attempt, order.id)
    ensures var st := run[|run| - 1];
            IsRejected(st.rows, order.id) && st.rows[order.id].rejectionReason == reason
  {
    RefusalIsRecorded(run, i, attempt, order, reason);
    hide Due, LastAttempt, EffectiveCancel, CanceledBetween;
    TradingLaws.TerminalForEver(run, i, |run| - 1, order.id);
  }

  // ---------- from the log to the state it was written in ----------

  /** The state of the run right after the k-th event was logged. */
  ghost predicate JustLogged(run: seq<State>, i: int, k: nat) {
    0 < i < |run| && |run[i - 1].log| == k && |run[i].log| == k + 1
  }

  lemma LogGrowsByOne(st: State, a: Action)
    requires Enabled(st, a)
    ensures st.log <= Next(st, a).log && |Next(st, a).log| <= |st.log| + 1
    ensures |Next(st, a).log| == |st.log| + 1 && Next(st, a).log[|st.log|].Checked? ==> IsCheck(st, a)
    ensures |Next(st, a).log| == |st.log| + 1 && Next(st, a).log[|st.log|].Called? ==> IsCall(st, a)
  {
    hide Next, Check, Respond, Remember, Sends, Advances;
    if IsCheck(st, a) {
      CheckStep(st, a);
    } else if IsCall(st, a) {
      CallStep(st, a);
    } else {
      QuietStep(st, a);
    }
  }

  lemma {:induction false} EventWasLogged(run: seq<State>, k: nat) returns (i: nat)
    requires IsRun(run) && k < |run[|run| - 1].log|
    ensures JustLogged(run, i, k) && run[i].log[k] == run[|run| - 1].log[k]
    ensures IsStep(run[i - 1], run[i])
  {
    var n := |run| - 1;
    if n > 0 {
      assert IsStep(run[n - 1], run[n - 1 + 1]);
      var a :| Enabled(run[n - 1], a) && Next(run[n - 1], a) == run[n];
      LogGrowsByOne(run[n - 1], a);
      hide Next, Enabled;
      if |run[n - 1].log| <= k {
        i := n;
      } else {
        TradingLaws.PrefixIsRun(run, n);
        i := EventWasLogged(run[..n], k);
      }
    }
  }

  /** A check that refuses leaves the refusal to be recorded. */
  lemma RefusedCheckIsDue(st: State, a: Action)
    requires Enabled(st, a) && AttemptsOk(st) && |Next(st, a).log| == |st.log| + 1
    requires Next(st, a).log[|st.log|].Checked? && !Next(st, a).log[|st.log|].approved
    ensures var e := Next(st, a).log[|st.log|];
            Due(Next(st, a), e.attempt, e.order, e.reason) && Next(st, a).rows == st.rows
  {
    LogGrowsByOne(st, a);
    hide Check, AttemptsOk;
    AttemptIsNumbered(st);
  }

  lemma AttemptIsNumbered(st: State)
    requires AttemptsOk(st) && st.submission.Some?
    ensures st.submission.value.attempt < st.attempts
  {
  }

  /** So does a call that is not a success. */
  lemma RefusedCallIsDue(st: State, a: Action)
    requires Enabled(st, a) && AttemptsOk(st) && |Next(st, a).log| == |st.log| + 1
    requires Next(st, a).log[|st.log|].Called? && !Next(st, a).log[|st.log|].response.IsOk()
    ensures var e := Next(st, a).log[|st.log|];
            Due(Next(st, a), e.attempt, e.order, Some(ErrorOf(e.response))) && Next(st, a).rows == st.rows
    ensures st.submission.Some? && st.submission.value.at == AtBroker
    ensures st.submission.value.order == Next(st, a).log[|st.log|].order
  {
    LogGrowsByOne(st, a);
    hide Respond, Remember, Sends, AttemptsOk;
    AttemptIsNumbered(st);
  }

  /**
   An order the gate refuses while its row is open is, once its submission has ended, rejected for the gate's reason,
   unless it was canceled meanwhile.
   */
  lemma GateRefusalIsStored(run: seq<State>, k: nat) returns (i: nat)
    requires IsRun(run)
    requires var st := run[|run| - 1];
             k < |st.log| && st.log[k].Checked? && !st.log[k].approved && DealLaws.Ended(st, st.log[k].attempt)
    ensures JustLogged(run, i, k)
    ensures var st, e := run[|run| - 1], run[|run| - 1].log[k];
            Open(run[i].rows, e.order.id) ==>
              && e.order.id in st.rows
              && (st.rows[e.order.id].status == Rejected <==> !CanceledBetween(run, i, |run| - 1, e.order.id))
              && (st.rows[e.order.id].status == Canceled <==> CanceledBetween(run, i, |run| - 1, e.order.id))
              && (st.rows[e.order.id].status == Rejected && LastAttempt(run, i, e.attempt, e.order.id) ==>
                    st.rows[e.order.id].rejectionReason == e.reason)
  {
    i := EventWasLogged(run, k);
    var e := run[|run| - 1].log[k];
    TradingLaws.PrefixIsRun(run, i);
    AttemptsHold(run[..i]);
    var a :| Enabled(run[i - 1], a) && Next(run[i - 1], a) == run[i];
    RefusedCheckIsDue(run[i - 1], a);
    hide Next, Enabled, AttemptsOk, IsStep;
    if Open(run[i].rows, e.order.id) {
      RefusalIsRecorded(run, i, e.attempt, e.order, e.reason);
    }
  }

  /**
   An order whose call is not a success is, once its submission has ended, rejected with the broker's error exactly
   when no cancellation of it ever took effect, and canceled otherwise.
   */
  lemma BrokerRefusalIsStored(run: seq<State>, k: nat) returns (i: nat)
    requires IsRun(run)
    requires var st := run[|run| - 1];
             k < |st.log| && st.log[k].Called? && !st.log[k].response.IsOk() && DealLaws.Ended(st, st.log[k].attempt)
    ensures JustLogged(run, i, k)
    ensures var st, e := run[|run| - 1], run[|run| - 1].log[k];
            && e.order.id in st.rows
            && (st.rows[e.order.id].status == Rejected <==> !CanceledBetween(run, 0, |run| - 1, e.order.id))
            && (st.rows[e.order.id].status == Canceled <==> CanceledBetween(run, 0, |run| - 1, e.order.id))
            && (st.rows[e.order.id].status == Rejected && LastAttempt(run, i, e.attempt, e.order.id) ==>
                  st.rows[e.order.id].rejectionReason == Some(ErrorOf(e.response)))
  {
    i := EventWasLogged(run, k);
    var e := run[|run| - 1].log[k];
    var id := e.order.id;
    TradingLaws.PrefixIsRun(run, i);
    AttemptsHold(run[..i]);
    DealLaws.DealsHold(run[..i]);
    var a :| Enabled(run[i - 1], a) && Next(run[i - 1], a) == run[i];
    RefusedCallIsDue(run[i - 1], a);
    assert id in run[i].rows && run[i].rows[id].status in {Validated, Canceled};
    hide Next, Enabled, AttemptsOk, IsStep, DealLaws.PointOk, DealLaws.DealsOk;
    if run[i].rows[id].status == Validated {
      RefusalIsRecorded(run, i, e.attempt, e.order, Some(ErrorOf(e.response)));
      NothingCanceledBefore(run, i, id);
    } else {
      CanceledToTheEnd(run, i, id);
    }
  }

  /** An order that is not canceled has not been canceled before. */
  lemma NothingCanceledBefore(run: seq<State>, i: nat, id: string)
    requires IsRun(run) && i < |run| && id in run[i].rows && run[i].rows[id].status != Canceled
    ensures CanceledBetween(run, 0, |run| - 1, id) <==> CanceledBetween(run, i, |run| - 1, id)
  {
    hide EffectiveCancel, IsRun;
    forall k | 0 <= k < i && k < |run| - 1 ensures !EffectiveCancel(run[k], run[k + 1], id) {
      if EffectiveCancel(run[k], run[k + 1], id) {
        EffectiveCancelCancels(run[k], run[k + 1], id);
        TradingLaws.TerminalForEver(run, k + 1, i, id);
      }
    }
  }

  /** A canceled row was canceled by a cancellation of the run, and stays so. */
  lemma CanceledToTheEnd(run: seq<State>, i: nat, id: string)
    requires IsRun(run) && i < |run| && IsCanceled(run[i].rows, id)
    ensures IsCanceled(run[|run| - 1].rows, id) && CanceledBetween(run, 0, |run| - 1, id)
  {
    hide EffectiveCancel, IsRun;
    TradingLaws.TerminalForEver(run, i, |run| - 1, id);
    var k := CanceledSomewhere(run, i, id);
    assert 0 <= k < |run| - 1;
  }

  lemma OnlyCancelsCancel(st: State, a: Action, id: string)
    requires Enabled(st, a) && TradingLaws.SubmissionOk(st)
    requires !IsCanceled(st.rows, id) && IsCanceled(Next(st, a).rows, id)
    ensures IsEffectiveCancel(st, a, id)
  {
    hide StepSubmission, HasClientId;
    match a
    case StepSubmit(account, terminal) => SubmissionCancelsNothing(st, account, terminal, id);
    case _ =>
  }

  lemma SubmissionCancelsNothing(st: State, account: Account, terminal: Terminal, id: string)
    requires st.submission.Some? && TradingLaws.SubmissionOk(st) && !IsCanceled(st.rows, id)
    ensures !IsCanceled(StepSubmission(st, account, terminal).rows, id)
  {
    if st.submission.value.at == AtBroker {
      hide Check, Respond, Remember, Sends, Update, Save;
    } else {
      hide Check, Respond, Remember, Sends, HasClientId, AfterCall;
    }
  }

  lemma {:induction false} CanceledSomewhere(run: seq<State>, i: nat, id: string) returns (k: nat)
    requires IsRun(run) && i < |run| && IsCanceled(run[i].rows, id)
    ensures k < i && EffectiveCancel(run[k], run[k + 1], id)
  {
    if i > 0 {
      assert IsStep(run[i - 1], run[i - 1 + 1]);
      hide EffectiveCancel, IsCanceled, IsStep;
      if IsCanceled(run[i - 1].rows, id) {
        k := CanceledSomewhere(run, i - 1, id);
      } else {
        TradingLaws.PrefixIsRun(run, i);
        TradingLaws.TableHolds(run[..i]);
        CanceledByThisStep(run[i - 1], run[i], id);
        k := i - 1;
      }
    } else {
      NothingAtStart(run, id);
    }
  }

  lemma NothingAtStart(run: seq<State>, id: string)
    requires IsRun(run)
    ensures !IsCanceled(run[0].rows, id)
  {
  }

  lemma CanceledByThisStep(s: State, t: State, id: string)
    requires IsStep(s, t) && TradingLaws.SubmissionOk(s) && !IsCanceled(s.rows, id) && IsCanceled(t.rows, id)
    ensures EffectiveCancel(s, t, id)
  {
    var a :| Enabled(s, a) && Next(s, a) == t;
    hide Next, Enabled, IsCanceled, IsEffectiveCancel;
    OnlyCancelsCancel(s, a, id);
  }
}
