/** What becomes of an order the broker has dealt: the lock, the stale copy and late cancellations. */
module DealLaws {
  import opened Sequences
  import opened Orders
  import opened RiskGate
  import opened Connector
  import opened TradingSystem
  import TradingLaws

  /** A call that reached the broker and came back with success and a deal. */
  predicate Dealt(e: Event) {
    e.Called? && e.sent && e.response.Answered? && e.response.ok && e.response.result.deal != 0
  }

  predicate Settled(rows: Rows, id: string) {
    id in rows && rows[id].status in {Filled, Canceled}
  }

  /** The submission that made the call is still about to record it. */
  predicate Recording(st: State, e: Event)
    requires Dealt(e)
  {
    && st.submission.Some?
    && st.submission.value.order == e.order && st.submission.value.attempt == e.attempt
    && (st.submission.value.at == AtSubmitted(e.response.result.deal) || st.submission.value.at == AtFilled)
  }

  ghost predicate DealsOk(st: State) {
    forall k :: 0 <= k < |st.log| && Dealt(st.log[k]) ==>
      Recording(st, st.log[k]) || Settled(st.rows, st.log[k].order.id)
  }

  /** From validation on, only a cancellation comes between the submission and its row. */
  predicate PointOk(st: State) {
    st.submission.Some? ==>
      var rows, id := st.rows, st.submission.value.order.id;
      match st.submission.value.at
      case AtSave => id in rows && rows[id].status in {Validated, Canceled}
      case AtBroker => id in rows && rows[id].status in {Validated, Canceled}
      case AtRejectBroker(_) => id in rows && rows[id].status in {Validated, Canceled}
      case AtSubmitted(_) => id in rows && rows[id].status in {Validated, Canceled}
      case AtFilled => id in rows && rows[id].status in {Submitted, Canceled}
      case _ => true
  }

  lemma SettledStays(before: Rows, after: Rows, id: string)
    requires Settled(before, id) && Moves(before, after)
    ensures Settled(after, id)
  {
  }

  lemma SubmissionKeepsPoint(st: State, account: Account, terminal: Terminal)
    requires st.submission.Some? && PointOk(st)
    ensures PointOk(StepSubmission(st, account, terminal))
  {
    hide Check, Respond, Remember, Sends, HasClientId;
  }

  lemma StepKeepsPoint(st: State, a: Action)
    requires Enabled(st, a) && PointOk(st)
    ensures PointOk(Next(st, a))
  {
    hide StepSubmission;
    match a
    case SaveNew(order) =>
      if Save(st.rows, order).Ok? {
        SaveNeverOverwrites(st.rows, order);
      }
    case StepSubmit(account, terminal) => SubmissionKeepsPoint(st, account, terminal);
    case _ =>
  }

  /** A deal being recorded goes on being recorded, or is settled by this step. */
  lemma RecordingGoesOn(st: State, a: Action, e: Event)
    requires Enabled(st, a) && PointOk(st) && Dealt(e) && Recording(st, e)
    ensures Recording(Next(st, a), e) || Settled(Next(st, a).rows, e.order.id)
  {
    hide Check, Respond, Remember, Sends, Save;
  }

  /** A call that deals leaves the deal to be recorded. */
  lemma CallIsRecording(st: State, account: Account, terminal: Terminal)
    requires st.submission.Some? && st.submission.value.at == AtBroker
    ensures var s := StepSubmission(st, account, terminal);
            && |s.log| == |st.log| + 1 && st.log <= s.log
            && (Dealt(s.log[|st.log|]) ==> Recording(s, s.log[|st.log|]))
  {
    hide Check, Refusal, Remember, Save, Update;
  }

  /** A step that deals leaves the deal to be recorded. */
  lemma NewDealIsRecording(st: State, a: Action)
    requires Enabled(st, a)
    ensures st.log <= Next(st, a).log && |Next(st, a).log| <= |st.log| + 1
    ensures |Next(st, a).log| > |st.log| && Dealt(Next(st, a).log[|st.log|]) ==>
              Recording(Next(st, a), Next(st, a).log[|st.log|])
  {
    hide Check, Respond, Remember, Sends, Save, Update, Recording;
    if a.StepSubmit? && st.submission.value.at == AtBroker {
      CallIsRecording(st, a.account, a.terminal);
    }
  }

  lemma DealGoesOn(st: State, a: Action, e: Event)
    requires Enabled(st, a) && PointOk(st) && Dealt(e) && (Recording(st, e) || Settled(st.rows, e.order.id))
    ensures Recording(Next(st, a), e) || Settled(Next(st, a).rows, e.order.id)
  {
    hide Next, Enabled;
    if Recording(st, e) {
      RecordingGoesOn(st, a, e);
    } else {
      TradingLaws.StepMoves(st, a);
      SettledStays(st.rows, Next(st, a).rows, e.order.id);
    }
  }

  lemma StepKeepsDeals(st: State, a: Action)
    requires Enabled(st, a) && PointOk(st) && DealsOk(st)
    ensures DealsOk(Next(st, a))
  {
    var s := Next(st, a);
    NewDealIsRecording(st, a);
    hide Next, Enabled, Recording, Settled, PointOk;
    forall k | 0 <= k < |st.log| && Dealt(st.log[k])
      ensures Recording(s, st.log[k]) || Settled(s.rows, st.log[k].order.id)
    {
      DealGoesOn(st, a, st.log[k]);
    }
  }

  lemma {:induction false} DealsHold(run: seq<State>)
    requires IsRun(run)
    ensures PointOk(run[|run| - 1]) && DealsOk(run[|run| - 1])
  {
    if |run| > 1 {
      TradingLaws.PrefixIsRun(run, |run| - 1);
      DealsHold(run[..|run| - 1]);
      assert IsStep(run[|run| - 2], run[|run| - 1]);
      var a :| Enabled(run[|run| - 2], a) && Next(run[|run| - 2], a) == run[|run| - 1];
      StepKeepsPoint(run[|run| - 2], a);
      StepKeepsDeals(run[|run| - 2], a);
    }
  }

  /** The submission that made the call has ended. */
  predicate Ended(st: State, attempt: nat) {
    st.submission.Some? ==> st.submission.value.attempt != attempt
  }

  /** Once its submission has ended, an order the broker dealt is stored as filled or canceled, never as anything else. */
  lemma DealtIsFilledOrCanceled(run: seq<State>, k: nat)
    requires IsRun(run)
    requires var st := run[|run| - 1]; k < |st.log| && Dealt(st.log[k]) && Ended(st, st.log[k].attempt)
    ensures var st := run[|run| - 1];
            st.log[k].order.id in st.rows && st.rows[st.log[k].order.id].status in {Filled, Canceled}
  {
    DealsHold(run);
  }

  // ---------- cancellations ----------

  /** The step is a cancellation of this order that finds its row validated or submitted. */
  ghost predicate CancelsInTime(s: State, t: State, id: string) {
    exists a :: Enabled(s, a) && Next(s, a) == t && IsCancelInTime(s, a, id)
  }

  predicate IsCancelInTime(st: State, a: Action, id: string)
    requires Enabled(st, a)
  {
    && a.StepCancel? && st.cancels[a.task] == Cancellation(id, AtCancelUpdate)
    && id in st.rows && st.rows[id].status in {Validated, Submitted}
  }

  /** No cancellation has come between a submission of this order and its row. */
  predicate PointOnTrack(st: State, id: string) {
    st.submission.Some? && st.submission.value.order.id == id ==>
      var rows := st.rows;
      match st.submission.value.at
      case AtSave => id in rows && rows[id].status == Validated
      case AtBroker => id in rows && rows[id].status == Validated
      case AtRejectBroker(_) => id in rows && rows[id].status == Validated
      case AtSubmitted(_) => id in rows && rows[id].status == Validated
      case AtFilled => id in rows && rows[id].status == Submitted
      case _ => true
  }

  predicate IsFilled(rows: Rows, id: string) {
    id in rows && rows[id].status == Filled
  }

  predicate OrderDealt(e: Event, id: string) {
    Dealt(e) && e.order.id == id
  }

  /** The deal is being recorded or its order is filled. */
  predicate DealOnTrack(st: State, e: Event, id: string)
    requires OrderDealt(e, id)
  {
    Recording(st, e) || IsFilled(st.rows, id)
  }

  ghost predicate OnTrack(st: State, id: string) {
    PointOnTrack(st, id) && forall k :: 0 <= k < |st.log| && OrderDealt(st.log[k], id) ==> DealOnTrack(st, st.log[k], id)
  }

  lemma FilledStays(before: Rows, after: Rows, id: string)
    requires IsFilled(before, id) && Moves(before, after)
    ensures IsFilled(after, id)
  {
  }

  lemma SubmissionKeepsTrack(st: State, account: Account, terminal: Terminal, id: string)
    requires st.submission.Some? && PointOnTrack(st, id)
    ensures PointOnTrack(StepSubmission(st, account, terminal), id)
  {
    hide Check, Respond, Remember, Sends, HasClientId;
  }

  lemma StepKeepsPointOnTrack(st: State, a: Action, id: string)
    requires Enabled(st, a) && PointOnTrack(st, id) && !IsCancelInTime(st, a, id)
    ensures PointOnTrack(Next(st, a), id)
  {
    hide StepSubmission;
    match a
    case SaveNew(order) =>
      if Save(st.rows, order).Ok? {
        SaveNeverOverwrites(st.rows, order);
      }
    case StepSubmit(account, terminal) => SubmissionKeepsTrack(st, account, terminal, id);
    case _ =>
  }

  lemma RecordingEndsFilled(st: State, a: Action, e: Event, id: string)
    requires Enabled(st, a) && PointOnTrack(st, id) && Dealt(e) && e.order.id == id && Recording(st, e)
    ensures Recording(Next(st, a), e) || IsFilled(Next(st, a).rows, id)
  {
    hide Check, Respond, Remember, Sends, Save;
  }

  lemma DealStaysOnTrack(st: State, a: Action, e: Event, id: string)
    requires Enabled(st, a) && PointOnTrack(st, id) && OrderDealt(e, id) && DealOnTrack(st, e, id)
    ensures DealOnTrack(Next(st, a), e, id)
  {
    hide Next, Enabled;
    if Recording(st, e) {
      RecordingEndsFilled(st, a, e, id);
    } else {
      TradingLaws.StepMoves(st, a);
      FilledStays(st.rows, Next(st, a).rows, id);
    }
  }

  lemma NewDealIsOnTrack(st: State, a: Action, id: string)
    requires Enabled(st, a)
    ensures st.log <= Next(st, a).log && |Next(st, a).log| <= |st.log| + 1
    ensures |Next(st, a).log| > |st.log| && OrderDealt(Next(st, a).log[|st.log|], id) ==>
              DealOnTrack(Next(st, a), Next(st, a).log[|st.log|], id)
  {
    hide Next, Enabled;
    NewDealIsRecording(st, a);
  }

  lemma StepKeepsTrack(st: State, a: Action, id: string)
    requires Enabled(st, a) && OnTrack(st, id) && !IsCancelInTime(st, a, id)
    ensures OnTrack(Next(st, a), id)
  {
    hide Next, Enabled, IsCancelInTime, PointOnTrack, OrderDealt, DealOnTrack;
    var s := Next(st, a);
    NewDealIsOnTrack(st, a, id);
    StepKeepsPointOnTrack(st, a, id);
    forall k | 0 <= k < |st.log| && OrderDealt(st.log[k], id) ensures DealOnTrack(s, st.log[k], id) {
      DealStaysOnTrack(st, a, st.log[k], id);
    }
  }

  ghost predicate NeverCanceledInTime(run: seq<State>, id: string) {
    forall i :: 0 <= i < |run| - 1 ==> !CancelsInTime(run[i], run[i + 1], id)
  }

  lemma {:induction false} TrackHolds(run: seq<State>, id: string)
    requires IsRun(run) && NeverCanceledInTime(run, id)
    ensures OnTrack(run[|run| - 1], id)
  {
    if |run| > 1 {
      var n := |run| - 1;
      var init := run[..n];
      TradingLaws.PrefixIsRun(run, n);
      forall i | 0 <= i < |init| - 1 ensures !CancelsInTime(init[i], init[i + 1], id) {
        assert !CancelsInTime(run[i], run[i + 1], id);
      }
      TrackHolds(init, id);
      assert IsStep(run[n - 1], run[n - 1 + 1]) && !CancelsInTime(run[n - 1], run[n - 1 + 1], id);
      var a :| Enabled(run[n - 1], a) && Next(run[n - 1], a) == run[n];
      StepKeepsTrack(run[n - 1], a, id);
    }
  }

  lemma CancelInTimeCancels(s: State, t: State, id: string)
    requires CancelsInTime(s, t, id)
    ensures id in t.rows && t.rows[id].status == Canceled && IsTerminal(Canceled)
  {
  }

  lemma CanceledIsNotFilled(rows: Rows, id: string)
    requires id in rows && rows[id].status == Canceled
    ensures !IsFilled(rows, id)
  {
  }

  lemma CanceledForGood(run: seq<State>, id: string)
    requires IsRun(run) && !NeverCanceledInTime(run, id)
    ensures !IsFilled(run[|run| - 1].rows, id)
  {
    hide CancelsInTime, IsRun, IsFilled, IsTerminal;
    var i :| 0 <= i < |run| - 1 && CancelsInTime(run[i], run[i + 1], id);
    hide *;
    CancelInTimeCancels(run[i], run[i + 1], id);
    TradingLaws.TerminalForEver(run, i + 1, |run| - 1, id);
    CanceledIsNotFilled(run[|run| - 1].rows, id);
  }

  lemma OnTrackEndsFilled(st: State, k: nat)
    requires k < |st.log| && Dealt(st.log[k]) && Ended(st, st.log[k].attempt) && OnTrack(st, st.log[k].order.id)
    ensures IsFilled(st.rows, st.log[k].order.id)
  {
  }

  /**
   Once its submission has ended, an order the broker dealt is stored as filled exactly when no cancellation
   of it took effect while its row was validated or submitted.
   */
  lemma DealtIsFilledIff(run: seq<State>, k: nat)
    requires IsRun(run)
    requires var st := run[|run| - 1]; k < |st.log| && Dealt(st.log[k]) && Ended(st, st.log[k].attempt)
    ensures var st := run[|run| - 1];
            IsFilled(st.rows, st.log[k].order.id) <==> NeverCanceledInTime(run, st.log[k].order.id)
  {
    var id := run[|run| - 1].log[k].order.id;
    hide IsFilled, CancelsInTime, OnTrack, Dealt, Ended;
    if NeverCanceledInTime(run, id) {
      TrackHolds(run, id);
      OnTrackEndsFilled(run[|run| - 1], k);
    } else {
      CanceledForGood(run, id);
    }
  }

  /** In particular it is filled when no cancellation task ever names it, whatever is done to other orders. */
  lemma DealtIsFilledWithoutCancellations(run: seq<State>, k: nat)
    requires IsRun(run)
    requires var st := run[|run| - 1]; k < |st.log| && Dealt(st.log[k]) && Ended(st, st.log[k].attempt)
    requires var id := run[|run| - 1].log[k].order.id;
             forall i, task :: 0 <= i < |run| && task in run[i].cancels ==> run[i].cancels[task].id != id
    ensures IsFilled(run[|run| - 1].rows, run[|run| - 1].log[k].order.id)
  {
    var id := run[|run| - 1].log[k].order.id;
    forall i | 0 <= i < |run| - 1 ensures !CancelsInTime(run[i], run[i + 1], id) {
      hide Next;
    }
    DealtIsFilledIff(run, k);
  }

  // ---------- a cancellation that overtakes a deal ----------

  /** The deal is made and nothing is recorded yet. */
  predicate AwaitsRecording(st: State) {
    && st.submission.Some? && st.submission.value.at.AtSubmitted? && st.submission.value.at.deal != 0
    && st.submission.value.order.id in st.rows && st.rows[st.submission.value.order.id].status == Validated
  }

  /** The four steps of a cancellation, and the step of the submission after it. */
  lemma CancelSteps(st: State, task: nat, id: string, account: Account, terminal: Terminal)
    requires AwaitsRecording(st) && task !in st.cancels && id == st.submission.value.order.id
    ensures var s1 := Next(st, BeginCancel(task, id));
            && Enabled(s1, StepCancel(task, true))
            && var s2 := Next(s1, StepCancel(task, true));
            && Enabled(s2, StepCancel(task, true))
            && var s3 := Next(s2, StepCancel(task, true));
            && Enabled(s3, StepCancel(task, true))
            && var s4 := Next(s3, StepCancel(task, true));
            && Enabled(s4, StepSubmit(account, terminal))
            && var s5 := Next(s4, StepSubmit(account, terminal));
            && s5.log == st.log && s5.submission.None? && id in s5.rows && s5.rows[id].status == Canceled
  {
    var s1 := Next(st, BeginCancel(task, id));
    var s2 := Next(s1, StepCancel(task, true));
    var s3 := Next(s2, StepCancel(task, true));
    var s4 := Next(s3, StepCancel(task, true));
    assert s3 == st.(cancels := s3.cancels) && s3.cancels[task] == Cancellation(id, AtCancelUpdate);
    assert s4 == st.(cancels := s4.cancels, rows := s4.rows) && s4.rows[id].status == Canceled;
  }

  /** Five steps from there, a cancellation that takes no lock leaves the dealt order canceled for good. */
  lemma CancelOvertakesDeal(run: seq<State>, task: nat, account: Account, terminal: Terminal) returns (more: seq<State>)
    requires IsRun(run) && AwaitsRecording(run[|run| - 1]) && task !in run[|run| - 1].cancels
    ensures IsRun(more) && run <= more
    ensures var st, id := more[|more| - 1], run[|run| - 1].submission.value.order.id;
            && st.log == run[|run| - 1].log && st.submission.None?
            && id in st.rows && st.rows[id].status == Canceled
  {
    var id := run[|run| - 1].submission.value.order.id;
    CancelSteps(run[|run| - 1], task, id, account, terminal);
    hide IsRun, Next;
    more := TradingLaws.Extend(run, BeginCancel(task, id));
    more := TradingLaws.Extend(more, StepCancel(task, true));
    more := TradingLaws.Extend(more, StepCancel(task, true));
    more := TradingLaws.Extend(more, StepCancel(task, true));
    more := TradingLaws.Extend(more, StepSubmit(account, terminal));
  }

  function PlainOrder(): Order {
    Order("id", "client", "EURUSD", true, 1.0, 0.0, None, None, None, Pending, None, None, None, 0.0)
  }

  function OpenMarket(): Terminal {
    Terminal(Some(SymbolInfo(false, false, 0.1, 100.0, 0.0, 0.0, 0.0, 0.0)), Some(Connector.Tick(1.0, 1.0)), true,
             Some(0.0), Some(0.0), Some(SendResult(10009, 7, 7)))
  }

  lemma OpenMarketDeals()
    ensures Sends(map[], PlainOrder(), OpenMarket())
    ensures Respond(map[], PlainOrder(), OpenMarket()) == Answered(true, 7, SendResult(10009, 7, 7))
  {
  }

  /** Such a state is reached: one order stored, submitted, approved, validated and dealt. */
  lemma DealAwaitsRecording(account: Account) returns (run: seq<State>)
    ensures IsRun(run) && AwaitsRecording(run[|run| - 1]) && run[|run| - 1].cancels == map[]
    ensures var st := run[|run| - 1]; |st.log| == 2 && Dealt(st.log[1]) && st.log[1].order == st.submission.value.order
  {
    var order, submit := PlainOrder(), StepSubmit(account, OpenMarket());
    OpenMarketDeals();
    run := [Start(0.0, [])];
    hide Sends, Respond, Remember, OpenMarket;
    run := TradingLaws.Extend(run, SaveNew(order));
    run := TradingLaws.Extend(run, BeginSubmit(order));
    run := TradingLaws.Extend(run, submit);
    run := TradingLaws.Extend(run, submit);
    run := TradingLaws.Extend(run, submit);
    run := TradingLaws.Extend(run, submit);
    run := TradingLaws.Extend(run, submit);
  }

  /** So there are runs from the start that end with a dealt order stored as canceled. */
  lemma DealtCanEndCanceled(account: Account) returns (run: seq<State>)
    ensures IsRun(run)
    ensures var st := run[|run| - 1];
            && |st.log| == 2 && Dealt(st.log[1]) && Ended(st, st.log[1].attempt)
            && st.log[1].order.id in st.rows && st.rows[st.log[1].order.id].status == Canceled
  {
    hide IsRun, Dealt, AwaitsRecording;
    run := DealAwaitsRecording(account);
    run := CancelOvertakesDeal(run, 0, account, OpenMarket());
  }
}
