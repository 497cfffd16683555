/** One submission or cancellation of a stored order with nothing in between: exactly what it leaves in the table. */
module SoloLaws {
  import opened Sequences
  import opened Orders
  import opened RiskGate
  import opened Connector
  import opened TradingSystem
  import RefusalLaws

  /** The order is stored as the caller has it, and nobody is submitting. */
  predicate Ready(st: State, order: Order) {
    && st.submission.None? && order.id in st.rows && st.rows[order.id] == order && order.status == Pending
  }

  /** Step the submission, at one instant and with one account and terminal, until it ends. */
  function RunToEnd(st: State, account: Account, terminal: Terminal, steps: nat): State
    decreases steps
  {
    if steps == 0 || st.submission.None? then st
    else RunToEnd(StepSubmission(st, account, terminal), account, terminal, steps - 1)
  }

  function AfterSubmission(st: State, order: Order, account: Account, terminal: Terminal): State
    requires st.submission.None?
  {
    RunToEnd(Next(st, BeginSubmit(order)), account, terminal, 8)
  }

  /** The submission has ended, and of the table only the row of the order has changed. */
  predicate Leaves(st: State, order: Order, account: Account, terminal: Terminal, row: Order)
    requires st.submission.None?
  {
    var end := AfterSubmission(st, order, account, terminal);
    end.submission.None? && end.rows == st.rows[order.id := row]
  }

  function RefusedRow(order: Order, reason: Option<string>, now: real): Order {
    order.(status := Rejected, rejectionReason := reason, updatedAt := now)
  }

  lemma QuantityAlone(st: State, order: Order, account: Account, terminal: Terminal)
    requires Ready(st, order) && order.quantity <= 0.0
    ensures Leaves(st, order, account, terminal, RefusedRow(order, Some("quantity must be positive"), st.now))
    ensures AfterSubmission(st, order, account, terminal).log == st.log
  {
    var s1 := StepSubmission(Next(st, BeginSubmit(order)), account, terminal);
    var s2 := StepSubmission(s1, account, terminal);
    assert s2.submission.None?;
    assert RunToEnd(s2, account, terminal, 6) == s2;
    assert RunToEnd(s1, account, terminal, 7) == s2;
  }

  lemma GateAlone(st: State, order: Order, account: Account, terminal: Terminal)
    requires Ready(st, order) && order.quantity > 0.0 && !Check(st.risk, account, st.now).1.approved
    ensures Leaves(st, order, account, terminal, RefusedRow(order, Check(st.risk, account, st.now).1.reason, st.now))
    ensures |AfterSubmission(st, order, account, terminal).log| == |st.log| + 1
  {
    hide Check;
    var s1 := StepSubmission(Next(st, BeginSubmit(order)), account, terminal);
    var s2 := StepSubmission(s1, account, terminal);
    var s3 := StepSubmission(s2, account, terminal);
    assert s3.submission.None?;
    assert RunToEnd(s3, account, terminal, 5) == s3;
    assert RunToEnd(s2, account, terminal, 6) == s3;
    assert RunToEnd(s1, account, terminal, 7) == s3;
  }

  /** The row of an order on its way to the broker. */
  function ValidatedRow(order: Order, now: real): Order {
    order.(status := Validated, updatedAt := now)
  }

  /** Where an approved submission stands when it calls the broker. */
  predicate AtTheBroker(s: State, st: State, order: Order) {
    && s.submission.Some? && s.submission.value.order == order && s.submission.value.at == AtBroker
    && s.rows == st.rows[order.id := ValidatedRow(order, st.now)] && s.ids == st.ids && s.now == st.now
  }

  lemma ToTheBroker(st: State, order: Order, account: Account, terminal: Terminal) returns (s: State)
    requires Ready(st, order) && order.quantity > 0.0 && Check(st.risk, account, st.now).1.approved
    ensures AtTheBroker(s, st, order)
    ensures AfterSubmission(st, order, account, terminal) == RunToEnd(s, account, terminal, 4)
  {
    hide Check;
    var s0 := Next(st, BeginSubmit(order));
    var s1 := StepSubmission(s0, account, terminal);
    var s2 := StepSubmission(s1, account, terminal);
    var s3 := StepSubmission(s2, account, terminal);
    s := StepSubmission(s3, account, terminal);
    assert s3.rows[order.id].clientOrderId == order.clientOrderId;
    assert RunToEnd(s3, account, terminal, 5) == RunToEnd(s, account, terminal, 4);
    assert RunToEnd(s2, account, terminal, 6) == RunToEnd(s3, account, terminal, 5);
    assert RunToEnd(s1, account, terminal, 7) == RunToEnd(s2, account, terminal, 6);
    assert RunToEnd(s0, account, terminal, 8) == RunToEnd(s1, account, terminal, 7);
  }

  predicate Goes(st: State, order: Order, account: Account)
  {
    Ready(st, order) && order.quantity > 0.0 && Check(st.risk, account, st.now).1.approved
  }

  /** A known client id leaves the order validated. */
  lemma DuplicateAlone(st: State, order: Order, account: Account, terminal: Terminal)
    requires Goes(st, order, account) && order.clientOrderId != "" && order.clientOrderId in st.ids
    ensures Leaves(st, order, account, terminal, ValidatedRow(order, st.now))
    ensures AfterSubmission(st, order, account, terminal).ids == st.ids
  {
    hide Check;
    var s := ToTheBroker(st, order, account, terminal);
    hide Ready, AfterSubmission;
    var s1 := StepSubmission(s, account, terminal);
    assert Respond(s.ids, order, terminal).Duplicate?;
    assert RunToEnd(s1, account, terminal, 3) == s1;
  }

  /** An order the broker cannot trade, or does not take, is rejected with its error. */
  lemma RefusedAlone(st: State, order: Order, account: Account, terminal: Terminal)
    requires Goes(st, order, account) && !Known(st.ids, order)
    requires !Tradable(order, terminal) || terminal.sent.None? || terminal.sent.value.retcode !in SUCCESS_CODES
    ensures var error := if Tradable(order, terminal) && terminal.sent.Some? then "broker rejected"
                         else if Tradable(order, terminal) then "order_send failed"
                         else Refusal(order, terminal).value;
            Leaves(st, order, account, terminal, RefusedRow(ValidatedRow(order, st.now), Some(error), st.now))
  {
    hide Check;
    var s := ToTheBroker(st, order, account, terminal);
    RefusedAnswer(st.ids, order, terminal);
    var error := RefusalLaws.ErrorOf(Respond(st.ids, order, terminal));
    hide Tradable, Refusal, Known, Respond, Remember, Sends, RunToEnd, RefusalLaws.ErrorOf;
    var s1 := CallIsRefused(s, st, order, account, terminal);
    RecordRefusal(s1, order, account, terminal, error);
    RunOneStep(s, account, terminal, 3);
    hide StepSubmission;
  }

  lemma RunOneStep(s: State, account: Account, terminal: Terminal, steps: nat)
    requires s.submission.Some?
    ensures RunToEnd(s, account, terminal, steps + 1) == RunToEnd(StepSubmission(s, account, terminal), account, terminal, steps)
  {
    hide StepSubmission;
  }

  lemma RefusedAnswer(ids: Idempotency, order: Order, terminal: Terminal)
    requires !Known(ids, order)
    requires !Tradable(order, terminal) || terminal.sent.None? || terminal.sent.value.retcode !in SUCCESS_CODES
    ensures !Respond(ids, order, terminal).IsOk()
    ensures RefusalLaws.ErrorOf(Respond(ids, order, terminal))
              == (if Tradable(order, terminal) && terminal.sent.Some? then "broker rejected"
                  else if Tradable(order, terminal) then "order_send failed"
                  else Refusal(order, terminal).value)
    ensures !Tradable(order, terminal) ==> Refusal(order, terminal).Some?
  {
    SentIffTradable(ids, order, terminal);
    hide Tradable, Refusal, Known;
  }

  lemma CallIsRefused(s: State, st: State, order: Order, account: Account, terminal: Terminal) returns (s1: State)
    requires AtTheBroker(s, st, order) && !Respond(st.ids, order, terminal).IsOk()
    ensures s1 == StepSubmission(s, account, terminal)
    ensures s1.submission.Some? && s1.submission.value.order == order
    ensures s1.submission.value.at == AtRejectBroker(RefusalLaws.ErrorOf(Respond(st.ids, order, terminal)))
    ensures s1.rows == s.rows && s1.now == s.now
  {
    hide Respond, Remember, Sends;
    s1 := StepSubmission(s, account, terminal);
  }

  lemma RecordRefusal(s: State, order: Order, account: Account, terminal: Terminal, error: string)
    requires s.submission.Some? && s.submission.value.order == order && s.submission.value.at == AtRejectBroker(error)
    requires order.id in s.rows && s.rows[order.id].status == Validated
    ensures var end := RunToEnd(s, account, terminal, 3);
            end.submission.None? && end.rows == s.rows[order.id := RefusedRow(s.rows[order.id], Some(error), s.now)]
  {
    hide Check, Respond, Remember, Sends, Save;
    var s1 := StepSubmission(s, account, terminal);
    assert RunToEnd(s1, account, terminal, 2) == s1;
  }

  function TakenRow(order: Order, now: real): Order {
    order.(status := Submitted, openedAt := Some(now), updatedAt := now)
  }

  function DealtRow(order: Order, now: real): Order {
    order.(status := Filled, filledQuantity := order.quantity, openedAt := Some(now), closedAt := Some(now), updatedAt := now)
  }

  /** An order the broker takes is submitted, and with a deal at once it is filled in full. */
  lemma TakenAlone(st: State, order: Order, account: Account, terminal: Terminal)
    requires Goes(st, order, account) && !Known(st.ids, order)
    requires Tradable(order, terminal) && terminal.sent.Some? && terminal.sent.value.retcode in SUCCESS_CODES
    ensures Leaves(st, order, account, terminal,
                   if terminal.sent.value.deal == 0 then TakenRow(order, st.now) else DealtRow(order, st.now))
  {
    hide Check;
    var s := ToTheBroker(st, order, account, terminal);
    SentIffTradable(st.ids, order, terminal);
    hide Tradable, Refusal, Known, Respond, Remember, Sends, RunToEnd;
    var s1 := CallIsTaken(s, st, order, account, terminal);
    RecordTaken(s1, order, account, terminal, terminal.sent.value.deal);
    RunOneStep(s, account, terminal, 3);
    hide StepSubmission;
  }

  lemma RecordTaken(s: State, order: Order, account: Account, terminal: Terminal, deal: int)
    requires s.submission.Some? && s.submission.value.order == order && s.submission.value.at == AtSubmitted(deal)
    requires order.id in s.rows && s.rows[order.id] == ValidatedRow(order, s.now)
    ensures var end := RunToEnd(s, account, terminal, 3);
            && end.submission.None?
            && end.rows == s.rows[order.id := if deal == 0 then TakenRow(order, s.now) else DealtRow(order, s.now)]
  {
    hide Check, Respond, Remember, Sends, Save;
    var s1 := StepSubmission(s, account, terminal);
    if deal == 0 {
      assert RunToEnd(s1, account, terminal, 2) == s1;
    } else {
      var s2 := StepSubmission(s1, account, terminal);
      assert RunToEnd(s2, account, terminal, 1) == s2;
      assert RunToEnd(s1, account, terminal, 2) == s2;
    }
  }

  lemma CallIsTaken(s: State, st: State, order: Order, account: Account, terminal: Terminal) returns (s1: State)
    requires AtTheBroker(s, st, order) && Sends(st.ids, order, terminal)
    requires terminal.sent.Some? && terminal.sent.value.retcode in SUCCESS_CODES
    ensures s1 == StepSubmission(s, account, terminal)
    ensures s1.submission.Some? && s1.submission.value.order == order
    ensures s1.submission.value.at == AtSubmitted(terminal.sent.value.deal)
    ensures s1.rows == s.rows && s1.now == s.now
  {
    hide Refusal;
    s1 := StepSubmission(s, account, terminal);
    assert Respond(s.ids, order, terminal).Answered? && Respond(s.ids, order, terminal).ok;
  }

  // ---------- a cancellation ----------

  /** A cancellation nobody disturbs cancels an open order the broker lets go, and otherwise changes no row. */
  lemma CancellationAlone(st: State, task: nat, id: string, brokerOk: bool)
    requires task !in st.cancels
    ensures var open := id in st.rows && st.rows[id].status in {Pending, Validated, Submitted, Partial};
            var s1 := Next(st, BeginCancel(task, id));
            var s2 := Next(s1, StepCancel(task, brokerOk));
            && Enabled(s1, StepCancel(task, brokerOk))
            && (!open ==> task !in s2.cancels && s2.rows == st.rows)
            && (open ==>
                  && Enabled(s2, StepCancel(task, brokerOk))
                  && var s3 := Next(s2, StepCancel(task, brokerOk));
                  && (!brokerOk ==> task !in s3.cancels && s3.rows == st.rows)
                  && (brokerOk ==>
                        && Enabled(s3, StepCancel(task, brokerOk))
                        && var s4 := Next(s3, StepCancel(task, brokerOk));
                        && task !in s4.cancels
                        && s4.rows == st.rows[id := st.rows[id].(status := Canceled, updatedAt := st.now)]))
  {
  }
}
