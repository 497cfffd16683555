/** What holds in every state of every interleaved run of the trading system. */
module TradingLaws {
  import opened Sequences
  import opened Orders
  import opened RiskGate
  import opened Connector
  import opened TradingSystem

  // ---------- the order table ----------

  lemma MovesByUpdate(rows: Rows, id: string, status: Status, changes: Changes, now: real)
    ensures var updated := Update(rows, id, status, changes, now);
            Moves(rows, if updated.Ok? then updated.value else rows)
  {
    if Update(rows, id, status, changes, now).Ok? {
      UpdateMovesAlongGraph(rows, id, status, changes, now);
    }
  }

  lemma MovesBySave(rows: Rows, order: Order)
    ensures var saved := Save(rows, order);
            Moves(rows, if saved.Ok? then saved.value else rows)
  {
    if Save(rows, order).Ok? {
      SaveNeverOverwrites(rows, order);
    }
  }

  /** Every step leaves each stored order where it is or moves it along one edge of the graph. */
  lemma StepMoves(st: State, a: Action)
    requires Enabled(st, a)
    ensures Moves(st.rows, Next(st, a).rows)
  {
    match a
    case SaveNew(order) => MovesBySave(st.rows, order);
    case StepSubmit(_, _) =>
      var sub := st.submission.value;
      hide Update, Save, Moves, Respond, Check, Remember, Sends;
      NothingMoves(st.rows);
      match sub.at {
        case AtRejectQuantity =>
          MovesByUpdate(st.rows, sub.order.id, Rejected, Reason(Some("quantity must be positive")), st.now);
        case AtRejectRisk(reason) => MovesByUpdate(st.rows, sub.order.id, Rejected, Reason(reason), st.now);
        case AtValidate => MovesByUpdate(st.rows, sub.order.id, Validated, NoChange, st.now);
        case AtSave => MovesBySave(st.rows, sub.order);
        case AtRejectBroker(error) => MovesByUpdate(st.rows, sub.order.id, Rejected, Reason(Some(error)), st.now);
        case AtSubmitted(_) => MovesByUpdate(st.rows, sub.order.id, Submitted, Opened(st.now), st.now);
        case AtFilled => MovesByUpdate(st.rows, sub.order.id, Filled, Fill(sub.order.quantity, st.now), st.now);
        case _ =>
      }
    case StepCancel(task, _) =>
      var c := st.cancels[task];
      MovesByUpdate(st.rows, c.id, Canceled, NoChange, st.now);
    case _ =>
  }

  lemma NothingMoves(rows: Rows)
    ensures Moves(rows, rows)
  {
  }

  ghost function Changes(run: seq<State>, id: string): nat {
    if |run| < 2 then 0
    else
      Changes(run[..|run| - 1], id)
      + if id in run[|run| - 2].rows && id in run[|run| - 1].rows
           && run[|run| - 2].rows[id].status != run[|run| - 1].rows[id].status then 1 else 0
  }

  /** The statuses of a stored order follow the graph from each state to the next. */
  lemma HistoriesFollowTheGraph(run: seq<State>, i: nat, id: string)
    requires IsRun(run) && i + 1 < |run| && id in run[i].rows
    ensures id in run[i + 1].rows
    ensures var from, to := run[i].rows[id].status, run[i + 1].rows[id].status;
            to == from || to in Allowed(from)
    ensures run[i + 1].rows[id].quantity == run[i].rows[id].quantity
  {
    assert IsStep(run[i], run[i + 1]);
    var a :| Enabled(run[i], a) && Next(run[i], a) == run[i + 1];
    StepMoves(run[i], a);
  }

  lemma PrefixIsRun(run: seq<State>, n: nat)
    requires IsRun(run) && 0 < n <= |run|
    ensures IsRun(run[..n])
  {
    forall i | 0 <= i < n - 1 ensures IsStep(run[..n][i], run[..n][i + 1]) {
      assert IsStep(run[i], run[i + 1]);
    }
  }

  /** One more step of a run. */
  lemma Extend(run: seq<State>, a: Action) returns (more: seq<State>)
    requires IsRun(run) && Enabled(run[|run| - 1], a)
    ensures IsRun(more) && more == run + [Next(run[|run| - 1], a)]
  {
    more := run + [Next(run[|run| - 1], a)];
    hide Next, Enabled;
    forall i | 0 <= i < |more| - 1 ensures IsStep(more[i], more[i + 1]) {
      if i < |run| - 1 {
        assert IsStep(run[i], run[i + 1]);
      }
    }
  }

  lemma {:induction false} ChangesRaiseRank(run: seq<State>, id: string)
    requires IsRun(run)
    ensures id !in run[|run| - 1].rows ==> Changes(run, id) == 0
    ensures id in run[|run| - 1].rows ==> Changes(run, id) <= Rank(run[|run| - 1].rows[id].status)
  {
    if |run| > 1 {
      PrefixIsRun(run, |run| - 1);
      ChangesRaiseRank(run[..|run| - 1], id);
      if id in run[|run| - 2].rows {
        HistoriesFollowTheGraph(run, |run| - 2, id);
        EdgesGoUp(run[|run| - 2].rows[id].status, run[|run| - 1].rows[id].status);
      }
    }
  }

  /** However the programs interleave, a stored order changes status at most four times. */
  lemma AtMostFourChanges(run: seq<State>, id: string)
    requires IsRun(run)
    ensures Changes(run, id) <= 4
  {
    ChangesRaiseRank(run, id);
  }

  lemma TerminalStays(from: Status, to: Status)
    requires IsTerminal(from) && (to == from || to in Allowed(from))
    ensures to == from
  {
  }

  /** A terminal status never changes. */
  lemma {:induction false} TerminalForEver(run: seq<State>, i: nat, j: nat, id: string)
    requires IsRun(run) && i <= j < |run| && id in run[i].rows && IsTerminal(run[i].rows[id].status)
    ensures id in run[j].rows && run[j].rows[id].status == run[i].rows[id].status
    decreases j - i
  {
    if i < j {
      HistoriesFollowTheGraph(run, i, id);
      hide IsRun, IsTerminal;
      TerminalStays(run[i].rows[id].status, run[i + 1].rows[id].status);
      TerminalForEver(run, i + 1, j, id);
    }
  }

  // ---------- what a stored status says ----------

  /** The broker answered a call for this order with success and a deal. */
  ghost predicate Executed(log: seq<Event>, order: Order) {
    exists k :: 0 <= k < |log| && log[k].Called? && log[k].order == order && log[k].sent
                && log[k].response.Answered? && log[k].response.ok && log[k].response.result.deal != 0
  }

  ghost predicate FilledBy(log: seq<Event>, row: Order) {
    exists order :: Executed(log, order) && order.id == row.id && order.quantity == row.filledQuantity
  }

  ghost predicate RowOk(log: seq<Event>, id: string, row: Order) {
    && row.id == id
    && (row.status in {Submitted, Partial, Filled} ==> row.openedAt.Some?)
    && (row.status == Filled ==> row.closedAt.Some? && FilledBy(log, row))
    && (row.status == Rejected ==> row.rejectionReason.Some?)
  }

  ghost predicate RowsOk(log: seq<Event>, rows: Rows) {
    forall id :: id in rows ==> RowOk(log, id, rows[id])
  }

  ghost predicate SubmissionOk(st: State) {
    st.submission.Some? ==>
      var sub := st.submission.value;
      && (sub.at != AtEntry ==> sub.order.status == Pending)
      && (sub.at.AtRejectRisk? ==> sub.at.reason.Some?)
      && (sub.at.AtSubmitted? && sub.at.deal != 0 ==> Executed(st.log, sub.order))
      && (sub.at.AtFilled? ==> Executed(st.log, sub.order))
  }

  lemma LongerLogKeepsRows(log: seq<Event>, more: seq<Event>, rows: Rows)
    requires log <= more && RowsOk(log, rows)
    ensures RowsOk(more, rows)
  {
    forall id | id in rows ensures RowOk(more, id, rows[id]) {
      if rows[id].status == Filled {
        var order :| Executed(log, order) && order.id == rows[id].id && order.quantity == rows[id].filledQuantity;
        LongerLogKeepsExecuted(log, more, order);
        assert FilledBy(more, rows[id]);
      }
    }
  }

  lemma LongerLogKeepsExecuted(log: seq<Event>, more: seq<Event>, order: Order)
    requires log <= more && Executed(log, order)
    ensures Executed(more, order)
  {
    var k :| 0 <= k < |log| && log[k].Called? && log[k].order == order && log[k].sent
             && log[k].response.Answered? && log[k].response.ok && log[k].response.result.deal != 0;
    assert more[k] == log[k];
  }

  lemma UpdateKeepsRows(log: seq<Event>, rows: Rows, id: string, status: Status, changes: Orders.Changes, now: real)
    requires RowsOk(log, rows) && Update(rows, id, status, changes, now).Ok?
    requires status == Rejected ==> changes.Reason? && changes.reason.Some?
    requires status == Submitted ==> changes.Opened?
    requires status == Filled ==>
               changes.Fill? && exists order :: Executed(log, order) && order.id == id && order.quantity == changes.quantity
    requires status in {Rejected, Submitted, Filled, Validated, Canceled}
    requires status in {Validated, Canceled} ==> changes.NoChange?
    ensures RowsOk(log, Update(rows, id, status, changes, now).value)
  {
    var after := Update(rows, id, status, changes, now).value;
    assert RowOk(log, id, rows[id]);
    if status == Filled {
      var order :| Executed(log, order) && order.id == id && order.quantity == changes.quantity;
      assert FilledBy(log, after[id]);
    }
    assert RowOk(log, id, after[id]);
  }

  lemma SaveKeepsRows(log: seq<Event>, rows: Rows, order: Order)
    requires RowsOk(log, rows) && Save(rows, order).Ok? && order.status == Pending
    ensures RowsOk(log, Save(rows, order).value)
  {
  }

  lemma StepKeepsTable(st: State, a: Action)
    requires Enabled(st, a) && RowsOk(st.log, st.rows) && SubmissionOk(st)
    ensures RowsOk(Next(st, a).log, Next(st, a).rows) && SubmissionOk(Next(st, a))
  {
    hide RowsOk, Executed, Update, Save, Check, Respond, Remember, Sends;
    match a
    case SaveNew(order) =>
      if Save(st.rows, order).Ok? {
        SaveKeepsRows(st.log, st.rows, order);
      }
    case StepSubmit(account, terminal) => SubmissionKeepsTable(st, account, terminal);
    case StepCancel(task, _) =>
      var c := st.cancels[task];
      if Update(st.rows, c.id, Canceled, NoChange, st.now).Ok? {
        UpdateKeepsRows(st.log, st.rows, c.id, Canceled, NoChange, st.now);
      }
    case _ =>
  }

  lemma SubmissionKeepsTable(st: State, account: Account, terminal: Terminal)
    requires st.submission.Some? && RowsOk(st.log, st.rows) && SubmissionOk(st)
    ensures var s := StepSubmission(st, account, terminal); RowsOk(s.log, s.rows) && SubmissionOk(s)
  {
    hide RowsOk, Executed, Update, Save, Check, Respond, Remember, Sends;
    var sub := st.submission.value;
    match sub.at
    case AtEntry =>
    case AtRejectQuantity => TableAfterUpdate(st, Rejected, Reason(Some("quantity must be positive")));
    case AtRiskCheck =>
      RejectionHasReason(st.risk, account, st.now);
      LongerLogKeepsRows(st.log, StepSubmission(st, account, terminal).log, st.rows);
    case AtRejectRisk(reason) => TableAfterUpdate(st, Rejected, Reason(reason));
    case AtValidate => TableAfterUpdate(st, Validated, NoChange);
    case AtSave =>
      if Save(st.rows, sub.order).Ok? {
        SaveKeepsRows(st.log, st.rows, sub.order);
      }
    case AtBroker => CallKeepsTable(st, account, terminal);
    case AtRejectBroker(error) => TableAfterUpdate(st, Rejected, Reason(Some(error)));
    case AtSubmitted(_) => TableAfterUpdate(st, Submitted, Opened(st.now));
    case AtFilled => TableAfterUpdate(st, Filled, Fill(sub.order.quantity, st.now));
  }

  lemma CallKeepsTable(st: State, account: Account, terminal: Terminal)
    requires st.submission.Some? && st.submission.value.at == AtBroker && RowsOk(st.log, st.rows) && SubmissionOk(st)
    ensures var s := StepSubmission(st, account, terminal); RowsOk(s.log, s.rows) && SubmissionOk(s)
  {
    hide RowsOk, Remember, Refusal;
    var s := StepSubmission(st, account, terminal);
    LongerLogKeepsRows(st.log, s.log, st.rows);
    assert s.log[|s.log| - 1].Called? && s.log[|s.log| - 1].order == st.submission.value.order;
  }

  lemma TableAfterUpdate(st: State, status: Status, changes: Orders.Changes)
    requires st.submission.Some? && RowsOk(st.log, st.rows)
    requires status == Rejected ==> changes.Reason? && changes.reason.Some?
    requires status == Submitted ==> changes.Opened?
    requires status == Filled ==>
               && changes.Fill? && Executed(st.log, st.submission.value.order)
               && changes.quantity == st.submission.value.order.quantity
    requires status in {Rejected, Submitted, Filled, Validated}
    requires status == Validated ==> changes.NoChange?
    ensures var updated := Update(st.rows, st.submission.value.order.id, status, changes, st.now);
            updated.Ok? ==> RowsOk(st.log, updated.value)
  {
    var order := st.submission.value.order;
    if Update(st.rows, order.id, status, changes, st.now).Ok? {
      UpdateKeepsRows(st.log, st.rows, order.id, status, changes, st.now);
    }
  }

  lemma {:induction false} TableHolds(run: seq<State>)
    requires IsRun(run)
    ensures var st := run[|run| - 1]; RowsOk(st.log, st.rows) && SubmissionOk(st)
  {
    if |run| > 1 {
      PrefixIsRun(run, |run| - 1);
      TableHolds(run[..|run| - 1]);
      assert IsStep(run[|run| - 2], run[|run| - 1]);
      var a :| Enabled(run[|run| - 2], a) && Next(run[|run| - 2], a) == run[|run| - 1];
      StepKeepsTable(run[|run| - 2], a);
    }
  }

  /**
   A filled order was opened and closed, and the broker dealt a call for exactly the quantity it
   reports; a rejected order says why.
   */
  lemma StatusTellsTheStory(run: seq<State>, i: nat, id: string)
    requires IsRun(run) && i < |run| && id in run[i].rows
    ensures var row := run[i].rows[id];
            && (row.status == Filled ==> row.openedAt.Some? && row.closedAt.Some? && FilledBy(run[i].log, row))
            && (row.status == Rejected ==> row.rejectionReason.Some?)
  {
    PrefixIsRun(run, i + 1);
    TableHolds(run[..i + 1]);
    assert RowOk(run[i].log, id, run[i].rows[id]);
  }

  /** When every call under an id was for the stored quantity, a filled order is filled in full. */
  lemma FilledInFull(run: seq<State>, i: nat, id: string)
    requires IsRun(run) && i < |run| && id in run[i].rows && run[i].rows[id].status == Filled
    requires forall k :: 0 <= k < |run[i].log| && run[i].log[k].Called? && run[i].log[k].order.id == id ==>
               run[i].log[k].order.quantity == run[i].rows[id].quantity
    ensures run[i].rows[id].filledQuantity == run[i].rows[id].quantity
  {
    PrefixIsRun(run, i + 1);
    TableHolds(run[..i + 1]);
    var row := run[i].rows[id];
    assert RowOk(run[i].log, id, row);
    var order :| Executed(run[i].log, order) && order.id == row.id && order.quantity == row.filledQuantity;
  }
}
