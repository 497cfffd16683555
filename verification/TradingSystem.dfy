/**
 Submissions and cancellations as interleaved programs over one order table, one risk gate and one
 connector. A submission holds the engine's lock from start to end; cancellations take no lock. Each
 step is what runs between two suspension points; a status update and a broker call are one step each.
 */
module TradingSystem {
  import opened Sequences
  import opened Orders
  import opened RiskGate
  import opened Connector

  /** Where a submission stands; `order` is the caller's own copy, which no update ever touches. */
  datatype SubmitPoint =
    | AtEntry
    | AtRejectQuantity
    | AtRiskCheck
    | AtRejectRisk(reason: Option<string>)
    | AtValidate
    | AtSave
    | AtBroker
    | AtRejectBroker(error: string)
    | AtSubmitted(deal: int)
    | AtFilled

  datatype Submission = Submission(attempt: nat, order: Order, at: SubmitPoint)

  datatype CancelPoint = AtLookup | AtBrokerCancel | AtCancelUpdate

  datatype Cancellation = Cancellation(id: string, at: CancelPoint)

  /** What an observer of the run could record. */
  datatype Event =
    | Checked(attempt: nat, order: Order, time: real, approved: bool, killed: bool, warned: bool, reason: Option<string>)
    | Called(attempt: nat, order: Order, sent: bool, response: Response)

  datatype State = State(
    now: real, rows: Rows, risk: RiskState, ids: Idempotency,
    submission: Option<Submission>, attempts: nat, cancels: map<nat, Cancellation>, log: seq<Event>)

  datatype Action =
    | Tick(seconds: real)
    | SaveNew(order: Order)                       // the HTTP handler stores a new order
    | BeginSubmit(order: Order)                   // acquires the lock
    | StepSubmit(account: Account, terminal: Terminal)
    | BeginCancel(task: nat, id: string)
    | StepCancel(task: nat, brokerOk: bool)
    | SetKillSwitch(on: bool)
    | SetRules(rules: seq<RiskRule>)              // rules added, removed, switched on or off

  predicate Enabled(st: State, a: Action) {
    match a
    case Tick(seconds) => seconds >= 0.0
    case SaveNew(order) => order.status == Pending
    case BeginSubmit(_) => st.submission.None?
    case StepSubmit(_, _) => st.submission.Some?
    case BeginCancel(task, _) => task !in st.cancels
    case StepCancel(task, _) => task in st.cancels
    case _ => true
  }

  function Goto(st: State, at: SubmitPoint): State
    requires st.submission.Some?
  {
    st.(submission := Some(st.submission.value.(at := at)))
  }

  /** The submission ends, by returning or by raising; the lock is released either way. */
  function Release(st: State): State {
    st.(submission := None)
  }

  /** Run a status update, then go on; a refused update raises out of the submission. */
  function UpdateThen(st: State, status: Status, changes: Changes, next: Option<SubmitPoint>): State
    requires st.submission.Some?
  {
    var updated := Update(st.rows, st.submission.value.order.id, status, changes, st.now);
    if updated.Err? then Release(st)
    else
      var s := st.(rows := updated.value);
      if next.Some? then Goto(s, next.value) else Release(s)
  }

  function AfterCheck(st: State, checked: (RiskState, Approval)): State
    requires st.submission.Some?
  {
    var event := Checked(st.submission.value.attempt, st.submission.value.order, st.now, checked.1.approved,
                         st.risk.killSwitch, checked.1.warning.Some?, checked.1.reason);
    Goto(st.(risk := checked.0, log := st.log + [event]),
         if checked.1.approved then AtValidate else AtRejectRisk(checked.1.reason))
  }

  /** The broker's answer decides what is left to do; a duplicate or a zero return code leaves the order as it is. */
  function AfterCall(st: State, response: Response): State
    requires st.submission.Some?
  {
    if !response.IsOk() then
      Goto(st, AtRejectBroker(if response.Failed? then response.error else "broker rejected"))
    else if response.Answered? && response.result.retcode != 0 then Goto(st, AtSubmitted(response.result.deal))
    else Release(st)
  }

  function StepSubmission(st: State, account: Account, terminal: Terminal): State
    requires st.submission.Some?
  {
    var sub := st.submission.value;
    match sub.at
    case AtEntry =>
      if sub.order.status != Pending then Release(st)
      else if sub.order.quantity <= 0.0 then Goto(st, AtRejectQuantity)
      else Goto(st, AtRiskCheck)
    case AtRejectQuantity => UpdateThen(st, Rejected, Reason(Some("quantity must be positive")), None)
    case AtRiskCheck => AfterCheck(st, Check(st.risk, account, st.now))
    case AtRejectRisk(reason) => UpdateThen(st, Rejected, Reason(reason), None)
    case AtValidate => UpdateThen(st, Validated, NoChange, Some(AtSave))
    case AtSave =>
      var saved := Save(st.rows, sub.order);
      if saved.Err? then Release(st) else Goto(st.(rows := saved.value), AtBroker)
    case AtBroker =>
      var response := Respond(st.ids, sub.order, terminal);
      var event := Called(sub.attempt, sub.order, Sends(st.ids, sub.order, terminal), response);
      AfterCall(st.(ids := Remember(st.ids, sub.order, terminal), log := st.log + [event]), response)
    case AtRejectBroker(error) => UpdateThen(st, Rejected, Reason(Some(error)), None)
    case AtSubmitted(deal) =>
      UpdateThen(st, Submitted, Opened(st.now), if deal != 0 then Some(AtFilled) else None)
    case AtFilled => UpdateThen(st, Filled, Fill(sub.order.quantity, st.now), None)
  }

  function Drop(cancels: map<nat, Cancellation>, task: nat): map<nat, Cancellation> {
    cancels - {task}
  }

  function StepCancellation(st: State, task: nat, brokerOk: bool): State
    requires task in st.cancels
  {
    var c := st.cancels[task];
    match c.at
    case AtLookup =>
      if c.id in st.rows && st.rows[c.id].status in {Pending, Validated, Submitted, Partial} then
        st.(cancels := st.cancels[task := c.(at := AtBrokerCancel)])
      else st.(cancels := Drop(st.cancels, task))
    case AtBrokerCancel =>
      if brokerOk then st.(cancels := st.cancels[task := c.(at := AtCancelUpdate)])
      else st.(cancels := Drop(st.cancels, task))
    case AtCancelUpdate =>
      var updated := Update(st.rows, c.id, Canceled, NoChange, st.now);
      st.(rows := if updated.Ok? then updated.value else st.rows, cancels := Drop(st.cancels, task))
  }

  function Next(st: State, a: Action): State
    requires Enabled(st, a)
  {
    match a
    case Tick(seconds) => st.(now := st.now + seconds)
    case SaveNew(order) => var saved := Save(st.rows, order); if saved.Ok? then st.(rows := saved.value) else st
    case BeginSubmit(order) =>
      st.(submission := Some(Submission(st.attempts, order, AtEntry)), attempts := st.attempts + 1)
    case StepSubmit(account, terminal) => StepSubmission(st, account, terminal)
    case BeginCancel(task, id) => st.(cancels := st.cancels[task := Cancellation(id, AtLookup)])
    case StepCancel(task, brokerOk) => StepCancellation(st, task, brokerOk)
    case SetKillSwitch(on) => st.(risk := st.risk.(killSwitch := on))
    case SetRules(rules) => st.(risk := st.risk.(rules := rules))
  }

  function Start(now: real, rules: seq<RiskRule>): State {
    State(now, map[], RiskState(false, rules, None), map[], None, 0, map[], [])
  }

  /** A run is the sequence of its states, one enabled step between each and the next. */
  ghost predicate IsStep(s: State, t: State) {
    exists a :: Enabled(s, a) && Next(s, a) == t
  }

  ghost predicate IsRun(run: seq<State>) {
    && run != []
    && (exists now, rules :: run[0] == Start(now, rules))
    && forall i :: 0 <= i < |run| - 1 ==> IsStep(run[i], run[i + 1])
  }
}
