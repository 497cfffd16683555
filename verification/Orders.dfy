/** Orders, their status graph, the order table and the status update that guards it. */
module Orders {
  import opened Sequences

  datatype Status = Pending | Validated | Submitted | Partial | Filled | Rejected | Canceled | Expired

  /** The table of valid transitions. */
  function Allowed(s: Status): set<Status> {
    match s
    case Pending => {Validated, Rejected, Canceled}
    case Validated => {Submitted, Rejected, Canceled}
    case Submitted => {Partial, Filled, Rejected, Canceled, Expired}
    case Partial => {Filled, Canceled, Rejected, Expired}
    case _ => {}
  }

  predicate IsTerminal(s: Status) {
    Allowed(s) == {}
  }

  /** Position along the graph; every edge goes up. */
  function Rank(s: Status): nat {
    match s
    case Pending => 0
    case Validated => 1
    case Submitted => 2
    case Partial => 3
    case _ => 4
  }

  lemma EdgesGoUp(s: Status, t: Status)
    ensures t in Allowed(s) ==> Rank(s) < Rank(t)
    ensures IsTerminal(s) <==> Rank(s) == 4
  {
    match s
    case Pending => assert Validated in Allowed(s);
    case Validated => assert Submitted in Allowed(s);
    case Submitted => assert Filled in Allowed(s);
    case Partial => assert Filled in Allowed(s);
    case _ =>
  }

  datatype Order = Order(
    id: string, clientOrderId: string, symbol: string, isBuy: bool, quantity: real, filledQuantity: real,
    price: Option<real>, stopPrice: Option<real>, limitPrice: Option<real>, status: Status,
    rejectionReason: Option<string>, openedAt: Option<real>, closedAt: Option<real>, updatedAt: real)

  type Rows = map<string, Order>

  datatype OrderError = OrderNotFound | InvalidTransition(from: Status, to: Status) | IdConflict

  /** The keyword arguments the engine passes along with a status. */
  datatype Changes = NoChange | Reason(reason: Option<string>) | Opened(at: real) | Fill(quantity: real, at: real)

  function Apply(order: Order, status: Status, changes: Changes, now: real): Order {
    var o := order.(status := status, updatedAt := now);
    match changes
    case NoChange => o
    case Reason(reason) => o.(rejectionReason := reason)
    case Opened(at) => o.(openedAt := Some(at))
    case Fill(quantity, at) => o.(filledQuantity := quantity, closedAt := Some(at))
  }

  predicate HasClientId(rows: Rows, clientOrderId: string) {
    exists id :: id in rows && rows[id].clientOrderId == clientOrderId
  }

  /** Insert unless the client order id is known; the primary key must be new. */
  function Save(rows: Rows, order: Order): Result<Rows, OrderError> {
    if HasClientId(rows, order.clientOrderId) then Ok(rows)
    else if order.id in rows then Err(IdConflict)
    else Ok(rows[order.id := order])
  }

  /** Read the row, check the transition, write the whole row back. */
  function Update(rows: Rows, id: string, status: Status, changes: Changes, now: real): Result<Rows, OrderError> {
    if id !in rows then Err(OrderNotFound)
    else
      var order := rows[id];
      if status !in Allowed(order.status) && status != order.status then Err(InvalidTransition(order.status, status))
      else Ok(rows[id := Apply(order, status, changes, now)])
  }

  /** The order table. */
  class Repository {
    var rows: Rows

    constructor ()
      ensures rows == map[]
    {
      rows := map[];
    }

    method SaveOrder(order: Order) returns (r: Result<string, OrderError>)
      modifies this
      ensures r.Ok? <==> Save(old(rows), order).Ok?
      ensures r.Ok? ==> rows == Save(old(rows), order).value
      ensures r.Ok? ==> r.value in rows && rows[r.value].clientOrderId == order.clientOrderId
      ensures r.Err? ==> rows == old(rows) && r.error == IdConflict
    {
      if HasClientId(rows, order.clientOrderId) {
        var id :| id in rows && rows[id].clientOrderId == order.clientOrderId;
        return Ok(id);
      }
      if order.id in rows {
        return Err(IdConflict);
      }
      rows := rows[order.id := order];
      r := Ok(order.id);
    }

    method GetOrder(id: string) returns (order: Option<Order>)
      ensures order == if id in rows then Some(rows[id]) else None
    {
      order := if id in rows then Some(rows[id]) else None;
    }

    method UpdateOrder(id: string, order: Order)
      modifies this
      ensures rows == old(rows)[id := order]
    {
      rows := rows[id := order];
    }
  }

  /** The part of the execution engine that moves an order along its graph. */
  class ExecutionEngine {
    const repo: Repository

    constructor (repo: Repository)
      ensures this.repo == repo
    {
      this.repo := repo;
    }

    method UpdateOrderStatus(id: string, status: Status, changes: Changes, now: real)
      returns (r: Result<Order, OrderError>)
      modifies repo
      ensures var updated := Update(old(repo.rows), id, status, changes, now);
              && (r.Ok? <==> updated.Ok?)
              && (r.Ok? ==> repo.rows == updated.value && r.value == repo.rows[id])
              && (r.Err? ==> r.error == updated.error && repo.rows == old(repo.rows))
    {
      var found := repo.GetOrder(id);
      if found.None? {
        return Err(OrderNotFound);
      }
      var order := found.value;
      if status !in Allowed(order.status) && status != order.status {
        return Err(InvalidTransition(order.status, status));
      }
      order := Apply(order, status, changes, now);
      repo.UpdateOrder(id, order);
      r := Ok(order);
    }
  }

  // ---------- laws of the two writes ----------

  /** Every stored order that survives into the later table has moved along the graph or stayed. */
  ghost predicate Moves(before: Rows, after: Rows) {
    forall id :: id in before ==>
      && id in after
      && (after[id].status in Allowed(before[id].status) || after[id].status == before[id].status)
      && after[id].quantity == before[id].quantity && after[id].clientOrderId == before[id].clientOrderId
      && after[id].id == before[id].id
  }

  lemma UpdateMovesAlongGraph(rows: Rows, id: string, status: Status, changes: Changes, now: real)
    requires Update(rows, id, status, changes, now).Ok?
    ensures Moves(rows, Update(rows, id, status, changes, now).value)
    ensures Update(rows, id, status, changes, now).value.Keys == rows.Keys
  {
    assert id in rows;
  }

  /** Saving an order whose row exists changes nothing, whatever stale fields the caller's copy holds. */
  lemma SaveNeverOverwrites(rows: Rows, order: Order)
    requires Save(rows, order).Ok?
    ensures forall id :: id in rows ==> id in Save(rows, order).value && Save(rows, order).value[id] == rows[id]
    ensures order.id in rows ==> Save(rows, order).value == rows
  {
  }

  /**
   A store that overwrites on save would put a validated order back to pending: the stale copy the
   engine re-saves leaves the graph, and the submission that follows is refused.
   */
  lemma OverwritingSaveBreaksSubmission(rows: Rows, stale: Order, validatedAt: real, submittedAt: real)
    requires stale.id in rows && rows[stale.id].status == Pending && stale.status == Pending
    ensures var validated := Update(rows, stale.id, Validated, NoChange, validatedAt);
            && validated.Ok?
            && (var overwritten := validated.value[stale.id := stale];
                && !Moves(validated.value, overwritten)
                && Update(overwritten, stale.id, Submitted, Opened(submittedAt), submittedAt)
                     == Err(InvalidTransition(Pending, Submitted)))
            && (Save(validated.value, stale).Ok? ==>
                  Update(Save(validated.value, stale).value, stale.id, Submitted, Opened(submittedAt), submittedAt).Ok?)
  {
    var validated := Update(rows, stale.id, Validated, NoChange, validatedAt);
    assert Pending !in Allowed(Validated);
    assert validated.value[stale.id].status == Validated;
  }
}
