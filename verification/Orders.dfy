/**
 Order rows, their status and the event rows written with each status change.
 */
module Orders {

  datatype Status =
    | Created | PendingPayment | FailedPayment | Paid | Confirmed | Preparing
    | Shipped | Delivered | Completed | Canceled | RefundedOrder

  datatype Reason = InsufficientStock | PaymentRejected | TechnicalError

  datatype Failure = Failure(status: Status, reason: Reason)

  datatype Event = OrderCreated(order: int) | OrderPaid(order: int) | OrderFailed(order: int, status: Status, reason: Reason)

  datatype Db = Db(status: map<int, Status>, outbox: seq<Event>)

  /** The failure statuses the contract of `order.failed` allows. */
  predicate IsFailureStatus(s: Status) { s == Canceled || s == FailedPayment }

  predicate IsPending(db: Db, order: int) { order in db.status && db.status[order] == PendingPayment }

  function Place(db: Db, order: int): Db {
    if order in db.status then db else Db(db.status[order := PendingPayment], db.outbox + [OrderCreated(order)])
  }

  function MarkPaid(db: Db, order: int): Db {
    if IsPending(db, order) then Db(db.status[order := Paid], db.outbox + [OrderPaid(order)]) else db
  }

  function MarkFailed(db: Db, order: int, f: Failure): Db {
    if IsPending(db, order) then Db(db.status[order := f.status], db.outbox + [OrderFailed(order, f.status, f.reason)]) else db
  }

  class OrderStore {
    var status: map<int, Status>
    var outbox: seq<Event>

    function Contents(): Db reads this { Db(status, outbox) }

    constructor (db: Db)
      ensures Contents() == db
    {
      status, outbox := db.status, db.outbox;
    }

    /** UPDATE ... WHERE id AND status = 'pending_payment' RETURNING id. */
    method UpdatePendingStatusById(order: int, next: Status) returns (changed: bool)
      modifies this`status
      ensures changed == IsPending(old(Contents()), order)
      ensures status == if changed then old(status)[order := next] else old(status)
    {
      changed := order in status && status[order] == PendingPayment;
      if changed {
        status := status[order := next];
      }
    }

    method MarkPaidActivity(order: int)
      modifies this
      ensures Contents() == MarkPaid(old(Contents()), order)
    {
      var paid := UpdatePendingStatusById(order, Paid);
      if paid {
        outbox := outbox + [OrderPaid(order)];
      }
    }

    method MarkFailedActivity(order: int, f: Failure)
      modifies this
      ensures Contents() == MarkFailed(old(Contents()), order, f)
    {
      var failed := UpdatePendingStatusById(order, f.status);
      if failed {
        outbox := outbox + [OrderFailed(order, f.status, f.reason)];
      }
    }
  }

  /* ---------- one terminal event per order, agreeing with its status ---------- */

  predicate IsTerminal(e: Event, order: int) { e.order == order && !e.OrderCreated? }

  function TerminalEvents(outbox: seq<Event>, order: int): nat {
    if outbox == [] then 0
    else TerminalEvents(outbox[..|outbox| - 1], order) + if IsTerminal(outbox[|outbox| - 1], order) then 1 else 0
  }

  /** The kind and the payload of a terminal event say what the row says. */
  predicate Agrees(e: Event, s: Status) {
    match e
    case OrderCreated(_) => true
    case OrderPaid(_) => s == Paid
    case OrderFailed(_, status, reason) => s == status && IsFailureStatus(status)
  }

  ghost predicate Consistent(db: Db, order: int) {
    var left := order in db.status && db.status[order] != PendingPayment;
    && TerminalEvents(db.outbox, order) == (if left then 1 else 0)
    && forall e :: e in db.outbox && IsTerminal(e, order) ==> order in db.status && Agrees(e, db.status[order])
  }

  datatype Op = OpPlace(order: int) | OpMarkPaid(order: int) | OpMarkFailed(order: int, failure: Failure)

  predicate IsProper(op: Op) { op.OpMarkFailed? ==> IsFailureStatus(op.failure.status) }

  function Apply(db: Db, op: Op): Db {
    match op
    case OpPlace(o) => Place(db, o)
    case OpMarkPaid(o) => MarkPaid(db, o)
    case OpMarkFailed(o, f) => MarkFailed(db, o, f)
  }

  function Run(db: Db, ops: seq<Op>): Db {
    if ops == [] then db else Apply(Run(db, ops[..|ops| - 1]), ops[|ops| - 1])
  }

  lemma TerminalEventsOfAppended(outbox: seq<Event>, e: Event, order: int)
    ensures TerminalEvents(outbox + [e], order) == TerminalEvents(outbox, order) + if IsTerminal(e, order) then 1 else 0
  {
    assert (outbox + [e])[..|outbox + [e]| - 1] == outbox;
  }

  function EventOf(op: Op): Event {
    match op
    case OpPlace(o) => OrderCreated(o)
    case OpMarkPaid(o) => OrderPaid(o)
    case OpMarkFailed(o, f) => OrderFailed(o, f.status, f.reason)
  }

  lemma ConsistentStep(db: Db, op: Op, order: int)
    requires Consistent(db, order) && IsProper(op)
    ensures Consistent(Apply(db, op), order)
  {
    TerminalEventsOfAppended(db.outbox, EventOf(op), order);
  }

  /** With marks retried, duplicated and mixed in any way: a terminal event exists exactly when the
      order has left pending_payment, there is only one, and it agrees with the stored status. */
  lemma {:induction false} ConsistentForever(db: Db, ops: seq<Op>, order: int)
    requires Consistent(db, order) && forall op :: op in ops ==> IsProper(op)
    ensures Consistent(Run(db, ops), order)
  {
    if ops != [] {
      ConsistentForever(db, ops[..|ops| - 1], order);
      ConsistentStep(Run(db, ops[..|ops| - 1]), ops[|ops| - 1], order);
    }
  }

  /** The new row of each operation, and its event, to the letter. */
  lemma OperationsMean(db: Db, order: int, f: Failure)
    ensures order !in db.status ==>
      Place(db, order).status == db.status[order := PendingPayment] && Place(db, order).outbox == db.outbox + [OrderCreated(order)]
    ensures IsPending(db, order) ==>
      MarkPaid(db, order).status == db.status[order := Paid] && MarkPaid(db, order).outbox == db.outbox + [OrderPaid(order)]
      && MarkFailed(db, order, f).status == db.status[order := f.status]
      && MarkFailed(db, order, f).outbox == db.outbox + [OrderFailed(order, f.status, f.reason)]
    ensures !IsPending(db, order) ==> MarkPaid(db, order) == db && MarkFailed(db, order, f) == db
  {
  }

  lemma SettledStep(db: Db, op: Op, order: int)
    requires order in db.status && db.status[order] != PendingPayment
    ensures order in Apply(db, op).status && Apply(db, op).status[order] == db.status[order]
    ensures TerminalEvents(Apply(db, op).outbox, order) == TerminalEvents(db.outbox, order)
  {
    TerminalEventsOfAppended(db.outbox, EventOf(op), order);
  }

  /** An order leaves pending_payment at most once: afterwards neither its row nor its events change. */
  lemma {:induction false} LeavesPendingOnce(db: Db, ops: seq<Op>, order: int)
    requires order in db.status && db.status[order] != PendingPayment
    ensures order in Run(db, ops).status && Run(db, ops).status[order] == db.status[order]
    ensures TerminalEvents(Run(db, ops).outbox, order) == TerminalEvents(db.outbox, order)
  {
    if ops != [] {
      LeavesPendingOnce(db, ops[..|ops| - 1], order);
      SettledStep(Run(db, ops[..|ops| - 1]), ops[|ops| - 1], order);
    }
  }
}
