/**
 The order-placement saga as a transition system: any number of workflows, the messages they have sent,
 and the tables of the account, stock and order contexts.

 A sent message stays in `sent` and may be delivered any number of times, at any later moment, or never;
 this covers loss, duplication, delay and reordering.  An activity attempt that has timed out may still
 publish or commit late.  A reply, once produced, may reach the workflow whenever it waits for that
 activity.  Every transaction of a receiver is one atomic step.
 */
module Saga {
  import opened Wrappers
  import Account
  import Stock
  import Orders

  /** What the workflow is started with. */
  datatype OrderSpec = OrderSpec(customer: int, total: int, items: seq<Stock.Item>)

  type Config = map<int, OrderSpec>

  datatype FailureType = InsufficientStock | PaymentRejected

  datatype Cause = ApplicationFailure(kind: string) | OtherCause

  datatype Error = ActivityFailure(cause: Cause) | OtherError

  datatype Act = ReserveStock | ChargeCustomer | RefundCustomer | ReleaseStock | MarkPaid | MarkFailed

  datatype Pc =
    | Reserving | Charging | MarkingPaid | DonePaid
    | Refunding | Releasing | MarkingFailed | DoneFailed
    | CanceledWhileMarkingPaid

  /** `scheduled` records the activities ever started, since their late attempts may still act. */
  datatype Wf = Wf(pc: Pc, isChargeSent: bool, failure: Option<FailureType>, scheduled: set<Act>)

  /* ---------- the workflow function ---------- */

  function FailureName(t: FailureType): string {
    match t
    case InsufficientStock => "InsufficientStock"
    case PaymentRejected => "PaymentRejected"
  }

  function ToFailureType(e: Error): Option<FailureType> {
    if e.ActivityFailure? && e.cause.ApplicationFailure? then
      if e.cause.kind == FailureName(InsufficientStock) then Some(InsufficientStock)
      else if e.cause.kind == FailureName(PaymentRejected) then Some(PaymentRejected)
      else None
    else None
  }

  function ToFailure(t: Option<FailureType>): Orders.Failure {
    if t == Some(InsufficientStock) then Orders.Failure(Orders.Canceled, Orders.Reason.InsufficientStock)
    else if t == Some(PaymentRejected) then Orders.Failure(Orders.FailedPayment, Orders.Reason.PaymentRejected)
    else Orders.Failure(Orders.Canceled, Orders.TechnicalError)
  }

  /** What an activity throws when the receiver refuses the request. */
  function Rejection(t: FailureType): Error { ActivityFailure(ApplicationFailure(FailureName(t))) }

  lemma RejectionsAreRecognised(t: FailureType)
    ensures ToFailureType(Rejection(t)) == Some(t)
  {
    assert FailureName(InsufficientStock)[0] == 'I' && FailureName(PaymentRejected)[0] == 'P';
  }

  /** Nothing but an activity failure caused by an application failure of one of the two types is a rejection. */
  lemma OnlyRejectionsAreRecognised(e: Error)
    ensures ToFailureType(e) == Some(InsufficientStock) <==> e == ActivityFailure(ApplicationFailure("InsufficientStock"))
    ensures ToFailureType(e) == Some(PaymentRejected) <==> e == ActivityFailure(ApplicationFailure("PaymentRejected"))
  {
    assert "InsufficientStock"[0] == 'I' && "PaymentRejected"[0] == 'P';
  }

  function Started(): Wf { Wf(Reserving, false, None, {ReserveStock}) }

  function Schedule(w: Wf, pc: Pc, act: Act): Wf { w.(pc := pc, scheduled := w.scheduled + {act}) }

  function Compensate(w: Wf, t: Option<FailureType>): Wf {
    var failing := w.(failure := t);
    if w.isChargeSent && t != Some(PaymentRejected) then Schedule(failing, Refunding, RefundCustomer)
    else AfterRefund(failing)
  }

  function AfterRefund(w: Wf): Wf {
    if w.failure != Some(InsufficientStock) then Schedule(w, Releasing, ReleaseStock) else AfterRelease(w)
  }

  function AfterRelease(w: Wf): Wf { Schedule(w, MarkingFailed, MarkFailed) }

  function Current(pc: Pc): Option<Act> {
    match pc
    case Reserving => Some(ReserveStock)
    case Charging => Some(ChargeCustomer)
    case Refunding => Some(RefundCustomer)
    case Releasing => Some(ReleaseStock)
    case MarkingFailed => Some(MarkFailed)
    case MarkingPaid => Some(MarkPaid)
    case _ => None
  }

  /** The awaited activity returned. */
  function OnSuccess(w: Wf): Wf {
    match w.pc
    case Reserving => Schedule(w.(isChargeSent := true), Charging, ChargeCustomer)
    case Charging => Schedule(w, MarkingPaid, MarkPaid)
    case Refunding => AfterRefund(w)
    case Releasing => AfterRelease(w)
    case MarkingFailed => w.(pc := DoneFailed)
    case MarkingPaid => w.(pc := DonePaid)
    case _ => w
  }

  /** The awaited activity failed for good, or the workflow was cancelled. */
  function OnError(w: Wf, e: Error): Wf {
    match w.pc
    case Reserving => Compensate(w, ToFailureType(e))
    case Charging => Compensate(w, ToFailureType(e))
    case MarkingPaid => w.(pc := CanceledWhileMarkingPaid)
    case _ => w  // the compensations are retried without end in a non-cancellable scope
  }

  /* ---------- the messages the activities send ---------- */

  function ChargeOf(o: int, spec: OrderSpec): Account.ChargeMsg {
    Account.ChargeMsg(true, o, spec.customer, spec.total)
  }

  function RefundOf(o: int, spec: OrderSpec): Account.RefundMsg {
    Account.RefundMsg(true, o, o, spec.customer, spec.total)
  }

  /* ---------- the system ---------- */

  datatype Msg = Msg(order: int, act: Act)

  datatype Reply = Reply(order: int, act: Act, accepted: bool)

  /** History, read by no step: orders whose deliveries met the tables in an unlucky order.  Each note is decided by
      the tables as the delivery finds them.
      `heldAfterReject`     a reserve met free stock after a refused one;
      `rejectedAfterHeld`   a reserve met a delisted offer although the order had rows;
      `heldAfterRelease`    a reserve met free stock after the last executed release;
      `chargedAfterReject`  a charge met a covered, uncharged account after a refused one. */
  datatype Notes = Notes(heldAfterReject: set<int>, rejectedAfterHeld: set<int>, heldAfterRelease: set<int>, chargedAfterReject: set<int>)

  datatype State = State(
    acc: Account.Db, stock: Stock.Db, ord: Orders.Db,
    wf: map<int, Wf>, sent: set<Msg>, replies: set<Reply>, notes: Notes)

  datatype Event =
    | Start(order: int)
    | Send(order: int, act: Act)      // an attempt publishes its request, in time or late
    | Deliver(order: int, act: Act)   // the receiver executes one delivery
    | Mark(order: int, act: Act)      // an attempt of markPaid or markFailed commits
    | Complete(order: int)            // the workflow sees the awaited activity succeed
    | Reject(order: int)              // the workflow sees the awaited activity refused
    | Break(order: int, error: Error) // timeout, exhausted retries, cancellation
    | Bank(accountOp: Account.Op)     // provisioning and top-ups
    | Shop(stockOp: Stock.Op)         // restocking and delisting

  predicate IsRpc(act: Act) { act != MarkPaid && act != MarkFailed }

  predicate Enabled(cfg: Config, s: State, e: Event) {
    match e
    case Start(o) => o in cfg && o !in s.wf
    case Send(o, act) => o in s.wf && act in s.wf[o].scheduled && IsRpc(act)
    case Deliver(o, act) => o in cfg && Msg(o, act) in s.sent && IsRpc(act)
    case Mark(o, act) => o in s.wf && act in s.wf[o].scheduled && !IsRpc(act)
    case Complete(o) =>
      o in s.wf && Current(s.wf[o].pc).Some? && Reply(o, Current(s.wf[o].pc).value, true) in s.replies
    case Reject(o) =>
      && o in s.wf
      && ((s.wf[o].pc == Reserving && Reply(o, ReserveStock, false) in s.replies)
          || (s.wf[o].pc == Charging && Reply(o, ChargeCustomer, false) in s.replies))
    case Break(o, error) =>
      o in s.wf && s.wf[o].pc in {Reserving, Charging, MarkingPaid} && ToFailureType(error) == None
    case Bank(op) => op.OpProvision? || op.OpTopUp?
    case Shop(op) => op.OpSetOnHand? || op.OpSoftDelete?
  }

  predicate AnyRow(rows: seq<Stock.Row>, o: int) { exists i :: 0 <= i < |rows| && rows[i].order == o }

  function NoteIf(marked: set<int>, condition: bool, o: int): set<int> { if condition then marked + {o} else marked }

  /** The order has no row yet, and every item can be held. */
  predicate MeetsFreeStock(db: Stock.Db, o: int, items: seq<Stock.Item>) {
    !AnyRow(db.rows, o) && forall x :: x in items ==> Stock.Holdable(db.offers, x)
  }

  /** The order has rows, and an offer of it is no longer listed. */
  predicate MeetsDelisting(db: Stock.Db, o: int, items: seq<Stock.Item>) {
    AnyRow(db.rows, o) && Stock.SomeMissing(db, items)
  }

  /** The movement is valid, the charge has no inbox row, and the account covers it. */
  predicate MeetsCover(db: Account.Db, o: int, spec: OrderSpec) {
    && Account.IsValidMovement(spec.customer, spec.total) && (Account.CustomerCharge, o) !in db.inbox
    && spec.customer in db.balance && db.balance[spec.customer] >= spec.total
  }

  function DeliverReserve(cfg: Config, s: State, o: int): State
    requires o in cfg
  {
    var (stock, reply) := Stock.Reserve(s.stock, o, cfg[o].items);
    var free := MeetsFreeStock(s.stock, o, cfg[o].items);
    s.(stock := stock,
       replies := if reply == Stock.Held then s.replies + {Reply(o, ReserveStock, true)}
                  else if reply.ReserveRejected? then s.replies + {Reply(o, ReserveStock, false)}
                  else s.replies,
       notes := s.notes.(
         heldAfterReject := NoteIf(s.notes.heldAfterReject, free && Reply(o, ReserveStock, false) in s.replies, o),
         rejectedAfterHeld := NoteIf(s.notes.rejectedAfterHeld, MeetsDelisting(s.stock, o, cfg[o].items), o),
         heldAfterRelease := NoteIf(s.notes.heldAfterRelease, free && Reply(o, ReleaseStock, true) in s.replies, o)))
  }

  function DeliverRelease(s: State, o: int): State {
    s.(stock := Stock.Release(s.stock, o),
       replies := s.replies + {Reply(o, ReleaseStock, true)},
       notes := s.notes.(heldAfterRelease := s.notes.heldAfterRelease - {o}))
  }

  function DeliverCharge(cfg: Config, s: State, o: int): State
    requires o in cfg
  {
    var (acc, reply) := Account.HandleCharge(s.acc, ChargeOf(o, cfg[o]));
    s.(acc := acc,
       replies := if reply == Account.Charged then s.replies + {Reply(o, ChargeCustomer, true)}
                  else if reply.Rejected? then s.replies + {Reply(o, ChargeCustomer, false)}
                  else s.replies,
       notes := s.notes.(chargedAfterReject :=
         NoteIf(s.notes.chargedAfterReject, MeetsCover(s.acc, o, cfg[o]) && Reply(o, ChargeCustomer, false) in s.replies, o)))
  }

  function DeliverRefund(cfg: Config, s: State, o: int): State
    requires o in cfg
  {
    var (acc, reply) := Account.HandleRefund(s.acc, RefundOf(o, cfg[o]));
    s.(acc := acc,
       replies := if reply == Account.Refunded || reply == Account.NotCharged
                  then s.replies + {Reply(o, RefundCustomer, true)} else s.replies)
  }

  function Apply(cfg: Config, s: State, e: Event): State {
    if !Enabled(cfg, s, e) then s
    else match e
      case Start(o) => s.(wf := s.wf[o := Started()])
      case Send(o, act) => s.(sent := s.sent + {Msg(o, act)})
      case Deliver(o, act) =>
        (match act
         case ReserveStock => DeliverReserve(cfg, s, o)
         case ReleaseStock => DeliverRelease(s, o)
         case ChargeCustomer => DeliverCharge(cfg, s, o)
         case RefundCustomer => DeliverRefund(cfg, s, o)
         case _ => s)
      case Mark(o, act) =>
        s.(ord := if act == MarkPaid then Orders.MarkPaid(s.ord, o) else Orders.MarkFailed(s.ord, o, ToFailure(s.wf[o].failure)),
           replies := s.replies + {Reply(o, act, true)})
      case Complete(o) => s.(wf := s.wf[o := OnSuccess(s.wf[o])])
      case Reject(o) =>
        s.(wf := s.wf[o := OnError(s.wf[o], Rejection(if s.wf[o].pc == Reserving then InsufficientStock else PaymentRejected))])
      case Break(o, error) => s.(wf := s.wf[o := OnError(s.wf[o], error)])
      case Bank(op) => s.(acc := Account.Apply(s.acc, op))
      case Shop(op) => s.(stock := Stock.Apply(s.stock, op))
  }

  function Run(cfg: Config, s: State, events: seq<Event>): State {
    if events == [] then s else Apply(cfg, Run(cfg, s, events[..|events| - 1]), events[|events| - 1])
  }

  /* ---------- the invariant ---------- */

  /** The validated request body, with the distinct offers that the key of the order lines enforces. */
  predicate ValidConfig(cfg: Config) {
    forall o :: o in cfg ==> Stock.IsValidItems(cfg[o].items) && Stock.Distinct(cfg[o].items)
  }

  predicate Got(s: State, o: int, act: Act, accepted: bool) { Reply(o, act, accepted) in s.replies }

  predicate NeedsRefund(w: Wf) { w.isChargeSent && w.failure != Some(PaymentRejected) }

  predicate NeedsRelease(w: Wf) { w.failure != Some(InsufficientStock) }

  predicate IsFailing(pc: Pc) { pc in {Refunding, Releasing, MarkingFailed, DoneFailed} }

  /** The activities a workflow in this position has started, and no others. */
  function ScheduledAt(w: Wf): set<Act> {
    {ReserveStock}
    + (if w.isChargeSent then {ChargeCustomer} else {})
    + (if w.pc in {MarkingPaid, DonePaid, CanceledWhileMarkingPaid} then {MarkPaid} else {})
    + (if IsFailing(w.pc) && NeedsRefund(w) then {RefundCustomer} else {})
    + (if w.pc in {Releasing, MarkingFailed, DoneFailed} && NeedsRelease(w) then {ReleaseStock} else {})
    + (if w.pc in {MarkingFailed, DoneFailed} then {MarkFailed} else {})
  }

  /** What the position of a workflow says about the replies it has seen. */
  predicate WfInv(s: State, o: int) {
    if o !in s.wf then
      (forall act :: Msg(o, act) !in s.sent) && (forall act, accepted :: Reply(o, act, accepted) !in s.replies)
    else
      var w := s.wf[o];
      && (forall act :: Msg(o, act) in s.sent ==> act in w.scheduled)
      && (forall act, accepted :: Reply(o, act, accepted) in s.replies ==> act in w.scheduled)
      && w.scheduled == ScheduledAt(w)
      && (w.isChargeSent ==> Got(s, o, ReserveStock, true))
      && (w.pc == Reserving ==> !w.isChargeSent)
      && (w.pc in {Charging, MarkingPaid, DonePaid, CanceledWhileMarkingPaid} ==> w.isChargeSent)
      && (w.pc in {MarkingPaid, DonePaid, CanceledWhileMarkingPaid} ==> Got(s, o, ChargeCustomer, true))
      && (w.pc == DonePaid ==> Got(s, o, MarkPaid, true))
      && (IsFailing(w.pc) ==>
            && (w.failure == Some(InsufficientStock) ==> !w.isChargeSent && Got(s, o, ReserveStock, false))
            && (w.failure == Some(PaymentRejected) ==> w.isChargeSent && Got(s, o, ChargeCustomer, false))
            && (w.pc == Refunding ==> NeedsRefund(w))
            && (w.pc == Releasing ==> NeedsRelease(w))
            && (w.pc != Refunding && NeedsRefund(w) ==> Got(s, o, RefundCustomer, true))
            && (w.pc in {MarkingFailed, DoneFailed} && NeedsRelease(w) ==> Got(s, o, ReleaseStock, true))
            && (w.pc == DoneFailed ==> Got(s, o, MarkFailed, true)))
  }

  ghost predicate AccInv(cfg: Config, s: State, o: int)
    requires o in cfg
  {
    && Account.Coherent(s.acc, o, cfg[o].customer, cfg[o].total)
    && ((Account.CustomerRefund, o) in s.acc.inbox ==> Msg(o, RefundCustomer) in s.sent)
    && (Got(s, o, ChargeCustomer, true) ==> (Account.CustomerCharge, o) in s.acc.inbox)
    && (Got(s, o, RefundCustomer, true) ==> (Account.CustomerRefund, o) in s.acc.inbox)
    && ((Account.CustomerCharge, o) in s.acc.inbox ==> Msg(o, ChargeCustomer) in s.sent || Msg(o, RefundCustomer) in s.sent)
    && ((Account.CustomerCharge, o) in s.acc.inbox || Got(s, o, ChargeCustomer, false) ==>
          Account.IsValidMovement(cfg[o].customer, cfg[o].total))
    && (Got(s, o, ChargeCustomer, false) && Account.Payments(s.acc, o) == 1 <==> o in s.notes.chargedAfterReject)
  }

  predicate AllRows(rows: seq<Stock.Row>, o: int, items: seq<Stock.Item>) {
    forall i :: 0 <= i < |items| ==> Stock.HasRow(rows, o, items[i].offer)
  }

  /** The order's reservation rows are rows of its items, reserved or released. */
  predicate OwnRows(rows: seq<Stock.Row>, o: int, items: seq<Stock.Item>) {
    forall i :: 0 <= i < |rows| && rows[i].order == o ==>
      Stock.Item(rows[i].offer, rows[i].quantity) in items && (rows[i].status == Stock.Reserved || rows[i].status == Stock.Released)
  }

  predicate AnyReleased(rows: seq<Stock.Row>, o: int) {
    exists i :: 0 <= i < |rows| && rows[i].order == o && rows[i].status == Stock.Released
  }

  predicate StockInv(cfg: Config, s: State, o: int)
    requires o in cfg
  {
    var rows, items := s.stock.rows, cfg[o].items;
    && OwnRows(rows, o, items)
    && (AnyRow(rows, o) ==> AllRows(rows, o, items))
    && (Got(s, o, ReserveStock, true) ==> AllRows(rows, o, items))
    && (AnyReleased(rows, o) ==> Got(s, o, ReleaseStock, true))
    && (Got(s, o, ReleaseStock, true) && Stock.HoldsStock(rows, o) <==> o in s.notes.heldAfterRelease)
    && (o in s.notes.heldAfterRelease ==> o in s.wf && IsFailing(s.wf[o].pc) && !s.wf[o].isChargeSent)
    && (Got(s, o, ReserveStock, false) && AnyRow(rows, o) <==> o in s.notes.heldAfterReject + s.notes.rejectedAfterHeld)
  }

  function FailedEvent(o: int, f: Orders.Failure): Orders.Event { Orders.OrderFailed(o, f.status, f.reason) }

  ghost predicate OrdInv(s: State, o: int) {
    && o in s.ord.status
    && Orders.Consistent(s.ord, o)
    && (s.ord.status[o] == Orders.PendingPayment
        || (o in s.wf && MarkPaid in s.wf[o].scheduled && s.ord.status[o] == Orders.Paid)
        || (o in s.wf && MarkFailed in s.wf[o].scheduled && s.ord.status[o] == ToFailure(s.wf[o].failure).status))
    && (Got(s, o, MarkPaid, true) || Got(s, o, MarkFailed, true) ==> s.ord.status[o] != Orders.PendingPayment)
    && (s.ord.status[o] == Orders.Paid ==> Got(s, o, MarkPaid, true))
    && (Orders.IsFailureStatus(s.ord.status[o]) ==> Got(s, o, MarkFailed, true))
    && (Got(s, o, MarkFailed, true) ==>
          o in s.wf && MarkFailed in s.wf[o].scheduled && FailedEvent(o, ToFailure(s.wf[o].failure)) in s.ord.outbox)
  }

  ghost predicate OrderInv(cfg: Config, s: State, o: int)
    requires o in cfg
  {
    WfInv(s, o) && AccInv(cfg, s, o) && StockInv(cfg, s, o) && OrdInv(s, o)
  }

  ghost predicate Inv(cfg: Config, s: State) {
    && s.wf.Keys <= cfg.Keys
    && Account.Balanced(s.acc)
    && Stock.Valid(s.stock)
    && forall o :: o in cfg ==> OrderInv(cfg, s, o)
  }

  /** Before any workflow starts: the orders are pending, and nothing in the other contexts is theirs. */
  ghost predicate Init(cfg: Config, s: State) {
    && s.wf == map[] && s.sent == {} && s.replies == {} && s.notes == Notes({}, {}, {}, {})
    && Account.Balanced(s.acc)
    && Stock.Valid(s.stock)
    && forall o :: o in cfg ==>
         && !AnyRow(s.stock.rows, o)
         && (Account.CustomerCharge, o) !in s.acc.inbox && (Account.CustomerRefund, o) !in s.acc.inbox
         && (forall e :: e in s.acc.ledger ==> e.cause != Some(o))
         && Orders.IsPending(s.ord, o) && Orders.Consistent(s.ord, o)
  }
}
