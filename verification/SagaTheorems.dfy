/**
 What every run of the saga guarantees, and the runs on which a wished-for guarantee fails.
 */
module SagaTheorems {
  import opened Wrappers
  import Account
  import Stock
  import Orders
  import opened Saga
  import opened SagaProofs

  /** Per order, in every reachable state: refunds <= payments <= 1, all of its own amount and customer. */
  lemma LedgerOfAnOrder(cfg: Config, s: State, events: seq<Event>, o: int)
    requires ValidConfig(cfg) && Init(cfg, s) && o in cfg
    ensures Account.Refunds(Run(cfg, s, events).acc, o) <= Account.Payments(Run(cfg, s, events).acc, o) <= 1
    ensures Account.OwnEntries(Run(cfg, s, events).acc, o, cfg[o].customer, cfg[o].total)
  {
    InitHasInv(cfg, s);
    InvForever(cfg, s, events);
    assert OrderInv(cfg, Run(cfg, s, events), o);
  }

  /** Money and stock are conserved in every reachable state of the whole system. */
  lemma Conservation(cfg: Config, s: State, events: seq<Event>)
    requires ValidConfig(cfg) && Init(cfg, s)
    ensures Account.Balanced(Run(cfg, s, events).acc) && Stock.Valid(Run(cfg, s, events).stock)
  {
    InitHasInv(cfg, s);
    InvForever(cfg, s, events);
  }

  lemma {:induction false} RepliesRemain(cfg: Config, s: State, events: seq<Event>)
    ensures s.replies <= Run(cfg, s, events).replies
  {
    if events != [] {
      RepliesRemain(cfg, s, events[..|events| - 1]);
    }
  }

  /** The workflow is past its refund step. */
  predicate RefundStepDone(w: Wf) { NeedsRefund(w) && w.pc in {Releasing, MarkingFailed, DoneFailed} }

  /** Once the refund step has completed, the order's net effect on the ledger is zero for ever,
      whatever charges of it are still in flight. */
  lemma RefundStepSettles(cfg: Config, s: State, events: seq<Event>, later: seq<Event>, o: int)
    requires ValidConfig(cfg) && Init(cfg, s) && o in cfg
    requires o in Run(cfg, s, events).wf && RefundStepDone(Run(cfg, s, events).wf[o])
    ensures Account.Net(Run(cfg, Run(cfg, s, events), later).acc.ledger, o) == 0
  {
    var mid := Run(cfg, s, events);
    InitHasInv(cfg, s);
    InvForever(cfg, s, events);
    assert OrderInv(cfg, mid, o);
    assert Got(mid, o, RefundCustomer, true);
    InvForever(cfg, mid, later);
    RepliesRemain(cfg, mid, later);
    var end := Run(cfg, mid, later);
    assert OrderInv(cfg, end, o);
    assert Got(end, o, RefundCustomer, true);
    Account.RefundedNetsToZero(end.acc, o, cfg[o].customer, cfg[o].total);
  }

  /** An active row of the order with exactly the requested quantity. */
  predicate ReservedFor(rows: seq<Stock.Row>, o: int, item: Stock.Item) {
    exists i :: 0 <= i < |rows| && rows[i].order == o && rows[i].offer == item.offer
                && rows[i].quantity == item.quantity && Stock.IsActive(rows[i])
  }

  predicate FullyReserved(rows: seq<Stock.Row>, o: int, items: seq<Stock.Item>) {
    forall k :: 0 <= k < |items| ==> ReservedFor(rows, o, items[k])
  }

  lemma NothingReleased(rows: seq<Stock.Row>, o: int, items: seq<Stock.Item>)
    requires OwnRows(rows, o, items) && AllRows(rows, o, items) && !AnyReleased(rows, o) && Stock.Distinct(items)
    ensures FullyReserved(rows, o, items)
  {
    forall k | 0 <= k < |items| ensures ReservedFor(rows, o, items[k]) {
      assert Stock.HasRow(rows, o, items[k].offer);
      var i :| 0 <= i < |rows| && rows[i].order == o && rows[i].offer == items[k].offer;
      assert Stock.Item(rows[i].offer, rows[i].quantity) in items;
      var j :| 0 <= j < |items| && items[j] == Stock.Item(rows[i].offer, rows[i].quantity);
      assert j == k;
      assert rows[i].status == Stock.Reserved;
    }
  }

  /** Past the charge step the money is taken once and the stock is held in full. */
  lemma PastTheCharge(cfg: Config, t: State, o: int)
    requires ValidConfig(cfg) && o in cfg && OrderInv(cfg, t, o) && o in t.wf && MarkPaid in t.wf[o].scheduled
    ensures Account.Payments(t.acc, o) == 1 && Account.Refunds(t.acc, o) == 0
    ensures Account.Net(t.acc.ledger, o) == -cfg[o].total
    ensures FullyReserved(t.stock.rows, o, cfg[o].items)
  {
    var w := t.wf[o];
    assert RefundCustomer !in ScheduledAt(w) && ReleaseStock !in ScheduledAt(w);
    assert Msg(o, RefundCustomer) !in t.sent && !Got(t, o, ReleaseStock, true);
    assert cfg[o].total * (0 - 1) == -cfg[o].total;
    NothingReleased(t.stock.rows, o, cfg[o].items);
  }

  /** A paid order was paid once, in full, never refunded, and holds every item it ordered. */
  lemma PaidMeansPaidAndReserved(cfg: Config, s: State, events: seq<Event>, o: int)
    requires ValidConfig(cfg) && Init(cfg, s) && o in cfg
    requires o in Run(cfg, s, events).ord.status && Run(cfg, s, events).ord.status[o] == Orders.Paid
    ensures Account.Payments(Run(cfg, s, events).acc, o) == 1 && Account.Refunds(Run(cfg, s, events).acc, o) == 0
    ensures Account.Net(Run(cfg, s, events).acc.ledger, o) == -cfg[o].total
    ensures FullyReserved(Run(cfg, s, events).stock.rows, o, cfg[o].items)
  {
    InitHasInv(cfg, s);
    InvForever(cfg, s, events);
    assert OrderInv(cfg, Run(cfg, s, events), o);
    PastTheCharge(cfg, Run(cfg, s, events), o);
  }

  /** markPaid runs outside the non-cancellable scope: a workflow cancelled there ends without compensating,
      so the order stays charged and reserved.  Its row is left pending exactly when no attempt of markPaid
      executed, and is paid otherwise. */
  lemma CancelledWhileMarkingPaidKeepsAll(cfg: Config, s: State, events: seq<Event>, o: int)
    requires ValidConfig(cfg) && Init(cfg, s) && o in cfg
    requires o in Run(cfg, s, events).wf && Run(cfg, s, events).wf[o].pc == CanceledWhileMarkingPaid
    ensures Account.Net(Run(cfg, s, events).acc.ledger, o) == -cfg[o].total
    ensures FullyReserved(Run(cfg, s, events).stock.rows, o, cfg[o].items)
    ensures Orders.IsPending(Run(cfg, s, events).ord, o) <==> !Got(Run(cfg, s, events), o, MarkPaid, true)
    ensures !Orders.IsPending(Run(cfg, s, events).ord, o) ==>
      o in Run(cfg, s, events).ord.status && Run(cfg, s, events).ord.status[o] == Orders.Paid
  {
    InitHasInv(cfg, s);
    InvForever(cfg, s, events);
    assert OrderInv(cfg, Run(cfg, s, events), o);
    PastTheCharge(cfg, Run(cfg, s, events), o);
  }

  /** The one way an ended, unpaid order can keep money: the charge it was refused was applied after all. */
  predicate KeepsMoney(s: State, o: int)
    requires o in s.wf
  {
    s.wf[o].failure == Some(PaymentRejected) && o in s.notes.chargedAfterReject
  }

  /** The ways it can keep stock: a reserve took stock after the refusal that ended the order, the refusal
      came although the stock was held, or, when no reserve had been answered, one ran after the release. */
  predicate KeepsStock(s: State, o: int)
    requires o in s.wf
  {
    if s.wf[o].failure == Some(InsufficientStock) then o in s.notes.heldAfterReject + s.notes.rejectedAfterHeld
    else !s.wf[o].isChargeSent && o in s.notes.heldAfterRelease
  }

  lemma MoneyOfFailed(cfg: Config, s: State, o: int)
    requires o in cfg && OrderInv(cfg, s, o) && o in s.wf && s.wf[o].pc == DoneFailed
    ensures Account.Net(s.acc.ledger, o) == 0 <==> !KeepsMoney(s, o)
  {
    var w := s.wf[o];
    if NeedsRefund(w) {
      assert Got(s, o, RefundCustomer, true);
      Account.RefundedNetsToZero(s.acc, o, cfg[o].customer, cfg[o].total);
    } else {
      assert RefundCustomer !in ScheduledAt(w);
      assert Account.Refunds(s.acc, o) == 0;
      assert cfg[o].total * (0 - 1) == -cfg[o].total && cfg[o].total * (0 - 0) == 0;
    }
  }

  lemma StockOfFailed(cfg: Config, s: State, o: int)
    requires o in cfg && OrderInv(cfg, s, o) && o in s.wf && s.wf[o].pc == DoneFailed
    ensures Stock.HoldsStock(s.stock.rows, o) <==> KeepsStock(s, o)
  {
    var w := s.wf[o];
    var rows := s.stock.rows;
    if w.failure == Some(InsufficientStock) {
      assert ReleaseStock !in ScheduledAt(w);
      assert !Got(s, o, ReleaseStock, true);
      if AnyRow(rows, o) {
        var i :| 0 <= i < |rows| && rows[i].order == o;
        assert Stock.IsActive(rows[i]);
      }
    }
  }

  /** Every workflow that ends unpaid, from any rejection, failure or cancellation inside its try block,
      leaves the order canceled or failed_payment, and has undone its money and its stock exactly
      unless a charge or a reserve of the order met the tables too late. */
  lemma FailedMeansUndone(cfg: Config, s: State, events: seq<Event>, o: int)
    requires ValidConfig(cfg) && Init(cfg, s) && o in cfg
    requires o in Run(cfg, s, events).wf && Run(cfg, s, events).wf[o].pc == DoneFailed
    ensures o in Run(cfg, s, events).ord.status
    ensures Run(cfg, s, events).ord.status[o] ==
      if Run(cfg, s, events).wf[o].failure == Some(PaymentRejected) then Orders.FailedPayment else Orders.Canceled
    ensures Account.Net(Run(cfg, s, events).acc.ledger, o) == 0 <==> !KeepsMoney(Run(cfg, s, events), o)
    ensures Stock.HoldsStock(Run(cfg, s, events).stock.rows, o) <==> KeepsStock(Run(cfg, s, events), o)
  {
    InitHasInv(cfg, s);
    InvForever(cfg, s, events);
    var t := Run(cfg, s, events);
    assert OrderInv(cfg, t, o);
    assert MarkPaid !in ScheduledAt(t.wf[o]);
    MoneyOfFailed(cfg, t, o);
    StockOfFailed(cfg, t, o);
  }

  /** How an unpaid order ends, to the letter: the status of its row and the reason its event gives. */
  lemma FailureIsAnnounced(cfg: Config, s: State, events: seq<Event>, o: int)
    requires ValidConfig(cfg) && Init(cfg, s) && o in cfg
    requires o in Run(cfg, s, events).wf && Run(cfg, s, events).wf[o].pc == DoneFailed
    ensures var t := Run(cfg, s, events);
            o in t.ord.status
            && match t.wf[o].failure
               case Some(InsufficientStock) =>
                 t.ord.status[o] == Orders.Canceled && Orders.OrderFailed(o, Orders.Canceled, Orders.Reason.InsufficientStock) in t.ord.outbox
               case Some(PaymentRejected) =>
                 t.ord.status[o] == Orders.FailedPayment && Orders.OrderFailed(o, Orders.FailedPayment, Orders.Reason.PaymentRejected) in t.ord.outbox
               case None =>
                 t.ord.status[o] == Orders.Canceled && Orders.OrderFailed(o, Orders.Canceled, Orders.TechnicalError) in t.ord.outbox
  {
    InitHasInv(cfg, s);
    InvForever(cfg, s, events);
    var t := Run(cfg, s, events);
    assert OrderInv(cfg, t, o);
    assert MarkPaid !in ScheduledAt(t.wf[o]);
  }

  /** And why: the workflow saw the refusal its failure names, or neither. */
  lemma FailureHasItsRefusal(cfg: Config, s: State, events: seq<Event>, o: int)
    requires ValidConfig(cfg) && Init(cfg, s) && o in cfg
    requires o in Run(cfg, s, events).wf && IsFailing(Run(cfg, s, events).wf[o].pc)
    ensures Run(cfg, s, events).wf[o].failure == Some(InsufficientStock) ==> Got(Run(cfg, s, events), o, ReserveStock, false)
    ensures Run(cfg, s, events).wf[o].failure == Some(PaymentRejected) ==> Got(Run(cfg, s, events), o, ChargeCustomer, false)
  {
    InitHasInv(cfg, s);
    InvForever(cfg, s, events);
    assert OrderInv(cfg, Run(cfg, s, events), o);
  }

  /** A status change and its event are one: at most one terminal event per order, agreeing with the row. */
  lemma StatusAndEventsAgree(cfg: Config, s: State, events: seq<Event>, o: int)
    requires ValidConfig(cfg) && Init(cfg, s) && o in cfg
    ensures Orders.Consistent(Run(cfg, s, events).ord, o)
  {
    InitHasInv(cfg, s);
    InvForever(cfg, s, events);
    assert OrderInv(cfg, Run(cfg, s, events), o);
  }

  /* ---------- the unlucky runs exist ---------- */

  ghost predicate Reaches(cfg: Config, s: State, t: State) { exists events :: Run(cfg, s, events) == t }

  lemma ReachesItself(cfg: Config, s: State)
    ensures Reaches(cfg, s, s)
  {
    assert Run(cfg, s, []) == s;
  }

  lemma Go(cfg: Config, s: State, t: State, e: Event) returns (u: State)
    requires Reaches(cfg, s, t)
    ensures u == Apply(cfg, t, e) && Reaches(cfg, s, u)
  {
    u := Apply(cfg, t, e);
    var events :| Run(cfg, s, events) == t;
    assert (events + [e])[..|events + [e]| - 1] == events;
    assert Run(cfg, s, events + [e]) == u;
  }

  lemma GoReserve(cfg: Config, s: State, t: State, o: int) returns (u: State)
    requires Reaches(cfg, s, t) && o in cfg && o !in t.wf
    ensures Reaches(cfg, s, u) && u == t.(wf := t.wf[o := Started()], sent := t.sent + {Msg(o, ReserveStock)})
  {
    u := Go(cfg, s, t, Start(o));
    u := Go(cfg, s, u, Send(o, ReserveStock));
  }

  /** Marking the failure is the last step. */
  lemma GoMarkFailed(cfg: Config, s: State, t: State, o: int) returns (u: State)
    requires Reaches(cfg, s, t) && o in t.wf && t.wf[o].pc == MarkingFailed && MarkFailed in t.wf[o].scheduled
    ensures Reaches(cfg, s, u) && o in u.wf && u.wf[o] == t.wf[o].(pc := DoneFailed)
    ensures u.stock == t.stock && u.acc == t.acc && u.sent == t.sent
  {
    u := Go(cfg, s, t, Mark(o, MarkFailed));
    u := Go(cfg, s, u, Complete(o));
  }

  /** From the release step a workflow can always finish, with one release executed. */
  lemma GoRelease(cfg: Config, s: State, t: State, o: int) returns (u: State)
    requires Reaches(cfg, s, t) && o in cfg && o in t.wf && t.wf[o].pc == Releasing && ReleaseStock in t.wf[o].scheduled
    ensures Reaches(cfg, s, u) && o in u.wf && u.wf[o].pc == DoneFailed
    ensures u.stock == Stock.Release(t.stock, o) && u.acc == t.acc && t.sent <= u.sent
  {
    u := Go(cfg, s, t, Send(o, ReleaseStock));
    u := Go(cfg, s, u, Deliver(o, ReleaseStock));
    u := Go(cfg, s, u, Complete(o));
    u := GoMarkFailed(cfg, s, u, o);
  }

  const SHOP: Stock.Db := Stock.Db(map[1 := Stock.Offer(5, 0, false)], [])
  const ONE_ITEM: seq<Stock.Item> := [Stock.Item(1, 2)]
  const ONE_ORDER: Config := map[7 := OrderSpec(3, 40, ONE_ITEM)]

  function FreshState(): State {
    State(Account.Db(map[3 := 0], [], {}), SHOP, Orders.Db(map[7 := Orders.PendingPayment], []),
          map[], {}, {}, Notes({}, {}, {}, {}))
  }

  lemma FreshStateIsInitial()
    ensures ValidConfig(ONE_ORDER) && Init(ONE_ORDER, FreshState())
  {
  }

  /** A reserve for two of the five pieces, on a shop without rows of the order. */
  lemma FirstReserve(db: Stock.Db)
    requires db == SHOP
    ensures Stock.Reserve(db, 7, ONE_ITEM).1 == Stock.Held
    ensures Stock.Reserve(db, 7, ONE_ITEM).0.rows == [Stock.Row(7, 1, 2, Stock.Reserved)]
    ensures Stock.Reserve(db, 7, ONE_ITEM).0.offers == map[1 := Stock.Offer(5, 2, false)]
  {
    assert ONE_ITEM[..0] == [];
    assert Stock.SortItems([]) == [];
    assert Stock.SortItems(ONE_ITEM) == ONE_ITEM;
    assert !Stock.IsMissing(db, ONE_ITEM[0]);
    assert Stock.ReserveAll(db, 7, []) == (db, []);
    assert !Stock.HasRow(db.rows, 7, 1);
    assert Stock.Holdable(db.offers, ONE_ITEM[0]);
    var result := Stock.ReserveOne(db, 7, ONE_ITEM[0]);
    assert result.1 == Stock.Outcome(1, 1, 1);
    assert Stock.ReserveAll(db, 7, ONE_ITEM).0 == result.0 && Stock.ReserveAll(db, 7, ONE_ITEM).1 == [result.1];
  }

  lemma NoRowsToRelease(db: Stock.Db)
    requires db == SHOP
    ensures Stock.Release(db, 7) == SHOP
  {
    assert Stock.ReleasedQuantity([], 7, 1) == 0;
    assert Stock.Release(db, 7).offers == SHOP.offers;
  }

  /** Release leaves no fence: a reserve delivered after it takes stock for an order that has failed. */
  lemma LateReserveKeepsStock()
    ensures ValidConfig(ONE_ORDER) && Init(ONE_ORDER, FreshState())
    ensures exists t: State ::
      && Reaches(ONE_ORDER, FreshState(), t) && 7 in t.wf
      && t.wf[7].pc == DoneFailed && Stock.HoldsStock(t.stock.rows, 7)
  {
    FreshStateIsInitial();
    var cfg, s := ONE_ORDER, FreshState();
    ReachesItself(cfg, s);
    var t := GoReserve(cfg, s, s, 7);
    t := Go(cfg, s, t, Break(7, OtherError));
    t := GoRelease(cfg, s, t, 7);
    NoRowsToRelease(SHOP);
    FirstReserve(t.stock);
    t := Go(cfg, s, t, Deliver(7, ReserveStock));
    assert t.stock.rows[0].order == 7 && Stock.IsActive(t.stock.rows[0]);
  }

  lemma DelistedReserve(db: Stock.Db)
    requires db.offers == map[1 := Stock.Offer(5, 2, true)]
    ensures Stock.Reserve(db, 7, ONE_ITEM).1.ReserveRejected? && Stock.Reserve(db, 7, ONE_ITEM).0 == db
  {
    assert Stock.IsMissing(db, ONE_ITEM[0]);
  }

  /** An offer delisted between two reserve attempts turns a held reservation into a refusal,
      and a refusal is not followed by a release. */
  lemma DelistingKeepsStock()
    ensures ValidConfig(ONE_ORDER) && Init(ONE_ORDER, FreshState())
    ensures exists t: State ::
      && Reaches(ONE_ORDER, FreshState(), t) && 7 in t.wf
      && t.wf[7].pc == DoneFailed && t.wf[7].failure == Some(InsufficientStock) && Stock.HoldsStock(t.stock.rows, 7)
  {
    FreshStateIsInitial();
    var cfg, s := ONE_ORDER, FreshState();
    ReachesItself(cfg, s);
    var t := GoReserve(cfg, s, s, 7);
    FirstReserve(t.stock);
    t := Go(cfg, s, t, Deliver(7, ReserveStock));
    t := Go(cfg, s, t, Shop(Stock.OpSoftDelete(1)));
    assert t.stock.offers == map[1 := Stock.Offer(5, 2, true)];
    DelistedReserve(t.stock);
    t := Go(cfg, s, t, Deliver(7, ReserveStock));
    RejectionsAreRecognised(InsufficientStock);
    t := Go(cfg, s, t, Reject(7));
    t := GoMarkFailed(cfg, s, t, 7);
    assert t.stock.rows[0].order == 7 && Stock.IsActive(t.stock.rows[0]);
  }

  /** An order whose stock is held and whose charge has been published once. */
  lemma GoCharge() returns (t: State)
    ensures Reaches(ONE_ORDER, FreshState(), t) && 7 in t.wf && t.wf[7].pc == Charging && t.wf[7].isChargeSent
    ensures Msg(7, ChargeCustomer) in t.sent && t.acc == FreshState().acc && ChargeCustomer in t.wf[7].scheduled
    ensures t.stock.rows == [Stock.Row(7, 1, 2, Stock.Reserved)] && t.ord == FreshState().ord
  {
    var cfg, s := ONE_ORDER, FreshState();
    ReachesItself(cfg, s);
    t := GoReserve(cfg, s, s, 7);
    FirstReserve(t.stock);
    t := Go(cfg, s, t, Deliver(7, ReserveStock));
    t := Go(cfg, s, t, Complete(7));
    t := Go(cfg, s, t, Send(7, ChargeCustomer));
  }

  /** The charge is refused, the customer tops up, and the charge is delivered again. */
  lemma GoChargeTwice(deposit: Account.Entry, payment: Account.Entry) returns (t: State)
    requires deposit == Account.Entry(3, 100, Account.Deposit, Account.Success, None)
    requires payment == Account.Entry(3, 40, Account.Payment, Account.Success, Some(7))
    ensures Reaches(ONE_ORDER, FreshState(), t) && 7 in t.wf && t.wf[7].pc == Charging
    ensures Reply(7, ChargeCustomer, false) in t.replies && t.acc.ledger == [deposit] + [payment]
  {
    var cfg, s := ONE_ORDER, FreshState();
    t := GoCharge();
    t := Go(cfg, s, t, Deliver(7, ChargeCustomer));
    assert Reply(7, ChargeCustomer, false) in t.replies && t.acc == s.acc;
    t := Go(cfg, s, t, Bank(Account.OpTopUp(3, 100)));
    assert t.acc.balance[3] == 100 && t.acc.ledger == [deposit] && t.acc.inbox == {};
    t := Go(cfg, s, t, Deliver(7, ChargeCustomer));
  }

  /** A refused charge leaves no inbox row: redelivered after a top-up it is applied,
      and the payment-rejected path sends no refund. */
  lemma LateChargeKeepsMoney()
    ensures ValidConfig(ONE_ORDER) && Init(ONE_ORDER, FreshState())
    ensures exists t: State ::
      && Reaches(ONE_ORDER, FreshState(), t) && 7 in t.wf
      && t.wf[7].pc == DoneFailed && Account.Net(t.acc.ledger, 7) == -40
  {
    FreshStateIsInitial();
    var cfg, s := ONE_ORDER, FreshState();
    var deposit := Account.Entry(3, 100, Account.Deposit, Account.Success, None);
    var payment := Account.Entry(3, 40, Account.Payment, Account.Success, Some(7));
    var t := GoChargeTwice(deposit, payment);
    RejectionsAreRecognised(PaymentRejected);
    t := Go(cfg, s, t, Reject(7));
    t := GoRelease(cfg, s, t, 7);
    NoEntriesNoCount([deposit], 7);
    Account.CountOfAppended([deposit], payment, Account.Payment, 7);
  }

  /** The customer tops up and is charged. */
  lemma GoPay(deposit: Account.Entry, payment: Account.Entry) returns (t: State)
    requires deposit == Account.Entry(3, 100, Account.Deposit, Account.Success, None)
    requires payment == Account.Entry(3, 40, Account.Payment, Account.Success, Some(7))
    ensures Reaches(ONE_ORDER, FreshState(), t) && 7 in t.wf && t.wf[7].pc == Charging && t.wf[7].isChargeSent
    ensures Reply(7, ChargeCustomer, true) in t.replies && t.acc == Account.Db(map[3 := 60], [deposit] + [payment], {(Account.CustomerCharge, 7)})
    ensures t.stock.rows == [Stock.Row(7, 1, 2, Stock.Reserved)] && t.ord == FreshState().ord
  {
    var cfg, s := ONE_ORDER, FreshState();
    t := GoCharge();
    t := Go(cfg, s, t, Bank(Account.OpTopUp(3, 100)));
    assert t.acc == Account.Db(map[3 := 100], [deposit], {});
    t := Go(cfg, s, t, Deliver(7, ChargeCustomer));
  }

  lemma NetOfPayment(deposit: Account.Entry, payment: Account.Entry)
    requires deposit == Account.Entry(3, 100, Account.Deposit, Account.Success, None)
    requires payment == Account.Entry(3, 40, Account.Payment, Account.Success, Some(7))
    ensures Account.Net([deposit] + [payment], 7) == -40
  {
    NoEntriesNoCount([deposit], 7);
    Account.CountOfAppended([deposit], payment, Account.Payment, 7);
  }

  /** It does happen: cancelled before any markPaid executed, the order is pending, charged and reserved. */
  lemma CancelledRunStaysPending()
    ensures ValidConfig(ONE_ORDER) && Init(ONE_ORDER, FreshState())
    ensures exists t: State ::
      && Reaches(ONE_ORDER, FreshState(), t) && 7 in t.wf && t.wf[7].pc == CanceledWhileMarkingPaid
      && Orders.IsPending(t.ord, 7) && Account.Net(t.acc.ledger, 7) == -40 && FullyReserved(t.stock.rows, 7, ONE_ITEM)
  {
    FreshStateIsInitial();
    var cfg, s := ONE_ORDER, FreshState();
    var deposit := Account.Entry(3, 100, Account.Deposit, Account.Success, None);
    var payment := Account.Entry(3, 40, Account.Payment, Account.Success, Some(7));
    var t := GoPay(deposit, payment);
    t := Go(cfg, s, t, Complete(7));
    t := Go(cfg, s, t, Break(7, OtherError));
    NetOfPayment(deposit, payment);
    assert t.stock.rows[0].order == 7 && Stock.IsActive(t.stock.rows[0]);
    assert ReservedFor(t.stock.rows, 7, ONE_ITEM[0]);
  }
}
