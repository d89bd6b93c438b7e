/**
 Every step of the saga keeps its invariant.
 */
module SagaProofs {
  import opened Wrappers
  import Account
  import Stock
  import Orders
  import opened Saga

  /* ---------- what each part of the invariant depends on ---------- */

  predicate SameReplies(s: State, t: State, o: int, acts: set<Act>) {
    forall act, accepted :: act in acts ==> (Reply(o, act, accepted) in s.replies <==> Reply(o, act, accepted) in t.replies)
  }

  lemma AccFrame(cfg: Config, s: State, t: State, o: int)
    requires o in cfg && AccInv(cfg, s, o)
    requires t.acc == s.acc && s.sent <= t.sent && SameReplies(s, t, o, {ChargeCustomer, RefundCustomer})
    requires t.notes.chargedAfterReject == s.notes.chargedAfterReject
    ensures AccInv(cfg, t, o)
  {
  }

  lemma StockFrame(cfg: Config, s: State, t: State, o: int)
    requires o in cfg && StockInv(cfg, s, o)
    requires t.stock.rows == s.stock.rows && SameReplies(s, t, o, {ReserveStock, ReleaseStock})
    requires o in s.notes.heldAfterReject <==> o in t.notes.heldAfterReject
    requires o in s.notes.rejectedAfterHeld <==> o in t.notes.rejectedAfterHeld
    requires o in s.notes.heldAfterRelease <==> o in t.notes.heldAfterRelease
    requires o in s.wf && IsFailing(s.wf[o].pc) ==> o in t.wf && IsFailing(t.wf[o].pc) && t.wf[o].isChargeSent == s.wf[o].isChargeSent
    ensures StockInv(cfg, t, o)
  {
  }

  lemma OrdFrame(s: State, t: State, o: int)
    requires OrdInv(s, o)
    requires t.ord == s.ord && SameReplies(s, t, o, {MarkPaid, MarkFailed})
    requires o in s.wf ==> o in t.wf && s.wf[o].scheduled <= t.wf[o].scheduled
                           && (MarkFailed in s.wf[o].scheduled ==> t.wf[o].failure == s.wf[o].failure)
    ensures OrdInv(t, o)
  {
  }

  /** A reply to a request that was sent keeps the position of every workflow meaningful. */
  lemma WfFrame(s: State, t: State, o: int)
    requires WfInv(s, o)
    requires t.wf == s.wf && s.replies <= t.replies
    requires forall act :: Msg(o, act) in t.sent && Msg(o, act) !in s.sent ==> o in s.wf && act in s.wf[o].scheduled
    requires forall r :: r in t.replies && r !in s.replies && r.order == o ==> o in s.wf && r.act in s.wf[o].scheduled
    ensures WfInv(t, o)
  {
    if o !in s.wf {
      forall act, accepted ensures Reply(o, act, accepted) !in t.replies {
        assert Reply(o, act, accepted).order == o;
      }
    } else {
      forall act, accepted | Reply(o, act, accepted) in t.replies ensures act in t.wf[o].scheduled {
        assert Reply(o, act, accepted).order == o;
      }
    }
  }

  /* ---------- the workflow moves ---------- */

  lemma SuccessKeepsWf(s: State, t: State, o: int)
    requires WfInv(s, o) && o in s.wf && Current(s.wf[o].pc).Some? && Got(s, o, Current(s.wf[o].pc).value, true)
    requires t == s.(wf := s.wf[o := OnSuccess(s.wf[o])])
    ensures WfInv(t, o)
    ensures s.wf[o].scheduled <= t.wf[o].scheduled && (MarkFailed in s.wf[o].scheduled ==> t.wf[o].failure == s.wf[o].failure)
    ensures IsFailing(s.wf[o].pc) ==> IsFailing(t.wf[o].pc) && t.wf[o].isChargeSent == s.wf[o].isChargeSent
  {
    assert t.wf[o].scheduled == ScheduledAt(t.wf[o]);
  }

  lemma ErrorKeepsWf(s: State, t: State, o: int, e: Error)
    requires WfInv(s, o) && o in s.wf && s.wf[o].pc in {Reserving, Charging, MarkingPaid}
    requires ToFailureType(e) == Some(InsufficientStock) ==> s.wf[o].pc == Reserving && Got(s, o, ReserveStock, false)
    requires ToFailureType(e) == Some(PaymentRejected) ==> s.wf[o].pc == Charging && Got(s, o, ChargeCustomer, false)
    requires t == s.(wf := s.wf[o := OnError(s.wf[o], e)])
    ensures WfInv(t, o)
    ensures s.wf[o].scheduled <= t.wf[o].scheduled && (MarkFailed in s.wf[o].scheduled ==> t.wf[o].failure == s.wf[o].failure)
    ensures IsFailing(s.wf[o].pc) ==> IsFailing(t.wf[o].pc) && t.wf[o].isChargeSent == s.wf[o].isChargeSent
  {
    assert t.wf[o].scheduled == ScheduledAt(t.wf[o]);
  }

  /** A move of one workflow leaves everything else, and every other workflow, as it was. */
  lemma WorkflowMoved(cfg: Config, s: State, t: State, o: int)
    requires Inv(cfg, s) && o in cfg && o in t.wf
    requires t == s.(wf := s.wf[o := t.wf[o]])
    requires WfInv(t, o)
    requires o in s.wf ==> s.wf[o].scheduled <= t.wf[o].scheduled && (MarkFailed in s.wf[o].scheduled ==> t.wf[o].failure == s.wf[o].failure)
    requires o in s.wf && IsFailing(s.wf[o].pc) ==> IsFailing(t.wf[o].pc) && t.wf[o].isChargeSent == s.wf[o].isChargeSent
    ensures Inv(cfg, t)
  {
    forall p | p in cfg ensures OrderInv(cfg, t, p) {
      assert OrderInv(cfg, s, p);
      AccFrame(cfg, s, t, p);
      StockFrame(cfg, s, t, p);
      OrdFrame(s, t, p);
      if p != o {
        WfElsewhere(s, t, p);
      }
    }
  }

  lemma WfElsewhere(s: State, t: State, p: int)
    requires WfInv(s, p)
    requires t.sent == s.sent && t.replies == s.replies
    requires (p in s.wf <==> p in t.wf) && (p in s.wf ==> t.wf[p] == s.wf[p])
    ensures WfInv(t, p)
  {
  }

  lemma StartKeepsInv(cfg: Config, s: State, o: int)
    requires Inv(cfg, s) && Enabled(cfg, s, Start(o))
    ensures Inv(cfg, Apply(cfg, s, Start(o)))
  {
    var t := Apply(cfg, s, Start(o));
    assert OrderInv(cfg, s, o);
    assert t.wf[o].scheduled == ScheduledAt(t.wf[o]);
    WorkflowMoved(cfg, s, t, o);
  }

  lemma CompleteKeepsInv(cfg: Config, s: State, o: int)
    requires Inv(cfg, s) && Enabled(cfg, s, Complete(o))
    ensures Inv(cfg, Apply(cfg, s, Complete(o)))
  {
    var t := Apply(cfg, s, Complete(o));
    assert OrderInv(cfg, s, o);
    SuccessKeepsWf(s, t, o);
    WorkflowMoved(cfg, s, t, o);
  }

  lemma RejectKeepsInv(cfg: Config, s: State, o: int)
    requires Inv(cfg, s) && Enabled(cfg, s, Reject(o))
    ensures Inv(cfg, Apply(cfg, s, Reject(o)))
  {
    var t := Apply(cfg, s, Reject(o));
    assert OrderInv(cfg, s, o);
    var refused := if s.wf[o].pc == Reserving then InsufficientStock else PaymentRejected;
    RejectionsAreRecognised(refused);
    ErrorKeepsWf(s, t, o, Rejection(refused));
    WorkflowMoved(cfg, s, t, o);
  }

  lemma BreakKeepsInv(cfg: Config, s: State, o: int, e: Error)
    requires Inv(cfg, s) && Enabled(cfg, s, Break(o, e))
    ensures Inv(cfg, Apply(cfg, s, Break(o, e)))
  {
    var t := Apply(cfg, s, Break(o, e));
    assert OrderInv(cfg, s, o);
    ErrorKeepsWf(s, t, o, e);
    WorkflowMoved(cfg, s, t, o);
  }

  /* ---------- messages and deliveries ---------- */

  lemma SendKeepsInv(cfg: Config, s: State, o: int, act: Act)
    requires Inv(cfg, s) && Enabled(cfg, s, Send(o, act))
    ensures Inv(cfg, Apply(cfg, s, Send(o, act)))
  {
    var t := Apply(cfg, s, Send(o, act));
    forall p | p in cfg ensures OrderInv(cfg, t, p) {
      assert OrderInv(cfg, s, p);
      WfFrame(s, t, p);
      AccFrame(cfg, s, t, p);
      StockFrame(cfg, s, t, p);
      OrdFrame(s, t, p);
    }
  }

  /** Every delivery only adds replies to a request that had been sent. */
  lemma ReplyKeepsWf(s: State, t: State, o: int, act: Act, p: int)
    requires WfInv(s, p) && WfInv(s, o) && Msg(o, act) in s.sent
    requires t.wf == s.wf && t.sent == s.sent && s.replies <= t.replies
    requires t.replies <= s.replies + {Reply(o, act, true), Reply(o, act, false)}
    ensures WfInv(t, p)
  {
    WfFrame(s, t, p);
  }

  lemma ForeignChargeKeepsPayments(db: Account.Db, m: Account.ChargeMsg, p: int)
    requires m.id != p
    ensures Account.Payments(Account.HandleCharge(db, m).0, p) == Account.Payments(db, p)
  {
    Account.ForeignEntry(db.ledger, Account.Entry(m.customer, m.amount, Account.Payment, Account.Success, Some(m.id)), p);
  }

  lemma ForeignCharge(cfg: Config, s: State, o: int, p: int)
    requires o in cfg && p in cfg && p != o && AccInv(cfg, s, p)
    ensures AccInv(cfg, DeliverCharge(cfg, s, o), p)
  {
    var t := DeliverCharge(cfg, s, o);
    var m := ChargeOf(o, cfg[o]);
    Account.CoherentCharge(s.acc, m, p, cfg[p].customer, cfg[p].total);
    ForeignChargeKeepsPayments(s.acc, m, p);
    assert p in t.notes.chargedAfterReject <==> p in s.notes.chargedAfterReject;
  }

  lemma OwnCharge(cfg: Config, s: State, o: int)
    requires o in cfg && AccInv(cfg, s, o) && Msg(o, ChargeCustomer) in s.sent
    ensures AccInv(cfg, DeliverCharge(cfg, s, o), o)
  {
    Account.CoherentCharge(s.acc, ChargeOf(o, cfg[o]), o, cfg[o].customer, cfg[o].total);
  }

  lemma ForeignRefund(cfg: Config, s: State, o: int, p: int)
    requires o in cfg && p in cfg && p != o && AccInv(cfg, s, p)
    ensures AccInv(cfg, DeliverRefund(cfg, s, o), p)
  {
    var t := DeliverRefund(cfg, s, o);
    var m := RefundOf(o, cfg[o]);
    Account.CoherentRefund(s.acc, m, p, cfg[p].customer, cfg[p].total);
    Account.ForeignEntry(s.acc.ledger, Account.Entry(m.customer, m.amount, Account.Refund, Account.Success, Some(o)), p);
    assert Account.Payments(t.acc, p) == Account.Payments(s.acc, p);
  }

  lemma RefundKeepsPayments(db: Account.Db, m: Account.RefundMsg, o: int)
    ensures Account.Payments(Account.HandleRefund(db, m).0, o) == Account.Payments(db, o)
  {
    var e := Account.Entry(m.customer, m.amount, Account.Refund, Account.Success, Some(m.chargeId));
    Account.CountOfAppended(db.ledger, e, Account.Payment, o);
  }

  lemma OwnRefund(cfg: Config, s: State, o: int)
    requires o in cfg && AccInv(cfg, s, o) && Msg(o, RefundCustomer) in s.sent
    ensures AccInv(cfg, DeliverRefund(cfg, s, o), o)
  {
    Account.CoherentRefund(s.acc, RefundOf(o, cfg[o]), o, cfg[o].customer, cfg[o].total);
    RefundKeepsPayments(s.acc, RefundOf(o, cfg[o]), o);
  }

  lemma ChargeKeepsOrder(cfg: Config, s: State, o: int, p: int)
    requires o in cfg && p in cfg && OrderInv(cfg, s, p) && WfInv(s, o) && Msg(o, ChargeCustomer) in s.sent
    ensures OrderInv(cfg, DeliverCharge(cfg, s, o), p)
  {
    var t := DeliverCharge(cfg, s, o);
    ReplyKeepsWf(s, t, o, ChargeCustomer, p);
    if p == o {
      OwnCharge(cfg, s, o);
    } else {
      ForeignCharge(cfg, s, o, p);
    }
    StockFrame(cfg, s, t, p);
    OrdFrame(s, t, p);
  }

  lemma DeliverChargeKeepsInv(cfg: Config, s: State, o: int)
    requires Inv(cfg, s) && o in cfg && Msg(o, ChargeCustomer) in s.sent
    ensures Inv(cfg, DeliverCharge(cfg, s, o))
  {
    Account.BalancedStep(s.acc, Account.OpCharge(ChargeOf(o, cfg[o])));
    assert OrderInv(cfg, s, o);
    forall p | p in cfg ensures OrderInv(cfg, DeliverCharge(cfg, s, o), p) {
      assert OrderInv(cfg, s, p);
      ChargeKeepsOrder(cfg, s, o, p);
    }
  }

  lemma DeliverRefundKeepsInv(cfg: Config, s: State, o: int)
    requires Inv(cfg, s) && o in cfg && Msg(o, RefundCustomer) in s.sent
    ensures Inv(cfg, DeliverRefund(cfg, s, o))
  {
    var t := DeliverRefund(cfg, s, o);
    Account.BalancedStep(s.acc, Account.OpRefund(RefundOf(o, cfg[o])));
    assert OrderInv(cfg, s, o);
    forall p | p in cfg ensures OrderInv(cfg, t, p) {
      assert OrderInv(cfg, s, p);
      ReplyKeepsWf(s, t, o, RefundCustomer, p);
      if p == o {
        OwnRefund(cfg, s, o);
      } else {
        ForeignRefund(cfg, s, o, p);
      }
      StockFrame(cfg, s, t, p);
      OrdFrame(s, t, p);
    }
  }

  /** A reserve of another order adds only rows of that order. */
  lemma ForeignReserve(s: State, t: State, cfg: Config, o: int, p: int)
    requires o in cfg && p in cfg && o != p && StockInv(cfg, s, p)
    requires t == DeliverReserve(cfg, s, o)
    ensures StockInv(cfg, t, p)
  {
    Stock.ReserveMeaning(s.stock, o, cfg[o].items);
    var before, after := s.stock.rows, t.stock.rows;
    assert forall i :: |before| <= i < |after| ==> after[i].order == o;
    RowsOnlyAdded(before, after, p, cfg[p].items);
  }

  lemma RowsOnlyAdded(before: seq<Stock.Row>, after: seq<Stock.Row>, p: int, items: seq<Stock.Item>)
    requires before <= after
    requires forall i :: 0 <= i < |after| && after[i].order == p ==> i < |before|
    ensures OwnRows(before, p, items) ==> OwnRows(after, p, items)
    ensures AnyRow(before, p) <==> AnyRow(after, p)
    ensures AnyReleased(before, p) <==> AnyReleased(after, p)
    ensures Stock.HoldsStock(before, p) <==> Stock.HoldsStock(after, p)
    ensures AllRows(before, p, items) ==> AllRows(after, p, items)
  {
    assert forall i :: 0 <= i < |before| ==> before[i] == after[i];
    if AllRows(before, p, items) {
      forall k | 0 <= k < |items| ensures Stock.HasRow(after, p, items[k].offer) {
        assert Stock.HasRow(before, p, items[k].offer);
        var i :| 0 <= i < |before| && before[i].order == p && before[i].offer == items[k].offer;
        assert after[i].offer == items[k].offer;
      }
    }
  }

  /** What the tables look like before a reserve decides what it does: with all rows or none there,
      it is held afresh exactly on free stock, and refused on top of rows exactly after a delisting. */
  lemma ReserveMeets(db: Stock.Db, o: int, items: seq<Stock.Item>)
    requires Stock.IsValidItems(items) && Stock.Distinct(items) && (AnyRow(db.rows, o) ==> AllRows(db.rows, o, items))
    ensures !AnyRow(db.rows, o) ==> (Stock.Reserve(db, o, items).1 == Stock.Held <==> MeetsFreeStock(db, o, items))
    ensures AnyRow(db.rows, o) ==> (Stock.Reserve(db, o, items).1.ReserveRejected? <==> MeetsDelisting(db, o, items))
  {
    if AnyRow(db.rows, o) {
      Stock.RedeliveredReserve(db, o, items);
    } else {
      Stock.HeldExactlyWhenAvailable(db, db, o, items);
      assert forall x :: x in items ==> !Stock.HasRow(db.rows, o, x.offer);
    }
  }

  /** The order's own reserve: all of its rows are there already, or none was and all are added. */
  lemma OwnReserve(cfg: Config, s: State, t: State, o: int)
    requires o in cfg && StockInv(cfg, s, o) && WfInv(s, o)
    requires Stock.IsValidItems(cfg[o].items) && Stock.Distinct(cfg[o].items)
    requires t == DeliverReserve(cfg, s, o)
    ensures StockInv(cfg, t, o)
  {
    var items := cfg[o].items;
    var before, after := s.stock.rows, t.stock.rows;
    ReserveMeets(s.stock, o, items);
    if AnyRow(before, o) {
      Stock.RedeliveredReserve(s.stock, o, items);
    } else {
      Stock.ReserveMeaning(s.stock, o, items);
      if Stock.Reserve(s.stock, o, items).1 == Stock.Held {
        FreshReserve(before, after, o, items);
        if Got(s, o, ReserveStock, true) {
          AllMeansAny(before, o, items);
        }
      }
    }
  }

  lemma AllMeansAny(rows: seq<Stock.Row>, o: int, items: seq<Stock.Item>)
    requires AllRows(rows, o, items) && |items| > 0
    ensures AnyRow(rows, o)
  {
    assert Stock.HasRow(rows, o, items[0].offer);
    var i :| 0 <= i < |rows| && rows[i].order == o && rows[i].offer == items[0].offer;
    assert rows[i].order == o;
  }

  lemma FreshReserve(before: seq<Stock.Row>, after: seq<Stock.Row>, o: int, items: seq<Stock.Item>)
    requires before <= after && !AnyRow(before, o) && |items| > 0
    requires forall i :: |before| <= i < |after| ==> Stock.NewRow(after[i], o, items)
    requires AllRows(after, o, items)
    ensures OwnRows(after, o, items) && AnyRow(after, o) && Stock.HoldsStock(after, o) && !AnyReleased(after, o)
    ensures after != before
  {
    assert forall i :: 0 <= i < |before| ==> after[i] == before[i] && before[i].order != o;
    forall i | 0 <= i < |after| && after[i].order == o
      ensures Stock.Item(after[i].offer, after[i].quantity) in items && after[i].status == Stock.Reserved
    {
      assert Stock.NewRow(after[i], o, items);
    }
    assert Stock.HasRow(after, o, items[0].offer);
    var k :| 0 <= k < |after| && after[k].order == o && after[k].offer == items[0].offer;
    assert after[k].status == Stock.Reserved;
  }

  lemma ReserveKeepsOrder(cfg: Config, s: State, o: int, p: int)
    requires ValidConfig(cfg) && o in cfg && p in cfg && OrderInv(cfg, s, p) && WfInv(s, o) && Msg(o, ReserveStock) in s.sent
    ensures OrderInv(cfg, DeliverReserve(cfg, s, o), p)
  {
    var t := DeliverReserve(cfg, s, o);
    ReplyKeepsWf(s, t, o, ReserveStock, p);
    AccFrame(cfg, s, t, p);
    OrdFrame(s, t, p);
    if p == o {
      OwnReserve(cfg, s, t, o);
    } else {
      ForeignReserve(s, t, cfg, o, p);
    }
  }

  lemma DeliverReserveKeepsInv(cfg: Config, s: State, o: int)
    requires ValidConfig(cfg) && Inv(cfg, s) && o in cfg && Msg(o, ReserveStock) in s.sent
    ensures Inv(cfg, DeliverReserve(cfg, s, o))
  {
    Stock.ReserveKeepsValid(s.stock, s.stock, o, cfg[o].items);
    assert OrderInv(cfg, s, o);
    forall p | p in cfg ensures OrderInv(cfg, DeliverReserve(cfg, s, o), p) {
      assert OrderInv(cfg, s, p);
      ReserveKeepsOrder(cfg, s, o, p);
    }
  }

  lemma StockAfterRelease(cfg: Config, s: State, t: State, o: int, p: int)
    requires p in cfg && StockInv(cfg, s, p)
    requires t == DeliverRelease(s, o)
    ensures StockInv(cfg, t, p)
  {
    Stock.ReleaseMeaning(s.stock, o);
    var before, after := s.stock.rows, t.stock.rows;
    assert forall i :: 0 <= i < |before| ==> after[i] == Stock.ReleaseRow(before[i], o);
    if AllRows(before, p, cfg[p].items) {
      forall k | 0 <= k < |cfg[p].items| ensures Stock.HasRow(after, p, cfg[p].items[k].offer) {
        assert Stock.HasRow(before, p, cfg[p].items[k].offer);
        var i :| 0 <= i < |before| && before[i].order == p && before[i].offer == cfg[p].items[k].offer;
        assert after[i].offer == before[i].offer;
      }
    }
    assert AnyRow(before, p) <==> AnyRow(after, p);
    if p != o {
      assert AnyReleased(before, p) <==> AnyReleased(after, p);
      assert Stock.HoldsStock(before, p) <==> Stock.HoldsStock(after, p);
    }
  }

  lemma DeliverReleaseKeepsInv(cfg: Config, s: State, o: int)
    requires Inv(cfg, s) && o in cfg && Msg(o, ReleaseStock) in s.sent
    ensures Inv(cfg, DeliverRelease(s, o))
  {
    var t := DeliverRelease(s, o);
    Stock.ReleaseKeepsValid(s.stock, o);
    assert OrderInv(cfg, s, o);
    forall p | p in cfg ensures OrderInv(cfg, t, p) {
      assert OrderInv(cfg, s, p);
      ReplyKeepsWf(s, t, o, ReleaseStock, p);
      AccFrame(cfg, s, t, p);
      OrdFrame(s, t, p);
      StockAfterRelease(cfg, s, t, o, p);
    }
  }

  lemma ForeignMark(s: State, t: State, op: Orders.Op, p: int)
    requires OrdInv(s, p) && Orders.IsProper(op) && !op.OpPlace? && op.order != p
    requires t.wf == s.wf && t.ord == Orders.Apply(s.ord, op)
    requires forall act, accepted :: Reply(p, act, accepted) in t.replies <==> Reply(p, act, accepted) in s.replies
    ensures OrdInv(t, p)
  {
    Orders.ConsistentStep(s.ord, op, p);
    assert t.ord.status[p] == s.ord.status[p];
  }

  lemma NeverBothMarks(s: State, o: int)
    requires WfInv(s, o) && o in s.wf
    ensures !(MarkPaid in s.wf[o].scheduled && MarkFailed in s.wf[o].scheduled)
  {
    assert s.wf[o].scheduled == ScheduledAt(s.wf[o]);
  }

  lemma OwnMarkPaid(s: State, t: State, o: int)
    requires OrdInv(s, o) && o in s.wf && MarkPaid in s.wf[o].scheduled && MarkFailed !in s.wf[o].scheduled
    requires t.wf == s.wf && t.replies == s.replies + {Reply(o, MarkPaid, true)} && t.ord == Orders.MarkPaid(s.ord, o)
    ensures OrdInv(t, o)
  {
    Orders.ConsistentStep(s.ord, Orders.OpMarkPaid(o), o);
    assert !Got(s, o, MarkFailed, true) && !Got(t, o, MarkFailed, true);
    assert Got(t, o, MarkPaid, true);
    if s.ord.status[o] == Orders.PendingPayment {
      assert t.ord.status[o] == Orders.Paid;
    } else {
      assert t.ord == s.ord;
    }
  }

  lemma OwnMarkFailed(s: State, t: State, o: int)
    requires OrdInv(s, o) && o in s.wf && MarkFailed in s.wf[o].scheduled && MarkPaid !in s.wf[o].scheduled
    requires t.wf == s.wf && t.replies == s.replies + {Reply(o, MarkFailed, true)}
    requires t.ord == Orders.MarkFailed(s.ord, o, ToFailure(s.wf[o].failure))
    ensures OrdInv(t, o)
  {
    var f := ToFailure(s.wf[o].failure);
    Orders.ConsistentStep(s.ord, Orders.OpMarkFailed(o, f), o);
    if s.ord.status[o] == Orders.PendingPayment {
      assert t.ord.outbox == s.ord.outbox + [FailedEvent(o, f)];
    } else {
      assert t.ord == s.ord;
    }
  }

  lemma OwnMark(s: State, t: State, o: int, act: Act)
    requires OrdInv(s, o) && WfInv(s, o) && o in s.wf && act in s.wf[o].scheduled && !IsRpc(act)
    requires t.wf == s.wf && t.replies == s.replies + {Reply(o, act, true)}
    requires t.ord == Orders.Apply(s.ord, MarkOp(s, o, act))
    ensures OrdInv(t, o)
  {
    NeverBothMarks(s, o);
    if act == MarkPaid {
      OwnMarkPaid(s, t, o);
    } else {
      OwnMarkFailed(s, t, o);
    }
  }

  function MarkOp(s: State, o: int, act: Act): Orders.Op
    requires o in s.wf
  {
    if act == MarkPaid then Orders.OpMarkPaid(o) else Orders.OpMarkFailed(o, ToFailure(s.wf[o].failure))
  }

  lemma MarkKeepsOrder(cfg: Config, s: State, o: int, act: Act, p: int)
    requires p in cfg && OrderInv(cfg, s, p) && WfInv(s, o) && Enabled(cfg, s, Mark(o, act))
    ensures OrderInv(cfg, Apply(cfg, s, Mark(o, act)), p)
  {
    var t := Apply(cfg, s, Mark(o, act));
    assert t.ord == Orders.Apply(s.ord, MarkOp(s, o, act));
    WfFrame(s, t, p);
    AccFrame(cfg, s, t, p);
    StockFrame(cfg, s, t, p);
    if p == o {
      OwnMark(s, t, o, act);
    } else {
      ForeignMark(s, t, MarkOp(s, o, act), p);
    }
  }

  lemma MarkKeepsInv(cfg: Config, s: State, o: int, act: Act)
    requires Inv(cfg, s) && Enabled(cfg, s, Mark(o, act))
    ensures Inv(cfg, Apply(cfg, s, Mark(o, act)))
  {
    assert OrderInv(cfg, s, o);
    forall p | p in cfg ensures OrderInv(cfg, Apply(cfg, s, Mark(o, act)), p) {
      assert OrderInv(cfg, s, p);
      MarkKeepsOrder(cfg, s, o, act, p);
    }
  }

  lemma BankKeepsInv(cfg: Config, s: State, op: Account.Op)
    requires Inv(cfg, s) && Enabled(cfg, s, Bank(op))
    ensures Inv(cfg, Apply(cfg, s, Bank(op)))
  {
    var t := Apply(cfg, s, Bank(op));
    Account.BalancedStep(s.acc, op);
    forall p | p in cfg ensures OrderInv(cfg, t, p) {
      assert OrderInv(cfg, s, p);
      Account.CoherentStep(s.acc, op, p, cfg[p].customer, cfg[p].total);
      if op.OpTopUp? {
        Account.ForeignEntry(s.acc.ledger, Account.Entry(op.toCustomer, op.amount, Account.Deposit, Account.Success, None), p);
      }
      WfFrame(s, t, p);
      StockFrame(cfg, s, t, p);
      OrdFrame(s, t, p);
    }
  }

  lemma ShopKeepsInv(cfg: Config, s: State, op: Stock.Op)
    requires Inv(cfg, s) && Enabled(cfg, s, Shop(op))
    ensures Inv(cfg, Apply(cfg, s, Shop(op)))
  {
    var t := Apply(cfg, s, Shop(op));
    Stock.ValidStep(s.stock, op);
    forall p | p in cfg ensures OrderInv(cfg, t, p) {
      assert OrderInv(cfg, s, p);
      WfFrame(s, t, p);
      AccFrame(cfg, s, t, p);
      StockFrame(cfg, s, t, p);
      OrdFrame(s, t, p);
    }
  }

  lemma StepKeepsInv(cfg: Config, s: State, e: Event)
    requires ValidConfig(cfg) && Inv(cfg, s)
    ensures Inv(cfg, Apply(cfg, s, e))
  {
    if Enabled(cfg, s, e) {
      match e
      case Start(o) => StartKeepsInv(cfg, s, o);
      case Send(o, act) => SendKeepsInv(cfg, s, o, act);
      case Deliver(o, act) =>
        match act {
          case ReserveStock => DeliverReserveKeepsInv(cfg, s, o);
          case ReleaseStock => DeliverReleaseKeepsInv(cfg, s, o);
          case ChargeCustomer => DeliverChargeKeepsInv(cfg, s, o);
          case RefundCustomer => DeliverRefundKeepsInv(cfg, s, o);
          case MarkPaid =>
          case MarkFailed =>
        }
      case Mark(o, act) => MarkKeepsInv(cfg, s, o, act);
      case Complete(o) => CompleteKeepsInv(cfg, s, o);
      case Reject(o) => RejectKeepsInv(cfg, s, o);
      case Break(o, error) => BreakKeepsInv(cfg, s, o, error);
      case Bank(op) => BankKeepsInv(cfg, s, op);
      case Shop(op) => ShopKeepsInv(cfg, s, op);
    }
  }

  lemma {:induction false} NoEntriesNoCount(ledger: seq<Account.Entry>, id: int)
    requires forall e :: e in ledger ==> e.cause != Some(id)
    ensures Account.Count(ledger, Account.Payment, id) == 0 && Account.Count(ledger, Account.Refund, id) == 0
    ensures Account.Net(ledger, id) == 0
  {
    if ledger != [] {
      NoEntriesNoCount(ledger[..|ledger| - 1], id);
    }
  }

  lemma InitHasInv(cfg: Config, s: State)
    requires Init(cfg, s)
    ensures Inv(cfg, s)
  {
    forall o | o in cfg ensures OrderInv(cfg, s, o) {
      NoEntriesNoCount(s.acc.ledger, o);
      assert cfg[o].total * (0 - 0) == 0;
    }
  }

  /** The invariant of every reachable state. */
  lemma {:induction false} InvForever(cfg: Config, s: State, events: seq<Event>)
    requires ValidConfig(cfg) && Inv(cfg, s)
    ensures Inv(cfg, Run(cfg, s, events))
  {
    if events != [] {
      InvForever(cfg, s, events[..|events| - 1]);
      StepKeepsInv(cfg, Run(cfg, s, events[..|events| - 1]), events[|events| - 1]);
    }
  }
}
