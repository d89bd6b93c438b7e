/**
 Which workflows can still end once their charge is sent, and which never do.
 */
module SagaEndings {
  import opened Wrappers
  import opened Limits
  import Account
  import Stock
  import Orders
  import opened Saga
  import opened SagaProofs
  import opened SagaTheorems

  predicate HasEnded(pc: Pc) { pc in {DonePaid, DoneFailed, CanceledWhileMarkingPaid} }

  /** The refund step waits for a credit that would not fit the balance column. */
  predicate RefundOverflows(cfg: Config, s: State, o: int)
    requires o in cfg
  {
    && o in s.wf && s.wf[o].pc == Refunding
    && (Account.CustomerCharge, o) in s.acc.inbox && (Account.CustomerRefund, o) !in s.acc.inbox
    && Account.BalanceOf(s.acc, cfg[o].customer) + cfg[o].total >= NUMERIC_LIMIT
  }

  /** The account context answers the order's movements, and the one it waits for fits. */
  predicate CanSettle(cfg: Config, s: State, o: int)
    requires o in cfg
  {
    Account.IsValidMovement(cfg[o].customer, cfg[o].total) && !RefundOverflows(cfg, s, o)
  }

  /** The step does not charge the customer for another order. */
  predicate Quiet(cfg: Config, o: int, e: Event)
    requires o in cfg
  {
    !(e.Deliver? && e.act == ChargeCustomer && e.order != o && e.order in cfg && cfg[e.order].customer == cfg[o].customer)
  }

  ghost predicate QuietlyReaches(cfg: Config, s: State, t: State, o: int)
    requires o in cfg
  {
    exists events :: Run(cfg, s, events) == t && forall e :: e in events ==> Quiet(cfg, o, e)
  }

  ghost predicate CanEnd(cfg: Config, s: State, o: int)
    requires o in cfg
  {
    exists t: State :: QuietlyReaches(cfg, s, t, o) && o in t.wf && HasEnded(t.wf[o].pc)
  }

  /* ---------- what never ends ---------- */

  /** The account context drops an invalid movement without an answer, so once such an order is charged
      its workflow is in the charge or the refund step in every later state, and the order is pending. */
  lemma InvalidMovementNeverSettles(cfg: Config, s: State, events: seq<Event>, o: int)
    requires ValidConfig(cfg) && Init(cfg, s) && o in cfg && !Account.IsValidMovement(cfg[o].customer, cfg[o].total)
    requires o in Run(cfg, s, events).wf && Run(cfg, s, events).wf[o].isChargeSent
    ensures Run(cfg, s, events).wf[o].pc == Charging || Run(cfg, s, events).wf[o].pc == Refunding
    ensures Orders.IsPending(Run(cfg, s, events).ord, o)
  {
    InitHasInv(cfg, s);
    InvForever(cfg, s, events);
    assert OrderInv(cfg, Run(cfg, s, events), o);
  }

  lemma {:induction false} ChargeSentRemains(cfg: Config, s: State, events: seq<Event>, o: int)
    requires o in s.wf && s.wf[o].isChargeSent
    ensures o in Run(cfg, s, events).wf && Run(cfg, s, events).wf[o].isChargeSent
  {
    if events != [] {
      ChargeSentRemains(cfg, s, events[..|events| - 1], o);
    }
  }

  lemma OverflowAfterCharge(cfg: Config, s: State, p: int, o: int)
    requires o in cfg && p in cfg && RefundOverflows(cfg, s, o)
    ensures var t := DeliverCharge(cfg, s, p);
            RefundOverflows(cfg, t, o)
            || (!Quiet(cfg, o, Deliver(p, ChargeCustomer))
                && Account.BalanceOf(t.acc, cfg[o].customer) + cfg[o].total < NUMERIC_LIMIT)
  {
  }

  lemma OverflowAfterRefund(cfg: Config, s: State, p: int, o: int)
    requires o in cfg && p in cfg && RefundOverflows(cfg, s, o)
    ensures RefundOverflows(cfg, DeliverRefund(cfg, s, p), o)
  {
  }

  lemma OverflowAfterBank(cfg: Config, s: State, op: Account.Op, o: int)
    requires o in cfg && RefundOverflows(cfg, s, o) && Enabled(cfg, s, Bank(op))
    ensures RefundOverflows(cfg, Apply(cfg, s, Bank(op)), o)
  {
  }

  /** One step out of an overflowing refund: only a charge for another order of the customer. */
  lemma OverflowStep(cfg: Config, s: State, e: Event, o: int)
    requires o in cfg && OrderInv(cfg, s, o) && RefundOverflows(cfg, s, o)
    ensures RefundOverflows(cfg, Apply(cfg, s, e), o)
            || (!Quiet(cfg, o, e)
                && Account.BalanceOf(Apply(cfg, s, e).acc, cfg[o].customer) + cfg[o].total < NUMERIC_LIMIT)
  {
    if Enabled(cfg, s, e) {
      match e
      case Deliver(p, act) =>
        if act == ChargeCustomer {
          OverflowAfterCharge(cfg, s, p, o);
        } else if act == RefundCustomer {
          OverflowAfterRefund(cfg, s, p, o);
        }
      case Bank(op) => OverflowAfterBank(cfg, s, op, o);
      case _ =>
    }
  }

  /** In every continuation, the refund step is left only after the customer's balance has fallen low enough. */
  lemma {:induction false} LeavesOnlyAfterBalanceFell(cfg: Config, s: State, later: seq<Event>, o: int)
    requires ValidConfig(cfg) && Inv(cfg, s) && o in cfg && RefundOverflows(cfg, s, o)
    ensures RefundOverflows(cfg, Run(cfg, s, later), o)
      || exists k :: 0 <= k <= |later|
           && Account.BalanceOf(Run(cfg, s, later[..k]).acc, cfg[o].customer) + cfg[o].total < NUMERIC_LIMIT
    ensures (forall e :: e in later ==> Quiet(cfg, o, e)) ==> RefundOverflows(cfg, Run(cfg, s, later), o)
  {
    if later != [] {
      var front := later[..|later| - 1];
      LeavesOnlyAfterBalanceFell(cfg, s, front, o);
      assert later[..|later|] == later;
      if RefundOverflows(cfg, Run(cfg, s, front), o) {
        InvForever(cfg, s, front);
        assert OrderInv(cfg, Run(cfg, s, front), o);
        OverflowStep(cfg, Run(cfg, s, front), later[|later| - 1], o);
      } else {
        var k :| 0 <= k <= |front|
          && Account.BalanceOf(Run(cfg, s, front[..k]).acc, cfg[o].customer) + cfg[o].total < NUMERIC_LIMIT;
        assert front[..k] == later[..k];
      }
    }
  }

  /** A charge for another order of the customer is what can free it. */
  lemma AnotherChargeFreesTheRefund(cfg: Config, s: State, o: int, p: int)
    requires o in cfg && p in cfg && p != o && RefundOverflows(cfg, s, o) && cfg[p].customer == cfg[o].customer
    requires Msg(p, ChargeCustomer) in s.sent && MeetsCover(s.acc, p, cfg[p])
    requires Account.BalanceOf(s.acc, cfg[o].customer) - cfg[p].total + cfg[o].total < NUMERIC_LIMIT
    ensures !RefundOverflows(cfg, Apply(cfg, s, Deliver(p, ChargeCustomer)), o)
  {
  }

  /* ---------- what can end ---------- */

  lemma Step(cfg: Config, s: State, t: State, e: Event, o: int) returns (u: State)
    requires o in cfg && QuietlyReaches(cfg, s, t, o) && Quiet(cfg, o, e)
    ensures u == Apply(cfg, t, e) && QuietlyReaches(cfg, s, u, o)
  {
    u := Apply(cfg, t, e);
    var events :| Run(cfg, s, events) == t && forall e :: e in events ==> Quiet(cfg, o, e);
    assert (events + [e])[..|events + [e]| - 1] == events;
    assert Run(cfg, s, events + [e]) == u;
  }

  /** What the position of a workflow has scheduled. */
  lemma Scheduled(cfg: Config, s: State, t: State, o: int)
    requires ValidConfig(cfg) && o in cfg && Inv(cfg, s) && QuietlyReaches(cfg, s, t, o) && o in t.wf
    ensures t.wf[o].scheduled == ScheduledAt(t.wf[o])
    ensures t.wf[o].pc == Refunding ==> NeedsRefund(t.wf[o])
    ensures t.wf[o].pc == Releasing ==> NeedsRelease(t.wf[o])
    ensures t.wf[o].pc == Charging ==> t.wf[o].isChargeSent
    ensures t.wf[o].isChargeSent ==> t.wf[o].pc != Reserving
  {
    var events :| Run(cfg, s, events) == t && forall e :: e in events ==> Quiet(cfg, o, e);
    InvForever(cfg, s, events);
    assert OrderInv(cfg, t, o);
  }

  lemma MarkThenEnd(cfg: Config, s: State, t: State, o: int, act: Act)
    requires o in cfg && QuietlyReaches(cfg, s, t, o) && o in t.wf && act in t.wf[o].scheduled
    requires (t.wf[o].pc == MarkingPaid && act == MarkPaid) || (t.wf[o].pc == MarkingFailed && act == MarkFailed)
    ensures CanEnd(cfg, s, o)
  {
    var u := Step(cfg, s, t, Mark(o, act), o);
    assert Reply(o, act, true) in u.replies && u.wf == t.wf;
    u := Step(cfg, s, u, Complete(o), o);
    assert o in u.wf && HasEnded(u.wf[o].pc);
  }

  /** A marking step can always finish. */
  lemma MarkingEnds(cfg: Config, s: State, t: State, o: int)
    requires ValidConfig(cfg) && o in cfg && Inv(cfg, s) && QuietlyReaches(cfg, s, t, o)
    requires o in t.wf && (t.wf[o].pc == MarkingPaid || t.wf[o].pc == MarkingFailed)
    ensures CanEnd(cfg, s, o)
  {
    Scheduled(cfg, s, t, o);
    MarkThenEnd(cfg, s, t, o, if t.wf[o].pc == MarkingPaid then MarkPaid else MarkFailed);
  }

  lemma Release(cfg: Config, s: State, t: State, o: int) returns (u: State)
    requires o in cfg && QuietlyReaches(cfg, s, t, o) && o in t.wf && t.wf[o].pc == Releasing && ReleaseStock in t.wf[o].scheduled
    ensures QuietlyReaches(cfg, s, u, o) && o in u.wf && u.wf[o].pc == MarkingFailed
  {
    u := Step(cfg, s, t, Send(o, ReleaseStock), o);
    u := Step(cfg, s, u, Deliver(o, ReleaseStock), o);
    assert Reply(o, ReleaseStock, true) in u.replies && u.wf == t.wf;
    u := Step(cfg, s, u, Complete(o), o);
  }

  lemma ReleasingEnds(cfg: Config, s: State, t: State, o: int)
    requires ValidConfig(cfg) && o in cfg && Inv(cfg, s) && QuietlyReaches(cfg, s, t, o)
    requires o in t.wf && t.wf[o].pc == Releasing
    ensures CanEnd(cfg, s, o)
  {
    Scheduled(cfg, s, t, o);
    var u := Release(cfg, s, t, o);
    MarkingEnds(cfg, s, u, o);
  }

  /** A refund that fits is answered, and the workflow moves on. */
  lemma RefundAnswered(cfg: Config, s: State, t: State, o: int) returns (u: State)
    requires o in cfg && QuietlyReaches(cfg, s, t, o) && o in t.wf && t.wf[o].pc == Refunding && RefundCustomer in t.wf[o].scheduled
    requires CanSettle(cfg, t, o)
    ensures QuietlyReaches(cfg, s, u, o) && o in u.wf && (u.wf[o].pc == Releasing || u.wf[o].pc == MarkingFailed)
  {
    u := Step(cfg, s, t, Send(o, RefundCustomer), o);
    assert u.acc == t.acc && u.wf == t.wf;
    u := Step(cfg, s, u, Deliver(o, RefundCustomer), o);
    assert Reply(o, RefundCustomer, true) in u.replies && u.wf == t.wf;
    u := Step(cfg, s, u, Complete(o), o);
  }

  lemma RefundingEnds(cfg: Config, s: State, t: State, o: int)
    requires ValidConfig(cfg) && o in cfg && Inv(cfg, s) && QuietlyReaches(cfg, s, t, o)
    requires o in t.wf && t.wf[o].pc == Refunding && CanSettle(cfg, t, o)
    ensures CanEnd(cfg, s, o)
  {
    Scheduled(cfg, s, t, o);
    var u := RefundAnswered(cfg, s, t, o);
    if u.wf[o].pc == Releasing {
      ReleasingEnds(cfg, s, u, o);
    } else {
      MarkingEnds(cfg, s, u, o);
    }
  }

  /** A valid charge is answered one way or the other, and the workflow moves on. */
  lemma ChargeAnswered(cfg: Config, s: State, t: State, o: int) returns (u: State)
    requires o in cfg && QuietlyReaches(cfg, s, t, o) && o in t.wf && t.wf[o].pc == Charging && ChargeCustomer in t.wf[o].scheduled
    requires Account.IsValidMovement(cfg[o].customer, cfg[o].total)
    ensures QuietlyReaches(cfg, s, u, o) && o in u.wf && (u.wf[o].pc == MarkingPaid || u.wf[o].pc == Releasing)
  {
    u := Step(cfg, s, t, Send(o, ChargeCustomer), o);
    u := Step(cfg, s, u, Deliver(o, ChargeCustomer), o);
    assert u.wf == t.wf;
    if Reply(o, ChargeCustomer, true) in u.replies {
      u := Step(cfg, s, u, Complete(o), o);
    } else {
      assert Reply(o, ChargeCustomer, false) in u.replies;
      RejectionsAreRecognised(PaymentRejected);
      u := Step(cfg, s, u, Reject(o), o);
    }
  }

  lemma ChargingEnds(cfg: Config, s: State, t: State, o: int)
    requires ValidConfig(cfg) && o in cfg && Inv(cfg, s) && QuietlyReaches(cfg, s, t, o)
    requires o in t.wf && t.wf[o].pc == Charging && Account.IsValidMovement(cfg[o].customer, cfg[o].total)
    ensures CanEnd(cfg, s, o)
  {
    Scheduled(cfg, s, t, o);
    var u := ChargeAnswered(cfg, s, t, o);
    if u.wf[o].pc == MarkingPaid {
      MarkingEnds(cfg, s, u, o);
    } else {
      ReleasingEnds(cfg, s, u, o);
    }
  }

  /* ---------- exactly when ---------- */

  lemma EndsWhenItCan(cfg: Config, s: State, o: int)
    requires ValidConfig(cfg) && o in cfg && Inv(cfg, s) && o in s.wf && s.wf[o].isChargeSent && CanSettle(cfg, s, o)
    ensures CanEnd(cfg, s, o)
  {
    assert Run(cfg, s, []) == s;
    assert QuietlyReaches(cfg, s, s, o);
    Scheduled(cfg, s, s, o);
    match s.wf[o].pc
    case Reserving => assert false;
    case Charging => ChargingEnds(cfg, s, s, o);
    case Refunding => RefundingEnds(cfg, s, s, o);
    case Releasing => ReleasingEnds(cfg, s, s, o);
    case MarkingPaid => MarkingEnds(cfg, s, s, o);
    case MarkingFailed => MarkingEnds(cfg, s, s, o);
    case _ => assert HasEnded(s.wf[o].pc);
  }

  lemma {:induction false} RunConcat(cfg: Config, s: State, events: seq<Event>, later: seq<Event>)
    ensures Run(cfg, s, events + later) == Run(cfg, Run(cfg, s, events), later)
  {
    if later == [] {
      assert events + later == events;
    } else {
      var front := later[..|later| - 1];
      RunConcat(cfg, s, events, front);
      assert (events + later)[..|events + later| - 1] == events + front;
    }
  }

  /** In every reachable state with the charge sent, some continuation that charges the customer for no other order
      ends the workflow exactly when the account context accepts the movement and it is not waiting for a refund that
      overflows: not needed, already processed, fencing, or small enough. */
  lemma SettlesExactlyWhen(cfg: Config, s: State, events: seq<Event>, o: int)
    requires ValidConfig(cfg) && Init(cfg, s) && o in cfg
    requires o in Run(cfg, s, events).wf && Run(cfg, s, events).wf[o].isChargeSent
    ensures CanEnd(cfg, Run(cfg, s, events), o) <==> CanSettle(cfg, Run(cfg, s, events), o)
  {
    var now := Run(cfg, s, events);
    InitHasInv(cfg, s);
    InvForever(cfg, s, events);
    if CanSettle(cfg, now, o) {
      EndsWhenItCan(cfg, now, o);
    } else {
      forall t: State | QuietlyReaches(cfg, now, t, o) && o in t.wf ensures !HasEnded(t.wf[o].pc) {
        var later :| Run(cfg, now, later) == t && forall e :: e in later ==> Quiet(cfg, o, e);
        if RefundOverflows(cfg, now, o) {
          LeavesOnlyAfterBalanceFell(cfg, now, later, o);
        } else {
          RunConcat(cfg, s, events, later);
          ChargeSentRemains(cfg, now, later, o);
          InvalidMovementNeverSettles(cfg, s, events + later, o);
        }
      }
    }
  }

  /* ---------- the good end ---------- */

  ghost predicate CanBePaid(cfg: Config, s: State, o: int)
    requires o in cfg
  {
    exists t: State :: QuietlyReaches(cfg, s, t, o) && o in t.wf && t.wf[o].pc == DonePaid
      && o in t.ord.status && t.ord.status[o] == Orders.Paid
  }

  lemma DonePaidIsPaid(cfg: Config, s: State, t: State, o: int)
    requires ValidConfig(cfg) && o in cfg && Inv(cfg, s) && QuietlyReaches(cfg, s, t, o) && o in t.wf && t.wf[o].pc == DonePaid
    ensures o in t.ord.status && t.ord.status[o] == Orders.Paid
  {
    var events :| Run(cfg, s, events) == t && forall e :: e in events ==> Quiet(cfg, o, e);
    InvForever(cfg, s, events);
    assert OrderInv(cfg, t, o);
    assert MarkFailed !in ScheduledAt(t.wf[o]);
  }

  lemma MarkPaidEnds(cfg: Config, s: State, t: State, o: int)
    requires ValidConfig(cfg) && o in cfg && Inv(cfg, s) && QuietlyReaches(cfg, s, t, o) && o in t.wf && t.wf[o].pc == MarkingPaid
    ensures CanBePaid(cfg, s, o)
  {
    Scheduled(cfg, s, t, o);
    var u := Step(cfg, s, t, Mark(o, MarkPaid), o);
    assert Reply(o, MarkPaid, true) in u.replies && u.wf == t.wf;
    u := Step(cfg, s, u, Complete(o), o);
    DonePaidIsPaid(cfg, s, u, o);
  }

  /** A covered charge is applied and accepted. */
  lemma ChargeAccepted(cfg: Config, s: State, t: State, o: int) returns (u: State)
    requires o in cfg && QuietlyReaches(cfg, s, t, o) && o in t.wf && t.wf[o].pc == Charging && ChargeCustomer in t.wf[o].scheduled
    requires MeetsCover(t.acc, o, cfg[o])
    ensures QuietlyReaches(cfg, s, u, o) && o in u.wf && u.wf[o].pc == MarkingPaid
  {
    u := Step(cfg, s, t, Send(o, ChargeCustomer), o);
    assert u.acc == t.acc && u.wf == t.wf;
    u := Step(cfg, s, u, Deliver(o, ChargeCustomer), o);
    assert Reply(o, ChargeCustomer, true) in u.replies && u.wf == t.wf;
    u := Step(cfg, s, u, Complete(o), o);
  }

  lemma ChargingCanBePaid(cfg: Config, s: State, t: State, o: int)
    requires ValidConfig(cfg) && o in cfg && Inv(cfg, s) && QuietlyReaches(cfg, s, t, o)
    requires o in t.wf && t.wf[o].pc == Charging && MeetsCover(t.acc, o, cfg[o])
    ensures CanBePaid(cfg, s, o)
  {
    Scheduled(cfg, s, t, o);
    var u := ChargeAccepted(cfg, s, t, o);
    MarkPaidEnds(cfg, s, u, o);
  }

  lemma ReserveAccepted(cfg: Config, s: State, t: State, o: int) returns (u: State)
    requires o in cfg && QuietlyReaches(cfg, s, t, o) && o in t.wf && t.wf[o].pc == Reserving && ReserveStock in t.wf[o].scheduled
    requires Stock.Reserve(t.stock, o, cfg[o].items).1 == Stock.Held
    ensures QuietlyReaches(cfg, s, u, o) && o in u.wf && u.wf[o].pc == Charging && u.acc == t.acc
  {
    u := Step(cfg, s, t, Send(o, ReserveStock), o);
    assert u.stock == t.stock && u.acc == t.acc && u.wf == t.wf;
    u := Step(cfg, s, u, Deliver(o, ReserveStock), o);
    assert Reply(o, ReserveStock, true) in u.replies && u.acc == t.acc && u.wf == t.wf;
    u := Step(cfg, s, u, Complete(o), o);
  }

  /** From every reachable state in which an order waits for its stock or its charge, with the stock free and the account
      covering the total, there is a way to the paid end. */
  lemma OrderCanBePaid(cfg: Config, s: State, events: seq<Event>, o: int)
    requires ValidConfig(cfg) && Init(cfg, s) && o in cfg && o in Run(cfg, s, events).wf
    requires MeetsCover(Run(cfg, s, events).acc, o, cfg[o])
    requires Run(cfg, s, events).wf[o].pc == Charging
      || (Run(cfg, s, events).wf[o].pc == Reserving && MeetsFreeStock(Run(cfg, s, events).stock, o, cfg[o].items))
    ensures CanBePaid(cfg, Run(cfg, s, events), o)
  {
    var now := Run(cfg, s, events);
    InitHasInv(cfg, s);
    InvForever(cfg, s, events);
    assert Run(cfg, now, []) == now;
    assert QuietlyReaches(cfg, now, now, o);
    if now.wf[o].pc == Charging {
      ChargingCanBePaid(cfg, now, now, o);
    } else {
      Scheduled(cfg, now, now, o);
      ReserveMeets(now.stock, o, cfg[o].items);
      var u := ReserveAccepted(cfg, now, now, o);
      ChargingCanBePaid(cfg, now, u, o);
    }
  }

  /* ---------- both failures happen ---------- */

  const WORTHLESS: Config := map[7 := OrderSpec(3, 0, ONE_ITEM)]

  lemma WorthlessIsCharged() returns (t: State)
    ensures Reaches(WORTHLESS, FreshState(), t) && 7 in t.wf && t.wf[7].pc == Charging && t.wf[7].isChargeSent
    ensures Orders.IsPending(t.ord, 7)
  {
    var cfg, s := WORTHLESS, FreshState();
    ReachesItself(cfg, s);
    t := GoReserve(cfg, s, s, 7);
    FirstReserve(t.stock);
    t := Go(cfg, s, t, Deliver(7, ReserveStock));
    t := Go(cfg, s, t, Complete(7));
  }

  /** Whatever happens after it is charged, an order of an invalid movement does not end. */
  lemma InvalidMovementHangs(cfg: Config, s: State, t: State, later: seq<Event>, o: int)
    requires ValidConfig(cfg) && Init(cfg, s) && o in cfg && !Account.IsValidMovement(cfg[o].customer, cfg[o].total)
    requires Reaches(cfg, s, t) && o in t.wf && t.wf[o].isChargeSent
    ensures o in Run(cfg, t, later).wf && !HasEnded(Run(cfg, t, later).wf[o].pc)
  {
    var events :| Run(cfg, s, events) == t;
    ChargeSentRemains(cfg, t, later, o);
    RunConcat(cfg, s, events, later);
    InvalidMovementNeverSettles(cfg, s, events + later, o);
  }

  /** An order of zero total is charged, and from there no continuation whatever ends its workflow. */
  lemma WorthlessOrderHangs()
    ensures ValidConfig(WORTHLESS) && Init(WORTHLESS, FreshState())
    ensures exists t: State ::
      && Reaches(WORTHLESS, FreshState(), t) && 7 in t.wf && t.wf[7].pc == Charging && Orders.IsPending(t.ord, 7)
      && forall later :: 7 in Run(WORTHLESS, t, later).wf && !HasEnded(Run(WORTHLESS, t, later).wf[7].pc)
  {
    var t := WorthlessIsCharged();
    FreshStateIsInitial();
    forall later ensures 7 in Run(WORTHLESS, t, later).wf && !HasEnded(Run(WORTHLESS, t, later).wf[7].pc) {
      InvalidMovementHangs(WORTHLESS, FreshState(), t, later, 7);
    }
  }

  lemma OverflowIsReached() returns (t: State)
    ensures Reaches(ONE_ORDER, FreshState(), t) && RefundOverflows(ONE_ORDER, t, 7) && Account.Net(t.acc.ledger, 7) == -40
  {
    var cfg, s := ONE_ORDER, FreshState();
    var deposit := Account.Entry(3, 100, Account.Deposit, Account.Success, None);
    var payment := Account.Entry(3, 40, Account.Payment, Account.Success, Some(7));
    t := GoPay(deposit, payment);
    t := Go(cfg, s, t, Break(7, OtherError));
    var more := NUMERIC_LIMIT - 61;
    var second := Account.Entry(3, more, Account.Deposit, Account.Success, None);
    t := Go(cfg, s, t, Bank(Account.OpTopUp(3, more)));
    assert t.acc.ledger == [deposit] + [payment] + [second];
    NetOfPayment(deposit, payment);
    Account.ForeignEntry([deposit] + [payment], second, 7);
  }

  lemma OverflowStays(t: State, later: seq<Event>)
    requires ValidConfig(ONE_ORDER) && Init(ONE_ORDER, FreshState())
    requires Reaches(ONE_ORDER, FreshState(), t) && RefundOverflows(ONE_ORDER, t, 7)
    ensures RefundOverflows(ONE_ORDER, Run(ONE_ORDER, t, later), 7)
  {
    InitHasInv(ONE_ORDER, FreshState());
    var events :| Run(ONE_ORDER, FreshState(), events) == t;
    InvForever(ONE_ORDER, FreshState(), events);
    assert forall e :: e in later ==> Quiet(ONE_ORDER, 7, e);
    LeavesOnlyAfterBalanceFell(ONE_ORDER, t, later, 7);
  }

  /** A positive order hangs too: charged, then failing, with a balance that has grown too large for the refund. */
  lemma OverflowingRefundHangs()
    ensures ValidConfig(ONE_ORDER) && Init(ONE_ORDER, FreshState())
    ensures exists t: State ::
      && Reaches(ONE_ORDER, FreshState(), t) && Account.Net(t.acc.ledger, 7) == -40
      && forall later :: 7 in Run(ONE_ORDER, t, later).wf && Run(ONE_ORDER, t, later).wf[7].pc == Refunding
  {
    FreshStateIsInitial();
    var t := OverflowIsReached();
    forall later ensures 7 in Run(ONE_ORDER, t, later).wf && Run(ONE_ORDER, t, later).wf[7].pc == Refunding {
      OverflowStays(t, later);
    }
  }
}
