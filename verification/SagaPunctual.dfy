/**
 Runs in which nothing of an order executes too late.  On these a workflow that ends unpaid has undone
 everything, with no exception left.
 */
module SagaPunctual {
  import Account
  import Stock
  import Orders
  import opened Saga
  import opened SagaProofs
  import opened SagaTheorems

  /** The step is not late for the order: its reserves execute only while the workflow is still in the reserve step
      and none was refused, its charges only while none was refused, and none of its offers is delisted between two of
      its reserves. */
  predicate Punctual(cfg: Config, s: State, e: Event, o: int)
    requires o in cfg
  {
    && (e == Deliver(o, ReserveStock) ==> o in s.wf && s.wf[o].pc == Reserving && !Got(s, o, ReserveStock, false))
    && (e == Deliver(o, ChargeCustomer) ==> !Got(s, o, ChargeCustomer, false))
    && (e.Shop? && e.stockOp.OpSoftDelete? && BetweenReserves(s, o) ==>
          forall i :: 0 <= i < |cfg[o].items| ==> cfg[o].items[i].offer != e.stockOp.offer)
  }

  /** The order has its rows, and the workflow still waits for an answer to its reserve. */
  predicate BetweenReserves(s: State, o: int) {
    o in s.wf && s.wf[o].pc == Reserving && AnyRow(s.stock.rows, o)
  }

  predicate PunctualRun(cfg: Config, s: State, events: seq<Event>, o: int)
    requires o in cfg
  {
    events != [] ==>
      PunctualRun(cfg, s, events[..|events| - 1], o)
      && Punctual(cfg, Run(cfg, s, events[..|events| - 1]), events[|events| - 1], o)
  }

  predicate Listed(cfg: Config, s: State, o: int)
    requires o in cfg
  {
    (AnyRow(s.stock.rows, o) ==> o in s.wf) && (BetweenReserves(s, o) ==> !Stock.SomeMissing(s.stock, cfg[o].items))
  }

  /** Nothing unlucky has happened to the order. */
  predicate Unmarked(s: State, o: int) {
    && o !in s.notes.heldAfterReject && o !in s.notes.rejectedAfterHeld
    && o !in s.notes.heldAfterRelease && o !in s.notes.chargedAfterReject
  }

  predicate SameListing(a: Stock.Db, b: Stock.Db) {
    a.offers.Keys == b.offers.Keys && forall x :: x in a.offers ==> a.offers[x].deleted == b.offers[x].deleted
  }

  lemma {:induction false} ReserveAllKeepsListing(db: Stock.Db, o: int, items: seq<Stock.Item>)
    ensures SameListing(db, Stock.ReserveAll(db, o, items).0)
  {
    if items != [] {
      ReserveAllKeepsListing(db, o, items[..|items| - 1]);
    }
  }

  lemma ReserveKeepsListing(db: Stock.Db, o: int, items: seq<Stock.Item>)
    ensures SameListing(db, Stock.Reserve(db, o, items).0)
  {
    ReserveAllKeepsListing(db, o, Stock.SortItems(items));
  }

  lemma SameListingSameMissing(a: Stock.Db, b: Stock.Db, items: seq<Stock.Item>)
    requires SameListing(a, b)
    ensures Stock.SomeMissing(a, items) <==> Stock.SomeMissing(b, items)
  {
    assert forall i :: 0 <= i < |items| ==> (Stock.IsMissing(a, items[i]) <==> Stock.IsMissing(b, items[i]));
  }

  lemma OwnReserveOnTime(cfg: Config, s: State, o: int)
    requires ValidConfig(cfg) && o in cfg && OrderInv(cfg, s, o) && Unmarked(s, o) && Listed(cfg, s, o)
    requires Punctual(cfg, s, Deliver(o, ReserveStock), o)
    ensures Unmarked(DeliverReserve(cfg, s, o), o) && Listed(cfg, DeliverReserve(cfg, s, o), o)
  {
    var items := cfg[o].items;
    assert ReleaseStock !in ScheduledAt(s.wf[o]);
    assert !Got(s, o, ReleaseStock, true);
    ReserveKeepsListing(s.stock, o, items);
    SameListingSameMissing(s.stock, Stock.Reserve(s.stock, o, items).0, items);
    if AnyRow(s.stock.rows, o) {
      Stock.RedeliveredReserve(s.stock, o, items);
    }
  }

  lemma ForeignReserveOnTime(cfg: Config, s: State, p: int, o: int)
    requires p in cfg && o in cfg && p != o && Unmarked(s, o) && Listed(cfg, s, o)
    ensures Unmarked(DeliverReserve(cfg, s, p), o) && Listed(cfg, DeliverReserve(cfg, s, p), o)
  {
    var t := DeliverReserve(cfg, s, p);
    ReserveKeepsListing(s.stock, p, cfg[p].items);
    SameListingSameMissing(s.stock, t.stock, cfg[o].items);
    Stock.ReserveMeaning(s.stock, p, cfg[p].items);
    assert forall i :: |s.stock.rows| <= i < |t.stock.rows| ==> t.stock.rows[i].order == p;
    RowsOnlyAdded(s.stock.rows, t.stock.rows, o, cfg[o].items);
  }

  lemma ReleaseOnTime(cfg: Config, s: State, p: int, o: int)
    requires o in cfg && Unmarked(s, o) && Listed(cfg, s, o)
    ensures Unmarked(DeliverRelease(s, p), o) && Listed(cfg, DeliverRelease(s, p), o)
  {
    var t := DeliverRelease(s, p);
    SameListingSameMissing(s.stock, t.stock, cfg[o].items);
    if AnyRow(t.stock.rows, o) {
      var i :| 0 <= i < |t.stock.rows| && t.stock.rows[i].order == o;
      assert s.stock.rows[i].order == o;
    }
  }

  lemma ShopOnTime(cfg: Config, s: State, op: Stock.Op, o: int)
    requires o in cfg && Unmarked(s, o) && Listed(cfg, s, o) && Enabled(cfg, s, Shop(op)) && Punctual(cfg, s, Shop(op), o)
    ensures Unmarked(Apply(cfg, s, Shop(op)), o) && Listed(cfg, Apply(cfg, s, Shop(op)), o)
  {
    var t := Apply(cfg, s, Shop(op));
    assert BetweenReserves(s, o) ==> forall i :: 0 <= i < |cfg[o].items| ==>
      (Stock.IsMissing(s.stock, cfg[o].items[i]) <==> Stock.IsMissing(t.stock, cfg[o].items[i]));
  }

  lemma StepOnTime(cfg: Config, s: State, e: Event, o: int)
    requires ValidConfig(cfg) && o in cfg && OrderInv(cfg, s, o) && Unmarked(s, o) && Listed(cfg, s, o)
    requires Punctual(cfg, s, e, o)
    ensures Unmarked(Apply(cfg, s, e), o) && Listed(cfg, Apply(cfg, s, e), o)
  {
    if Enabled(cfg, s, e) {
      match e
      case Deliver(p, act) =>
        if act == ReserveStock && p == o {
          OwnReserveOnTime(cfg, s, o);
        } else if act == ReserveStock {
          ForeignReserveOnTime(cfg, s, p, o);
        } else if act == ReleaseStock {
          ReleaseOnTime(cfg, s, p, o);
        }
      case Shop(op) => ShopOnTime(cfg, s, op, o);
      case _ => OtherwiseOnTime(cfg, s, e, o);
    }
  }

  /** Workflow moves, sends, marks and top-ups touch neither stock nor notes, and never return to the reserve step. */
  lemma OtherwiseOnTime(cfg: Config, s: State, e: Event, o: int)
    requires o in cfg && OrderInv(cfg, s, o) && Unmarked(s, o) && Listed(cfg, s, o) && !e.Deliver? && !e.Shop?
    ensures Unmarked(Apply(cfg, s, e), o) && Listed(cfg, Apply(cfg, s, e), o)
  {
    var t := Apply(cfg, s, e);
    assert t.stock == s.stock && t.notes == s.notes;
    assert o in s.wf ==> o in t.wf && (t.wf[o].pc == Reserving ==> s.wf[o].pc == Reserving);
  }

  lemma {:induction false} OnTimeForever(cfg: Config, s: State, events: seq<Event>, o: int)
    requires ValidConfig(cfg) && Init(cfg, s) && o in cfg && PunctualRun(cfg, s, events, o)
    ensures Unmarked(Run(cfg, s, events), o) && Listed(cfg, Run(cfg, s, events), o)
  {
    if events != [] {
      var before := Run(cfg, s, events[..|events| - 1]);
      OnTimeForever(cfg, s, events[..|events| - 1], o);
      InitHasInv(cfg, s);
      InvForever(cfg, s, events[..|events| - 1]);
      assert OrderInv(cfg, before, o);
      StepOnTime(cfg, before, events[|events| - 1], o);
    }
  }

  /** With no reserve executed after the reserve step, no charge or reserve after a refused one, and no offer of the
      order delisted between two reserves, every workflow that ends unpaid leaves the order failed, without stock and without charge. */
  lemma PunctualFailureIsUndone(cfg: Config, s: State, events: seq<Event>, o: int)
    requires ValidConfig(cfg) && Init(cfg, s) && o in cfg && PunctualRun(cfg, s, events, o)
    requires o in Run(cfg, s, events).wf && Run(cfg, s, events).wf[o].pc == DoneFailed
    ensures o in Run(cfg, s, events).ord.status && Orders.IsFailureStatus(Run(cfg, s, events).ord.status[o])
    ensures Account.Net(Run(cfg, s, events).acc.ledger, o) == 0
    ensures !Stock.HoldsStock(Run(cfg, s, events).stock.rows, o)
  {
    OnTimeForever(cfg, s, events, o);
    FailedMeansUndone(cfg, s, events, o);
  }
}
