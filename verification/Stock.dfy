/**
 The seller-offer context: stock on hand, stock held by reservations, and the two transactions that
 move it.  Both tables are sequences or maps of rows; (order, offer) is the key of a reservation.
 */
module Stock {
  import opened Limits

  datatype Status = Reserved | Confirmed | Fulfilled | Released

  datatype Offer = Offer(onHand: int, reserved: int, deleted: bool)

  datatype Row = Row(order: int, offer: int, quantity: int, status: Status)

  datatype Db = Db(offers: map<int, Offer>, rows: seq<Row>)

  datatype Item = Item(offer: int, quantity: int)

  datatype Outcome = Outcome(offer: int, inserted: int, held: int)

  datatype Shortage = Shortage(offer: int, quantity: int, available: int)

  datatype Reason = OfferNotFound | InsufficientStock

  datatype ReserveReply = ReserveNack | Held | ReserveRejected(reason: Reason, items: seq<Shortage>)

  predicate IsValidItems(items: seq<Item>) {
    && |items| > 0
    && forall item :: item in items ==> 0 < item.offer <= MAX_SAFE_INTEGER && 0 < item.quantity <= MAX_SAFE_INTEGER
  }

  predicate IsActive(row: Row) { row.status == Reserved || row.status == Confirmed }

  predicate HasRow(rows: seq<Row>, order: int, offer: int) {
    exists i :: 0 <= i < |rows| && rows[i].order == order && rows[i].offer == offer
  }

  /* ---------- the order in which a reservation visits its items ---------- */

  predicate Ascending(items: seq<Item>) {
    forall i, j :: 0 <= i < j < |items| ==> items[i].offer <= items[j].offer
  }

  function InsertItem(sorted: seq<Item>, item: Item): seq<Item> {
    if sorted == [] || item.offer < sorted[0].offer then [item] + sorted
    else [sorted[0]] + InsertItem(sorted[1..], item)
  }

  lemma {:induction false} InsertItemPermutes(sorted: seq<Item>, item: Item)
    ensures multiset(InsertItem(sorted, item)) == multiset(sorted) + multiset{item}
  {
    if sorted != [] && sorted[0].offer <= item.offer {
      InsertItemPermutes(sorted[1..], item);
      assert sorted == [sorted[0]] + sorted[1..];
    }
  }

  lemma {:induction false} InsertItemAscends(sorted: seq<Item>, item: Item)
    requires Ascending(sorted)
    ensures Ascending(InsertItem(sorted, item))
    ensures forall x :: x in InsertItem(sorted, item) ==> x in sorted || x == item
  {
    if sorted != [] && sorted[0].offer <= item.offer {
      InsertItemAscends(sorted[1..], item);
      var rest := InsertItem(sorted[1..], item);
      forall i | 0 <= i < |rest| ensures sorted[0].offer <= rest[i].offer {
        assert rest[i] in rest;
      }
    }
  }

  /** `sort` by offer id: ascending, and the same items. */
  function SortItems(items: seq<Item>): (r: seq<Item>)
    ensures Ascending(r) && multiset(r) == multiset(items)
  {
    if items == [] then []
    else
      var front := SortItems(items[..|items| - 1]);
      InsertItemPermutes(front, items[|items| - 1]);
      InsertItemAscends(front, items[|items| - 1]);
      assert items == items[..|items| - 1] + [items[|items| - 1]];
      InsertItem(front, items[|items| - 1])
  }

  lemma SameItems(items: seq<Item>)
    ensures forall x :: x in SortItems(items) <==> x in items
  {
    forall x ensures x in SortItems(items) <==> x in items {
      assert x in SortItems(items) <==> x in multiset(SortItems(items));
      assert x in items <==> x in multiset(items);
    }
  }

  /* ---------- one reservation ---------- */

  predicate Holdable(offers: map<int, Offer>, item: Item) {
    && item.offer in offers
    && !offers[item.offer].deleted
    && offers[item.offer].onHand - offers[item.offer].reserved >= item.quantity
  }

  function Hold(offers: map<int, Offer>, item: Item): map<int, Offer>
    requires item.offer in offers
  {
    offers[item.offer := offers[item.offer].(reserved := offers[item.offer].reserved + item.quantity)]
  }

  /** The WITH statement: insert unless the key exists, and hold stock only for an inserted row. */
  function ReserveOne(db: Db, order: int, item: Item): (Db, Outcome) {
    if HasRow(db.rows, order, item.offer) then (db, Outcome(item.offer, 0, 0))
    else
      var rows := db.rows + [Row(order, item.offer, item.quantity, Reserved)];
      if Holdable(db.offers, item) then (Db(Hold(db.offers, item), rows), Outcome(item.offer, 1, 1))
      else (Db(db.offers, rows), Outcome(item.offer, 1, 0))
  }

  function ReserveAll(db: Db, order: int, items: seq<Item>): (r: (Db, seq<Outcome>))
    ensures |r.1| == |items|
  {
    if items == [] then (db, [])
    else
      var (before, outcomes) := ReserveAll(db, order, items[..|items| - 1]);
      var (after, outcome) := ReserveOne(before, order, items[|items| - 1]);
      (after, outcomes + [outcome])
  }

  predicate IsFailure(outcome: Outcome) { outcome.inserted > 0 && outcome.held == 0 }

  predicate IsMissing(db: Db, item: Item) { item.offer !in db.offers || db.offers[item.offer].deleted }

  predicate SomeMissing(db: Db, items: seq<Item>) { exists i :: 0 <= i < |items| && IsMissing(db, items[i]) }

  predicate SomeFailure(outcomes: seq<Outcome>) { exists i :: 0 <= i < |outcomes| && IsFailure(outcomes[i]) }

  function MissingItems(db: Db, items: seq<Item>): seq<Shortage> {
    if items == [] then []
    else (if IsMissing(db, items[0]) then [Shortage(items[0].offer, items[0].quantity, 0)] else [])
         + MissingItems(db, items[1..])
  }

  function FailedItems(db: Db, items: seq<Item>, failed: set<int>): seq<Shortage> {
    if items == [] then []
    else
      var rest := FailedItems(db, items[1..], failed);
      if items[0].offer in failed && items[0].offer in db.offers then
        var offer := db.offers[items[0].offer];
        [Shortage(items[0].offer, items[0].quantity, offer.onHand - offer.reserved)] + rest
      else rest
  }

  function FailedIds(outcomes: seq<Outcome>): set<int> {
    set i | 0 <= i < |outcomes| && IsFailure(outcomes[i]) :: outcomes[i].offer
  }

  /** The whole transaction: nothing is kept unless every item is held.  `read` are the tables when the handler looked the
      offers up, before the loop locked any row; what is missing and what was available are told from there. */
  function ReserveAfterRead(read: Db, db: Db, order: int, items: seq<Item>): (Db, ReserveReply) {
    if !IsValidItems(items) then (db, ReserveNack)
    else if SomeMissing(read, items) then (db, ReserveRejected(OfferNotFound, MissingItems(read, items)))
    else
      var (after, outcomes) := ReserveAll(db, order, SortItems(items));
      if SomeFailure(outcomes) then
        (db, ReserveRejected(InsufficientStock, FailedItems(read, items, FailedIds(outcomes))))
      else (after, Held)
  }

  /** With nothing in between. */
  function Reserve(db: Db, order: int, items: seq<Item>): (Db, ReserveReply) { ReserveAfterRead(db, db, order, items) }

  /* ---------- one release ---------- */

  function ReleaseRow(row: Row, order: int): Row {
    if row.order == order && IsActive(row) then row.(status := Released) else row
  }

  function ReleaseRows(rows: seq<Row>, order: int): (r: seq<Row>)
    ensures |r| == |rows| && forall i :: 0 <= i < |rows| ==> r[i] == ReleaseRow(rows[i], order)
  {
    if rows == [] then [] else ReleaseRows(rows[..|rows| - 1], order) + [ReleaseRow(rows[|rows| - 1], order)]
  }

  /** The join of UPDATE ... FROM: one released row per offer, zero when there is none. */
  function ReleasedQuantity(rows: seq<Row>, order: int, offer: int): int {
    if rows == [] then 0
    else
      var last := rows[|rows| - 1];
      if last.order == order && last.offer == offer && IsActive(last) then last.quantity
      else ReleasedQuantity(rows[..|rows| - 1], order, offer)
  }

  function Release(db: Db, order: int): Db {
    Db(map o | o in db.offers :: db.offers[o].(reserved := db.offers[o].reserved - ReleasedQuantity(db.rows, order, o)),
       ReleaseRows(db.rows, order))
  }

  /* ---------- the same transactions on the tables ---------- */

  class StockStore {
    var offers: map<int, Offer>
    var rows: seq<Row>

    function Contents(): Db reads this { Db(offers, rows) }

    constructor (db: Db)
      ensures Contents() == db
    {
      offers, rows := db.offers, db.rows;
    }

    /** The repository loop, outside any rollback. */
    method ReserveRows(order: int, items: seq<Item>) returns (outcomes: seq<Outcome>)
      modifies this
      ensures (Contents(), outcomes) == ReserveAll(old(Contents()), order, SortItems(items))
    {
      var sorted := SortItems(items);
      outcomes := [];
      var i := 0;
      while i < |sorted|
        invariant 0 <= i <= |sorted|
        invariant (Contents(), outcomes) == ReserveAll(old(Contents()), order, sorted[..i])
      {
        var item := sorted[i];
        assert sorted[..i + 1][..i] == sorted[..i];
        var inserted, held := 0, 0;
        if !HasRow(rows, order, item.offer) {
          rows := rows + [Row(order, item.offer, item.quantity, Reserved)];
          inserted := 1;
          if Holdable(offers, item) {
            offers := Hold(offers, item);
            held := 1;
          }
        }
        outcomes := outcomes + [Outcome(item.offer, inserted, held)];
        i := i + 1;
      }
      assert sorted[..i] == sorted;
    }

    /** The handler: the offers were looked up in `read`; reserve, and roll everything back on a failed item. */
    method HandleStockReserve(read: Db, order: int, items: seq<Item>) returns (reply: ReserveReply)
      modifies this
      ensures Contents() == ReserveAfterRead(read, old(Contents()), order, items).0
      ensures reply == ReserveAfterRead(read, old(Contents()), order, items).1
    {
      if !IsValidItems(items) {
        return ReserveNack;
      }
      if SomeMissing(read, items) {
        return ReserveRejected(OfferNotFound, MissingItems(read, items));
      }
      var begin := Contents();
      var outcomes := ReserveRows(order, items);
      if !SomeFailure(outcomes) {
        return Held;
      }
      offers, rows := begin.offers, begin.rows;
      reply := ReserveRejected(InsufficientStock, FailedItems(read, items, FailedIds(outcomes)));
    }

    /** One UPDATE of the rows, joined into one of the offers. */
    method HandleStockRelease(order: int) returns (released: nat)
      modifies this
      ensures Contents() == Release(old(Contents()), order)
      ensures released == |set o | o in old(offers) && ReleasedQuantity(old(rows), order, o) != 0|
      ensures !HoldsStock(rows, order)
    {
      var touched := set o | o in offers && ReleasedQuantity(rows, order, o) != 0;
      released := |touched|;
      offers := map o | o in offers :: offers[o].(reserved := offers[o].reserved - ReleasedQuantity(rows, order, o));
      rows := ReleaseRows(rows, order);
      assert touched == set o | o in old(offers) && ReleasedQuantity(old(rows), order, o) != 0;
    }
  }

  /* ---------- what every state satisfies ---------- */

  function ActiveSum(rows: seq<Row>, offer: int): int {
    if rows == [] then 0
    else
      var last := rows[|rows| - 1];
      ActiveSum(rows[..|rows| - 1], offer) + if last.offer == offer && IsActive(last) then last.quantity else 0
  }

  ghost predicate Sums(db: Db) {
    forall o :: o in db.offers ==> db.offers[o].reserved == ActiveSum(db.rows, o)
  }

  predicate InRange(db: Db) {
    forall o :: o in db.offers ==> 0 <= db.offers[o].reserved <= db.offers[o].onHand
  }

  predicate WellKeyed(rows: seq<Row>) {
    && (forall i :: 0 <= i < |rows| ==> rows[i].quantity > 0)
    && (forall i, j :: 0 <= i < j < |rows| ==> !(rows[i].order == rows[j].order && rows[i].offer == rows[j].offer))
  }

  /** reservedQuantity is the sum of the active reservations and 0 <= reserved <= on hand, for every offer. */
  ghost predicate Valid(db: Db) {
    Sums(db) && InRange(db) && WellKeyed(db.rows)
  }

  lemma ActiveSumOfAppended(rows: seq<Row>, row: Row, offer: int)
    ensures ActiveSum(rows + [row], offer)
         == ActiveSum(rows, offer) + if row.offer == offer && IsActive(row) then row.quantity else 0
  {
    assert (rows + [row])[..|rows + [row]| - 1] == rows;
  }

  lemma ReserveOneKeepsRange(db: Db, order: int, item: Item)
    requires InRange(db) && WellKeyed(db.rows) && item.quantity > 0
    ensures InRange(ReserveOne(db, order, item).0) && WellKeyed(ReserveOne(db, order, item).0.rows)
    ensures ReserveOne(db, order, item).0.offers.Keys == db.offers.Keys
  {
  }

  lemma {:induction false} ReserveAllKeepsRange(db: Db, order: int, items: seq<Item>)
    requires InRange(db) && WellKeyed(db.rows) && forall x :: x in items ==> x.quantity > 0
    ensures InRange(ReserveAll(db, order, items).0) && WellKeyed(ReserveAll(db, order, items).0.rows)
    ensures ReserveAll(db, order, items).0.offers.Keys == db.offers.Keys
  {
    if items != [] {
      ReserveAllKeepsRange(db, order, items[..|items| - 1]);
      ReserveOneKeepsRange(ReserveAll(db, order, items[..|items| - 1]).0, order, items[|items| - 1]);
    }
  }

  /** The quantity the loop inserts without holding it. */
  function Unheld(db: Db, order: int, items: seq<Item>, offer: int): int {
    if items == [] then 0
    else
      var last := items[|items| - 1];
      var outcome := ReserveOne(ReserveAll(db, order, items[..|items| - 1]).0, order, last).1;
      Unheld(db, order, items[..|items| - 1], offer) + if last.offer == offer && IsFailure(outcome) then last.quantity else 0
  }

  lemma GapOfHeld(db: Db, order: int, x: Item, offer: int)
    requires offer in db.offers && Holdable(db.offers, x)
    ensures var rows, offers := db.rows + [Row(order, x.offer, x.quantity, Reserved)], Hold(db.offers, x);
            offer in offers && ActiveSum(rows, offer) - offers[offer].reserved == ActiveSum(db.rows, offer) - db.offers[offer].reserved
  {
    ActiveSumOfAppended(db.rows, Row(order, x.offer, x.quantity, Reserved), offer);
  }

  lemma GapOfUnheld(db: Db, order: int, x: Item, offer: int)
    ensures var rows := db.rows + [Row(order, x.offer, x.quantity, Reserved)];
            ActiveSum(rows, offer) == ActiveSum(db.rows, offer) + if x.offer == offer then x.quantity else 0
  {
    ActiveSumOfAppended(db.rows, Row(order, x.offer, x.quantity, Reserved), offer);
  }

  /** One item: the gap grows by its quantity exactly when its row was inserted and the offer was not. */
  lemma GapOfOne(db: Db, order: int, x: Item, offer: int)
    requires offer in db.offers
    ensures var (after, outcome) := ReserveOne(db, order, x);
            offer in after.offers
            && ActiveSum(after.rows, offer) - after.offers[offer].reserved
               == ActiveSum(db.rows, offer) - db.offers[offer].reserved
                  + if x.offer == offer && IsFailure(outcome) then x.quantity else 0
  {
    if !HasRow(db.rows, order, x.offer) {
      if Holdable(db.offers, x) {
        GapOfHeld(db, order, x, offer);
      } else {
        GapOfUnheld(db, order, x, offer);
      }
    }
  }

  lemma {:induction false} UnheldIsTheGap(db: Db, order: int, items: seq<Item>, offer: int)
    requires offer in db.offers
    ensures offer in ReserveAll(db, order, items).0.offers
    ensures ActiveSum(ReserveAll(db, order, items).0.rows, offer) - ReserveAll(db, order, items).0.offers[offer].reserved
         == ActiveSum(db.rows, offer) - db.offers[offer].reserved + Unheld(db, order, items, offer)
  {
    if items != [] {
      var front := items[..|items| - 1];
      UnheldIsTheGap(db, order, front, offer);
      GapOfOne(ReserveAll(db, order, front).0, order, items[|items| - 1], offer);
    }
  }

  lemma {:induction false} UnheldByFailures(db: Db, order: int, items: seq<Item>, offer: int)
    requires forall x :: x in items ==> x.quantity > 0
    ensures 0 <= Unheld(db, order, items, offer)
    ensures Unheld(db, order, items, offer) > 0 <==>
      exists i :: 0 <= i < |items| && items[i].offer == offer && IsFailure(ReserveAll(db, order, items).1[i])
  {
    if items != [] {
      var front := items[..|items| - 1];
      UnheldByFailures(db, order, front, offer);
      var outcomes, all := ReserveAll(db, order, front).1, ReserveAll(db, order, items).1;
      assert all[..|outcomes|] == outcomes;
      assert forall i :: 0 <= i < |front| ==> all[i] == outcomes[i] && items[i] == front[i];
      if Unheld(db, order, front, offer) > 0 {
        var i :| 0 <= i < |front| && front[i].offer == offer && IsFailure(outcomes[i]);
        assert items[i].offer == offer && IsFailure(all[i]);
      }
    }
  }

  lemma {:induction false} OutcomeOffers(db: Db, order: int, items: seq<Item>)
    ensures forall i :: 0 <= i < |items| ==> ReserveAll(db, order, items).1[i].offer == items[i].offer
  {
    if items != [] {
      OutcomeOffers(db, order, items[..|items| - 1]);
    }
  }

  /** The repository alone breaks the sums exactly when some item is inserted but not held,
      so exactly then the handler has to roll back. */
  lemma {:induction false} RepositoryKeepsSumsIff(db: Db, order: int, items: seq<Item>)
    requires Valid(db)
    requires forall x :: x in items ==> x.quantity > 0 && x.offer in db.offers
    ensures Sums(ReserveAll(db, order, items).0) <==> !SomeFailure(ReserveAll(db, order, items).1)
  {
    var after, outcomes := ReserveAll(db, order, items).0, ReserveAll(db, order, items).1;
    ReserveAllKeepsRange(db, order, items);
    OutcomeOffers(db, order, items);
    forall o | o in db.offers
      ensures after.offers[o].reserved == ActiveSum(after.rows, o) - Unheld(db, order, items, o)
    {
      UnheldIsTheGap(db, order, items, o);
    }
    if SomeFailure(outcomes) {
      var i :| 0 <= i < |outcomes| && IsFailure(outcomes[i]);
      UnheldByFailures(db, order, items, items[i].offer);
      assert items[i] in items;
    } else {
      forall o | o in db.offers ensures Unheld(db, order, items, o) == 0 {
        UnheldByFailures(db, order, items, o);
      }
    }
  }

  /** Offers are delisted, not removed. */
  predicate IsEarlier(read: Db, db: Db) { read.offers.Keys <= db.offers.Keys }

  lemma ReserveKeepsValid(read: Db, db: Db, order: int, items: seq<Item>)
    requires Valid(db) && IsEarlier(read, db)
    ensures Valid(ReserveAfterRead(read, db, order, items).0)
  {
    if IsValidItems(items) && !SomeMissing(read, items) {
      SameItems(items);
      var sorted := SortItems(items);
      forall x | x in sorted ensures x.quantity > 0 && x.offer in db.offers {
        assert x in items;
        var i :| 0 <= i < |items| && items[i] == x;
        assert !IsMissing(read, items[i]);
      }
      ReserveAllKeepsRange(db, order, sorted);
      RepositoryKeepsSumsIff(db, order, sorted);
    }
  }

  lemma NothingToRelease(rows: seq<Row>, order: int, offer: int)
    requires forall i :: 0 <= i < |rows| ==> !(rows[i].order == order && rows[i].offer == offer)
    ensures ReleasedQuantity(rows, order, offer) == 0
  {
  }

  lemma {:induction false} ReleaseTakesOneRow(rows: seq<Row>, order: int, offer: int)
    requires WellKeyed(rows)
    ensures ActiveSum(ReleaseRows(rows, order), offer) == ActiveSum(rows, offer) - ReleasedQuantity(rows, order, offer)
  {
    if rows != [] {
      var front, last := rows[..|rows| - 1], rows[|rows| - 1];
      ReleaseTakesOneRow(front, order, offer);
      ActiveSumOfAppended(ReleaseRows(front, order), ReleaseRow(last, order), offer);
      if last.order == order && last.offer == offer && IsActive(last) {
        NothingToRelease(front, order, offer);
      }
    }
  }

  lemma {:induction false} ActiveSumNotNegative(rows: seq<Row>, offer: int)
    requires WellKeyed(rows)
    ensures 0 <= ActiveSum(rows, offer)
  {
    if rows != [] {
      ActiveSumNotNegative(rows[..|rows| - 1], offer);
    }
  }

  lemma {:induction false} ReleasedNotNegative(rows: seq<Row>, order: int, offer: int)
    requires WellKeyed(rows)
    ensures 0 <= ReleasedQuantity(rows, order, offer)
  {
    if rows != [] {
      ReleasedNotNegative(rows[..|rows| - 1], order, offer);
    }
  }

  lemma ReleaseKeepsValid(db: Db, order: int)
    requires Valid(db)
    ensures Valid(Release(db, order))
  {
    var after := Release(db, order);
    assert WellKeyed(after.rows);
    forall o | o in after.offers
      ensures after.offers[o].reserved == ActiveSum(after.rows, o)
      ensures 0 <= after.offers[o].reserved <= after.offers[o].onHand
    {
      ReleaseTakesOneRow(db.rows, order, o);
      ActiveSumNotNegative(after.rows, o);
      ReleasedNotNegative(db.rows, order, o);
    }
  }

  datatype Op =
    | OpReserve(read: Db, order: int, items: seq<Item>)
    | OpRelease(order: int)
    | OpSetOnHand(offer: int, onHand: int)
    | OpSoftDelete(offer: int)

  /** Sellers also restock and delist offers; the table's CHECK refuses less stock than is reserved. */
  function Apply(db: Db, op: Op): Db {
    match op
    case OpReserve(read, order, items) => if IsEarlier(read, db) then ReserveAfterRead(read, db, order, items).0 else db
    case OpRelease(order) => Release(db, order)
    case OpSetOnHand(o, n) =>
      if o in db.offers && db.offers[o].reserved <= n then db.(offers := db.offers[o := db.offers[o].(onHand := n)]) else db
    case OpSoftDelete(o) =>
      if o in db.offers then db.(offers := db.offers[o := db.offers[o].(deleted := true)]) else db
  }

  function Run(db: Db, ops: seq<Op>): Db {
    if ops == [] then db else Apply(Run(db, ops[..|ops| - 1]), ops[|ops| - 1])
  }

  lemma ValidStep(db: Db, op: Op)
    requires Valid(db)
    ensures Valid(Apply(db, op))
  {
    match op
    case OpReserve(read, order, items) =>
      if IsEarlier(read, db) {
        ReserveKeepsValid(read, db, order, items);
      }
    case OpRelease(order) => ReleaseKeepsValid(db, order);
    case OpSetOnHand(_, _) =>
    case OpSoftDelete(_) =>
  }

  /** Any mix of reserves, duplicates, rejected multi-item requests and repeated releases. */
  lemma {:induction false} ValidForever(db: Db, ops: seq<Op>)
    requires Valid(db)
    ensures Valid(Run(db, ops))
  {
    if ops != [] {
      ValidForever(db, ops[..|ops| - 1]);
      ValidStep(Run(db, ops[..|ops| - 1]), ops[|ops| - 1]);
    }
  }

  /* ---------- what a reserve and a release mean for the rows of one order ---------- */

  predicate NewRow(row: Row, order: int, items: seq<Item>) {
    && row.order == order && row.status == Reserved
    && exists i :: 0 <= i < |items| && items[i] == Item(row.offer, row.quantity)
  }

  lemma {:induction false} ReserveAllAppends(db: Db, order: int, items: seq<Item>)
    ensures db.rows <= ReserveAll(db, order, items).0.rows
    ensures forall i :: |db.rows| <= i < |ReserveAll(db, order, items).0.rows| ==>
      NewRow(ReserveAll(db, order, items).0.rows[i], order, items)
    ensures forall i :: 0 <= i < |items| ==> HasRow(ReserveAll(db, order, items).0.rows, order, items[i].offer)
  {
    if items != [] {
      var front, last := items[..|items| - 1], items[|items| - 1];
      ReserveAllAppends(db, order, front);
      var before, after := ReserveAll(db, order, front).0, ReserveAll(db, order, items).0;
      assert before.rows <= after.rows;
      forall i | |db.rows| <= i < |after.rows| ensures NewRow(after.rows[i], order, items) {
        if i < |before.rows| {
          assert NewRow(before.rows[i], order, front);
          var k :| 0 <= k < |front| && front[k] == Item(before.rows[i].offer, before.rows[i].quantity);
          assert items[k] == front[k];
        } else {
          assert items[|items| - 1] == Item(after.rows[i].offer, after.rows[i].quantity);
        }
      }
      forall i | 0 <= i < |items| ensures HasRow(after.rows, order, items[i].offer) {
        if i < |front| {
          assert HasRow(before.rows, order, front[i].offer);
          var k :| 0 <= k < |before.rows| && before.rows[k].order == order && before.rows[k].offer == front[i].offer;
          assert after.rows[k] == before.rows[k];
        } else if !HasRow(before.rows, order, last.offer) {
          assert after.rows[|before.rows|].offer == last.offer;
        }
      }
    }
  }

  /** A held reserve leaves a row for every item, touches no older row and adds only rows of its own items;
      a rejected one changes nothing. */
  lemma ReserveMeaning(db: Db, order: int, items: seq<Item>)
    ensures Reserve(db, order, items).1 == Held ==>
      forall i :: 0 <= i < |items| ==> HasRow(Reserve(db, order, items).0.rows, order, items[i].offer)
    ensures Reserve(db, order, items).1 != Held ==> Reserve(db, order, items).0 == db
    ensures db.rows <= Reserve(db, order, items).0.rows
    ensures forall i :: |db.rows| <= i < |Reserve(db, order, items).0.rows| ==>
      NewRow(Reserve(db, order, items).0.rows[i], order, items)
  {
    var (after, reply) := Reserve(db, order, items);
    if reply == Held {
      var sorted := SortItems(items);
      ReserveAllAppends(db, order, sorted);
      SameItems(items);
      forall i | 0 <= i < |items| ensures HasRow(after.rows, order, items[i].offer) {
        assert items[i] in sorted;
        var k :| 0 <= k < |sorted| && sorted[k] == items[i];
      }
      forall i | |db.rows| <= i < |after.rows| ensures NewRow(after.rows[i], order, items) {
        var k :| 0 <= k < |sorted| && sorted[k] == Item(after.rows[i].offer, after.rows[i].quantity);
        assert sorted[k] in items;
      }
    }
  }

  lemma {:induction false} RepeatChangesNothing(db: Db, order: int, items: seq<Item>)
    requires forall i :: 0 <= i < |items| ==> HasRow(db.rows, order, items[i].offer)
    ensures ReserveAll(db, order, items).0 == db && !SomeFailure(ReserveAll(db, order, items).1)
  {
    if items != [] {
      RepeatChangesNothing(db, order, items[..|items| - 1]);
    }
  }

  /** A redelivered reserve whose rows exist, active or released, holds nothing more,
      and is refused only if an offer has been delisted since. */
  lemma RedeliveredReserve(db: Db, order: int, items: seq<Item>)
    requires forall i :: 0 <= i < |items| ==> HasRow(db.rows, order, items[i].offer)
    ensures Reserve(db, order, items).0 == db
    ensures Reserve(db, order, items).1.ReserveRejected? ==> SomeMissing(db, items)
  {
    SameItems(items);
    var sorted := SortItems(items);
    forall i | 0 <= i < |sorted| ensures HasRow(db.rows, order, sorted[i].offer) {
      assert sorted[i] in items;
      var k :| 0 <= k < |items| && items[k] == sorted[i];
    }
    RepeatChangesNothing(db, order, sorted);
  }

  predicate HoldsStock(rows: seq<Row>, order: int) {
    exists i :: 0 <= i < |rows| && rows[i].order == order && IsActive(rows[i])
  }

  /** After a release the order holds nothing, and every other order holds what it held. */
  lemma ReleaseMeaning(db: Db, order: int)
    ensures !HoldsStock(Release(db, order).rows, order)
    ensures |Release(db, order).rows| == |db.rows|
    ensures forall i :: 0 <= i < |db.rows| ==>
      && Release(db, order).rows[i].offer == db.rows[i].offer && Release(db, order).rows[i].order == db.rows[i].order
      && Release(db, order).rows[i].quantity == db.rows[i].quantity
      && (db.rows[i].order != order ==> Release(db, order).rows[i] == db.rows[i])
  {
  }

  /* ---------- when a reserve is held, and what a refusal reports ---------- */

  predicate Mentions(items: seq<Item>, offer: int) { exists i :: 0 <= i < |items| && items[i].offer == offer }

  lemma {:induction false} RowsAfterReserveAll(db: Db, order: int, items: seq<Item>, offer: int)
    ensures HasRow(ReserveAll(db, order, items).0.rows, order, offer) <==> HasRow(db.rows, order, offer) || Mentions(items, offer)
  {
    ReserveAllAppends(db, order, items);
    var after := ReserveAll(db, order, items).0.rows;
    if HasRow(db.rows, order, offer) {
      var k :| 0 <= k < |db.rows| && db.rows[k].order == order && db.rows[k].offer == offer;
      assert after[k] == db.rows[k];
    } else if HasRow(after, order, offer) {
      var k :| 0 <= k < |after| && after[k].order == order && after[k].offer == offer;
      assert db.rows == after[..|db.rows|];
      assert NewRow(after[k], order, items);
    }
  }

  lemma {:induction false} UnmentionedStays(db: Db, order: int, items: seq<Item>, offer: int)
    requires !Mentions(items, offer)
    ensures offer in ReserveAll(db, order, items).0.offers <==> offer in db.offers
    ensures offer in db.offers ==> ReserveAll(db, order, items).0.offers[offer] == db.offers[offer]
  {
    if items != [] {
      var front := items[..|items| - 1];
      forall i | 0 <= i < |front| ensures front[i].offer != offer {
        assert items[i].offer != offer;
      }
      UnmentionedStays(db, order, front, offer);
      assert items[|items| - 1].offer != offer;
    }
  }

  /** An item fails exactly when it is the first of its offer, the order has no row for it yet,
      and the tables as they were before the transaction cannot hold it. */
  lemma {:induction false} FailsExactlyWhenShort(db: Db, order: int, items: seq<Item>, i: nat)
    requires i < |items|
    ensures IsFailure(ReserveAll(db, order, items).1[i]) <==>
      !Mentions(items[..i], items[i].offer) && !HasRow(db.rows, order, items[i].offer) && !Holdable(db.offers, items[i])
  {
    var front := items[..|items| - 1];
    if i < |front| {
      FailsExactlyWhenShort(db, order, front, i);
      assert front[..i] == items[..i];
    } else {
      assert items[..i] == front;
      RowsAfterReserveAll(db, order, front, items[i].offer);
      if !Mentions(front, items[i].offer) {
        UnmentionedStays(db, order, front, items[i].offer);
      }
    }
  }

  predicate Distinct(items: seq<Item>) { forall i, j :: 0 <= i < j < |items| ==> items[i].offer != items[j].offer }

  /** The order has the row already, or the offer has the pieces. */
  predicate Available(db: Db, order: int, item: Item) { HasRow(db.rows, order, item.offer) || Holdable(db.offers, item) }

  /** The first position of an offer. */
  lemma {:induction false} FirstOf(items: seq<Item>, i: nat) returns (k: nat)
    requires i < |items|
    ensures k <= i && items[k].offer == items[i].offer && !Mentions(items[..k], items[k].offer)
  {
    k := i;
    if Mentions(items[..i], items[i].offer) {
      var j :| 0 <= j < |items[..i]| && items[..i][j].offer == items[i].offer;
      k := FirstOf(items, j);
    }
  }

  lemma {:induction false} FailureIffShort(db: Db, order: int, items: seq<Item>, sorted: seq<Item>)
    requires Distinct(items) && forall x :: x in sorted <==> x in items
    ensures SomeFailure(ReserveAll(db, order, sorted).1) <==> exists x :: x in items && !Available(db, order, x)
  {
    var outcomes := ReserveAll(db, order, sorted).1;
    if SomeFailure(outcomes) {
      var i :| 0 <= i < |outcomes| && IsFailure(outcomes[i]);
      FailsExactlyWhenShort(db, order, sorted, i);
      assert sorted[i] in items && !Available(db, order, sorted[i]);
    }
    if exists x :: x in items && !Available(db, order, x) {
      var x :| x in items && !Available(db, order, x);
      assert x in sorted;
      var i :| 0 <= i < |sorted| && sorted[i] == x;
      var k := FirstOf(sorted, i);
      assert sorted[k] in items;
      SameOfferSameItem(items, sorted[k], x);
      FailsExactlyWhenShort(db, order, sorted, k);
      assert IsFailure(outcomes[k]);
    }
  }

  lemma SameOfferSameItem(items: seq<Item>, x: Item, y: Item)
    requires Distinct(items) && x in items && y in items && x.offer == y.offer
    ensures x == y
  {
    var a :| 0 <= a < |items| && items[a] == x;
    var b :| 0 <= b < |items| && items[b] == y;
    assert a == b;
  }

  /** With distinct offers a reserve is held exactly when every item is listed and is either reserved for the order
      already or available; nothing the transaction itself does can starve one of its items. */
  lemma HeldExactlyWhenAvailable(read: Db, db: Db, order: int, items: seq<Item>)
    requires IsValidItems(items) && Distinct(items)
    ensures ReserveAfterRead(read, db, order, items).1 == Held <==>
      forall x :: x in items ==> !IsMissing(read, x) && Available(db, order, x)
  {
    SameItems(items);
    FailureIffShort(db, order, items, SortItems(items));
    if SomeMissing(read, items) {
      var i :| 0 <= i < |items| && IsMissing(read, items[i]);
      assert items[i] in items;
    }
  }

  lemma {:induction false} MissingItemsAre(db: Db, items: seq<Item>, x: Shortage)
    ensures x in MissingItems(db, items) <==>
      exists i :: 0 <= i < |items| && IsMissing(db, items[i]) && x == Shortage(items[i].offer, items[i].quantity, 0)
  {
    if items != [] {
      MissingItemsAre(db, items[1..], x);
      if x in MissingItems(db, items[1..]) {
        var i :| 0 <= i < |items[1..]| && IsMissing(db, items[1..][i]) && x == Shortage(items[1..][i].offer, items[1..][i].quantity, 0);
        assert items[i + 1] == items[1..][i];
      }
      if i :| 0 <= i < |items| && IsMissing(db, items[i]) && x == Shortage(items[i].offer, items[i].quantity, 0) {
        assert i > 0 ==> items[1..][i - 1] == items[i];
      }
    }
  }

  predicate IsProper(item: Item) { 1 <= item.offer <= 9007199254740991 && 1 <= item.quantity <= 9007199254740991 }

  predicate IsListed(db: Db, offer: int) { offer in db.offers && !db.offers[offer].deleted }

  /** The first two answers, to the letter: a malformed list of items is dropped; an item whose offer was absent or
      delisted at the read refuses the reserve, and the refusal lists exactly those items, with nothing available. */
  lemma RefusalNamesTheMissing(read: Db, db: Db, order: int, items: seq<Item>, x: Shortage)
    ensures var (after, reply) := ReserveAfterRead(read, db, order, items);
            && (reply == ReserveNack <==> items == [] || exists i :: 0 <= i < |items| && !IsProper(items[i]))
            && (reply.ReserveRejected? && reply.reason == OfferNotFound <==>
                  reply != ReserveNack && exists i :: 0 <= i < |items| && !IsListed(read, items[i].offer))
            && (reply.ReserveRejected? && reply.reason == OfferNotFound ==>
                  after == db
                  && (x in reply.items <==>
                        exists i :: 0 <= i < |items| && !IsListed(read, items[i].offer) && x == Shortage(items[i].offer, items[i].quantity, 0)))
  {
    MissingItemsAre(read, items, x);
    assert forall i :: 0 <= i < |items| ==> (IsMissing(read, items[i]) <==> !IsListed(read, items[i].offer));
    if IsValidItems(items) {
      assert forall i :: 0 <= i < |items| ==> items[i] in items;
    } else if items != [] {
      var item :| item in items && !(0 < item.offer <= MAX_SAFE_INTEGER && 0 < item.quantity <= MAX_SAFE_INTEGER);
      var i :| 0 <= i < |items| && items[i] == item;
    }
  }

  predicate ShortageOf(db: Db, item: Item, failed: set<int>, x: Shortage) {
    item.offer in failed && item.offer in db.offers
    && x == Shortage(item.offer, item.quantity, db.offers[item.offer].onHand - db.offers[item.offer].reserved)
  }

  lemma {:induction false} FailedItemsAre(db: Db, items: seq<Item>, failed: set<int>, x: Shortage)
    ensures x in FailedItems(db, items, failed) <==> exists i :: 0 <= i < |items| && ShortageOf(db, items[i], failed, x)
  {
    if items != [] {
      FailedItemsAre(db, items[1..], failed, x);
      if x in FailedItems(db, items[1..], failed) {
        var i :| 0 <= i < |items[1..]| && ShortageOf(db, items[1..][i], failed, x);
        assert items[i + 1] == items[1..][i];
      }
      if i :| 0 <= i < |items| && ShortageOf(db, items[i], failed, x) {
        assert i > 0 ==> items[1..][i - 1] == items[i];
      }
    }
  }

  lemma FailedIdsAre(db: Db, order: int, items: seq<Item>, sorted: seq<Item>, item: Item)
    requires Distinct(items) && (forall x :: x in sorted <==> x in items) && item in items
    ensures item.offer in FailedIds(ReserveAll(db, order, sorted).1) <==> !Available(db, order, item)
  {
    var outcomes := ReserveAll(db, order, sorted).1;
    OutcomeOffers(db, order, sorted);
    if item.offer in FailedIds(outcomes) {
      var i :| 0 <= i < |outcomes| && IsFailure(outcomes[i]) && outcomes[i].offer == item.offer;
      FailsExactlyWhenShort(db, order, sorted, i);
      SameOfferSameItem(items, sorted[i], item);
    }
    if !Available(db, order, item) {
      var i :| 0 <= i < |sorted| && sorted[i] == item;
      var k := FirstOf(sorted, i);
      SameOfferSameItem(items, sorted[k], item);
      FailsExactlyWhenShort(db, order, sorted, k);
      assert IsFailure(outcomes[k]) && outcomes[k].offer == item.offer;
    }
  }

  /** A refusal for lack of stock lists exactly the items that lacked it at the loop, each with what was there at the
      read: enough, exactly when the offer could have held the item then; with nothing in between, never. */
  lemma RefusalNamesTheShort(read: Db, db: Db, order: int, items: seq<Item>, x: Shortage)
    requires Distinct(items) && ReserveAfterRead(read, db, order, items).1.ReserveRejected?
    requires ReserveAfterRead(read, db, order, items).1.reason == InsufficientStock
    ensures x in ReserveAfterRead(read, db, order, items).1.items <==> exists i ::
      0 <= i < |items| && !Available(db, order, items[i]) && ShortageOf(read, items[i], {items[i].offer}, x)
    ensures x in ReserveAfterRead(read, db, order, items).1.items ==>
      (x.available >= x.quantity <==> Holdable(read.offers, Item(x.offer, x.quantity)))
    ensures read == db && x in ReserveAfterRead(read, db, order, items).1.items ==> x.available < x.quantity
  {
    SameItems(items);
    var failed := FailedIds(ReserveAll(db, order, SortItems(items)).1);
    FailedItemsAre(read, items, failed, x);
    forall i | 0 <= i < |items|
      ensures ShortageOf(read, items[i], failed, x) <==> !Available(db, order, items[i]) && ShortageOf(read, items[i], {items[i].offer}, x)
      ensures !IsMissing(read, items[i])
    {
      FailedIdsAre(db, order, items, SortItems(items), items[i]);
    }
  }

  /** A refusal reports enough of some item exactly when that item could be held at the read and was lost before the loop. */
  lemma ReportsEnoughIff(read: Db, db: Db, order: int, items: seq<Item>)
    requires Distinct(items) && ReserveAfterRead(read, db, order, items).1.ReserveRejected?
    requires ReserveAfterRead(read, db, order, items).1.reason == InsufficientStock
    ensures (exists x :: x in ReserveAfterRead(read, db, order, items).1.items && x.available >= x.quantity)
       <==> (exists i :: 0 <= i < |items| && Holdable(read.offers, items[i]) && !Available(db, order, items[i]))
  {
    var listed := ReserveAfterRead(read, db, order, items).1.items;
    if x :| x in listed && x.available >= x.quantity {
      RefusalNamesTheShort(read, db, order, items, x);
      var i :| 0 <= i < |items| && !Available(db, order, items[i]) && ShortageOf(read, items[i], {items[i].offer}, x);
      assert Holdable(read.offers, items[i]);
    }
    if i :| 0 <= i < |items| && Holdable(read.offers, items[i]) && !Available(db, order, items[i]) {
      var offer := read.offers[items[i].offer];
      var x := Shortage(items[i].offer, items[i].quantity, offer.onHand - offer.reserved);
      RefusalNamesTheShort(read, db, order, items, x);
      assert ShortageOf(read, items[i], {items[i].offer}, x);
      assert x in listed;
    }
  }

  const SHELF: Db := Db(map[1 := Offer(5, 0, false)], [])
  const EMPTIED: Db := Db(map[1 := Offer(5, 5, false)], [Row(8, 1, 5, Reserved)])

  /** Another order takes all five pieces. */
  lemma EmptyTheShelf()
    ensures Valid(SHELF) && Run(SHELF, [OpReserve(SHELF, 8, [Item(1, 5)])]) == EMPTIED
  {
    var items := [Item(1, 5)];
    assert items[..0] == [] && SortItems([]) == [];
    assert SortItems(items) == items;
    assert items[0] in items && !IsMissing(SHELF, items[0]);
    assert !SomeMissing(SHELF, items);
    assert ReserveAll(SHELF, 8, []) == (SHELF, []);
    assert !HasRow(SHELF.rows, 8, 1) && Holdable(SHELF.offers, items[0]);
    assert Hold(SHELF.offers, items[0]) == EMPTIED.offers;
    assert ReserveOne(SHELF, 8, items[0]).0 == EMPTIED && ReserveOne(SHELF, 8, items[0]).1 == Outcome(1, 1, 1);
    assert ReserveAll(SHELF, 8, items).0 == EMPTIED && ReserveAll(SHELF, 8, items).1 == [Outcome(1, 1, 1)];
    assert ReserveAfterRead(SHELF, SHELF, 8, items).0 == EMPTIED;
    var ops := [OpReserve(SHELF, 8, items)];
    assert ops[..0] == [] && Run(SHELF, []) == SHELF;
    assert ActiveSum([], 1) == 0;
  }

  /** It does happen: another order's reserve commits between the read and the loop, and the refusal reports five of two. */
  lemma ReportedStockCanSuffice()
    ensures exists read: Db, ops: seq<Op>, reply: ReserveReply, x: Shortage ::
      && Valid(read) && reply == ReserveAfterRead(read, Run(read, ops), 7, [Item(1, 2)]).1
      && reply.ReserveRejected? && reply.reason == InsufficientStock && x in reply.items && x.available >= x.quantity
  {
    EmptyTheShelf();
    var items := [Item(1, 2)];
    assert items[0] in items && !Available(EMPTIED, 7, items[0]) && !IsMissing(SHELF, items[0]);
    HeldExactlyWhenAvailable(SHELF, EMPTIED, 7, items);
    var reply := ReserveAfterRead(SHELF, EMPTIED, 7, items).1;
    assert !SomeMissing(SHELF, items);
    assert reply.ReserveRejected? && reply.reason == InsufficientStock;
    assert Holdable(SHELF.offers, items[0]);
    ReportsEnoughIff(SHELF, EMPTIED, 7, items);
    var x :| x in reply.items && x.available >= x.quantity;
    assert reply == ReserveAfterRead(SHELF, Run(SHELF, [OpReserve(SHELF, 8, [Item(1, 5)])]), 7, items).1;
  }
}
