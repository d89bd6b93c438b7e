/**
 When several relays, or late copies, keep the events of an aggregate in order: step by step exactly, and over whole
 runs by conditions that can be looked at before each step.
 */
module FleetOrder {
  import opened Wrappers
  import opened OutboxRelay
  import opened RelayFleet

  /** Two events of one aggregate, in the order they were committed. */
  predicate Follows(f: Fleet, a: Row, b: Row) { a in f.rows && b in f.rows && a.aggregate == b.aggregate && Before(a, b) }

  predicate Ordered(f: Fleet) { InOrder(State(f.rows, f.log)) }

  predicate Shaped(f: Fleet) { Sorted(f.rows) && UniqueIds(f.rows) }

  lemma {:induction false} ShapedStep(f: Fleet, e: FleetEvent)
    requires Shaped(f)
    ensures Shaped(Do(f, e))
  {
    if Can(f, e) {
      match e
      case Commit(row) => InsertKeepsSorted(f.rows, row);
      case Finish(r, now) =>
        var t := f.relays[r];
        MarkKeepsShape(f.rows, Answered(t), FailedAt(t), now);
      case _ =>
    }
  }

  lemma {:induction false} ShapedForever(events: seq<FleetEvent>)
    ensures Shaped(Play(events))
  {
    if events != [] {
      ShapedForever(events[..|events| - 1]);
      ShapedStep(Play(events[..|events| - 1]), events[|events| - 1]);
    }
  }

  /* ---------- one step, exactly ---------- */

  /** No later event of the arriving one's aggregate is published. */
  ghost predicate ArrivesInTime(f: Fleet, n: nat)
    requires n in f.onTheWire
  {
    forall a, b :: Follows(f, a, b) && a.id == f.onTheWire[n] ==> b.publishedAt.None?
  }

  /** Whatever precedes a row the relay publishes is published, by it or before, and earlier in the log. */
  ghost predicate FinishesInOrder(f: Fleet, t: Transaction) {
    forall a, b :: Follows(f, a, b) && b.id in Answered(t) ==>
      (a.publishedAt.Some? || a.id in Answered(t)) && Last(f.log, a.id) < Last(f.log, b.id)
  }

  ghost predicate KeepsOrder(f: Fleet, e: FleetEvent) {
    Can(f, e) ==>
      match e
      case Arrive(n) => ArrivesInTime(f, n)
      case Finish(r, _) => FinishesInOrder(f, f.relays[r])
      case _ => true
  }

  lemma LastAfterArrival(log: seq<int>, x: int, id: int)
    ensures Last(log + [x], id) == if id == x then |log| else Last(log, id)
  {
    assert (log + [x])[..|log + [x]| - 1] == log;
  }

  /** A copy keeps the order exactly when no later event of its aggregate is published. */
  lemma ArriveKeepsOrderIff(f: Fleet, n: nat)
    requires Shaped(f) && Ordered(f) && n in f.onTheWire
    ensures Ordered(Do(f, Arrive(n))) <==> ArrivesInTime(f, n)
  {
    var x, g := f.onTheWire[n], Do(f, Arrive(n));
    forall r | r in f.rows ensures Last(g.log, r.id) == if r.id == x then |f.log| else Last(f.log, r.id) {
      LastAfterArrival(f.log, x, r.id);
    }
    if !ArrivesInTime(f, n) {
      var a, b :| Follows(f, a, b) && a.id == x && b.publishedAt.Some?;
      OtherId(f, a, b);
      assert Last(g.log, a.id) > Last(g.log, b.id);
    } else {
      forall a, b | Follows(f, a, b) && b.publishedAt.Some?
        ensures a.publishedAt.Some? && Last(g.log, a.id) < Last(g.log, b.id)
      {
        assert a.id != x;
      }
    }
  }

  lemma OtherId(f: Fleet, a: Row, b: Row)
    requires Shaped(f) && Follows(f, a, b)
    ensures a.id != b.id
  {
    if a.id == b.id {
      SameIdSameRow(f.rows, a, b);
    }
  }

  lemma MarkedIsIn(rows: seq<Row>, sent: seq<int>, failed: Option<int>, now: int, q: Row)
    requires q in rows
    ensures MarkRow(q, sent, failed, now) in MarkRows(rows, sent, failed, now)
  {
    var i :| 0 <= i < |rows| && rows[i] == q;
    assert MarkRows(rows, sent, failed, now)[i] == MarkRow(q, sent, failed, now);
  }

  /** The rows a pair was before the marking. */
  lemma PairBefore(f: Fleet, t: Transaction, now: int, a: Row, b: Row) returns (p: Row, q: Row)
    requires a in Finished(f.rows, t, now) && b in Finished(f.rows, t, now) && a.aggregate == b.aggregate && Before(a, b)
    ensures Follows(f, p, q) && p.id == a.id && q.id == b.id
    ensures a.publishedAt.Some? <==> p.publishedAt.Some? || a.id in Answered(t)
    ensures b.publishedAt.Some? <==> q.publishedAt.Some? || b.id in Answered(t)
  {
    MarkedFrom(f.rows, Answered(t), FailedAt(t), now, a);
    MarkedFrom(f.rows, Answered(t), FailedAt(t), now, b);
    p :| p in f.rows && a == MarkRow(p, Answered(t), FailedAt(t), now);
    q :| q in f.rows && b == MarkRow(q, Answered(t), FailedAt(t), now);
  }

  lemma FinishKeepsOrder(f: Fleet, r: int, now: int)
    requires Ordered(f) && Can(f, Finish(r, now)) && FinishesInOrder(f, f.relays[r])
    ensures Ordered(Do(f, Finish(r, now)))
  {
    var t, g := f.relays[r], Do(f, Finish(r, now));
    forall a, b | a in g.rows && b in g.rows && a.aggregate == b.aggregate && Before(a, b) && b.publishedAt.Some?
      ensures a.publishedAt.Some? && Last(g.log, a.id) < Last(g.log, b.id)
    {
      var p, q := PairBefore(f, t, now, a, b);
    }
  }

  lemma FinishBreaksOrder(f: Fleet, r: int, now: int, a: Row, b: Row)
    requires Can(f, Finish(r, now)) && Follows(f, a, b) && b.id in Answered(f.relays[r])
    requires !((a.publishedAt.Some? || a.id in Answered(f.relays[r])) && Last(f.log, a.id) < Last(f.log, b.id))
    ensures !Ordered(Do(f, Finish(r, now)))
  {
    var t, g := f.relays[r], Do(f, Finish(r, now));
    MarkedIsIn(f.rows, Answered(t), FailedAt(t), now, a);
    MarkedIsIn(f.rows, Answered(t), FailedAt(t), now, b);
    var a', b' := MarkRow(a, Answered(t), FailedAt(t), now), MarkRow(b, Answered(t), FailedAt(t), now);
    assert a' in g.rows && b' in g.rows && b'.publishedAt.Some?;
  }

  /** A finishing transaction keeps the order exactly when it publishes no row before what precedes it. */
  lemma FinishKeepsOrderIff(f: Fleet, r: int, now: int)
    requires Ordered(f) && Can(f, Finish(r, now))
    ensures Ordered(Do(f, Finish(r, now))) <==> FinishesInOrder(f, f.relays[r])
  {
    if FinishesInOrder(f, f.relays[r]) {
      FinishKeepsOrder(f, r, now);
    } else {
      var a, b :| Follows(f, a, b) && b.id in Answered(f.relays[r])
        && !((a.publishedAt.Some? || a.id in Answered(f.relays[r])) && Last(f.log, a.id) < Last(f.log, b.id));
      FinishBreaksOrder(f, r, now, a, b);
    }
  }

  lemma CommitKeepsOrder(f: Fleet, row: Row)
    requires Ordered(f) && Can(f, Commit(row))
    ensures Ordered(Do(f, Commit(row)))
  {
    var g := Do(f, Commit(row));
    forall a, b | Follows(g, a, b) && b.publishedAt.Some?
      ensures a.publishedAt.Some? && Last(g.log, a.id) < Last(g.log, b.id)
    {
      InsertedAre(f.rows, row);
    }
  }

  lemma CleanKeepsOrder(f: Fleet, before: int)
    requires Ordered(f)
    ensures Ordered(Do(f, Clean(before)))
  {
    var g := Do(f, Clean(before));
    forall a, b | Follows(g, a, b) && b.publishedAt.Some?
      ensures a.publishedAt.Some? && Last(g.log, a.id) < Last(g.log, b.id)
    {
      DeletedFrom(f.rows, before, a);
      DeletedFrom(f.rows, before, b);
      var p :| p in f.rows && a == DeleteRow(p, before);
      var q :| q in f.rows && b == DeleteRow(q, before);
      assert Follows(f, p, q);
    }
  }

  lemma StepKeepsOrderIff(f: Fleet, e: FleetEvent)
    requires Shaped(f) && Ordered(f)
    ensures Ordered(Do(f, e)) <==> KeepsOrder(f, e)
  {
    if Can(f, e) {
      match e
      case Commit(row) => CommitKeepsOrder(f, row);
      case Arrive(n) => ArriveKeepsOrderIff(f, n);
      case Finish(r, now) => FinishKeepsOrderIff(f, r, now);
      case Clean(before) => CleanKeepsOrder(f, before);
      case _ =>
    }
  }

  /* ---------- whole runs, exactly ---------- */

  /** Every prefix of the run is in order. */
  predicate OrderedThroughout(events: seq<FleetEvent>) {
    Ordered(Play(events)) && (events != [] ==> OrderedThroughout(events[..|events| - 1]))
  }

  /** Every step met its condition. */
  ghost predicate EveryStepKeepsOrder(events: seq<FleetEvent>) {
    events != [] ==>
      EveryStepKeepsOrder(events[..|events| - 1]) && KeepsOrder(Play(events[..|events| - 1]), events[|events| - 1])
  }

  /** A run of any number of relays is in order throughout exactly when no copy arrives behind a published later event,
      and no relay publishes a row before what precedes it. */
  lemma {:induction false} OrderedThroughoutIff(events: seq<FleetEvent>)
    ensures OrderedThroughout(events) <==> EveryStepKeepsOrder(events)
  {
    if events != [] {
      var front := events[..|events| - 1];
      OrderedThroughoutIff(front);
      ShapedForever(front);
      if OrderedThroughout(front) {
        StepKeepsOrderIff(Play(front), events[|events| - 1]);
      }
    }
  }

  /* ---------- whole runs, by what can be looked at beforehand ---------- */

  /** The event is acknowledged to the relay, or its copy has arrived and the answer is on its way. */
  predicate Settled(f: Fleet, t: Transaction, id: int) {
    || id in Answered(t)
    || (t.awaiting.Some? && t.awaiting.value !in f.onTheWire && t.acked < |t.claimed| && t.claimed[t.acked] == id)
  }

  /** A claim takes no event while an earlier one of its aggregate waits under another relay's lock. */
  ghost predicate ClaimsInTurn(f: Fleet) {
    forall a, b :: Follows(f, a, b) && b.id in ClaimUnlocked(f) && IsWaiting(a) ==> !IsLocked(f, a.id)
  }

  /** A copy arrives while no later event of its aggregate is published or settled. */
  ghost predicate CopyInTurn(f: Fleet, n: nat)
    requires n in f.onTheWire
  {
    forall a, b :: Follows(f, a, b) && a.id == f.onTheWire[n] ==>
      b.publishedAt.None? && forall r :: r in f.relays ==> !Settled(f, f.relays[r], b.id)
  }

  ghost predicate InTurn(f: Fleet, e: FleetEvent) {
    Can(f, e) ==>
      match e
      case Begin(_) => ClaimsInTurn(f)
      case Arrive(n) => CopyInTurn(f, n)
      case _ => true
  }

  ghost predicate EveryStepInTurn(events: seq<FleetEvent>) {
    events != [] ==> EveryStepInTurn(events[..|events| - 1]) && InTurn(Play(events[..|events| - 1]), events[|events| - 1])
  }

  /** Whatever precedes a claimed event is published or claimed before it. */
  ghost predicate Queued(f: Fleet, t: Transaction) {
    forall a, b, j :: Follows(f, a, b) && 0 <= j < |t.claimed| && t.claimed[j] == b.id ==>
      a.publishedAt.Some? || a.id in t.claimed[..j]
  }

  ghost predicate SettledInOrder(f: Fleet, t: Transaction) {
    forall a, b :: Follows(f, a, b) && Settled(f, t, b.id) ==> Last(f.log, a.id) < Last(f.log, b.id)
  }

  ghost predicate RelaysInOrder(f: Fleet) {
    forall r :: r in f.relays ==> Queued(f, f.relays[r]) && SettledInOrder(f, f.relays[r])
  }

  ghost predicate Tracked(f: Fleet) { Kept(f) && Shaped(f) && Ordered(f) && RelaysInOrder(f) }

  lemma {:induction false} UnlockedIsSorted(f: Fleet, rows: seq<Row>)
    requires Sorted(rows)
    ensures Sorted(Unlocked(f, rows))
    ensures forall r :: r in Unlocked(f, rows) <==> r in rows && !IsLocked(f, r.id)
  {
    if rows != [] {
      var front, last := rows[..|rows| - 1], rows[|rows| - 1];
      UnlockedIsSorted(f, front);
      var free := Unlocked(f, front);
      assert rows == front + [last];
      forall i | 0 <= i < |free| ensures Before(free[i], last) {
        assert free[i] in front;
        var k :| 0 <= k < |front| && front[k] == free[i];
        assert rows[k] == front[k];
      }
    }
  }

  /** A free waiting row that precedes a claimed one is claimed before it. */
  lemma ClaimedBefore(f: Fleet, a: Row, b: Row, j: nat)
    requires Shaped(f) && Follows(f, a, b) && IsWaiting(a) && !IsLocked(f, a.id)
    requires j < |ClaimUnlocked(f)| && ClaimUnlocked(f)[j] == b.id
    ensures a.id in ClaimUnlocked(f)[..j]
  {
    WaitingIsSorted(f.rows);
    var free := Unlocked(f, Waiting(f.rows));
    UnlockedIsSorted(f, Waiting(f.rows));
    assert free[j] in free && free[j] in f.rows;
    SameIdSameRow(f.rows, free[j], b);
    assert a in free;
    var i :| 0 <= i < |free| && free[i] == a;
    assert i < j by {
      if i > j {
        assert false;
      }
    }
    assert ClaimUnlocked(f)[..j][i] == a.id;
  }

  lemma BeginIsQueued(f: Fleet, r: int)
    requires Tracked(f) && Can(f, Begin(r)) && ClaimsInTurn(f)
    ensures Queued(Do(f, Begin(r)), Do(f, Begin(r)).relays[r])
  {
    var claimed := ClaimUnlocked(f);
    forall a, b, j | Follows(f, a, b) && 0 <= j < |claimed| && claimed[j] == b.id
      ensures a.publishedAt.Some? || a.id in claimed[..j]
    {
      if a.publishedAt.None? {
        assert b.id in claimed && IsWaiting(a);
        ClaimedBefore(f, a, b, j);
      }
    }
  }

  lemma BeginLeavesOthers(f: Fleet, r: int, q: int)
    requires Tracked(f) && Can(f, Begin(r)) && q in f.relays
    ensures Queued(Do(f, Begin(r)), f.relays[q]) && SettledInOrder(Do(f, Begin(r)), f.relays[q])
  {
    var g, t := Do(f, Begin(r)), f.relays[q];
    assert Queued(f, t) && SettledInOrder(f, t);
    assert g.rows == f.rows && g.log == f.log && g.onTheWire == f.onTheWire;
    SameTableInTurn(f, g, t);
  }

  /** What a relay knows depends on the table, the log and the wire alone. */
  lemma SameTableInTurn(f: Fleet, g: Fleet, t: Transaction)
    requires Queued(f, t) && SettledInOrder(f, t) && g.rows == f.rows && g.log == f.log && g.onTheWire == f.onTheWire
    ensures Queued(g, t) && SettledInOrder(g, t)
  {
    assert forall a, b :: Follows(g, a, b) ==> Follows(f, a, b);
    assert forall id :: Settled(g, t, id) ==> Settled(f, t, id);
  }

  lemma BeginInTurn(f: Fleet, r: int, q: int)
    requires Tracked(f) && Can(f, Begin(r)) && ClaimsInTurn(f) && q in Do(f, Begin(r)).relays
    ensures Queued(Do(f, Begin(r)), Do(f, Begin(r)).relays[q]) && SettledInOrder(Do(f, Begin(r)), Do(f, Begin(r)).relays[q])
  {
    if q != r {
      BeginLeavesOthers(f, r, q);
    } else {
      BeginIsQueued(f, r);
      assert forall id :: !Settled(Do(f, Begin(r)), Do(f, Begin(r)).relays[r], id);
    }
  }

  lemma AbortInTurn(f: Fleet, r: int, q: int)
    requires Tracked(f) && Can(f, Abort(r)) && q in f.relays && q != r
    ensures Queued(Do(f, Abort(r)), f.relays[q]) && SettledInOrder(Do(f, Abort(r)), f.relays[q])
  {
    SameTableInTurn(f, Do(f, Abort(r)), f.relays[q]);
  }

  /** A copy that arrives in turn settles its row behind everything that precedes it. */
  lemma ArriveInTurn(f: Fleet, n: nat, r: int)
    requires Tracked(f) && Can(f, Arrive(n)) && CopyInTurn(f, n) && r in f.relays
    ensures Queued(Do(f, Arrive(n)), f.relays[r]) && SettledInOrder(Do(f, Arrive(n)), f.relays[r])
  {
    var g, t, x := Do(f, Arrive(n)), f.relays[r], f.onTheWire[n];
    assert Queued(f, t) && SettledInOrder(f, t) && AwaitsOwn(f, t);
    forall a, b | Follows(g, a, b) && Settled(g, t, b.id) ensures Last(g.log, a.id) < Last(g.log, b.id) {
      assert Follows(f, a, b);
      OtherId(f, a, b);
      LastAfterArrival(f.log, x, a.id);
      LastAfterArrival(f.log, x, b.id);
      assert b.id == x || Settled(f, t, b.id);
      assert b.id != x ==> a.id != x;
    }
  }

  /** A send, an answer or a failed send settles nothing new. */
  lemma NothingNewSettled(f: Fleet, e: FleetEvent, r: int, id: int)
    requires Kept(f) && Can(f, e) && (e.Send? || e.Acknowledge? || e.GiveUp?) && r in f.relays
    requires Settled(Do(f, e), Do(f, e).relays[r], id)
    ensures Settled(f, f.relays[r], id)
  {
    assert AwaitsOwn(f, f.relays[r]);
  }

  lemma OwnProgressInTurn(f: Fleet, e: FleetEvent, r: int)
    requires Tracked(f) && Can(f, e) && (e.Send? || e.Acknowledge? || e.GiveUp?) && r in f.relays
    ensures Queued(Do(f, e), Do(f, e).relays[r]) && SettledInOrder(Do(f, e), Do(f, e).relays[r])
  {
    var g, t := Do(f, e), f.relays[r];
    assert g.rows == f.rows && g.log == f.log && g.relays[r].claimed == t.claimed;
    assert Queued(f, t) && SettledInOrder(f, t);
    forall a, b, j | Follows(g, a, b) && 0 <= j < |t.claimed| && t.claimed[j] == b.id ensures a.publishedAt.Some? || a.id in t.claimed[..j] {
      assert Follows(f, a, b);
    }
    forall a, b | Follows(g, a, b) && Settled(g, g.relays[r], b.id) ensures Last(g.log, a.id) < Last(g.log, b.id) {
      assert Follows(f, a, b);
      NothingNewSettled(f, e, r, b.id);
    }
  }

  /** Relays do not notice a change of the table in which old pairs stay and published rows stay published. */
  lemma TableChangeInTurn(f: Fleet, g: Fleet, r: int)
    requires Tracked(f) && r in f.relays && r in g.relays && g.relays[r] == f.relays[r] && g.log == f.log && g.onTheWire == f.onTheWire
    requires forall a, b :: Follows(g, a, b) && IsLocked(f, b.id) ==>
      exists p, q :: Follows(f, p, q) && p.id == a.id && q.id == b.id && (p.publishedAt.Some? ==> a.publishedAt.Some?)
    ensures Queued(g, g.relays[r]) && SettledInOrder(g, g.relays[r])
  {
    var t := f.relays[r];
    assert Queued(f, t) && SettledInOrder(f, t);
    forall a, b, j | Follows(g, a, b) && 0 <= j < |t.claimed| && t.claimed[j] == b.id
      ensures a.publishedAt.Some? || a.id in t.claimed[..j]
    {
      assert IsLocked(f, b.id);
      var p, q :| Follows(f, p, q) && p.id == a.id && q.id == b.id && (p.publishedAt.Some? ==> a.publishedAt.Some?);
    }
    forall a, b | Follows(g, a, b) && Settled(g, t, b.id) ensures Last(g.log, a.id) < Last(g.log, b.id) {
      assert b.id in t.claimed;
      assert IsLocked(f, b.id);
      var p, q :| Follows(f, p, q) && p.id == a.id && q.id == b.id && (p.publishedAt.Some? ==> a.publishedAt.Some?);
    }
  }

  lemma CommitInTurn(f: Fleet, row: Row, r: int)
    requires Tracked(f) && Can(f, Commit(row)) && r in f.relays
    ensures Queued(Do(f, Commit(row)), f.relays[r]) && SettledInOrder(Do(f, Commit(row)), f.relays[r])
  {
    var g := Do(f, Commit(row));
    forall a, b | Follows(g, a, b) && IsLocked(f, b.id)
      ensures exists p, q :: Follows(f, p, q) && p.id == a.id && q.id == b.id && (p.publishedAt.Some? ==> a.publishedAt.Some?)
    {
      InsertedAre(f.rows, row);
      assert Follows(f, a, b);
    }
    TableChangeInTurn(f, g, r);
  }

  lemma FinishInTurn(f: Fleet, r: int, now: int, q: int)
    requires Tracked(f) && Can(f, Finish(r, now)) && q in f.relays && q != r
    ensures Queued(Do(f, Finish(r, now)), f.relays[q]) && SettledInOrder(Do(f, Finish(r, now)), f.relays[q])
  {
    var g, t := Do(f, Finish(r, now)), f.relays[r];
    forall a, b | Follows(g, a, b) && IsLocked(f, b.id)
      ensures exists p, q :: Follows(f, p, q) && p.id == a.id && q.id == b.id && (p.publishedAt.Some? ==> a.publishedAt.Some?)
    {
      var x, y := PairBefore(f, t, now, a, b);
    }
    TableChangeInTurn(f, g, q);
  }

  lemma CleanInTurn(f: Fleet, before: int, r: int)
    requires Tracked(f) && r in f.relays
    ensures Queued(Do(f, Clean(before)), f.relays[r]) && SettledInOrder(Do(f, Clean(before)), f.relays[r])
  {
    var g := Do(f, Clean(before));
    forall a, b | Follows(g, a, b) && IsLocked(f, b.id)
      ensures exists p, q :: Follows(f, p, q) && p.id == a.id && q.id == b.id && (p.publishedAt.Some? ==> a.publishedAt.Some?)
    {
      DeletedFrom(f.rows, before, a);
      DeletedFrom(f.rows, before, b);
      var x :| x in f.rows && a == DeleteRow(x, before);
      var y :| y in f.rows && b == DeleteRow(y, before);
      assert Follows(f, x, y);
    }
    TableChangeInTurn(f, g, r);
  }

  /** A relay that has claimed in turn finishes in order. */
  lemma QueuedFinishesInOrder(f: Fleet, r: int)
    requires Tracked(f) && r in f.relays
    ensures FinishesInOrder(f, f.relays[r])
  {
    var t := f.relays[r];
    assert Queued(f, t) && SettledInOrder(f, t);
    forall a, b | Follows(f, a, b) && b.id in Answered(t)
      ensures (a.publishedAt.Some? || a.id in Answered(t)) && Last(f.log, a.id) < Last(f.log, b.id)
    {
      var j :| 0 <= j < |Answered(t)| && Answered(t)[j] == b.id;
      assert t.claimed[j] == b.id;
      if a.publishedAt.None? {
        var i :| 0 <= i < j && t.claimed[..j][i] == a.id;
        assert Answered(t)[i] == a.id;
      }
    }
  }

  lemma InTurnKeepsOrder(f: Fleet, e: FleetEvent)
    requires Tracked(f) && InTurn(f, e)
    ensures Ordered(Do(f, e))
  {
    if e.Finish? && Can(f, e) {
      QueuedFinishesInOrder(f, e.relay);
    }
    StepKeepsOrderIff(f, e);
  }

  lemma InTurnKeepsRelays(f: Fleet, e: FleetEvent, q: int)
    requires Tracked(f) && InTurn(f, e) && Can(f, e) && q in Do(f, e).relays
    ensures Queued(Do(f, e), Do(f, e).relays[q]) && SettledInOrder(Do(f, e), Do(f, e).relays[q])
  {
    match e
    case Commit(row) => CommitInTurn(f, row, q);
    case Arrive(n) => ArriveInTurn(f, n, q);
    case Finish(r, now) => FinishInTurn(f, r, now, q);
    case Clean(before) => CleanInTurn(f, before, q);
    case Abort(r) => AbortInTurn(f, r, q);
    case Begin(r) => BeginInTurn(f, r, q);
    case _ => OwnProgressInTurn(f, e, q);
  }

  lemma InTurnStep(f: Fleet, e: FleetEvent)
    requires Tracked(f) && InTurn(f, e)
    ensures Tracked(Do(f, e))
  {
    StepKeeps(f, e);
    ShapedStep(f, e);
    InTurnKeepsOrder(f, e);
    if Can(f, e) {
      forall q | q in Do(f, e).relays ensures Queued(Do(f, e), Do(f, e).relays[q]) && SettledInOrder(Do(f, e), Do(f, e).relays[q]) {
        InTurnKeepsRelays(f, e, q);
      }
    }
  }

  /** With any number of relays, the events of every aggregate are published in order, as long as no relay claims an event
      while an earlier one of its aggregate waits under another's lock, and no copy arrives after a later event of its
      aggregate has been published or has itself arrived. */
  lemma {:induction false} InTurnIsOrdered(events: seq<FleetEvent>)
    requires EveryStepInTurn(events)
    ensures Ordered(Play(events)) && Tracked(Play(events))
  {
    if events != [] {
      InTurnIsOrdered(events[..|events| - 1]);
      InTurnStep(Play(events[..|events| - 1]), events[|events| - 1]);
    }
  }

  /* ---------- one relay at a time ---------- */

  /** A batch begins only when no other is under way and nothing is on the wire. */
  predicate Alone(f: Fleet, e: FleetEvent) { Can(f, e) && e.Begin? ==> f.relays == map[] && f.onTheWire == map[] }

  predicate EveryStepAlone(events: seq<FleetEvent>) {
    events != [] ==> EveryStepAlone(events[..|events| - 1]) && Alone(Play(events[..|events| - 1]), events[|events| - 1])
  }

  predicate Distinct(ids: seq<int>) { forall i, j :: 0 <= i < j < |ids| ==> ids[i] != ids[j] }

  /** The relay's rows are distinct and unpublished, and what is on the wire is its last send. */
  ghost predicate Solo(f: Fleet, t: Transaction) {
    && Distinct(t.claimed)
    && (forall row :: row in f.rows && row.id in t.claimed ==> row.publishedAt.None?)
    && (t.awaiting.Some? ==> t.awaiting.value + 1 == f.sends)
    && (t.awaiting.None? && !t.stopped ==> f.onTheWire == map[])
  }

  ghost predicate SoloInv(f: Fleet) {
    && (forall q, r :: q in f.relays && r in f.relays ==> q == r)
    && (forall r :: r in f.relays ==> Solo(f, f.relays[r]))
    && (forall n :: n in f.onTheWire ==> n + 1 == f.sends)
  }

  ghost predicate WireInTurn(f: Fleet) { forall n :: n in f.onTheWire ==> CopyInTurn(f, n) }

  lemma BeginIsSolo(f: Fleet, r: int)
    requires Tracked(f) && Can(f, Begin(r)) && f.onTheWire == map[]
    ensures Solo(Do(f, Begin(r)), Do(f, Begin(r)).relays[r])
  {
    WaitingIsSorted(f.rows);
    UnlockedIsSorted(f, Waiting(f.rows));
    var free, claimed := Unlocked(f, Waiting(f.rows)), ClaimUnlocked(f);
    forall i, j | 0 <= i < j < |claimed| ensures claimed[i] != claimed[j] {
      assert free[i] in free && free[j] in free && Before(free[i], free[j]);
    }
    forall row | row in f.rows && row.id in claimed ensures row.publishedAt.None? {
      var i :| 0 <= i < |claimed| && claimed[i] == row.id;
      assert free[i] in free;
      SameIdSameRow(f.rows, free[i], row);
    }
  }

  lemma SoloStep(f: Fleet, e: FleetEvent)
    requires Tracked(f) && SoloInv(f) && Alone(f, e)
    ensures SoloInv(Do(f, e))
  {
    if Can(f, e) {
      match e
      case Begin(r) => BeginIsSolo(f, r);
      case Commit(row) => CommitStaysSolo(f, row);
      case Clean(before) => CleanStaysSolo(f, before);
      case _ =>
    }
  }

  lemma CommitStaysSolo(f: Fleet, row: Row)
    requires SoloInv(f) && Can(f, Commit(row))
    ensures SoloInv(Do(f, Commit(row)))
  {
    var g := Do(f, Commit(row));
    forall r | r in g.relays ensures Solo(g, g.relays[r]) {
      assert Solo(f, f.relays[r]);
      forall q | q in g.rows && q.id in g.relays[r].claimed ensures q.publishedAt.None? {
        InsertedAre(f.rows, row);
      }
    }
  }

  lemma CleanStaysSolo(f: Fleet, before: int)
    requires SoloInv(f)
    ensures SoloInv(Do(f, Clean(before)))
  {
    var g := Do(f, Clean(before));
    forall r | r in g.relays ensures Solo(g, g.relays[r]) {
      assert Solo(f, f.relays[r]);
      forall q | q in g.rows && q.id in g.relays[r].claimed ensures q.publishedAt.None? {
        DeletedFrom(f.rows, before, q);
      }
    }
  }

  /** The row a relay is at is in front of nothing it has been answered for. */
  lemma NotYetAnswered(t: Transaction, x: int)
    requires Distinct(t.claimed) && t.acked < |t.claimed| && t.claimed[t.acked] == x
    ensures forall j :: 0 <= j <= t.acked ==> x !in t.claimed[..j]
  {
  }

  /** What a relay sends comes before everything it has not sent, and after nothing that is published. */
  lemma SendIsInTurn(f: Fleet, r: int)
    requires Tracked(f) && SoloInv(f) && Can(f, Send(r))
    ensures CopyInTurn(Do(f, Send(r)), f.sends)
  {
    var g, t := Do(f, Send(r)), f.relays[r];
    var x := t.claimed[t.acked];
    assert Solo(f, t) && Queued(f, t);
    forall a, b | Follows(g, a, b) && a.id == x
      ensures b.publishedAt.None? && forall q :: q in g.relays ==> !Settled(g, g.relays[q], b.id)
    {
      assert Follows(f, a, b) && a.publishedAt.None?;
      forall q | q in g.relays ensures !Settled(g, g.relays[q], b.id) {
        assert q == r;
        NotYetAnswered(t, x);
      }
    }
  }

  lemma FinishLeavesWireInTurn(f: Fleet, r: int, now: int, n: nat)
    requires Can(f, Finish(r, now)) && n in f.onTheWire && CopyInTurn(f, n)
    ensures CopyInTurn(Do(f, Finish(r, now)), n)
  {
    var g, t := Do(f, Finish(r, now)), f.relays[r];
    forall a, b | Follows(g, a, b) && a.id == f.onTheWire[n]
      ensures b.publishedAt.None? && forall q :: q in g.relays ==> !Settled(g, g.relays[q], b.id)
    {
      var p, q := PairBefore(f, t, now, a, b);
      assert !Settled(f, t, b.id);
    }
  }

  lemma TableLeavesWireInTurn(f: Fleet, e: FleetEvent, n: nat)
    requires Can(f, e) && (e.Commit? || e.Clean?) && n in f.onTheWire && CopyInTurn(f, n)
    ensures CopyInTurn(Do(f, e), n)
  {
    var g := Do(f, e);
    forall a, b | Follows(g, a, b) && a.id == f.onTheWire[n]
      ensures b.publishedAt.None? && forall q :: q in g.relays ==> !Settled(g, g.relays[q], b.id)
    {
      if e.Commit? {
        InsertedAre(f.rows, e.row);
        if b == e.row {
          forall q | q in g.relays ensures !Settled(g, g.relays[q], b.id) {
            assert !IsLocked(f, b.id);
          }
        } else {
          assert Follows(f, a, b);
        }
      } else {
        DeletedFrom(f.rows, e.before, a);
        DeletedFrom(f.rows, e.before, b);
        var x :| x in f.rows && a == DeleteRow(x, e.before);
        var y :| y in f.rows && b == DeleteRow(y, e.before);
        assert Follows(f, x, y);
      }
    }
  }

  lemma WireStaysInTurn(f: Fleet, e: FleetEvent)
    requires Tracked(f) && SoloInv(f) && WireInTurn(f) && Alone(f, e)
    ensures WireInTurn(Do(f, e))
  {
    if Can(f, e) {
      forall n | n in Do(f, e).onTheWire ensures CopyInTurn(Do(f, e), n) {
        match e
        case Send(r) => SendIsInTurn(f, r);
        case Finish(r, now) => FinishLeavesWireInTurn(f, r, now, n);
        case Commit(_) => TableLeavesWireInTurn(f, e, n);
        case Clean(_) => TableLeavesWireInTurn(f, e, n);
        case Abort(r) => FewerSettled(f, e, n);
        case GiveUp(r) => FewerSettled(f, e, n);
        case Acknowledge(r) => FewerSettled(f, e, n);
        case _ =>
      }
    }
  }

  lemma FewerSettled(f: Fleet, e: FleetEvent, n: nat)
    requires Kept(f) && SoloInv(f) && Can(f, e) && (e.Abort? || e.GiveUp? || e.Acknowledge?) && n in f.onTheWire && CopyInTurn(f, n)
    ensures CopyInTurn(Do(f, e), n)
  {
    var g := Do(f, e);
    forall a, b | Follows(g, a, b) && a.id == f.onTheWire[n]
      ensures b.publishedAt.None? && forall q :: q in g.relays ==> !Settled(g, g.relays[q], b.id)
    {
      assert Follows(f, a, b);
      forall q | q in g.relays ensures !Settled(g, g.relays[q], b.id) {
        assert !Settled(f, f.relays[q], b.id);
      }
    }
  }

  /** One relay at a time, each batch beginning with nothing on the wire: every step is in turn, whatever fails, times out
      or crashes, so the events of every aggregate are published in order. */
  lemma {:induction false} OneRelayKeepsOrder(events: seq<FleetEvent>)
    requires EveryStepAlone(events)
    ensures EveryStepInTurn(events) && Ordered(Play(events))
    ensures SoloInv(Play(events)) && WireInTurn(Play(events))
  {
    if events != [] {
      var front, e := events[..|events| - 1], events[|events| - 1];
      OneRelayKeepsOrder(front);
      InTurnIsOrdered(front);
      SoloStep(Play(front), e);
      WireStaysInTurn(Play(front), e);
      assert InTurn(Play(front), e);
      InTurnIsOrdered(events);
    }
  }
}
