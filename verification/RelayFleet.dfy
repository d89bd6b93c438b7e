/**
 Several relays on one outbox table, with sends that may reach the log long after they were given up.

 A relay's transaction locks the rows it claims; the others skip them.  Every send puts one copy on the wire, which
 arrives once, at any later moment, or never: the producer is idempotent, so only a second send makes a second copy.
 A relay is acknowledged when the copy of its own current send has arrived.  Claims are disjoint and nothing is lost;
 the order of an aggregate is kept exactly as long as the conditions below hold.
 */
module RelayFleet {
  import opened Wrappers
  import opened OutboxRelay

  /** `claimed[..acked]` were acknowledged; `awaiting` is the send of `claimed[acked]` under way, `stopped` after a failed one. */
  datatype Transaction = Transaction(claimed: seq<int>, acked: nat, awaiting: Option<nat>, stopped: bool)

  /** `onTheWire` are the sends that have not arrived yet, with the event they carry; `sends` counts all of them. */
  datatype Fleet = Fleet(rows: seq<Row>, log: seq<int>, onTheWire: map<nat, int>, sends: nat, relays: map<int, Transaction>)

  predicate IsLocked(f: Fleet, id: int) { exists r :: r in f.relays && id in f.relays[r].claimed }

  function Unlocked(f: Fleet, rows: seq<Row>): seq<Row> {
    if rows == [] then []
    else Unlocked(f, rows[..|rows| - 1]) + if IsLocked(f, rows[|rows| - 1].id) then [] else [rows[|rows| - 1]]
  }

  /** FOR UPDATE SKIP LOCKED, oldest first, at most a hundred. */
  function ClaimUnlocked(f: Fleet): seq<int> {
    var free := Ids(Unlocked(f, Waiting(f.rows)));
    if |free| <= BATCH_SIZE then free else free[..BATCH_SIZE]
  }

  datatype FleetEvent =
    | Commit(row: Row)                       // a producer's transaction adds an event
    | Begin(relay: int)
    | Send(relay: int)
    | Arrive(send: nat)
    | Acknowledge(relay: int)
    | GiveUp(relay: int)                     // the send fails or times out
    | Finish(relay: int, now: int)
    | Abort(relay: int)                      // rollback or crash
    | Clean(before: int)

  /** Event ids are drawn at random. */
  predicate IsNew(f: Fleet, id: int) {
    && id !in f.log && !IsLocked(f, id) && (forall r :: r in f.rows ==> r.id != id)
    && (forall n :: n in f.onTheWire ==> f.onTheWire[n] != id)
  }

  predicate IsSending(f: Fleet, r: int) {
    r in f.relays && !f.relays[r].stopped && f.relays[r].acked < |f.relays[r].claimed|
  }

  /** Events of one aggregate are committed one after the other, as with a single relay. */
  predicate Can(f: Fleet, e: FleetEvent) {
    match e
    case Commit(row) =>
      IsWaiting(row) && IsNew(f, row.id) && forall r :: r in f.rows && r.aggregate == row.aggregate ==> Before(r, row)
    case Begin(r) => r !in f.relays
    case Send(r) => IsSending(f, r) && f.relays[r].awaiting.None?
    case Arrive(n) => n in f.onTheWire
    case Acknowledge(r) => IsSending(f, r) && f.relays[r].awaiting.Some? && f.relays[r].awaiting.value !in f.onTheWire
    case GiveUp(r) => IsSending(f, r) && f.relays[r].awaiting.Some?
    case Finish(r, _) => r in f.relays && (f.relays[r].stopped || f.relays[r].acked == |f.relays[r].claimed|)
    case Abort(r) => r in f.relays
    case Clean(_) => true
  }

  function Answered(t: Transaction): seq<int> { if t.acked < |t.claimed| then t.claimed[..t.acked] else t.claimed }

  function FailedAt(t: Transaction): Option<int> { if t.acked < |t.claimed| then Some(t.claimed[t.acked]) else None }

  /** What a finishing transaction writes: its acknowledged rows, and the row it gave up on. */
  function Finished(rows: seq<Row>, t: Transaction, now: int): seq<Row> {
    MarkRows(rows, Answered(t), FailedAt(t), now)
  }

  function Do(f: Fleet, e: FleetEvent): Fleet {
    if !Can(f, e) then f
    else match e
      case Commit(row) => f.(rows := InsertRow(f.rows, row))
      case Begin(r) => f.(relays := f.relays[r := Transaction(ClaimUnlocked(f), 0, None, false)])
      case Send(r) =>
        f.(onTheWire := f.onTheWire[f.sends := f.relays[r].claimed[f.relays[r].acked]], sends := f.sends + 1,
           relays := f.relays[r := f.relays[r].(awaiting := Some(f.sends))])
      case Arrive(n) => f.(log := f.log + [f.onTheWire[n]], onTheWire := f.onTheWire - {n})
      case Acknowledge(r) => f.(relays := f.relays[r := f.relays[r].(acked := f.relays[r].acked + 1, awaiting := None)])
      case GiveUp(r) => f.(relays := f.relays[r := f.relays[r].(awaiting := None, stopped := true)])
      case Finish(r, now) => f.(rows := Finished(f.rows, f.relays[r], now), relays := f.relays - {r})
      case Abort(r) => f.(relays := f.relays - {r})
      case Clean(before) => f.(rows := DeletePublished(f.rows, before))
  }

  function Play(events: seq<FleetEvent>): Fleet {
    if events == [] then Fleet([], [], map[], 0, map[]) else Do(Play(events[..|events| - 1]), events[|events| - 1])
  }

  /* ---------- what every run keeps ---------- */

  predicate Disjoint(f: Fleet) {
    forall a, b, id :: a in f.relays && b in f.relays && a != b && id in f.relays[a].claimed ==> id !in f.relays[b].claimed
  }

  predicate AckedInLog(f: Fleet) {
    forall r :: r in f.relays ==>
      f.relays[r].acked <= |f.relays[r].claimed| && forall i :: 0 <= i < f.relays[r].acked ==> f.relays[r].claimed[i] in f.log
  }

  /** A relay that awaits an answer has the row it is at on the wire, or that copy has arrived. */
  predicate AwaitsOwn(f: Fleet, t: Transaction) {
    t.awaiting.Some? ==>
      && t.acked < |t.claimed| && t.awaiting.value < f.sends
      && (if t.awaiting.value in f.onTheWire then f.onTheWire[t.awaiting.value] == t.claimed[t.acked] else t.claimed[t.acked] in f.log)
  }

  predicate WireInv(f: Fleet) {
    (forall n :: n in f.onTheWire ==> n < f.sends) && forall r :: r in f.relays ==> AwaitsOwn(f, f.relays[r])
  }

  predicate Kept(f: Fleet) { Disjoint(f) && AckedInLog(f) && WireInv(f) && NothingLost(State(f.rows, f.log)) }

  lemma {:induction false} UnlockedAreFree(f: Fleet, rows: seq<Row>, row: Row)
    requires row in Unlocked(f, rows)
    ensures !IsLocked(f, row.id)
  {
    if row in Unlocked(f, rows[..|rows| - 1]) {
      UnlockedAreFree(f, rows[..|rows| - 1], row);
    }
  }

  /** SKIP LOCKED: what a relay claims, no other relay holds. */
  lemma BeginKeepsDisjoint(f: Fleet, r: int)
    requires Disjoint(f) && Can(f, Begin(r))
    ensures Disjoint(Do(f, Begin(r)))
  {
    var free := Unlocked(f, Waiting(f.rows));
    forall id | id in ClaimUnlocked(f) ensures !IsLocked(f, id) {
      var i :| 0 <= i < |ClaimUnlocked(f)| && ClaimUnlocked(f)[i] == id;
      assert free[i] in free;
      UnlockedAreFree(f, Waiting(f.rows), free[i]);
    }
    var g := Do(f, Begin(r));
    forall a, b, id | a in g.relays && b in g.relays && a != b && id in g.relays[a].claimed ensures id !in g.relays[b].claimed {
      if b == r {
        assert IsLocked(f, id);
      } else if a == r {
        assert !IsLocked(f, id);
      }
    }
  }

  lemma FinishLosesNothing(f: Fleet, r: int, now: int)
    requires Kept(f) && Can(f, Finish(r, now))
    ensures NothingLost(State(Finished(f.rows, f.relays[r], now), f.log))
  {
    var t := f.relays[r];
    var after := MarkRows(f.rows, Answered(t), FailedAt(t), now);
    forall row | row in after ensures (row.publishedAt.Some? ==> row.id in f.log) && (row.deleted ==> row.publishedAt.Some?) {
      MarkedFrom(f.rows, Answered(t), FailedAt(t), now, row);
      if row.id in Answered(t) {
        var i :| 0 <= i < |Answered(t)| && Answered(t)[i] == row.id;
        assert t.claimed[i] in f.log;
      }
    }
  }

  lemma CommitLosesNothing(f: Fleet, row: Row)
    requires Kept(f) && Can(f, Commit(row))
    ensures NothingLost(State(InsertRow(f.rows, row), f.log))
  {
    forall r | r in InsertRow(f.rows, row) ensures (r.publishedAt.Some? ==> r.id in f.log) && (r.deleted ==> r.publishedAt.Some?) {
      InsertedAre(f.rows, row);
    }
  }

  lemma DeletedFrom(rows: seq<Row>, before: int, r: Row)
    requires r in DeletePublished(rows, before)
    ensures exists q :: q in rows && r == DeleteRow(q, before)
  {
    var i :| 0 <= i < |rows| && DeletePublished(rows, before)[i] == r;
    assert rows[i] in rows;
  }

  lemma CleanLosesNothing(f: Fleet, before: int)
    requires Kept(f)
    ensures NothingLost(State(DeletePublished(f.rows, before), f.log))
  {
    forall r | r in DeletePublished(f.rows, before) ensures (r.publishedAt.Some? ==> r.id in f.log) && (r.deleted ==> r.publishedAt.Some?) {
      DeletedFrom(f.rows, before, r);
    }
  }

  lemma WireStep(f: Fleet, e: FleetEvent)
    requires Kept(f)
    ensures WireInv(Do(f, e)) && AckedInLog(Do(f, e))
  {
    var g := Do(f, e);
    forall r | r in g.relays ensures AwaitsOwn(g, g.relays[r]) {
      if r in f.relays {
        assert AwaitsOwn(f, f.relays[r]);
      }
    }
  }

  lemma StepKeeps(f: Fleet, e: FleetEvent)
    requires Kept(f)
    ensures Kept(Do(f, e))
  {
    WireStep(f, e);
    if Can(f, e) {
      match e
      case Commit(row) => CommitLosesNothing(f, row);
      case Begin(r) => BeginKeepsDisjoint(f, r);
      case Finish(r, now) => FinishLosesNothing(f, r, now);
      case Clean(before) => CleanLosesNothing(f, before);
      case _ =>
    }
  }

  lemma {:induction false} KeptForever(events: seq<FleetEvent>)
    ensures Kept(Play(events))
  {
    if events != [] {
      KeptForever(events[..|events| - 1]);
      StepKeeps(Play(events[..|events| - 1]), events[|events| - 1]);
    }
  }

  /** However many relays run, and however late their sends arrive: no row is claimed twice at once, and every committed
      event is waiting in the table or in the log. */
  lemma SeveralRelaysLoseNothing(events: seq<FleetEvent>, row: Row, a: int, b: int, id: int)
    requires row in Play(events).rows
    ensures IsWaiting(row) || row.id in Play(events).log
    ensures a in Play(events).relays && b in Play(events).relays && a != b && id in Play(events).relays[a].claimed ==>
      id !in Play(events).relays[b].claimed
  {
    KeptForever(events);
  }
}
