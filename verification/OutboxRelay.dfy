/**
 The transactional outbox and its relay.  The table is kept in the order in which it is claimed,
 creation time then id.  `rows` also remembers deleted rows, flagged, so that what happened to every
 committed event can be stated.  The log is the sequence of event ids that reached the broker.
 */
module OutboxRelay {
  import opened Wrappers

  datatype Row = Row(id: int, aggregate: int, createdAt: int, publishedAt: Option<int>, attempts: nat, deleted: bool)

  datatype State = State(rows: seq<Row>, log: seq<int>)

  /** A send is acknowledged, or fails; a failed send may have reached the broker all the same. */
  datatype Outcome = Acked | Failed(arrived: bool)

  const BATCH_SIZE: int := 100

  predicate Before(a: Row, b: Row) { a.createdAt < b.createdAt || (a.createdAt == b.createdAt && a.id < b.id) }

  predicate IsWaiting(row: Row) { row.publishedAt.None? && !row.deleted }

  function Waiting(rows: seq<Row>): seq<Row> {
    if rows == [] then []
    else Waiting(rows[..|rows| - 1]) + if IsWaiting(rows[|rows| - 1]) then [rows[|rows| - 1]] else []
  }

  function Claim(rows: seq<Row>): seq<Row> {
    var waiting := Waiting(rows);
    if |waiting| <= BATCH_SIZE then waiting else waiting[..BATCH_SIZE]
  }

  function Ids(rows: seq<Row>): (ids: seq<int>)
    ensures |ids| == |rows| && forall i :: 0 <= i < |rows| ==> ids[i] == rows[i].id
  {
    seq(|rows|, i requires 0 <= i < |rows| => rows[i].id)
  }

  function LeadingAcks(outcomes: seq<Outcome>): (n: nat)
    ensures n <= |outcomes|
    ensures n < |outcomes| ==> outcomes[n].Failed?
    ensures forall i :: 0 <= i < n ==> outcomes[i].Acked?
  {
    if outcomes == [] || outcomes[0].Failed? then 0 else 1 + LeadingAcks(outcomes[1..])
  }

  function MarkRow(row: Row, sent: seq<int>, failed: Option<int>, now: int): Row {
    if row.id in sent then row.(publishedAt := Some(now))
    else if failed == Some(row.id) then row.(attempts := row.attempts + 1)
    else row
  }

  function MarkRows(rows: seq<Row>, sent: seq<int>, failed: Option<int>, now: int): (r: seq<Row>)
    ensures |r| == |rows| && forall i :: 0 <= i < |rows| ==> r[i] == MarkRow(rows[i], sent, failed, now)
  {
    seq(|rows|, i requires 0 <= i < |rows| => MarkRow(rows[i], sent, failed, now))
  }

  /** How many claimed rows are sent and acknowledged. */
  function Sent(rows: seq<Row>, outcomes: seq<Outcome>): (n: nat)
    ensures n <= |Claim(rows)| && n <= |outcomes|
  {
    var acks := LeadingAcks(outcomes);
    if acks <= |Claim(rows)| then acks else |Claim(rows)|
  }

  /** The loop reached the end or its break; otherwise the process died in the middle. */
  predicate Finishes(rows: seq<Row>, outcomes: seq<Outcome>) {
    Sent(rows, outcomes) == |Claim(rows)| || Sent(rows, outcomes) < |outcomes|
  }

  predicate StrayArrival(rows: seq<Row>, outcomes: seq<Outcome>) {
    var n := Sent(rows, outcomes);
    n < |Claim(rows)| && n < |outcomes| && outcomes[n].Failed? && outcomes[n].arrived
  }

  function Appended(rows: seq<Row>, outcomes: seq<Outcome>): seq<int> {
    var n := Sent(rows, outcomes);
    Ids(Claim(rows)[..n]) + if StrayArrival(rows, outcomes) then [Claim(rows)[n].id] else []
  }

  /** One batch: the log keeps whatever was sent; the marks are kept only if the transaction commits. */
  function Relay(s: State, outcomes: seq<Outcome>, commits: bool, now: int): State {
    var n := Sent(s.rows, outcomes);
    State(
      if commits && Finishes(s.rows, outcomes) then
        MarkRows(s.rows, Ids(Claim(s.rows)[..n]), if n < |Claim(s.rows)| then Some(Claim(s.rows)[n].id) else None, now)
      else s.rows,
      s.log + Appended(s.rows, outcomes))
  }

  function InsertRow(rows: seq<Row>, row: Row): seq<Row> {
    if rows == [] || Before(rows[|rows| - 1], row) then rows + [row]
    else InsertRow(rows[..|rows| - 1], row) + [rows[|rows| - 1]]
  }

  function DeleteRow(row: Row, before: int): Row {
    if row.publishedAt.Some? && row.publishedAt.value < before then row.(deleted := true) else row
  }

  function DeletePublished(rows: seq<Row>, before: int): (r: seq<Row>)
    ensures |r| == |rows| && forall i :: 0 <= i < |rows| ==> r[i] == DeleteRow(rows[i], before)
  {
    seq(|rows|, i requires 0 <= i < |rows| => DeleteRow(rows[i], before))
  }

  class OutboxStore {
    var rows: seq<Row>
    var log: seq<int>
    var relaying: bool

    function Contents(): State reads this { State(rows, log) }

    constructor (s: State)
      ensures Contents() == s && !relaying
    {
      rows, log, relaying := s.rows, s.log, false;
    }

    /** relayBatch, with the answers of the broker given; `outcomes` ends where the process dies. */
    method RelayBatch(outcomes: seq<Outcome>, commits: bool, now: int)
      modifies this`rows, this`log
      ensures Contents() == Relay(old(Contents()), outcomes, commits, now)
    {
      var claimed := Claim(rows);
      ghost var n := Sent(rows, outcomes);
      var published: seq<int> := [];
      var failed: Option<int> := None;
      var crashed := false;
      var i := 0;
      while i < |claimed|
        invariant 0 <= i <= n && rows == old(rows)
        invariant published == Ids(claimed[..i]) && log == old(log) + Ids(claimed[..i])
        invariant failed == None && !crashed
        decreases |claimed| - i
      {
        if i == |outcomes| {
          crashed := true;
          break;
        }
        if outcomes[i].Failed? {
          if outcomes[i].arrived {
            log := log + [claimed[i].id];
          }
          failed := Some(claimed[i].id);
          break;
        }
        log := log + [claimed[i].id];
        published := published + [claimed[i].id];
        i := i + 1;
      }
      assert i == n;
      if commits && !crashed {
        rows := MarkRows(rows, published, failed, now);
      }
    }

    /** relay: a run that finds another one still going does nothing, and the flag is always put back. */
    method RelayOnce(outcomes: seq<Outcome>, commits: bool, now: int)
      modifies this
      ensures Contents() == if old(relaying) then old(Contents()) else Relay(old(Contents()), outcomes, commits, now)
      ensures relaying == old(relaying)
    {
      if relaying {
        return;
      }
      relaying := true;
      RelayBatch(outcomes, commits, now);
      relaying := false;
    }
  }

  /* ---------- runs ---------- */

  datatype Event =
    | Insert(row: Row)
    | Batch(outcomes: seq<Outcome>, commits: bool, now: int)
    | Cleanup(before: int)

  /** Events of one aggregate are committed one after the other, each younger than the ones before. */
  predicate Enabled(s: State, e: Event) {
    e.Insert? ==>
      && e.row.publishedAt.None? && !e.row.deleted && e.row.id !in s.log
      && (forall r :: r in s.rows ==> r.id != e.row.id)
      && (forall r :: r in s.rows && r.aggregate == e.row.aggregate ==> Before(r, e.row))
  }

  function Apply(s: State, e: Event): State {
    if !Enabled(s, e) then s
    else match e
      case Insert(row) => s.(rows := InsertRow(s.rows, row))
      case Batch(outcomes, commits, now) => Relay(s, outcomes, commits, now)
      case Cleanup(before) => s.(rows := DeletePublished(s.rows, before))
  }

  function Run(events: seq<Event>): State {
    if events == [] then State([], []) else Apply(Run(events[..|events| - 1]), events[|events| - 1])
  }

  /** The position of the last copy of an event in the log, -1 if there is none. */
  function Last(log: seq<int>, id: int): (p: int)
    ensures -1 <= p < |log|
    ensures p >= 0 <==> id in log
    ensures p >= 0 ==> log[p] == id
  {
    if log == [] then -1
    else if log[|log| - 1] == id then |log| - 1
    else Last(log[..|log| - 1], id)
  }

  predicate Sorted(rows: seq<Row>) { forall i, j :: 0 <= i < j < |rows| ==> Before(rows[i], rows[j]) }

  predicate UniqueIds(rows: seq<Row>) { forall i, j :: 0 <= i < j < |rows| ==> rows[i].id != rows[j].id }

  predicate NothingLost(s: State) {
    forall r :: r in s.rows ==> (r.publishedAt.Some? ==> r.id in s.log) && (r.deleted ==> r.publishedAt.Some?)
  }

  /** A published event has all earlier events of its aggregate published and, in the log, behind it no more. */
  predicate InOrder(s: State) {
    forall a, b :: a in s.rows && b in s.rows && a.aggregate == b.aggregate && Before(a, b) && b.publishedAt.Some? ==>
      a.publishedAt.Some? && Last(s.log, a.id) < Last(s.log, b.id)
  }

  predicate Inv(s: State) { Sorted(s.rows) && UniqueIds(s.rows) && NothingLost(s) && InOrder(s) }

  /* ---------- the claim ---------- */

  lemma {:induction false} WaitingIsSorted(rows: seq<Row>)
    requires Sorted(rows) && UniqueIds(rows)
    ensures Sorted(Waiting(rows)) && UniqueIds(Waiting(rows))
    ensures forall r :: r in Waiting(rows) <==> r in rows && IsWaiting(r)
  {
    if rows != [] {
      var front, last := rows[..|rows| - 1], rows[|rows| - 1];
      WaitingIsSorted(front);
      var waiting := Waiting(front);
      assert rows == front + [last];
      forall i | 0 <= i < |waiting| ensures Before(waiting[i], last) && waiting[i].id != last.id {
        assert waiting[i] in front;
        var k :| 0 <= k < |front| && front[k] == waiting[i];
        assert rows[k] == front[k];
      }
    }
  }

  /** A claimed row comes after every waiting row that precedes it in the table. */
  lemma ClaimIsPrefix(rows: seq<Row>, a: Row, j: nat)
    requires Sorted(rows) && UniqueIds(rows)
    requires j < |Claim(rows)| && a in rows && IsWaiting(a) && Before(a, Claim(rows)[j])
    ensures exists i :: 0 <= i < j && Claim(rows)[i] == a
  {
    WaitingIsSorted(rows);
    var waiting := Waiting(rows);
    assert a in waiting;
    var i :| 0 <= i < |waiting| && waiting[i] == a;
    assert j < i ==> Before(waiting[j], waiting[i]);
    assert waiting[j] == Claim(rows)[j];
    assert Claim(rows)[i] == a;
  }

  /* ---------- the log ---------- */

  lemma {:induction false} LastOfConcat(log: seq<int>, more: seq<int>, id: int)
    ensures Last(log + more, id) == if id in more then |log| + Last(more, id) else Last(log, id)
  {
    if more == [] {
      assert log + more == log;
    } else {
      var front := more[..|more| - 1];
      assert (log + more)[..|log + more| - 1] == log + front;
      LastOfConcat(log, front, id);
    }
  }

  lemma {:induction false} LastOfDistinct(ids: seq<int>, i: nat)
    requires i < |ids| && forall a, b :: 0 <= a < b < |ids| ==> ids[a] != ids[b]
    ensures Last(ids, ids[i]) == i
  {
    if i < |ids| - 1 {
      LastOfDistinct(ids[..|ids| - 1], i);
    }
  }

  /** What a batch adds to the log: claimed rows, each once, in table order. */
  lemma AppendedRows(rows: seq<Row>, outcomes: seq<Outcome>)
    requires Sorted(rows) && UniqueIds(rows)
    ensures |Appended(rows, outcomes)| <= |Claim(rows)|
    ensures Sent(rows, outcomes) <= |Appended(rows, outcomes)|
    ensures forall i :: 0 <= i < |Appended(rows, outcomes)| ==> Appended(rows, outcomes)[i] == Claim(rows)[i].id
    ensures forall i, j :: 0 <= i < j < |Appended(rows, outcomes)| ==> Appended(rows, outcomes)[i] != Appended(rows, outcomes)[j]
  {
    WaitingIsSorted(rows);
  }

  lemma ClaimedIsWaiting(rows: seq<Row>, i: nat)
    requires Sorted(rows) && UniqueIds(rows) && i < |Claim(rows)|
    ensures Claim(rows)[i] in rows && IsWaiting(Claim(rows)[i])
  {
    WaitingIsSorted(rows);
    assert Claim(rows)[i] in Waiting(rows);
  }

  lemma SameIdSameRow(rows: seq<Row>, a: Row, b: Row)
    requires UniqueIds(rows) && a in rows && b in rows && a.id == b.id
    ensures a == b
  {
  }

  /** A published row is not sent again: its last position stays. */
  lemma PublishedStays(s: State, outcomes: seq<Outcome>, r: Row)
    requires Inv(s) && r in s.rows && r.publishedAt.Some?
    ensures r.id !in Appended(s.rows, outcomes)
    ensures Last(s.log + Appended(s.rows, outcomes), r.id) == Last(s.log, r.id)
  {
    var more := Appended(s.rows, outcomes);
    AppendedRows(s.rows, outcomes);
    forall i | 0 <= i < |more| ensures more[i] != r.id {
      ClaimedIsWaiting(s.rows, i);
      var c := Claim(s.rows)[i];
      if c.id == r.id {
        SameIdSameRow(s.rows, r, c);
      }
    }
    LastOfConcat(s.log, more, r.id);
  }

  lemma NewlyPublished(s: State, outcomes: seq<Outcome>, j: nat)
    requires Inv(s) && j < Sent(s.rows, outcomes)
    ensures Last(s.log + Appended(s.rows, outcomes), Claim(s.rows)[j].id) == |s.log| + j
  {
    var more := Appended(s.rows, outcomes);
    AppendedRows(s.rows, outcomes);
    assert more[j] == Claim(s.rows)[j].id;
    LastOfDistinct(more, j);
    LastOfConcat(s.log, more, more[j]);
  }

  /** The row a marked row was before the batch. */
  lemma MarkedFrom(rows: seq<Row>, sent: seq<int>, failed: Option<int>, now: int, r: Row)
    requires r in MarkRows(rows, sent, failed, now)
    ensures exists q :: q in rows && r == MarkRow(q, sent, failed, now)
  {
    var i :| 0 <= i < |rows| && MarkRows(rows, sent, failed, now)[i] == r;
    assert rows[i] in rows;
  }

  lemma MarkKeepsShape(rows: seq<Row>, sent: seq<int>, failed: Option<int>, now: int)
    requires Sorted(rows) && UniqueIds(rows)
    ensures Sorted(MarkRows(rows, sent, failed, now)) && UniqueIds(MarkRows(rows, sent, failed, now))
  {
  }

  /** A batch that dies or rolls back leaves only extra copies of rows that are still unpublished. */
  lemma AbortedBatchKeepsInv(s: State, outcomes: seq<Outcome>)
    requires Inv(s)
    ensures Inv(State(s.rows, s.log + Appended(s.rows, outcomes)))
  {
    var t := State(s.rows, s.log + Appended(s.rows, outcomes));
    forall a, b | a in t.rows && b in t.rows && a.aggregate == b.aggregate && Before(a, b) && b.publishedAt.Some?
      ensures a.publishedAt.Some? && Last(t.log, a.id) < Last(t.log, b.id)
    {
      PublishedStays(s, outcomes, a);
      PublishedStays(s, outcomes, b);
    }
  }

  /** The heart of the order claim, for two rows as they were before a committed batch. */
  lemma CommittedPair(s: State, outcomes: seq<Outcome>, a: Row, b: Row)
    requires Inv(s) && a in s.rows && b in s.rows && a.aggregate == b.aggregate && Before(a, b)
    requires b.publishedAt.Some? || b.id in Ids(Claim(s.rows)[..Sent(s.rows, outcomes)])
    ensures a.publishedAt.Some? || a.id in Ids(Claim(s.rows)[..Sent(s.rows, outcomes)])
    ensures Last(s.log + Appended(s.rows, outcomes), a.id) < Last(s.log + Appended(s.rows, outcomes), b.id)
  {
    if b.publishedAt.Some? {
      PublishedStays(s, outcomes, a);
      PublishedStays(s, outcomes, b);
    } else {
      var claimed, n := Claim(s.rows), Sent(s.rows, outcomes);
      var j :| 0 <= j < n && Ids(claimed[..n])[j] == b.id;
      ClaimedIsWaiting(s.rows, j);
      SameIdSameRow(s.rows, claimed[j], b);
      NewlyPublished(s, outcomes, j);
      if a.publishedAt.Some? {
        PublishedStays(s, outcomes, a);
      } else {
        ClaimIsPrefix(s.rows, a, j);
        var i :| 0 <= i < j && claimed[i] == a;
        assert Ids(claimed[..n])[i] == a.id;
        NewlyPublished(s, outcomes, i);
      }
    }
  }

  lemma CommittedNothingLost(s: State, sent: seq<int>, more: seq<int>, failed: Option<int>, now: int)
    requires NothingLost(s) && sent <= more
    ensures NothingLost(State(MarkRows(s.rows, sent, failed, now), s.log + more))
  {
    var t := State(MarkRows(s.rows, sent, failed, now), s.log + more);
    forall r | r in t.rows ensures (r.publishedAt.Some? ==> r.id in t.log) && (r.deleted ==> r.publishedAt.Some?) {
      MarkedFrom(s.rows, sent, failed, now, r);
      if r.id in sent {
        var i :| 0 <= i < |sent| && sent[i] == r.id;
        assert more[i] == r.id;
      }
    }
  }

  lemma CommittedInOrder(s: State, outcomes: seq<Outcome>, sent: seq<int>, failed: Option<int>, now: int)
    requires Inv(s) && sent == Ids(Claim(s.rows)[..Sent(s.rows, outcomes)])
    ensures InOrder(State(MarkRows(s.rows, sent, failed, now), s.log + Appended(s.rows, outcomes)))
  {
    var t := State(MarkRows(s.rows, sent, failed, now), s.log + Appended(s.rows, outcomes));
    forall a, b | a in t.rows && b in t.rows && a.aggregate == b.aggregate && Before(a, b) && b.publishedAt.Some?
      ensures a.publishedAt.Some? && Last(t.log, a.id) < Last(t.log, b.id)
    {
      MarkedFrom(s.rows, sent, failed, now, a);
      MarkedFrom(s.rows, sent, failed, now, b);
      var p :| p in s.rows && a == MarkRow(p, sent, failed, now);
      var q :| q in s.rows && b == MarkRow(q, sent, failed, now);
      CommittedPair(s, outcomes, p, q);
    }
  }

  lemma CommittedBatchKeepsInv(s: State, outcomes: seq<Outcome>, failed: Option<int>, now: int)
    requires Inv(s)
    ensures Inv(State(MarkRows(s.rows, Ids(Claim(s.rows)[..Sent(s.rows, outcomes)]), failed, now), s.log + Appended(s.rows, outcomes)))
  {
    var sent := Ids(Claim(s.rows)[..Sent(s.rows, outcomes)]);
    MarkKeepsShape(s.rows, sent, failed, now);
    CommittedNothingLost(s, sent, Appended(s.rows, outcomes), failed, now);
    CommittedInOrder(s, outcomes, sent, failed, now);
  }

  lemma {:induction false} InsertedAre(rows: seq<Row>, row: Row)
    ensures forall r :: r in InsertRow(rows, row) <==> r in rows || r == row
  {
    if rows != [] && !Before(rows[|rows| - 1], row) {
      InsertedAre(rows[..|rows| - 1], row);
      assert rows == rows[..|rows| - 1] + [rows[|rows| - 1]];
    }
  }

  lemma {:induction false} InsertKeepsSorted(rows: seq<Row>, row: Row)
    requires Sorted(rows) && UniqueIds(rows) && forall r :: r in rows ==> r.id != row.id
    ensures Sorted(InsertRow(rows, row)) && UniqueIds(InsertRow(rows, row))
  {
    if rows != [] && !Before(rows[|rows| - 1], row) {
      var front, last := rows[..|rows| - 1], rows[|rows| - 1];
      InsertKeepsSorted(front, row);
      InsertedAre(front, row);
      var inserted := InsertRow(front, row);
      forall i | 0 <= i < |inserted| ensures Before(inserted[i], last) && inserted[i].id != last.id {
        assert inserted[i] in inserted;
        if inserted[i] in front {
          var k :| 0 <= k < |front| && front[k] == inserted[i];
          assert rows[k] == front[k];
        } else {
          assert last in rows;
        }
      }
    } else if rows != [] {
      forall i | 0 <= i < |rows| ensures Before(rows[i], row) && rows[i].id != row.id {
        assert rows[i] in rows;
        assert i < |rows| - 1 ==> Before(rows[i], rows[|rows| - 1]);
      }
    }
  }

  lemma InsertKeepsInv(s: State, row: Row)
    requires Inv(s) && Enabled(s, Insert(row))
    ensures Inv(s.(rows := InsertRow(s.rows, row)))
  {
    InsertKeepsSorted(s.rows, row);
    InsertedAre(s.rows, row);
  }

  lemma CleanupKeepsInv(s: State, before: int)
    requires Inv(s)
    ensures Inv(s.(rows := DeletePublished(s.rows, before)))
  {
    var t := s.(rows := DeletePublished(s.rows, before));
    forall r | r in t.rows ensures exists q :: q in s.rows && r == DeleteRow(q, before) {
      var i :| 0 <= i < |t.rows| && t.rows[i] == r;
      assert s.rows[i] in s.rows;
    }
    forall a, b | a in t.rows && b in t.rows && a.aggregate == b.aggregate && Before(a, b) && b.publishedAt.Some?
      ensures a.publishedAt.Some? && Last(t.log, a.id) < Last(t.log, b.id)
    {
      var p :| p in s.rows && a == DeleteRow(p, before);
      var q :| q in s.rows && b == DeleteRow(q, before);
      assert Before(p, q);
    }
  }

  lemma StepKeepsInv(s: State, e: Event)
    requires Inv(s)
    ensures Inv(Apply(s, e))
  {
    if Enabled(s, e) {
      match e
      case Insert(row) => InsertKeepsInv(s, row);
      case Batch(outcomes, commits, now) =>
        var n := Sent(s.rows, outcomes);
        if commits && Finishes(s.rows, outcomes) {
          CommittedBatchKeepsInv(s, outcomes, if n < |Claim(s.rows)| then Some(Claim(s.rows)[n].id) else None, now);
        } else {
          AbortedBatchKeepsInv(s, outcomes);
        }
      case Cleanup(before) => CleanupKeepsInv(s, before);
    }
  }

  /** In every run, with failed sends, lost acknowledgements, crashes and cleanups: every committed event is
      waiting in the table or in the log, only sent rows are deleted, and the events of an aggregate
      are published in their order. */
  lemma {:induction false} NothingLostAndInOrder(events: seq<Event>)
    ensures Inv(Run(events))
  {
    if events != [] {
      NothingLostAndInOrder(events[..|events| - 1]);
      StepKeepsInv(Run(events[..|events| - 1]), events[|events| - 1]);
    }
  }

  /** Spelt out for one committed event and one pair of events. */
  lemma EventIsWaitingOrSent(events: seq<Event>, r: Row)
    requires r in Run(events).rows
    ensures IsWaiting(r) || r.id in Run(events).log
  {
    NothingLostAndInOrder(events);
  }

  lemma LaterEventIsLastInLog(events: seq<Event>, a: Row, b: Row)
    requires a in Run(events).rows && b in Run(events).rows && a.aggregate == b.aggregate && Before(a, b)
    requires b.publishedAt.Some?
    ensures a.publishedAt.Some? && 0 <= Last(Run(events).log, a.id) < Last(Run(events).log, b.id)
  {
    NothingLostAndInOrder(events);
  }

  /* ---------- what a committed batch does to the table ---------- */

  /** The j-th claimed row was acknowledged, and every one before it. */
  predicate AckedUpTo(outcomes: seq<Outcome>, j: nat) { j < |outcomes| && forall k :: 0 <= k <= j ==> outcomes[k].Acked? }

  lemma AckedAreSent(rows: seq<Row>, outcomes: seq<Outcome>, j: nat)
    requires j < |Claim(rows)|
    ensures j < Sent(rows, outcomes) <==> AckedUpTo(outcomes, j)
  {
    var acks := LeadingAcks(outcomes);
    assert acks < |outcomes| ==> outcomes[acks].Failed?;
  }

  lemma IdsOfClaim(rows: seq<Row>, n: nat, id: int)
    requires n <= |Claim(rows)|
    ensures id in Ids(Claim(rows)[..n]) <==> exists j :: 0 <= j < n && Claim(rows)[j].id == id
  {
    var ids := Ids(Claim(rows)[..n]);
    if id in ids {
      var j :| 0 <= j < n && ids[j] == id;
      assert Claim(rows)[j].id == id;
    }
    if j :| 0 <= j < n && Claim(rows)[j].id == id {
      assert ids[j] == id;
    }
  }

  /** After a committed batch a row is published exactly if it was, or if it was claimed and it and all claimed before it
      were acknowledged; it is then stamped with the time of the batch. */
  lemma CommittedBatchPublishes(s: State, outcomes: seq<Outcome>, now: int, i: nat)
    requires Sorted(s.rows) && UniqueIds(s.rows) && Finishes(s.rows, outcomes) && i < |s.rows|
    ensures var r, t := s.rows[i], Relay(s, outcomes, true, now);
            |t.rows| == |s.rows| && t.rows[i] == r.(publishedAt := t.rows[i].publishedAt, attempts := t.rows[i].attempts)
            && (t.rows[i].publishedAt.Some? <==> r.publishedAt.Some? || IsAcked(s.rows, outcomes, r))
            && (t.rows[i].publishedAt.Some? && r.publishedAt.None? ==> t.rows[i].publishedAt == Some(now))
  {
    var n := Sent(s.rows, outcomes);
    IdsOfClaim(s.rows, n, s.rows[i].id);
    forall j: nat | j < |Claim(s.rows)| ensures j < n <==> AckedUpTo(outcomes, j) {
      AckedAreSent(s.rows, outcomes, j);
    }
  }

  ghost predicate IsAcked(rows: seq<Row>, outcomes: seq<Outcome>, r: Row) {
    exists j: nat :: j < |Claim(rows)| && Claim(rows)[j].id == r.id && AckedUpTo(outcomes, j)
  }

  /** And the row whose send failed, and no other, has one attempt more. */
  lemma CommittedBatchCounts(s: State, outcomes: seq<Outcome>, now: int, i: nat)
    requires Sorted(s.rows) && UniqueIds(s.rows) && Finishes(s.rows, outcomes) && i < |s.rows|
    ensures var r, t := s.rows[i], Relay(s, outcomes, true, now);
            t.rows[i].attempts == r.attempts + if IsGivenUp(s.rows, outcomes, r) then 1 else 0
  {
    var n, claimed := Sent(s.rows, outcomes), Claim(s.rows);
    IdsOfClaim(s.rows, n, s.rows[i].id);
    if n < |claimed| {
      assert n == LeadingAcks(outcomes) && outcomes[n].Failed?;
      forall j | 0 <= j < n ensures claimed[j].id != claimed[n].id {
        ClaimedDiffer(s.rows, j, n);
      }
    }
    forall j: nat | j < |claimed| && claimed[j].id == s.rows[i].id && FirstFailure(outcomes, j) ensures j == n {
      assert !(j < n) && !(n < j);
    }
  }

  lemma ClaimedDiffer(rows: seq<Row>, i: nat, j: nat)
    requires Sorted(rows) && UniqueIds(rows) && i < j < |Claim(rows)|
    ensures Claim(rows)[i].id != Claim(rows)[j].id
  {
    WaitingIsSorted(rows);
  }

  /** The send at position j failed, and none before it did. */
  predicate FirstFailure(outcomes: seq<Outcome>, j: nat) {
    j < |outcomes| && outcomes[j].Failed? && forall k :: 0 <= k < j ==> outcomes[k].Acked?
  }

  ghost predicate IsGivenUp(rows: seq<Row>, outcomes: seq<Outcome>, r: Row) {
    exists j: nat :: j < |Claim(rows)| && Claim(rows)[j].id == r.id && FirstFailure(outcomes, j)
  }

  /** Cleanup deletes exactly the rows published before the given moment. */
  lemma CleanupMeaning(rows: seq<Row>, before: int, i: nat)
    requires i < |rows|
    ensures var r, t := rows[i], DeletePublished(rows, before)[i];
            t == r.(deleted := t.deleted) && (t.deleted <==> r.deleted || (r.publishedAt.Some? && r.publishedAt.value < before))
  {
  }

  /* ---------- the table is drained ---------- */

  function AllAcked(n: nat): (outcomes: seq<Outcome>)
    ensures |outcomes| == n && forall i :: 0 <= i < n ==> outcomes[i].Acked?
  {
    seq(n, i => Acked)
  }

  /** k batches in a row in which every send is acknowledged. */
  function RelayAll(s: State, k: nat, now: int): State {
    if k == 0 then s else var t := RelayAll(s, k - 1, now); Relay(t, AllAcked(|Claim(t.rows)|), true, now)
  }

  function Unsent(rows: seq<Row>, sent: seq<int>): seq<Row> {
    if rows == [] then []
    else Unsent(rows[..|rows| - 1], sent) + if rows[|rows| - 1].id in sent then [] else [rows[|rows| - 1]]
  }

  lemma {:induction false} WaitingAfterMarks(rows: seq<Row>, sent: seq<int>, now: int)
    ensures Waiting(MarkRows(rows, sent, None, now)) == Unsent(Waiting(rows), sent)
  {
    if rows != [] {
      var front, last := rows[..|rows| - 1], rows[|rows| - 1];
      WaitingAfterMarks(front, sent, now);
      var marked := MarkRows(rows, sent, None, now);
      assert marked[..|rows| - 1] == MarkRows(front, sent, None, now);
      assert IsWaiting(marked[|rows| - 1]) <==> IsWaiting(last) && last.id !in sent;
      if IsWaiting(last) {
        assert Waiting(rows) == Waiting(front) + [last];
        assert Waiting(rows)[..|Waiting(rows)| - 1] == Waiting(front);
        assert last.id !in sent ==> marked[|rows| - 1] == last;
      } else {
        assert Waiting(rows) == Waiting(front);
      }
      assert Waiting(marked) == Waiting(marked[..|rows| - 1]) + if IsWaiting(marked[|rows| - 1]) then [marked[|rows| - 1]] else [];
    }
  }

  lemma {:induction false} UnsentIsSuffix(rows: seq<Row>, n: nat)
    requires UniqueIds(rows) && n <= |rows|
    ensures Unsent(rows, Ids(rows[..n])) == rows[n..]
  {
    UnsentPart(rows, Ids(rows[..n]), n, |rows|);
    assert rows[..|rows|] == rows;
  }

  lemma {:induction false} UnsentPart(rows: seq<Row>, sent: seq<int>, n: nat, m: nat)
    requires UniqueIds(rows) && n <= |rows| && m <= |rows| && sent == Ids(rows[..n])
    ensures Unsent(rows[..m], sent) == if m <= n then [] else rows[n..m]
  {
    if m > 0 {
      UnsentPart(rows, sent, n, m - 1);
      assert rows[..m][..m - 1] == rows[..m - 1];
      var last := rows[m - 1];
      if m <= n {
        assert sent[m - 1] == last.id;
      } else {
        assert last.id !in sent by {
          forall i | 0 <= i < |sent| ensures sent[i] != last.id {
            assert sent[i] == rows[i].id;
          }
        }
        assert rows[n..m - 1] + [last] == rows[n..m];
      }
    }
  }

  /** A fully acknowledged batch takes the oldest hundred waiting rows off the list. */
  lemma FullBatchAdvances(s: State, now: int)
    requires Sorted(s.rows) && UniqueIds(s.rows)
    ensures var t := Relay(s, AllAcked(|Claim(s.rows)|), true, now);
            Waiting(t.rows) == Waiting(s.rows)[if |Waiting(s.rows)| <= 100 then |Waiting(s.rows)| else 100..]
            && Sorted(t.rows) && UniqueIds(t.rows)
  {
    var waiting, n := Waiting(s.rows), |Claim(s.rows)|;
    WaitingIsSorted(s.rows);
    AllAcksLead(n);
    var sent := Ids(Claim(s.rows)[..n]);
    assert Claim(s.rows)[..n] == waiting[..n];
    WaitingAfterMarks(s.rows, sent, now);
    UnsentIsSuffix(waiting, n);
    MarkKeepsShape(s.rows, sent, None, now);
  }

  lemma AllAcksLead(n: nat)
    ensures LeadingAcks(AllAcked(n)) == n
  {
  }

  /** Batches of a hundred, fully acknowledged, leave no row waiting once there have been enough of them. */
  lemma {:induction false} Drains(s: State, k: nat, now: int)
    requires Sorted(s.rows) && UniqueIds(s.rows)
    ensures var t := RelayAll(s, k, now);
            Sorted(t.rows) && UniqueIds(t.rows)
            && |Waiting(t.rows)| == if |Waiting(s.rows)| <= 100 * k then 0 else |Waiting(s.rows)| - 100 * k
  {
    if k > 0 {
      Drains(s, k - 1, now);
      var t := RelayAll(s, k - 1, now);
      FullBatchAdvances(t, now);
      assert RelayAll(s, k, now) == Relay(t, AllAcked(|Claim(t.rows)|), true, now);
    }
  }
}
