/**
 The two ways in which an aggregate's events really do get out of order.
 */
module FleetRuns {
  import opened Wrappers
  import opened OutboxRelay
  import opened RelayFleet
  import opened FleetOrder

  lemma PlayThen(events: seq<FleetEvent>, e: FleetEvent)
    ensures Play(events + [e]) == Do(Play(events), e)
  {
    assert (events + [e])[..|events + [e]| - 1] == events;
  }

  const FIRST: Row := Row(1, 9, 1, None, 0, false)
  const SECOND: Row := Row(2, 9, 2, None, 0, false)

  lemma ClaimsOfOne(f: Fleet, row: Row)
    requires f.rows == [row] && IsWaiting(row) && f.relays == map[]
    ensures ClaimUnlocked(f) == [row.id]
  {
    assert [row][..0] == [];
    assert Waiting([]) == [] && Waiting([row]) == [row];
    assert Unlocked(f, []) == [] && Unlocked(f, [row]) == [row];
  }

  lemma ClaimsOfTheOther(f: Fleet)
    requires f.rows == [FIRST, SECOND] && f.relays.Keys == {1} && f.relays[1].claimed == [1]
    ensures ClaimUnlocked(f) == [2]
  {
    assert [FIRST, SECOND][..1] == [FIRST] && [FIRST][..0] == [];
    assert Waiting([]) == [] && Waiting([FIRST]) == [FIRST] && Waiting([FIRST, SECOND]) == [FIRST, SECOND];
    assert IsLocked(f, 1) by {
      assert 1 in f.relays && 1 in f.relays[1].claimed;
    }
    assert !IsLocked(f, 2);
    assert Unlocked(f, []) == [] && Unlocked(f, [FIRST]) == [] && Unlocked(f, [FIRST, SECOND]) == [SECOND];
  }

  /* ---------- two relays ---------- */

  /** One relay holds the first event; another takes the second. */
  lemma TwoRelaysAtWork() returns (events: seq<FleetEvent>)
    ensures Play(events)
         == Fleet([FIRST, SECOND], [], map[], 0, map[1 := Transaction([1], 0, None, false), 2 := Transaction([2], 0, None, false)])
  {
    events := [Commit(FIRST)];
    assert [] + [Commit(FIRST)] == events;
    PlayThen([], Commit(FIRST));
    assert Play(events).rows == [FIRST];
    ClaimsOfOne(Play(events), FIRST);
    PlayThen(events, Begin(1));
    events := events + [Begin(1)];
    PlayThen(events, Commit(SECOND));
    events := events + [Commit(SECOND)];
    assert Play(events).rows == [FIRST, SECOND];
    ClaimsOfTheOther(Play(events));
    PlayThen(events, Begin(2));
    events := events + [Begin(2)];
  }

  lemma SecondPublished(b: Row) returns (events: seq<FleetEvent>)
    requires b == SECOND.(publishedAt := Some(5))
    ensures Play(events).rows == [FIRST, b] && Play(events).log == [2]
  {
    events := TwoRelaysAtWork();
    PlayThen(events, Send(2));
    events := events + [Send(2)];
    assert Play(events).onTheWire == map[0 := 2] && Play(events).relays[2] == Transaction([2], 0, Some(0), false);
    PlayThen(events, Arrive(0));
    events := events + [Arrive(0)];
    assert Play(events).onTheWire == map[];
    PlayThen(events, Acknowledge(2));
    events := events + [Acknowledge(2)];
    assert Play(events).relays[2] == Transaction([2], 1, None, false);
    PlayThen(events, Finish(2, 5));
    events := events + [Finish(2, 5)];
    assert MarkRows([FIRST, SECOND], [2], None, 5) == [FIRST, b];
  }

  /** Then the later event of the aggregate is published while the earlier one still waits. */
  lemma SeveralRelaysReorder()
    ensures exists events, a: Row, b: Row ::
      && a in Play(events).rows && b in Play(events).rows && a.aggregate == b.aggregate && Before(a, b)
      && b.publishedAt.Some? && IsWaiting(a) && a.id !in Play(events).log
  {
    var b := SECOND.(publishedAt := Some(5));
    var events := SecondPublished(b);
    assert FIRST in Play(events).rows && b in Play(events).rows;
  }

  /* ---------- one relay and a late copy ---------- */

  /** A batch of one row whose send times out: its copy stays on the wire. */
  lemma TimeOutOne(events: seq<FleetEvent>, id: int, now: int) returns (after: seq<FleetEvent>)
    requires Play(events).relays == map[] && ClaimUnlocked(Play(events)) == [id]
    ensures var f := Play(events);
            Play(after) == Fleet(MarkRows(f.rows, [], Some(id), now), f.log, f.onTheWire[f.sends := id], f.sends + 1, map[])
  {
    var e1, e2, e3, e4 := Begin(1), Send(1), GiveUp(1), Finish(1, now);
    PlayThen(events, e1);
    PlayThen(events + [e1], e2);
    PlayThen(events + [e1] + [e2], e3);
    PlayThen(events + [e1] + [e2] + [e3], e4);
    after := events + [e1] + [e2] + [e3] + [e4];
    assert Play(events + [e1] + [e2] + [e3]).relays == map[1 := Transaction([id], 0, None, true)];
  }

  /** A batch of one row that goes through: its copy arrives and leaves the wire. */
  lemma PublishOne(events: seq<FleetEvent>, id: int, now: int) returns (after: seq<FleetEvent>)
    requires Play(events).relays == map[] && ClaimUnlocked(Play(events)) == [id] && Play(events).sends !in Play(events).onTheWire
    ensures var f := Play(events);
            Play(after) == Fleet(MarkRows(f.rows, [id], None, now), f.log + [id], f.onTheWire, f.sends + 1, map[])
  {
    var f := Play(events);
    var e1, e2, e3, e4, e5 := Begin(1), Send(1), Arrive(f.sends), Acknowledge(1), Finish(1, now);
    PlayThen(events, e1);
    PlayThen(events + [e1], e2);
    PlayThen(events + [e1] + [e2], e3);
    PlayThen(events + [e1] + [e2] + [e3], e4);
    PlayThen(events + [e1] + [e2] + [e3] + [e4], e5);
    after := events + [e1] + [e2] + [e3] + [e4] + [e5];
    assert Play(events + [e1] + [e2] + [e3]).onTheWire == f.onTheWire;
    assert Play(events + [e1] + [e2] + [e3] + [e4]).relays == map[1 := Transaction([id], 1, None, false)];
  }

  lemma ClaimsOfTheSecond(f: Fleet, first: Row, second: Row)
    requires f.rows == [first, second] && !IsWaiting(first) && IsWaiting(second) && f.relays == map[]
    ensures ClaimUnlocked(f) == [second.id]
  {
    WaitingAfterPublished(first, second);
    assert [second][..0] == [];
    assert Unlocked(f, []) == [];
    assert !IsLocked(f, second.id);
    assert Unlocked(f, [second]) == [second];
  }

  lemma WaitingAfterPublished(first: Row, second: Row)
    requires !IsWaiting(first) && IsWaiting(second)
    ensures Waiting([first, second]) == [second]
  {
    assert [first, second][..1] == [first] && [first][..0] == [];
    assert Waiting([]) == [];
    assert Waiting([first]) == [];
  }

  /** The first event's send times out; a second send publishes it; the first copy is still under way. */
  lemma FirstSentTwice(a: Row) returns (events: seq<FleetEvent>)
    requires a == FIRST.(attempts := 1, publishedAt := Some(5))
    ensures Play(events) == Fleet([a], [1], map[0 := 1], 2, map[])
  {
    events := [Commit(FIRST)];
    assert [] + [Commit(FIRST)] == events;
    PlayThen([], Commit(FIRST));
    ClaimsOfOne(Play(events), FIRST);
    events := TimeOutOne(events, 1, 3);
    var tried := FIRST.(attempts := 1);
    assert MarkRows([FIRST], [], Some(1), 3) == [tried];
    ClaimsOfOne(Play(events), tried);
    events := PublishOne(events, 1, 5);
    assert MarkRows([tried], [1], None, 5) == [a];
  }

  lemma BothPublished(a: Row, b: Row) returns (events: seq<FleetEvent>)
    requires a == FIRST.(attempts := 1, publishedAt := Some(5)) && b == SECOND.(publishedAt := Some(6))
    ensures Play(events) == Fleet([a, b], [1] + [2], map[0 := 1], 3, map[])
  {
    events := FirstSentTwice(a);
    PlayThen(events, Commit(SECOND));
    events := events + [Commit(SECOND)];
    assert InsertRow([a], SECOND) == [a, SECOND];
    ClaimsOfTheSecond(Play(events), a, SECOND);
    events := PublishOne(events, 2, 6);
    assert MarkRows([a, SECOND], [2], None, 6) == [a, b];
  }

  lemma LastOfThree()
    ensures Last([1] + [2] + [1], 1) == 2 && Last([1] + [2] + [1], 2) == 1
  {
    LastOfConcat([1] + [2], [1], 1);
    LastOfConcat([1] + [2], [1], 2);
    LastOfConcat([1], [2], 2);
  }

  /** One relay, one batch at a time, both events published in order; then the copy of the timed-out send arrives. */
  lemma LateCopyReorders()
    ensures exists events, a: Row, b: Row ::
      && a in Play(events).rows && b in Play(events).rows && a.aggregate == b.aggregate && Before(a, b)
      && a.publishedAt.Some? && b.publishedAt.Some? && Last(Play(events).log, a.id) > Last(Play(events).log, b.id)
  {
    var a, b := FIRST.(attempts := 1, publishedAt := Some(5)), SECOND.(publishedAt := Some(6));
    var events := BothPublished(a, b);
    PlayThen(events, Arrive(0));
    var late := events + [Arrive(0)];
    assert Play(late).log == [1] + [2] + [1];
    LastOfThree();
    assert Play(late).rows == [a, b];
    assert a in Play(late).rows && b in Play(late).rows;
  }

  /* ---------- a copy behind one that has arrived but is not acknowledged ---------- */

  lemma ClaimsOfBoth(f: Fleet, first: Row)
    requires f.rows == [first, SECOND] && first.id == 1 && IsWaiting(first) && f.relays == map[]
    ensures ClaimUnlocked(f) == [1, 2]
  {
    assert [first, SECOND][..1] == [first] && [first][..0] == [];
    assert Waiting([]) == [] && Waiting([first]) == [first];
    assert Waiting([first, SECOND]) == [first, SECOND];
    assert !IsLocked(f, 1) && !IsLocked(f, 2);
    assert Unlocked(f, []) == [] && Unlocked(f, [first]) == [first];
    assert Unlocked(f, [first, SECOND]) == [first, SECOND];
  }

  /** The first event's send has timed out, and both events are claimed together. */
  lemma BothClaimed(first: Row) returns (events: seq<FleetEvent>)
    requires first == FIRST.(attempts := 1)
    ensures Play(events) == Fleet([first, SECOND], [], map[0 := 1], 1, map[1 := Transaction([1, 2], 0, None, false)])
  {
    events := [Commit(FIRST)];
    assert [] + [Commit(FIRST)] == events;
    PlayThen([], Commit(FIRST));
    ClaimsOfOne(Play(events), FIRST);
    events := TimeOutOne(events, 1, 3);
    assert MarkRows([FIRST], [], Some(1), 3) == [first];
    PlayThen(events, Commit(SECOND));
    events := events + [Commit(SECOND)];
    assert InsertRow([first], SECOND) == [first, SECOND];
    ClaimsOfBoth(Play(events), first);
    PlayThen(events, Begin(1));
    events := events + [Begin(1)];
  }

  /** One more row of the batch is sent, and its copy arrives. */
  lemma SendAndArrive(events: seq<FleetEvent>, f: Fleet, i: nat) returns (after: seq<FleetEvent>)
    requires Play(events) == f && f.relays == map[1 := Transaction([1, 2], i, None, false)] && i < 2 && f.sends !in f.onTheWire
    ensures Play(after) == f.(log := f.log + [i + 1], sends := f.sends + 1, relays := map[1 := Transaction([1, 2], i, Some(f.sends), false)])
  {
    PlayThen(events, Send(1));
    PlayThen(events + [Send(1)], Arrive(f.sends));
    after := events + [Send(1)] + [Arrive(f.sends)];
    assert Play(events + [Send(1)]).onTheWire - {f.sends} == f.onTheWire;
  }

  lemma AnswerOne(events: seq<FleetEvent>, f: Fleet, i: nat, n: nat) returns (after: seq<FleetEvent>)
    requires Play(events) == f && f.relays == map[1 := Transaction([1, 2], i, Some(n), false)] && i < 2 && n !in f.onTheWire
    ensures after == events + [Acknowledge(1)]
    ensures Play(after) == f.(relays := map[1 := Transaction([1, 2], i + 1, None, false)])
  {
    PlayThen(events, Acknowledge(1));
    after := events + [Acknowledge(1)];
  }

  lemma SecondArrived(first: Row) returns (events: seq<FleetEvent>)
    requires first == FIRST.(attempts := 1)
    ensures Play(events) == Fleet([first, SECOND], [1] + [2], map[0 := 1], 3, map[1 := Transaction([1, 2], 1, Some(2), false)])
  {
    events := BothClaimed(first);
    events := SendAndArrive(events, Play(events), 0);
    events := AnswerOne(events, Play(events), 0, 1);
    events := SendAndArrive(events, Play(events), 1);
  }

  /** The copy of the timed-out send arrives, and the batch goes on to commit. */
  lemma CommittedBehind(events: seq<FleetEvent>, first: Row, a: Row, b: Row)
    requires first == FIRST.(attempts := 1) && a == first.(publishedAt := Some(5)) && b == SECOND.(publishedAt := Some(5))
    requires Play(events) == Fleet([first, SECOND], [1] + [2], map[0 := 1], 3, map[1 := Transaction([1, 2], 1, Some(2), false)])
    ensures var f := Play(events + [Arrive(0)] + [Acknowledge(1)] + [Finish(1, 5)]); f.rows == [a, b] && f.log == [1] + [2] + [1]
  {
    PlayThen(events, Arrive(0));
    var late := events + [Arrive(0)];
    assert Play(late).onTheWire == map[];
    var answered := AnswerOne(late, Play(late), 1, 2);
    PlayThen(answered, Finish(1, 5));
    assert MarkRows([first, SECOND], [1, 2], None, 5) == [a, b];
  }

  lemma OutOfOrder(f: Fleet, a: Row, b: Row)
    requires f.rows == [a, b] && f.log == [1] + [2] + [1] && a.id == 1 && b.id == 2 && a.aggregate == b.aggregate && Before(a, b)
    requires b.publishedAt.Some?
    ensures !Ordered(f)
  {
    LastOfThree();
    assert a in f.rows && b in f.rows;
  }

  /** No later event of the copy's aggregate is published or acknowledged. */
  ghost predicate NoneAnswered(f: Fleet, n: nat)
    requires n in f.onTheWire
  {
    forall a, b, r :: Follows(f, a, b) && a.id == f.onTheWire[n] && r in f.relays ==>
      b.publishedAt.None? && b.id !in Answered(f.relays[r])
  }

  /** That is not enough for a copy to be in time: this one arrives when the second event has arrived but is neither
      published nor acknowledged, and the batch then commits the two out of order. */
  lemma UnacknowledgedIsNotEnough()
    ensures exists events, n: nat, rest ::
      n in Play(events).onTheWire && NoneAnswered(Play(events), n) && !Ordered(Play(events + [Arrive(n)] + rest))
  {
    var first := FIRST.(attempts := 1);
    var events := SecondArrived(first);
    var a, b := first.(publishedAt := Some(5)), SECOND.(publishedAt := Some(5));
    CommittedBehind(events, first, a, b);
    var rest := [Acknowledge(1)] + [Finish(1, 5)];
    assert events + [Arrive(0)] + [Acknowledge(1)] + [Finish(1, 5)] == events + [Arrive(0)] + rest;
    OutOfOrder(Play(events + [Arrive(0)] + rest), a, b);
    SecondNotAnswered(Play(events), first);
  }

  lemma SecondNotAnswered(f: Fleet, first: Row)
    requires first == FIRST.(attempts := 1)
    requires f == Fleet([first, SECOND], [1] + [2], map[0 := 1], 3, map[1 := Transaction([1, 2], 1, Some(2), false)])
    ensures NoneAnswered(f, 0)
  {
    assert Answered(f.relays[1]) == [1];
    forall a, b, r | Follows(f, a, b) && a.id == 1 && r in f.relays ensures b.publishedAt.None? && b.id !in Answered(f.relays[r]) {
      assert b == SECOND;
    }
  }
}
