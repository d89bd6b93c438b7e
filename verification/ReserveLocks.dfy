/**
 Row locks of concurrent reserve and release transactions.  Each statement of the reservation loop locks the key
 of its reservation row and then its offer row, and keeps both until the transaction ends.  A statement
 may also leave a row unlocked: the insert finds the key taken, or the guard of the update is false.
 A release locks the offer rows of its order in whatever order its join visits them.
 */
module ReserveLocks {
  import opened Stock

  datatype Resource = ReservationKey(order: int, offer: int) | OfferRow(offer: int)

  /** `plan[..next]` has been dealt with; `plan[next]`, if any, is wanted now. */
  datatype Txn = Txn(order: int, releases: bool, plan: seq<Resource>, next: nat, held: set<Resource>)

  type State = seq<Txn>

  function Rank(r: Resource): int {
    match r
    case ReservationKey(_, offer) => 2 * offer
    case OfferRow(offer) => 2 * offer + 1
  }

  /** The locks of the loop body, item after item.  A repeated offer finds the row its first statement
      left behind, so it asks for nothing. */
  function PlanOf(order: int, sorted: seq<Item>): seq<Resource> {
    if sorted == [] then []
    else
      var front, last := sorted[..|sorted| - 1], sorted[|sorted| - 1].offer;
      if front != [] && front[|front| - 1].offer == last then PlanOf(order, front)
      else PlanOf(order, front) + [ReservationKey(order, last), OfferRow(last)]
  }

  /** The offer rows of a release, in the order of its join. */
  function RowsOf(offers: seq<int>): (plan: seq<Resource>)
    ensures |plan| == |offers| && forall i :: 0 <= i < |offers| ==> plan[i] == OfferRow(offers[i])
  {
    seq(|offers|, i requires 0 <= i < |offers| => OfferRow(offers[i]))
  }

  datatype Event =
    | Begin(order: int, items: seq<Item>)
    | BeginRelease(order: int, offers: seq<int>)
    | Lock(txn: nat)
    | PassOver(txn: nat)
    | End(txn: nat)  // commit or rollback

  predicate Wants(t: Txn) { t.next < |t.plan| }

  predicate Waits(s: State, i: nat, j: nat) {
    i < |s| && j < |s| && i != j && Wants(s[i]) && s[i].plan[s[i].next] in s[j].held
  }

  predicate Blocked(s: State, i: nat) { exists j: nat :: j < |s| && Waits(s, i, j) }

  predicate Enabled(s: State, e: Event) {
    match e
    case Begin(_, _) => true
    case BeginRelease(_, _) => true
    case Lock(i) => i < |s| && Wants(s[i]) && !Blocked(s, i)
    case PassOver(i) => i < |s| && Wants(s[i])
    case End(i) => i < |s|
  }

  function Apply(s: State, e: Event): State {
    if !Enabled(s, e) then s
    else match e
      case Begin(order, items) => s + [Txn(order, false, PlanOf(order, SortItems(items)), 0, {})]
      case BeginRelease(order, offers) => s + [Txn(order, true, RowsOf(offers), 0, {})]
      case Lock(i) => s[i := s[i].(next := s[i].next + 1, held := s[i].held + {s[i].plan[s[i].next]})]
      case PassOver(i) => s[i := s[i].(next := s[i].next + 1)]
      case End(i) => s[i := s[i].(next := |s[i].plan|, held := {})]
  }

  function Run(events: seq<Event>): State {
    if events == [] then [] else Apply(Run(events[..|events| - 1]), events[|events| - 1])
  }

  /* ---------- invariants ---------- */

  predicate RanksAscend(plan: seq<Resource>) {
    forall i, j :: 0 <= i < j < |plan| ==> Rank(plan[i]) < Rank(plan[j])
  }

  predicate HeldFromPlan(t: Txn) {
    t.next <= |t.plan| && forall r :: r in t.held ==> r in t.plan[..t.next]
  }

  /** The transaction holds a row no earlier in the global order than the one it wants. */
  predicate Descends(t: Txn) { Wants(t) && exists r :: r in t.held && Rank(r) >= Rank(t.plan[t.next]) }

  /** Reserves ask in the global order. */
  predicate Good(t: Txn) { HeldFromPlan(t) && (!t.releases ==> RanksAscend(t.plan)) }

  predicate Inv(s: State) { forall i :: 0 <= i < |s| ==> Good(s[i]) }

  predicate AllAscend(s: State) { forall i :: 0 <= i < |s| ==> RanksAscend(s[i].plan) }

  predicate Exclusive(s: State) { forall i, j :: 0 <= i < j < |s| ==> s[i].held !! s[j].held }

  /** Sorting the items makes every transaction ask for its locks in the same global order. */
  lemma {:induction false} PlanAscends(order: int, sorted: seq<Item>)
    requires Ascending(sorted)
    ensures RanksAscend(PlanOf(order, sorted))
    ensures sorted != [] ==> forall r :: r in PlanOf(order, sorted) ==> r.offer <= sorted[|sorted| - 1].offer
  {
    if sorted != [] {
      var front := sorted[..|sorted| - 1];
      PlanAscends(order, front);
      var before := PlanOf(order, front);
      if front == [] {
        assert before == [];
      } else {
        forall i | 0 <= i < |before| ensures before[i].offer <= front[|front| - 1].offer {
          assert before[i] in before;
        }
      }
    }
  }

  lemma StepKeepsInv(s: State, e: Event)
    requires Inv(s)
    ensures Inv(Apply(s, e))
  {
    match e
    case Begin(order, items) => PlanAscends(order, SortItems(items));
    case Lock(i) =>
      if Enabled(s, e) {
        var t, t' := s[i], Apply(s, e)[i];
        assert t'.plan[..t'.next] == t.plan[..t.next] + [t.plan[t.next]];
      }
    case PassOver(i) =>
      if Enabled(s, e) {
        var t, t' := s[i], Apply(s, e)[i];
        assert t'.plan[..t'.next] == t.plan[..t.next] + [t.plan[t.next]];
      }
    case _ =>
  }

  lemma {:induction false} InvForever(events: seq<Event>)
    ensures Inv(Run(events))
  {
    if events != [] {
      InvForever(events[..|events| - 1]);
      StepKeepsInv(Run(events[..|events| - 1]), events[|events| - 1]);
    }
  }

  /** Every release of the run visits its offers in ascending order; a release of one offer always does. */
  predicate ReleasesAscend(events: seq<Event>) {
    forall e :: e in events && e.BeginRelease? ==> forall i, j :: 0 <= i < j < |e.offers| ==> e.offers[i] < e.offers[j]
  }

  lemma {:induction false} AscendForever(events: seq<Event>)
    requires ReleasesAscend(events)
    ensures AllAscend(Run(events))
  {
    if events != [] {
      var e := events[|events| - 1];
      AscendForever(events[..|events| - 1]);
      if e.Begin? {
        PlanAscends(e.order, SortItems(e.items));
      }
    }
  }

  lemma AscendingNeverDescends(s: State, i: nat)
    requires Inv(s) && i < |s| && RanksAscend(s[i].plan)
    ensures !Descends(s[i])
  {
    var t := s[i];
    if Wants(t) {
      forall r | r in t.held ensures Rank(r) < Rank(t.plan[t.next]) {
        var k :| 0 <= k < t.next && t.plan[k] == r;
      }
    }
  }

  lemma LockKeepsExclusive(s: State, i: nat)
    requires Exclusive(s) && Enabled(s, Lock(i))
    ensures Exclusive(Apply(s, Lock(i)))
  {
    var r := s[i].plan[s[i].next];
    forall j | 0 <= j < |s| && j != i ensures r !in s[j].held {
      assert !Waits(s, i, j);
    }
  }

  /** Two transactions never hold the same row, in any run. */
  lemma {:induction false} ExclusiveForever(events: seq<Event>)
    ensures Exclusive(Run(events))
  {
    if events != [] {
      var s, e := Run(events[..|events| - 1]), events[|events| - 1];
      ExclusiveForever(events[..|events| - 1]);
      if e.Lock? && Enabled(s, e) {
        LockKeepsExclusive(s, e.txn);
      }
    }
  }

  /* ---------- no deadlock ---------- */

  function WantedRank(s: State, i: nat): int
    requires i < |s| && Wants(s[i])
  {
    Rank(s[i].plan[s[i].next])
  }

  lemma WaitingClimbs(s: State, i: nat, j: nat)
    requires Waits(s, i, j) && Wants(s[j]) && !Descends(s[j])
    ensures WantedRank(s, i) < WantedRank(s, j)
  {
  }

  /** `cycle[k]` waits for `cycle[k + 1]`, and the last one for the first. */
  predicate IsCycle(s: State, cycle: seq<nat>) {
    && |cycle| > 0
    && (forall k :: 0 <= k < |cycle| - 1 ==> Waits(s, cycle[k], cycle[k + 1]))
    && Waits(s, cycle[|cycle| - 1], cycle[0])
  }

  lemma {:induction false} CycleClimbs(s: State, cycle: seq<nat>, k: nat)
    requires IsCycle(s, cycle) && k < |cycle| && forall i: nat :: i in cycle && i < |s| ==> !Descends(s[i])
    ensures cycle[0] < |s| && Wants(s[cycle[0]]) && cycle[k] < |s| && Wants(s[cycle[k]])
    ensures WantedRank(s, cycle[0]) <= WantedRank(s, cycle[k])
  {
    assert |cycle| > 1 ==> Waits(s, cycle[0], cycle[0 + 1]);
    if k > 0 {
      CycleClimbs(s, cycle, k - 1);
      assert Waits(s, cycle[k - 1], cycle[k - 1 + 1]);
      if k < |cycle| - 1 {
        assert Waits(s, cycle[k], cycle[k + 1]);
      }
      WaitingClimbs(s, cycle[k - 1], cycle[k]);
    }
  }

  /** Whoever waits in a circle, one of them holds a row that comes after the one it wants. */
  lemma CycleDescends(s: State, cycle: seq<nat>)
    requires IsCycle(s, cycle)
    ensures exists i: nat :: i in cycle && i < |s| && Descends(s[i])
  {
    if forall i: nat :: i in cycle && i < |s| ==> !Descends(s[i]) {
      CycleClimbs(s, cycle, |cycle| - 1);
      WaitingClimbs(s, cycle[|cycle| - 1], cycle[0]);
      assert false;
    }
  }

  /** However many reserves and releases run at once, and whatever they contain: a circle of waiting has a release in it
      that visits its offers out of order.  Reserves alone never wait in a circle. */
  lemma CycleNeedsUnorderedRelease(events: seq<Event>, cycle: seq<nat>)
    requires IsCycle(Run(events), cycle)
    ensures exists i: nat :: i in cycle && i < |Run(events)| && Run(events)[i].releases && Descends(Run(events)[i])
  {
    var s := Run(events);
    InvForever(events);
    CycleDescends(s, cycle);
    var i: nat :| i in cycle && i < |s| && Descends(s[i]);
    if !s[i].releases {
      AscendingNeverDescends(s, i);
    }
  }

  /** Hence reserves and releases never wait in a circle,
      as long as every release visits its offers in ascending order.  Reserves always do. */
  lemma NoWaitsForCycle(events: seq<Event>, cycle: seq<nat>)
    requires ReleasesAscend(events)
    ensures !IsCycle(Run(events), cycle)
  {
    var s := Run(events);
    InvForever(events);
    AscendForever(events);
    forall i: nat | i < |s| ensures !Descends(s[i]) {
      AscendingNeverDescends(s, i);
    }
    if IsCycle(s, cycle) {
      CycleDescends(s, cycle);
    }
  }

  lemma RunThen(events: seq<Event>, e: Event)
    ensures Run(events + [e]) == Apply(Run(events), e)
  {
    assert (events + [e])[..|events + [e]| - 1] == events;
  }

  /** A reserve of offers 1 and 2, holding all but the second offer row. */
  function Reserving(n: nat): Txn {
    Txn(7, false, [ReservationKey(7, 1), OfferRow(1), ReservationKey(7, 2), OfferRow(2)], n,
        if n == 0 then {} else if n == 1 then {ReservationKey(7, 1)} else if n == 2 then {ReservationKey(7, 1), OfferRow(1)}
        else {ReservationKey(7, 1), OfferRow(1), ReservationKey(7, 2)})
  }

  lemma TwoItemPlan()
    ensures PlanOf(7, SortItems([Item(1, 1), Item(2, 1)])) == Reserving(0).plan
  {
    var one, two := Item(1, 1), Item(2, 1);
    assert [one, two][..1] == [one] && [one][..0] == [];
    assert SortItems([]) == [] && SortItems([one]) == [one];
    assert SortItems([one, two]) == [one, two];
    assert PlanOf(7, []) == [];
    assert PlanOf(7, [one]) == [ReservationKey(7, 1), OfferRow(1)];
  }

  /** Alone, a reserve gets the lock it wants. */
  lemma LockAlone(events: seq<Event>, n: nat)
    requires Run(events) == [Reserving(n)] && n < 3
    ensures Run(events + [Lock(0)]) == [Reserving(n + 1)]
  {
    RunThen(events, Lock(0));
    var s := [Reserving(n)];
    assert !Blocked(s, 0);
    assert Enabled(s, Lock(0));
    assert s[0].held + {s[0].plan[n]} == Reserving(n + 1).held;
    assert Apply(s, Lock(0)) == [Reserving(n + 1)];
  }

  lemma ReserveBegun() returns (events: seq<Event>)
    ensures Run(events) == [Reserving(3)]
  {
    var begin := Begin(7, [Item(1, 1), Item(2, 1)]);
    TwoItemPlan();
    RunThen([], begin);
    events := [] + [begin];
    assert Run(events) == [Reserving(0)];
    LockAlone(events, 0);
    LockAlone(events + [Lock(0)], 1);
    LockAlone(events + [Lock(0)] + [Lock(0)], 2);
    events := events + [Lock(0)] + [Lock(0)] + [Lock(0)];
  }

  /** The repository sorts a reserve but not a release: one release that visits its two offers the other way round
      waits in a circle with a reserve. */
  lemma UnorderedReleaseDeadlocks()
    ensures exists events :: IsCycle(Run(events), [0, 1])
  {
    var events := ReserveBegun();
    var begin, waiting := Txn(8, true, RowsOf([2, 1]), 0, {}), Txn(8, true, RowsOf([2, 1]), 1, {OfferRow(2)});
    RunThen(events, BeginRelease(8, [2, 1]));
    events := events + [BeginRelease(8, [2, 1])];
    var s := [Reserving(3), begin];
    assert Run(events) == s;
    assert s[1].plan[0] == OfferRow(2) && OfferRow(2) !in s[0].held;
    assert !Blocked(s, 1);
    assert Enabled(s, Lock(1));
    assert s[1].held + {OfferRow(2)} == waiting.held;
    assert Apply(s, Lock(1)) == [Reserving(3), waiting];
    RunThen(events, Lock(1));
    events := events + [Lock(1)];
    assert Run(events) == [Reserving(3), waiting];
    assert Waits([Reserving(3), waiting], 0, 1) && Waits([Reserving(3), waiting], 1, 0);
    assert IsCycle(Run(events), [0, 1]);
  }

  /** A transaction that can go on: it may take its next lock, or it has all it needs and can end. */
  predicate CanGoOn(s: State, i: nat) { i < |s| && (Wants(s[i]) ==> !Blocked(s, i)) }

  predicate BelowAll(s: State, bound: int) { forall i: nat :: i < |s| && Wants(s[i]) ==> WantedRank(s, i) <= bound }

  lemma {:induction false} FollowWaits(s: State, i: nat, bound: int) returns (free: nat)
    requires Inv(s) && AllAscend(s) && i < |s| && Wants(s[i]) && BelowAll(s, bound)
    ensures CanGoOn(s, free) && (Wants(s[free]) || s[free].held != {})
    decreases bound - WantedRank(s, i)
  {
    if Blocked(s, i) {
      var j: nat :| j < |s| && Waits(s, i, j);
      if Wants(s[j]) {
        AscendingNeverDescends(s, j);
        WaitingClimbs(s, i, j);
        free := FollowWaits(s, j, bound);
      } else {
        free := j;
      }
    } else {
      free := i;
    }
  }

  lemma {:induction false} SomeBound(s: State) returns (bound: int)
    ensures BelowAll(s, bound)
  {
    if s == [] {
      bound := 0;
    } else {
      var front := s[..|s| - 1];
      bound := SomeBound(front);
      var last := |s| - 1;
      if Wants(s[last]) && bound < WantedRank(s, last) {
        bound := WantedRank(s, last);
      }
      forall i: nat | i < |s| && Wants(s[i]) ensures WantedRank(s, i) <= bound {
        if i < last {
          assert front[i] == s[i] && WantedRank(front, i) == WantedRank(s, i);
        }
      }
    }
  }

  /** As long as a transaction still wants a row, some transaction can move: it locks its row or ends and frees its own. */
  lemma SomeoneCanGoOn(events: seq<Event>, waiting: nat)
    requires ReleasesAscend(events) && waiting < |Run(events)| && Wants(Run(events)[waiting])
    ensures exists free: nat :: CanGoOn(Run(events), free) && (Wants(Run(events)[free]) || Run(events)[free].held != {})
  {
    InvForever(events);
    AscendForever(events);
    var bound := SomeBound(Run(events));
    var free := FollowWaits(Run(events), waiting, bound);
  }
}
