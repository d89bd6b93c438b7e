/**
 Placing an order: any number of placements interleave statement by statement, then relays start the
 workflows.  Statements read committed rows; the rows of a placement appear together when it commits.
 The unique constraint on (user, key) is not part of the model: the advisory lock alone is shown to suffice.
 Two keys may share a lock, since the lock id is a hash.
 */
module Placement {
  import opened Wrappers

  datatype Order = Order(user: int, key: Option<int>)

  /** `created` and `promised` are the order.created and workflow rows ever committed, by order;
      `unstarted` and `started` split the workflow rows still in their table, `bornAt` and `attempts` are columns
      of it; `runs` are the workflow executions Temporal has begun. */
  datatype Tables = Tables(
    orders: map<int, Order>, created: seq<int>, promised: seq<int>,
    unstarted: set<int>, started: set<int>, bornAt: map<int, int>, attempts: map<int, nat>, runs: seq<int>)

  const BATCH_SIZE: int := 100

  predicate IsPlaced(t: Tables, id: int, user: int, key: int) {
    id in t.orders && t.orders[id] == Order(user, Some(key))
  }

  predicate NonePlaced(t: Tables, user: int, key: int) {
    forall id :: id in t.orders ==> t.orders[id] != Order(user, Some(key))
  }

  function Insert(t: Tables, id: int, user: int, key: Option<int>, bornAt: int): Tables {
    t.(orders := t.orders[id := Order(user, key)],
       created := t.created + [id], promised := t.promised + [id], unstarted := t.unstarted + {id},
       bornAt := t.bornAt[id := bornAt], attempts := t.attempts[id := 0])
  }

  predicate Older(t: Tables, a: int, b: int) {
    a in t.bornAt && b in t.bornAt && (t.bornAt[a] < t.bornAt[b] || (t.bornAt[a] == t.bornAt[b] && a < b))
  }

  /** The rows a relay claims: of the unstarted ones that no other relay has locked, the oldest hundred, oldest first. */
  predicate IsClaim(t: Tables, locked: set<int>, claimed: seq<int>) {
    && |claimed| <= BATCH_SIZE
    && (forall i :: 0 <= i < |claimed| ==> claimed[i] in t.unstarted - locked)
    && (forall i, j :: 0 <= i < j < |claimed| ==> Older(t, claimed[i], claimed[j]))
    && (forall id :: id in t.unstarted - locked && id !in claimed ==>
          |claimed| == BATCH_SIZE && forall i :: 0 <= i < |claimed| ==> Older(t, claimed[i], id))
  }

  /** Starting with a used workflow id begins nothing, whether that run is open or closed. */
  function Start(t: Tables, o: int): Tables { t.(runs := if o !in t.runs then t.runs + [o] else t.runs) }

  /** A start is answered (an already-started error counts as an answer) or fails, perhaps after taking effect. */
  datatype StartAnswer = Answered | Refused(reached: bool)

  function LeadingAnswers(answers: seq<StartAnswer>): (n: nat)
    ensures n <= |answers|
    ensures n < |answers| ==> answers[n].Refused?
    ensures forall i :: 0 <= i < n ==> answers[i].Answered?
  {
    if answers == [] || answers[0].Refused? then 0 else 1 + LeadingAnswers(answers[1..])
  }

  function StartedCount(claimed: seq<int>, answers: seq<StartAnswer>): (n: nat)
    ensures n <= |claimed| && n <= |answers|
  {
    if LeadingAnswers(answers) <= |claimed| then LeadingAnswers(answers) else |claimed|
  }

  function BeginAll(t: Tables, ids: seq<int>): Tables {
    if ids == [] then t else Start(BeginAll(t, ids[..|ids| - 1]), ids[|ids| - 1])
  }

  function MarkStarted(t: Tables, ids: set<int>): Tables {
    t.(unstarted := t.unstarted - ids, started := t.started + ids)
  }

  function RecordFailure(t: Tables, id: int): Tables {
    t.(attempts := t.attempts[id := (if id in t.attempts then t.attempts[id] else 0) + 1])
  }

  /** One batch of the workflow relay: starts stay begun; the marks and the counted failure are kept only if the
      transaction commits. */
  function StartBatch(t: Tables, claimed: seq<int>, answers: seq<StartAnswer>, commits: bool): Tables {
    var n := StartedCount(claimed, answers);
    var begun := BeginAll(t, claimed[..n]);
    var after := if n < |claimed| && n < |answers| && answers[n].Refused? && answers[n].reached
                 then Start(begun, claimed[n]) else begun;
    if commits && n == |claimed| then MarkStarted(after, set x | x in claimed)
    else if commits && n < |answers| then MarkStarted(RecordFailure(after, claimed[n]), set x | x in claimed[..n])
    else after
  }

  /* ---------- one placement, run alone ---------- */

  class OrderTables {
    var orders: map<int, Order>
    var created: seq<int>
    var promised: seq<int>
    var unstarted: set<int>
    var started: set<int>
    var bornAt: map<int, int>
    var attempts: map<int, nat>
    var runs: seq<int>

    function Contents(): Tables reads this { Tables(orders, created, promised, unstarted, started, bornAt, attempts, runs) }

    constructor (t: Tables)
      ensures Contents() == t
    {
      orders, created, promised := t.orders, t.created, t.promised;
      unstarted, started, bornAt, attempts, runs := t.unstarted, t.started, t.bornAt, t.attempts, t.runs;
    }

    /** createPending: the keyed order if there is one, else a new one with both outbox rows;
        an unknown offer leaves nothing behind. */
    method CreatePending(user: int, key: Option<int>, offersKnown: bool, newId: int, now: int) returns (placed: Option<int>)
      requires newId !in orders
      modifies this
      ensures key.Some? && !NonePlaced(old(Contents()), user, key.value) ==>
        placed.Some? && IsPlaced(old(Contents()), placed.value, user, key.value) && Contents() == old(Contents())
      ensures !(key.Some? && !NonePlaced(old(Contents()), user, key.value)) ==>
        if offersKnown then placed == Some(newId) && Contents() == Insert(old(Contents()), newId, user, key, now)
        else placed == None && Contents() == old(Contents())
    {
      if key.Some? {
        if id :| id in orders && orders[id] == Order(user, Some(key.value)) {
          return Some(id);
        }
      }
      if !offersKnown {
        return None;
      }
      orders := orders[newId := Order(user, key)];
      created := created + [newId];
      promised := promised + [newId];
      unstarted, bornAt, attempts := unstarted + {newId}, bornAt[newId := now], attempts[newId := 0];
      placed := Some(newId);
    }

    /** The query of claimUnstarted: the rows locked by others are skipped. */
    method ClaimUnstarted(locked: set<int>) returns (claimed: seq<int>)
      requires unstarted <= bornAt.Keys
      ensures IsClaim(Contents(), locked, claimed)
    {
      claimed := [];
      var left := unstarted - locked;
      while left != {} && |claimed| < BATCH_SIZE
        invariant left <= unstarted - locked && |claimed| <= BATCH_SIZE
        invariant forall i :: 0 <= i < |claimed| ==> claimed[i] in unstarted - locked
        invariant forall id :: id in unstarted - locked ==> id in left || id in claimed
        invariant forall i, j :: 0 <= i < j < |claimed| ==> Older(Contents(), claimed[i], claimed[j])
        invariant forall i, id :: 0 <= i < |claimed| && id in left ==> Older(Contents(), claimed[i], id)
        decreases |left|
      {
        OldestExists(Contents(), left);
        var id :| id in left && IsOldest(Contents(), left, id);
        claimed := claimed + [id];
        left := left - {id};
      }
    }

    /** start: a used workflow id begins nothing. */
    method StartWorkflow(o: int)
      modifies this`runs
      ensures Contents() == Start(old(Contents()), o)
    {
      if o !in runs {
        runs := runs + [o];
      }
    }

    /** recordFailure and markStarted. */
    method Mark(done: seq<int>, failed: Option<int>)
      modifies this`attempts, this`unstarted, this`started
      ensures Contents() == MarkStarted(if failed.Some? then RecordFailure(old(Contents()), failed.value) else old(Contents()), set x | x in done)
    {
      if failed.Some? {
        attempts := attempts[failed.value := (if failed.value in attempts then attempts[failed.value] else 0) + 1];
      }
      var ids := set x | x in done;
      unstarted := unstarted - ids;
      started := started + ids;
    }

    /** relayBatch of the workflow outbox; `answers` ends where the process dies. */
    method RelayWorkflows(locked: set<int>, answers: seq<StartAnswer>, commits: bool) returns (claimed: seq<int>)
      requires unstarted <= bornAt.Keys
      modifies this
      ensures IsClaim(old(Contents()), locked, claimed)
      ensures Contents() == StartBatch(old(Contents()), claimed, answers, commits)
    {
      claimed := ClaimUnstarted(locked);
      ghost var n := StartedCount(claimed, answers);
      var done: seq<int> := [];
      var failed: Option<int> := None;
      var crashed := false;
      var i := 0;
      while i < |claimed|
        invariant 0 <= i <= n && done == claimed[..i] && !crashed && failed == None
        invariant Contents() == BeginAll(old(Contents()), claimed[..i])
        decreases |claimed| - i
      {
        if i == |answers| {
          crashed := true;
          break;
        }
        if answers[i].Refused? {
          if answers[i].reached {
            StartWorkflow(claimed[i]);
          }
          failed := Some(claimed[i]);
          break;
        }
        assert claimed[..i + 1][..i] == claimed[..i];
        StartWorkflow(claimed[i]);
        done := done + [claimed[i]];
        i := i + 1;
      }
      assert i == n;
      if commits && !crashed {
        Mark(done, failed);
      }
    }
  }

  predicate IsOldest(t: Tables, ids: set<int>, id: int) { forall x :: x in ids ==> x == id || Older(t, id, x) }

  lemma {:induction false} OldestExists(t: Tables, ids: set<int>)
    requires ids != {} && ids <= t.bornAt.Keys
    ensures exists id :: id in ids && IsOldest(t, ids, id)
    decreases |ids|
  {
    assert exists x :: x in ids by {
      if forall x :: x !in ids {
        assert false;
      }
    }
    var x :| x in ids;
    var rest := ids - {x};
    assert forall z :: z in ids ==> z == x || z in rest;
    if rest == {} {
      assert IsOldest(t, ids, x);
    } else {
      OldestExists(t, rest);
      var y :| y in rest && IsOldest(t, rest, y);
      assert Older(t, x, y) || Older(t, y, x);
      if Older(t, x, y) {
        assert IsOldest(t, ids, x);
      } else {
        assert IsOldest(t, ids, y);
      }
    }
  }

  /* ---------- interleaved placements ---------- */

  datatype Phase =
    | Begun
    | Locked
    | Found(id: int)
    | NotFound
    | OrderRow(id: int)
    | CreatedRow(id: int)
    | WorkflowRow(id: int, bornAt: int)

  datatype Txn = Txn(user: int, key: Option<int>, phase: Phase)

  datatype Answer = Answer(user: int, key: int, order: int)

  datatype State = State(tables: Tables, locks: map<int, int>, txns: map<int, Txn>, answers: set<Answer>)

  datatype Event =
    | Begin(txn: int, user: int, key: Option<int>)
    | LockKey(txn: int)
    | LookUp(txn: int, found: Option<int>)
    | InsertOrder(txn: int, id: int)
    | InsertCreated(txn: int)
    | InsertWorkflow(txn: int, now: int)
    | Commit(txn: int)
    | Rollback(txn: int)
    | StartWorkflows(locked: set<int>, claimed: seq<int>, answers: seq<StartAnswer>, commits: bool)
    | Cleanup(order: int)

  function PendingId(x: Txn): Option<int> {
    match x.phase
    case OrderRow(id) => Some(id)
    case CreatedRow(id) => Some(id)
    case WorkflowRow(id, _) => Some(id)
    case _ => None
  }

  predicate IsFresh(s: State, id: int) {
    && id !in s.tables.orders
    && forall t :: t in s.txns ==> PendingId(s.txns[t]) != Some(id)
  }

  predicate Enabled(lockOf: (int, int) -> int, s: State, e: Event) {
    match e
    case Begin(t, _, _) => t !in s.txns
    case LockKey(t) =>
      t in s.txns && s.txns[t].phase == Begun && s.txns[t].key.Some? && lockOf(s.txns[t].user, s.txns[t].key.value) !in s.locks
    case LookUp(t, found) =>
      && t in s.txns && s.txns[t].phase == Locked && s.txns[t].key.Some?
      && (match found
          case Some(id) => IsPlaced(s.tables, id, s.txns[t].user, s.txns[t].key.value)
          case None => NonePlaced(s.tables, s.txns[t].user, s.txns[t].key.value))
    case InsertOrder(t, id) =>
      && t in s.txns && IsFresh(s, id)
      && (s.txns[t].phase == NotFound || (s.txns[t].phase == Begun && s.txns[t].key.None?))
    case InsertCreated(t) => t in s.txns && s.txns[t].phase.OrderRow?
    case InsertWorkflow(t, _) => t in s.txns && s.txns[t].phase.CreatedRow?
    case Commit(t) => t in s.txns && (s.txns[t].phase.Found? || s.txns[t].phase.WorkflowRow?)
    case Rollback(t) => t in s.txns
    case StartWorkflows(locked, claimed, _, _) => IsClaim(s.tables, locked, claimed)
    case Cleanup(o) => o in s.tables.started
  }

  function To(s: State, t: int, phase: Phase): State
    requires t in s.txns
  {
    s.(txns := s.txns[t := s.txns[t].(phase := phase)])
  }

  function Ended(s: State, t: int): State {
    s.(txns := s.txns - {t}, locks := map l | l in s.locks && s.locks[l] != t :: s.locks[l])
  }

  /** What a commit makes visible, and what the client is told. */
  function Committed(s: State, t: int): State
    requires t in s.txns && (s.txns[t].phase.Found? || s.txns[t].phase.WorkflowRow?)
  {
    var x := s.txns[t];
    var id := x.phase.id;
    s.(tables := if x.phase.WorkflowRow? then Insert(s.tables, id, x.user, x.key, x.phase.bornAt) else s.tables,
       answers := if x.key.Some? then s.answers + {Answer(x.user, x.key.value, id)} else s.answers)
  }

  function Apply(lockOf: (int, int) -> int, s: State, e: Event): State {
    if !Enabled(lockOf, s, e) then s
    else match e
      case Begin(t, user, key) => s.(txns := s.txns[t := Txn(user, key, Begun)])
      case LockKey(t) => To(s, t, Locked).(locks := s.locks[lockOf(s.txns[t].user, s.txns[t].key.value) := t])
      case LookUp(t, found) => To(s, t, if found.Some? then Found(found.value) else NotFound)
      case InsertOrder(t, id) => To(s, t, OrderRow(id))
      case InsertCreated(t) => To(s, t, CreatedRow(s.txns[t].phase.id))
      case InsertWorkflow(t, now) => To(s, t, WorkflowRow(s.txns[t].phase.id, now))
      case Commit(t) => Ended(Committed(s, t), t)
      case Rollback(t) => Ended(s, t)
      case StartWorkflows(_, claimed, answers, commits) => s.(tables := StartBatch(s.tables, claimed, answers, commits))
      case Cleanup(o) => s.(tables := s.tables.(started := s.tables.started - {o}))
  }

  function Empty(): State { State(Tables(map[], [], [], {}, {}, map[], map[], []), map[], map[], {}) }

  function Run(lockOf: (int, int) -> int, events: seq<Event>): State {
    if events == [] then Empty() else Apply(lockOf, Run(lockOf, events[..|events| - 1]), events[|events| - 1])
  }

  /* ---------- invariant ---------- */

  function Count(ids: seq<int>, id: int): nat {
    if ids == [] then 0 else Count(ids[..|ids| - 1], id) + if ids[|ids| - 1] == id then 1 else 0
  }

  predicate OnePerKey(t: Tables) {
    forall a, b :: a in t.orders && b in t.orders && t.orders[a].key.Some? && t.orders[a] == t.orders[b] ==> a == b
  }

  ghost predicate OneRowEach(t: Tables) {
    && (forall id :: id in t.orders ==> Count(t.created, id) == 1 && Count(t.promised, id) == 1)
    && (forall id :: id !in t.orders ==> Count(t.created, id) == 0 && Count(t.promised, id) == 0)
  }

  /** A promised workflow is waiting in its table or has begun, and begins at most once. */
  ghost predicate Promises(t: Tables) {
    && (forall id :: id in t.orders ==> id in t.unstarted || id in t.runs)
    && (forall id :: id in t.runs || id in t.unstarted || id in t.started ==> id in t.orders)
    && (forall id :: id in t.started ==> id in t.runs)
    && t.unstarted <= t.bornAt.Keys
    && (forall id :: Count(t.runs, id) <= 1)
  }

  predicate TxnInv(lockOf: (int, int) -> int, s: State, t: int)
    requires t in s.txns
  {
    var x := s.txns[t];
    && (x.key.Some? && x.phase != Begun ==>
          lockOf(x.user, x.key.value) in s.locks && s.locks[lockOf(x.user, x.key.value)] == t)
    && (x.phase.Locked? || x.phase.Found? || x.phase.NotFound? ==> x.key.Some?)
    && (x.phase.Found? ==> IsPlaced(s.tables, x.phase.id, x.user, x.key.value))
    && (x.key.Some? && (x.phase.NotFound? || PendingId(x).Some?) ==> NonePlaced(s.tables, x.user, x.key.value))
    && (PendingId(x).Some? ==> PendingId(x).value !in s.tables.orders)
  }

  predicate PendingDiffer(s: State) {
    forall t, u :: t in s.txns && u in s.txns && t != u && PendingId(s.txns[t]).Some? ==> PendingId(s.txns[t]) != PendingId(s.txns[u])
  }

  predicate Truthful(s: State) { forall a :: a in s.answers ==> IsPlaced(s.tables, a.order, a.user, a.key) }

  ghost predicate Inv(lockOf: (int, int) -> int, s: State) {
    && (forall t :: t in s.txns ==> TxnInv(lockOf, s, t))
    && PendingDiffer(s) && Truthful(s)
    && OnePerKey(s.tables) && OneRowEach(s.tables) && Promises(s.tables)
  }

  lemma CountOfAppended(ids: seq<int>, x: int, id: int)
    ensures Count(ids + [x], id) == Count(ids, id) + if x == id then 1 else 0
  {
    assert (ids + [x])[..|ids + [x]| - 1] == ids;
  }

  lemma {:induction false} CountedIsThere(ids: seq<int>, id: int)
    ensures Count(ids, id) > 0 <==> id in ids
  {
    if ids != [] {
      assert ids == ids[..|ids| - 1] + [ids[|ids| - 1]];
      CountedIsThere(ids[..|ids| - 1], id);
    }
  }

  /** Steps of a placement before its end. */
  lemma PhaseKeepsInv(lockOf: (int, int) -> int, s: State, e: Event)
    requires Inv(lockOf, s) && Enabled(lockOf, s, e)
    requires e.Begin? || e.LockKey? || e.LookUp? || e.InsertOrder? || e.InsertCreated? || e.InsertWorkflow?
    ensures Inv(lockOf, Apply(lockOf, s, e))
  {
    var t := Apply(lockOf, s, e);
    if !e.Begin? {
      assert TxnInv(lockOf, s, e.txn);
    }
    forall u | u in t.txns ensures TxnInv(lockOf, t, u) {
      if u in s.txns {
        assert TxnInv(lockOf, s, u);
      }
    }
  }

  lemma RollbackKeepsInv(lockOf: (int, int) -> int, s: State, x: int)
    requires Inv(lockOf, s) && x in s.txns
    ensures Inv(lockOf, Ended(s, x))
  {
    forall u | u in Ended(s, x).txns ensures TxnInv(lockOf, Ended(s, x), u) {
      assert TxnInv(lockOf, s, u);
    }
  }

  lemma InsertKeepsTables(t: Tables, id: int, user: int, key: Option<int>, bornAt: int)
    requires OnePerKey(t) && OneRowEach(t) && Promises(t) && id !in t.orders
    requires key.Some? ==> NonePlaced(t, user, key.value)
    ensures var after := Insert(t, id, user, key, bornAt); OnePerKey(after) && OneRowEach(after) && Promises(after)
  {
    var after := Insert(t, id, user, key, bornAt);
    forall i ensures Count(after.created, i) == (if i in after.orders then 1 else 0) && Count(after.promised, i) == (if i in after.orders then 1 else 0) {
      CountOfAppended(t.created, id, i);
      CountOfAppended(t.promised, id, i);
    }
  }

  /** Two placements of one key are never both past the lock. */
  lemma OthersWait(lockOf: (int, int) -> int, s: State, x: int, u: int)
    requires Inv(lockOf, s) && x in s.txns && u in s.txns && x != u
    requires s.txns[x].user == s.txns[u].user && s.txns[x].key == s.txns[u].key && s.txns[x].key.Some?
    requires s.txns[x].phase != Begun
    ensures s.txns[u].phase == Begun
  {
    assert TxnInv(lockOf, s, x) && TxnInv(lockOf, s, u);
  }

  lemma CommitKeepsInv(lockOf: (int, int) -> int, s: State, x: int)
    requires Inv(lockOf, s) && Enabled(lockOf, s, Commit(x))
    ensures Inv(lockOf, Apply(lockOf, s, Commit(x)))
  {
    var t := Apply(lockOf, s, Commit(x));
    assert TxnInv(lockOf, s, x);
    if s.txns[x].phase.Found? {
      RollbackKeepsInv(lockOf, s, x);
      forall u | u in t.txns ensures TxnInv(lockOf, t, u) {
        assert TxnInv(lockOf, Ended(s, x), u);
      }
    } else {
      InsertKeepsTables(s.tables, s.txns[x].phase.id, s.txns[x].user, s.txns[x].key, s.txns[x].phase.bornAt);
      forall u | u in t.txns ensures TxnInv(lockOf, t, u) {
        assert TxnInv(lockOf, s, u);
        if s.txns[x].user == s.txns[u].user && s.txns[x].key == s.txns[u].key && s.txns[x].key.Some? {
          OthersWait(lockOf, s, x, u);
        }
      }
    }
  }

  ghost predicate TablesInv(t: Tables) { OnePerKey(t) && OneRowEach(t) && Promises(t) }

  lemma StartKeepsTables(t: Tables, o: int)
    requires TablesInv(t) && o in t.unstarted
    ensures TablesInv(Start(t, o))
  {
    forall id ensures Count(Start(t, o).runs, id) <= 1 {
      CountOfAppended(t.runs, o, id);
      CountedIsThere(t.runs, o);
    }
  }

  lemma {:induction false} BeginAllKeepsTables(t: Tables, ids: seq<int>)
    requires TablesInv(t) && forall i :: 0 <= i < |ids| ==> ids[i] in t.unstarted
    ensures TablesInv(BeginAll(t, ids))
    ensures BeginAll(t, ids) == t.(runs := BeginAll(t, ids).runs) && t.runs <= BeginAll(t, ids).runs
    ensures forall i :: 0 <= i < |ids| ==> ids[i] in BeginAll(t, ids).runs
  {
    if ids != [] {
      BeginAllKeepsTables(t, ids[..|ids| - 1]);
      StartKeepsTables(BeginAll(t, ids[..|ids| - 1]), ids[|ids| - 1]);
      assert forall i :: 0 <= i < |ids| - 1 ==> ids[i] == ids[..|ids| - 1][i];
    }
  }

  lemma MarksKeepTables(t: Tables, ids: set<int>)
    requires TablesInv(t) && forall id :: id in ids ==> id in t.unstarted && id in t.runs
    ensures TablesInv(MarkStarted(t, ids))
  {
  }

  lemma FailureKeepsTables(t: Tables, id: int)
    requires TablesInv(t)
    ensures TablesInv(RecordFailure(t, id))
  {
  }

  lemma BatchKeepsTables(t: Tables, claimed: seq<int>, answers: seq<StartAnswer>, commits: bool)
    requires TablesInv(t) && forall i :: 0 <= i < |claimed| ==> claimed[i] in t.unstarted
    ensures TablesInv(StartBatch(t, claimed, answers, commits))
    ensures StartBatch(t, claimed, answers, commits).orders == t.orders
  {
    var n := StartedCount(claimed, answers);
    var begun := BeginAll(t, claimed[..n]);
    BeginAllKeepsTables(t, claimed[..n]);
    var after := begun;
    if n < |claimed| && n < |answers| && answers[n].Refused? && answers[n].reached {
      StartKeepsTables(begun, claimed[n]);
      after := Start(begun, claimed[n]);
    }
    var ids := set x | x in claimed[..n];
    forall id | id in ids ensures id in after.unstarted && id in after.runs {
      var i :| 0 <= i < n && claimed[..n][i] == id;
      assert id in begun.runs;
    }
    if commits && n == |claimed| {
      assert claimed[..n] == claimed;
      MarksKeepTables(after, ids);
    } else if commits && n < |answers| {
      FailureKeepsTables(after, claimed[n]);
      MarksKeepTables(RecordFailure(after, claimed[n]), ids);
    }
  }

  lemma RelayKeepsInv(lockOf: (int, int) -> int, s: State, e: Event)
    requires Inv(lockOf, s) && Enabled(lockOf, s, e) && (e.StartWorkflows? || e.Cleanup?)
    ensures Inv(lockOf, Apply(lockOf, s, e))
  {
    var t := Apply(lockOf, s, e);
    if e.StartWorkflows? {
      BatchKeepsTables(s.tables, e.claimed, e.answers, e.commits);
    }
    forall u | u in t.txns ensures TxnInv(lockOf, t, u) {
      assert TxnInv(lockOf, s, u);
    }
  }

  lemma StepKeepsInv(lockOf: (int, int) -> int, s: State, e: Event)
    requires Inv(lockOf, s)
    ensures Inv(lockOf, Apply(lockOf, s, e))
  {
    if Enabled(lockOf, s, e) {
      match e
      case Commit(x) => CommitKeepsInv(lockOf, s, x);
      case Rollback(x) => RollbackKeepsInv(lockOf, s, x);
      case StartWorkflows(_, _, _, _) => RelayKeepsInv(lockOf, s, e);
      case Cleanup(_) => RelayKeepsInv(lockOf, s, e);
      case _ => PhaseKeepsInv(lockOf, s, e);
    }
  }

  lemma {:induction false} InvForever(lockOf: (int, int) -> int, events: seq<Event>)
    ensures Inv(lockOf, Run(lockOf, events))
  {
    if events != [] {
      InvForever(lockOf, events[..|events| - 1]);
      StepKeepsInv(lockOf, Run(lockOf, events[..|events| - 1]), events[|events| - 1]);
    }
  }

  /** However placements interleave, a (user, key) has at most one order. */
  lemma OneOrderPerKey(lockOf: (int, int) -> int, events: seq<Event>, a: int, b: int, user: int, key: int)
    requires IsPlaced(Run(lockOf, events).tables, a, user, key) && IsPlaced(Run(lockOf, events).tables, b, user, key)
    ensures a == b
  {
    InvForever(lockOf, events);
  }

  /** Every keyed request that is answered is answered with that one order. */
  lemma RetriesGetTheSameOrder(lockOf: (int, int) -> int, events: seq<Event>, a: Answer, b: Answer)
    requires a in Run(lockOf, events).answers && b in Run(lockOf, events).answers && a.user == b.user && a.key == b.key
    ensures a.order == b.order && IsPlaced(Run(lockOf, events).tables, a.order, a.user, a.key)
  {
    InvForever(lockOf, events);
  }

  /** Each order is committed with exactly one order.created row and one workflow row; its workflow is
      begun at most once under any retries of the relays, and until then its row is still waiting. */
  lemma OneEventOneWorkflow(lockOf: (int, int) -> int, events: seq<Event>, id: int)
    requires id in Run(lockOf, events).tables.orders
    ensures Count(Run(lockOf, events).tables.created, id) == 1 && Count(Run(lockOf, events).tables.promised, id) == 1
    ensures Count(Run(lockOf, events).tables.runs, id) <= 1
    ensures Count(Run(lockOf, events).tables.runs, id) == 1 || id in Run(lockOf, events).tables.unstarted
  {
    InvForever(lockOf, events);
    CountedIsThere(Run(lockOf, events).tables.runs, id);
  }

  /* ---------- what a committed batch does to the table ---------- */

  /** The j-th claimed start was answered, and every one before it. */
  predicate AnsweredUpTo(answers: seq<StartAnswer>, j: nat) { j < |answers| && forall k :: 0 <= k <= j ==> answers[k].Answered? }

  predicate FirstRefusal(answers: seq<StartAnswer>, j: nat) {
    j < |answers| && answers[j].Refused? && forall k :: 0 <= k < j ==> answers[k].Answered?
  }

  /** The batch ran to its end or to its first refusal. */
  predicate RunsThrough(claimed: seq<int>, answers: seq<StartAnswer>) {
    |claimed| <= |answers| || exists j: nat :: j < |claimed| && FirstRefusal(answers, j)
  }

  ghost predicate IsAnswered(claimed: seq<int>, answers: seq<StartAnswer>, id: int) {
    exists j: nat :: j < |claimed| && claimed[j] == id && AnsweredUpTo(answers, j)
  }

  lemma {:induction false} BeginAllOnlyRuns(t: Tables, ids: seq<int>)
    ensures BeginAll(t, ids) == t.(runs := BeginAll(t, ids).runs) && forall id :: id in BeginAll(t, ids).runs <==> id in t.runs || id in ids
  {
    if ids != [] {
      BeginAllOnlyRuns(t, ids[..|ids| - 1]);
      assert ids == ids[..|ids| - 1] + [ids[|ids| - 1]];
    }
  }

  lemma StartedAreAnswered(claimed: seq<int>, answers: seq<StartAnswer>)
    ensures forall j: nat :: j < |claimed| ==> (j < StartedCount(claimed, answers) <==> AnsweredUpTo(answers, j))
    ensures RunsThrough(claimed, answers) <==> StartedCount(claimed, answers) == |claimed| || StartedCount(claimed, answers) < |answers|
  {
    var n := LeadingAnswers(answers);
    if n < |claimed| && n < |answers| {
      assert FirstRefusal(answers, n);
    }
  }

  /** After a committed batch the rows whose start was answered, and no others, have moved from unstarted to started, and
      each of them has begun. */
  lemma CommittedBatchStarts(t: Tables, claimed: seq<int>, answers: seq<StartAnswer>, id: int)
    requires RunsThrough(claimed, answers)
    ensures var u := StartBatch(t, claimed, answers, true);
            && (id in u.started <==> id in t.started || IsAnswered(claimed, answers, id))
            && (id in u.unstarted <==> id in t.unstarted && !IsAnswered(claimed, answers, id))
            && (IsAnswered(claimed, answers, id) ==> id in u.runs)
  {
    var n := StartedCount(claimed, answers);
    StartedAreAnswered(claimed, answers);
    BeginAllOnlyRuns(t, claimed[..n]);
    assert id in claimed[..n] <==> IsAnswered(claimed, answers, id) by {
      if id in claimed[..n] {
        var j :| 0 <= j < n && claimed[..n][j] == id;
        assert claimed[j] == id && AnsweredUpTo(answers, j);
      }
      if j: nat :| j < |claimed| && claimed[j] == id && AnsweredUpTo(answers, j) {
        assert claimed[..n][j] == id;
      }
    }
    if n == |claimed| {
      assert claimed[..n] == claimed;
    }
  }

  /** The refused row, and no other, has one attempt more; and an aborted batch marks nothing. */
  lemma BatchCounts(t: Tables, claimed: seq<int>, answers: seq<StartAnswer>, id: int)
    requires id in t.attempts
    ensures var u := StartBatch(t, claimed, answers, true);
            id in u.attempts && u.attempts[id] == t.attempts[id] + if exists j: nat :: j < |claimed| && claimed[j] == id && FirstRefusal(answers, j) then 1 else 0
    ensures var u := StartBatch(t, claimed, answers, false);
            u.started == t.started && u.unstarted == t.unstarted && u.attempts == t.attempts
  {
    var n := StartedCount(claimed, answers);
    StartedAreAnswered(claimed, answers);
    BeginAllOnlyRuns(t, claimed[..n]);
    if n < |claimed| && n < |answers| {
      assert FirstRefusal(answers, n);
    }
    forall j: nat | j < |claimed| && FirstRefusal(answers, j) ensures j == n {
      assert !AnsweredUpTo(answers, j);
    }
  }

  /** A claim is a hundred rows, or all there are. */
  lemma ClaimIsFull(t: Tables, locked: set<int>, claimed: seq<int>)
    requires IsClaim(t, locked, claimed)
    ensures |claimed| <= 100 && (|claimed| < 100 ==> forall id :: id in t.unstarted - locked ==> id in claimed)
  {
  }
}
