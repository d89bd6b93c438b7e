/**
 Cache-aside with a stampede lock, one key, against the database row it speeds up.

 `versions` are the committed values of the row with their commit times; version n is the n-th.
 A load notes which version it read, and when; an entry when it was stored; a delete when it ran.
 No step looks at these notes.  Times (`now`, `…At`) are milliseconds on one clock; `step` counts the steps of the run.
 */
module Cache {
  import opened Wrappers

  const LOCK_TTL_MS: int := 5000
  const WAIT_TIMEOUT_MS: int := 5000
  const POLL_INTERVAL_MS: int := 50

  /** The entry options of the decorated method. */
  datatype Options = Options(ttlSeconds: nat, jitterSeconds: nat)

  datatype Version = Version(value: int, committedAt: int, step: int)

  datatype Loaded = Loaded(value: int, version: nat, readAt: int, readStep: nat)

  datatype Entry = Entry(load: Loaded, storedAt: int, storedStep: nat, expiresAt: int)

  datatype Lock = Lock(token: int, expiresAt: int)

  /** The Redis side of one cached key. */
  datatype Redis = Redis(entry: Option<Entry>, lock: Option<Lock>)

  predicate Exists(expiresAt: int, now: int) { now <= expiresAt }

  function Read(r: Redis, now: int): Option<Entry> {
    if r.entry.Some? && Exists(r.entry.value.expiresAt, now) then r.entry else None
  }

  predicate CanLock(r: Redis, now: int) { r.lock.None? || !Exists(r.lock.value.expiresAt, now) }

  function AcquireLock(r: Redis, token: int, now: int): Redis {
    if CanLock(r, now) then r.(lock := Some(Lock(token, now + LOCK_TTL_MS))) else r
  }

  /** DELEX lock IFEQ token. */
  function ReleaseLock(r: Redis, token: int): Redis {
    if r.lock.Some? && r.lock.value.token == token then r.(lock := None) else r
  }

  /** SET EX. */
  function Store(r: Redis, load: Loaded, seconds: nat, now: int, step: nat): Redis {
    r.(entry := Some(Entry(load, now, step, now + seconds * 1000)))
  }

  function Delete(r: Redis): Redis { r.(entry := None) }

  class RedisKeys {
    var entry: Option<Entry>
    var lock: Option<Lock>

    function Contents(): Redis reads this { Redis(entry, lock) }

    constructor ()
      ensures Contents() == Redis(None, None)
    {
      entry, lock := None, None;
    }

    /** SET NX PX */
    method TryLock(token: int, now: int) returns (acquired: bool)
      modifies this`lock
      ensures Contents() == AcquireLock(old(Contents()), token, now)
      ensures acquired <==> old(lock).None? || old(lock).value.expiresAt < now
      ensures acquired ==> lock == Some(Lock(token, now + 5000))
    {
      acquired := lock.None? || now > lock.value.expiresAt;
      if acquired {
        lock := Some(Lock(token, now + LOCK_TTL_MS));
      }
    }

    method Unlock(token: int)
      modifies this`lock
      ensures Contents() == ReleaseLock(old(Contents()), token)
      ensures lock == if old(lock).Some? && old(lock).value.token == token then None else old(lock)
    {
      if lock.Some? && lock.value.token == token {
        lock := None;
      }
    }
  }

  /* ---------- callers of getOrLoad and writers, interleaved ---------- */

  /** Where a call of getOrLoad stands.  `lockedAt` is the moment its token got the lock, if it did. */
  datatype Caller =
    | Waiting(deadline: int)                                     // at the head of the loop
    | Asking(deadline: int)                                      // about to try the lock
    | Sleeping(deadline: int, until: int)
    | Loading(token: Option<int>, lockedAt: int)                 // no token: the deadline passed
    | Holding(token: Option<int>, lockedAt: int, load: Loaded)   // read, not stored yet
    | Finishing(token: Option<int>, lockedAt: int)               // in the `finally`

  /** A value handed to a caller: `loadMs` is how long its load took from read to store. */
  datatype Result = Result(load: Loaded, at: int, loadMs: int)

  datatype State = State(
    redis: Redis, versions: seq<Version>, writers: set<nat>, deletes: map<nat, nat>, callers: map<int, Caller>,
    tokens: set<int>, results: set<Result>, now: int, step: nat)

  datatype Event =
    | Tick(ms: nat)
    | CommitWrite(value: int)              // the transaction of an evicting method commits
    | DeleteAfter(version: nat)            // its delete, after the commit
    | Evict                                // memory pressure, or a delete without a change
    | Call(caller: int)                    // first read: hit or enter the loop
    | CheckDeadline(caller: int)
    | TryLock(caller: int, token: int)
    | Wake(caller: int)                    // read again after the sleep
    | ReadRow(caller: int)
    | Fail(caller: int)                    // the load or the store throws
    | Crash(caller: int)
    | StoreValue(caller: int, jitter: nat)
    | Unlock(caller: int)

  predicate IsLoading(c: Caller) { c.Loading? || c.Holding? }

  predicate Enabled(s: State, o: Options, e: Event) {
    match e
    case Tick(_) => true
    case CommitWrite(_) => true
    case DeleteAfter(v) => v in s.writers
    case Evict => true
    case Call(c) => c !in s.callers
    case CheckDeadline(c) => c in s.callers && s.callers[c].Waiting?
    case TryLock(c, token) => c in s.callers && s.callers[c].Asking? && token !in s.tokens
    case Wake(c) => c in s.callers && s.callers[c].Sleeping? && s.now >= s.callers[c].until
    case ReadRow(c) => c in s.callers && s.callers[c].Loading?
    case Fail(c) => c in s.callers && IsLoading(s.callers[c])
    case Crash(c) => c in s.callers
    case StoreValue(c, jitter) => c in s.callers && s.callers[c].Holding? && jitter <= o.jitterSeconds
    case Unlock(c) => c in s.callers && s.callers[c].Finishing?
  }

  function HitResult(entry: Entry, now: int): Result { Result(entry.load, now, entry.storedAt - entry.load.readAt) }

  /** Leave the load: through the `finally` when the lock was taken. */
  function AfterLoad(s: State, c: int): map<int, Caller>
    requires c in s.callers && IsLoading(s.callers[c])
  {
    if s.callers[c].token.Some? then s.callers[c := Finishing(s.callers[c].token, s.callers[c].lockedAt)] else s.callers - {c}
  }

  function Apply(s: State, o: Options, e: Event): State
    requires |s.versions| > 0
  {
    if !Enabled(s, o, e) then s else Effect(s, o, e).(step := s.step + 1)
  }

  function Effect(s: State, o: Options, e: Event): State
    requires |s.versions| > 0 && Enabled(s, o, e)
  {
    match e
    case Tick(ms) => s.(now := s.now + ms)
    case CommitWrite(value) =>
      s.(versions := s.versions + [Version(value, s.now, s.step)], writers := s.writers + {|s.versions|})
    case DeleteAfter(v) =>
      s.(redis := Delete(s.redis), writers := s.writers - {v}, deletes := s.deletes[v := s.step])
    case Evict => s.(redis := Delete(s.redis))
    case Call(c) =>
      if Read(s.redis, s.now).Some? then s.(results := s.results + {HitResult(Read(s.redis, s.now).value, s.now)})
      else s.(callers := s.callers[c := Waiting(s.now + WAIT_TIMEOUT_MS)])
    case CheckDeadline(c) =>
      s.(callers := s.callers[c :=
         if s.now < s.callers[c].deadline then Asking(s.callers[c].deadline) else Loading(None, s.now)])
    case TryLock(c, token) =>
      s.(redis := AcquireLock(s.redis, token, s.now), tokens := s.tokens + {token},
         callers := s.callers[c :=
         if CanLock(s.redis, s.now) then Loading(Some(token), s.now)
         else Sleeping(s.callers[c].deadline, s.now + POLL_INTERVAL_MS)])
    case Wake(c) =>
      if Read(s.redis, s.now).Some? then
        s.(results := s.results + {HitResult(Read(s.redis, s.now).value, s.now)}, callers := s.callers - {c})
      else s.(callers := s.callers[c := Waiting(s.callers[c].deadline)])
    case ReadRow(c) =>
      s.(callers := s.callers[c := Holding(s.callers[c].token, s.callers[c].lockedAt,
         Loaded(s.versions[|s.versions| - 1].value, |s.versions| - 1, s.now, s.step))])
    case Fail(c) => s.(callers := AfterLoad(s, c))
    case Crash(c) => s.(callers := s.callers - {c})
    case StoreValue(c, jitter) =>
      s.(redis := Store(s.redis, s.callers[c].load, o.ttlSeconds + jitter, s.now, s.step),
         results := s.results + {Result(s.callers[c].load, s.now, s.now - s.callers[c].load.readAt)},
         callers := AfterLoad(s, c))
    case Unlock(c) =>
      s.(redis := if s.callers[c].token.Some? then ReleaseLock(s.redis, s.callers[c].token.value) else s.redis,
         callers := s.callers - {c})
  }

  function Init(value: int): State {
    State(Redis(None, None), [Version(value, 0, -1)], {}, map[], map[], {}, {}, 0, 0)
  }

  function Run(value: int, o: Options, events: seq<Event>): (s: State)
    ensures |s.versions| > 0
  {
    if events == [] then Init(value) else Apply(Run(value, o, events[..|events| - 1]), o, events[|events| - 1])
  }

  /* ---------- what every run keeps ---------- */

  function MaxAgeMs(o: Options): int { (o.ttlSeconds + o.jitterSeconds) * 1000 }

  /** The load holds what the row held at `readAt`. */
  predicate Truthful(versions: seq<Version>, load: Loaded, now: int, step: nat) {
    load.version < |versions| && load.value == versions[load.version].value && load.readAt <= now
    && versions[load.version].committedAt <= load.readAt
    && (load.version + 1 < |versions| ==> load.readAt <= versions[load.version + 1].committedAt)
    && versions[load.version].step < load.readStep < step
    && (load.version + 1 < |versions| ==> load.readStep < versions[load.version + 1].step)
  }

  /** The delete of a commit the load did not see ran between its read and `before`. */
  predicate MissedDelete(s: State, load: Loaded, w: nat, before: nat) {
    w in s.deletes && load.readStep < s.deletes[w] < before
  }

  /** Every commit the load did not see is still to be deleted for, or was deleted for in between. */
  ghost predicate Excused(s: State, load: Loaded, before: nat) {
    load.readStep < s.step && forall w: nat | load.version < w < |s.versions| :: w in s.writers || MissedDelete(s, load, w, before)
  }

  predicate EntryInv(s: State, o: Options, e: Entry) {
    Truthful(s.versions, e.load, s.now, s.step) && e.load.readAt <= e.storedAt <= s.now
    && e.expiresAt <= e.storedAt + MaxAgeMs(o) && e.storedStep < s.step
  }

  predicate ResultInv(s: State, o: Options, r: Result) {
    Truthful(s.versions, r.load, s.now, s.step) && r.load.readAt <= r.at <= s.now && 0 <= r.loadMs
    && r.at - r.load.readAt <= MaxAgeMs(o) + r.loadMs
  }

  predicate HasLock(c: Caller) { (c.Loading? || c.Holding? || c.Finishing?) && c.token.Some? }

  /** A caller that got the lock still has it, or its five seconds are over. */
  predicate LockInv(s: State, c: Caller) {
    HasLock(c) ==>
      c.token.value in s.tokens && c.lockedAt <= s.now
      && (s.redis.lock == Some(Lock(c.token.value, c.lockedAt + LOCK_TTL_MS)) || s.now > c.lockedAt + LOCK_TTL_MS)
  }

  predicate DataInv(s: State, o: Options) {
    |s.versions| > 0
    && (forall v: nat | v < |s.versions| :: s.versions[v].committedAt <= s.now && s.versions[v].step < s.step)
    && (forall v, w | 0 <= v < w < |s.versions| :: s.versions[v].step < s.versions[w].step)
    && (forall r | r in s.results :: ResultInv(s, o, r))
    && (s.redis.entry.Some? ==> EntryInv(s, o, s.redis.entry.value))
    && (forall c | c in s.callers && s.callers[c].Holding? :: Truthful(s.versions, s.callers[c].load, s.now, s.step))
  }

  ghost predicate FreshInv(s: State) {
    (forall w: nat | w in s.deletes :: s.deletes[w] < s.step)
    && (s.redis.entry.Some? ==> Excused(s, s.redis.entry.value.load, s.redis.entry.value.storedStep))
    && (forall c | c in s.callers && s.callers[c].Holding? :: Excused(s, s.callers[c].load, s.step))
  }

  ghost predicate TokenInv(s: State) {
    (s.redis.lock.Some? ==> s.redis.lock.value.token in s.tokens)
    && (forall c | c in s.callers :: LockInv(s, s.callers[c]))
    && (forall c, d | c in s.callers && d in s.callers && HasLock(s.callers[c]) && HasLock(s.callers[d]) && c != d ::
          s.callers[c].token != s.callers[d].token)
  }

  lemma StepKeepsVersions(s: State, o: Options, e: Event)
    requires DataInv(s, o)
    ensures var t := Apply(s, o, e);
            s.now <= t.now && s.step <= t.step && |s.versions| <= |t.versions| && t.versions[..|s.versions|] == s.versions
            && forall v: nat | v < |t.versions| :: t.versions[v].committedAt <= t.now && t.versions[v].step < t.step
                 && (v >= |s.versions| ==> s.now <= t.versions[v].committedAt && s.step <= t.versions[v].step)
  {
  }

  /** A load stays truthful when commits are added after it. */
  lemma StaysTruthful(s: State, o: Options, e: Event, load: Loaded)
    requires DataInv(s, o) && Truthful(s.versions, load, s.now, s.step)
    ensures Truthful(Apply(s, o, e).versions, load, Apply(s, o, e).now, Apply(s, o, e).step)
  {
    StepKeepsVersions(s, o, e);
    var t := Apply(s, o, e);
    assert t.versions[..|s.versions|][load.version] == t.versions[load.version];
    if load.version + 1 < |s.versions| {
      assert t.versions[..|s.versions|][load.version + 1] == t.versions[load.version + 1];
    }
  }

  lemma StepKeepsEntry(s: State, o: Options, e: Event)
    requires DataInv(s, o)
    ensures var t := Apply(s, o, e); t.redis.entry.Some? ==> EntryInv(t, o, t.redis.entry.value)
  {
    StepKeepsVersions(s, o, e);
    var t := Apply(s, o, e);
    if t.redis.entry.Some? {
      if e.StoreValue? && Enabled(s, o, e) {
        assert t.redis.entry.value.load == s.callers[e.caller].load;
      }
      StaysTruthful(s, o, e, t.redis.entry.value.load);
    }
  }

  lemma StepKeepsResults(s: State, o: Options, e: Event)
    requires DataInv(s, o)
    ensures forall r | r in Apply(s, o, e).results :: ResultInv(Apply(s, o, e), o, r)
  {
    StepKeepsVersions(s, o, e);
    forall r | r in Apply(s, o, e).results ensures ResultInv(Apply(s, o, e), o, r) {
      if r in s.results {
        StaysTruthful(s, o, e, r.load);
      }
    }
  }

  lemma StepKeepsHolders(s: State, o: Options, e: Event)
    requires DataInv(s, o)
    ensures var t := Apply(s, o, e);
            forall c | c in t.callers && t.callers[c].Holding? :: Truthful(t.versions, t.callers[c].load, t.now, t.step)
  {
    var t := Apply(s, o, e);
    forall c | c in t.callers && t.callers[c].Holding? ensures Truthful(t.versions, t.callers[c].load, t.now, t.step) {
      if c in s.callers && s.callers[c] == t.callers[c] {
        StaysTruthful(s, o, e, t.callers[c].load);
      }
    }
  }

  lemma StepKeepsData(s: State, o: Options, e: Event)
    requires DataInv(s, o)
    ensures DataInv(Apply(s, o, e), o)
  {
    StepKeepsVersions(s, o, e);
    StepKeepsEntry(s, o, e);
    StepKeepsResults(s, o, e);
    StepKeepsHolders(s, o, e);
  }

  /** A load stays excused: new commits have their delete ahead, and deletes that run now fall before the store. */
  lemma StaysExcused(s: State, o: Options, e: Event, load: Loaded)
    requires |s.versions| > 0 && Excused(s, load, s.step)
    ensures Excused(Apply(s, o, e), load, Apply(s, o, e).step)
  {
  }

  /** A stored load stays excused as long as no delete runs; a delete removes the entry. */
  lemma EntryStaysExcused(s: State, o: Options, e: Event, load: Loaded, before: nat)
    requires |s.versions| > 0 && Excused(s, load, before) && !e.DeleteAfter?
    ensures Excused(Apply(s, o, e), load, before)
  {
  }

  lemma StepKeepsFreshEntry(s: State, o: Options, e: Event)
    requires |s.versions| > 0 && FreshInv(s)
    ensures var t := Apply(s, o, e);
            t.redis.entry.Some? ==> Excused(t, t.redis.entry.value.load, t.redis.entry.value.storedStep)
  {
    var t := Apply(s, o, e);
    if Enabled(s, o, e) && t.redis.entry.Some? {
      if e.StoreValue? {
        assert Excused(s, s.callers[e.caller].load, s.step);
        EntryStaysExcused(s, o, e, s.callers[e.caller].load, s.step);
      } else if !e.DeleteAfter? {
        EntryStaysExcused(s, o, e, s.redis.entry.value.load, s.redis.entry.value.storedStep);
      }
    }
  }

  lemma StepKeepsFresh(s: State, o: Options, e: Event)
    requires |s.versions| > 0 && FreshInv(s)
    ensures FreshInv(Apply(s, o, e))
  {
    var t := Apply(s, o, e);
    StepKeepsFreshEntry(s, o, e);
    forall c | c in t.callers && t.callers[c].Holding? ensures Excused(t, t.callers[c].load, t.step) {
      if c in s.callers && s.callers[c] == t.callers[c] {
        StaysExcused(s, o, e, t.callers[c].load);
      }
    }
  }

  lemma TryLockKeepsTokens(s: State, o: Options, c: int, token: int)
    requires |s.versions| > 0 && TokenInv(s) && Enabled(s, o, TryLock(c, token))
    ensures TokenInv(Apply(s, o, TryLock(c, token)))
  {
    var t := Apply(s, o, TryLock(c, token));
    forall d | d in t.callers ensures LockInv(t, t.callers[d]) {
      if d != c {
        assert LockInv(s, s.callers[d]);
      }
    }
    forall d | d in s.callers && HasLock(s.callers[d]) ensures s.callers[d].token.value in s.tokens {
      assert LockInv(s, s.callers[d]);
    }
  }

  lemma UnlockKeepsTokens(s: State, o: Options, c: int)
    requires |s.versions| > 0 && TokenInv(s) && Enabled(s, o, Unlock(c))
    ensures TokenInv(Apply(s, o, Unlock(c)))
  {
    var t := Apply(s, o, Unlock(c));
    forall d | d in t.callers ensures LockInv(t, t.callers[d]) {
      assert LockInv(s, s.callers[d]);
    }
  }

  lemma StepKeepsTokens(s: State, o: Options, e: Event)
    requires |s.versions| > 0 && TokenInv(s)
    ensures TokenInv(Apply(s, o, e))
  {
    if Enabled(s, o, e) {
      match e
      case TryLock(c, token) => TryLockKeepsTokens(s, o, c, token);
      case Unlock(c) => UnlockKeepsTokens(s, o, c);
      case _ => LockStays(s, o, e);
    }
  }

  /** No other step touches the lock or hands out a token. */
  lemma LockStays(s: State, o: Options, e: Event)
    requires |s.versions| > 0 && TokenInv(s) && Enabled(s, o, e) && !e.TryLock? && !e.Unlock?
    ensures TokenInv(Apply(s, o, e))
  {
    var t := Apply(s, o, e);
    assert t.redis.lock == s.redis.lock && t.tokens == s.tokens && s.now <= t.now;
    forall c | c in t.callers && HasLock(t.callers[c])
      ensures c in s.callers && HasLock(s.callers[c]) && t.callers[c].token == s.callers[c].token && t.callers[c].lockedAt == s.callers[c].lockedAt
    {
    }
    forall c | c in t.callers ensures LockInv(t, t.callers[c]) {
      if HasLock(t.callers[c]) {
        assert LockInv(s, s.callers[c]);
      }
    }
  }

  lemma {:induction false} InvForever(value: int, o: Options, events: seq<Event>)
    ensures DataInv(Run(value, o, events), o) && FreshInv(Run(value, o, events)) && TokenInv(Run(value, o, events))
  {
    if events != [] {
      var before := events[..|events| - 1];
      InvForever(value, o, before);
      StepKeepsData(Run(value, o, before), o, events[|events| - 1]);
      StepKeepsFresh(Run(value, o, before), o, events[|events| - 1]);
      StepKeepsTokens(Run(value, o, before), o, events[|events| - 1]);
    }
  }

  /** Every value handed to a caller was the row's value at an instant no older than
      time to live, jitter and the time its load took, together. */
  lemma ResultsWereTrueRecently(value: int, o: Options, events: seq<Event>, r: Result)
    requires r in Run(value, o, events).results
    ensures Truthful(Run(value, o, events).versions, r.load, r.at, Run(value, o, events).step)
    ensures r.at - r.load.readAt <= MaxAgeMs(o) + r.loadMs
  {
    InvForever(value, o, events);
  }

  /** The last commit came after the entry's read, and its delete is still to come or ran before the entry was stored. */
  predicate Overtaken(s: State, e: Entry)
    requires |s.versions| > 0
  {
    var w: nat := |s.versions| - 1;
    e.load.readStep < s.versions[w].step && (w in s.writers || (w in s.deletes && s.deletes[w] < e.storedStep))
  }

  /** An entry is behind the row exactly when a commit overtook its load: the writer is between commit and delete, or the
      entry was read before the commit and stored after the delete. */
  lemma BehindExactlyWhenOvertaken(value: int, o: Options, events: seq<Event>, e: Entry)
    requires Run(value, o, events).redis.entry == Some(e)
    ensures e.load.version < |Run(value, o, events).versions| - 1 <==> Overtaken(Run(value, o, events), e)
    ensures e.load.version == |Run(value, o, events).versions| - 1 ==>
      e.load.value == Run(value, o, events).versions[|Run(value, o, events).versions| - 1].value
  {
    InvForever(value, o, events);
    BehindInState(Run(value, o, events), o, e);
  }

  lemma BehindInState(s: State, o: Options, e: Entry)
    requires DataInv(s, o) && FreshInv(s) && s.redis.entry == Some(e)
    ensures e.load.version < |s.versions| - 1 <==> Overtaken(s, e)
  {
    var w: nat := |s.versions| - 1;
    if e.load.version < w {
      assert e.load.version + 1 < w ==> s.versions[e.load.version + 1].step < s.versions[w].step;
      assert w in s.writers || MissedDelete(s, e.load, w, e.storedStep);
    }
  }

  /** With the lock's five seconds not over, nobody else loads under the lock. */
  lemma OneLoaderAtATime(value: int, o: Options, events: seq<Event>, c: int, d: int)
    requires var s := Run(value, o, events);
             c in s.callers && d in s.callers && HasLock(s.callers[c]) && HasLock(s.callers[d])
             && s.now <= s.callers[c].lockedAt + 5000 && s.now <= s.callers[d].lockedAt + 5000
    ensures c == d
  {
    InvForever(value, o, events);
  }

  /** A caller that lost its lock to the expiry does not release the next owner's. */
  lemma UnlockLeavesOthers(value: int, o: Options, events: seq<Event>, c: int, d: int)
    requires var s := Run(value, o, events);
             c != d && c in s.callers && d in s.callers && s.callers[c].Finishing? && HasLock(s.callers[d])
             && s.now <= s.callers[d].lockedAt + 5000
    ensures Apply(Run(value, o, events), o, Unlock(c)).redis.lock
         == Some(Lock(Run(value, o, events).callers[d].token.value, Run(value, o, events).callers[d].lockedAt + 5000))
  {
    InvForever(value, o, events);
    OwnLockOnly(Run(value, o, events), o, c, d);
  }

  lemma OwnLockOnly(s: State, o: Options, c: int, d: int)
    requires |s.versions| > 0 && TokenInv(s)
    requires c != d && c in s.callers && d in s.callers && s.callers[c].Finishing? && HasLock(s.callers[d])
    requires s.now <= s.callers[d].lockedAt + 5000
    ensures Apply(s, o, Unlock(c)).redis.lock == Some(Lock(s.callers[d].token.value, s.callers[d].lockedAt + 5000))
  {
    assert LockInv(s, s.callers[d]);
    if s.callers[c].token.Some? {
      assert s.callers[c].token != s.callers[d].token;
    }
  }

  /* ---------- what a caller gets ---------- */

  /** A stored value is served to every call within its lifetime, to the millisecond, and to none after. */
  lemma StoredIsServed(s: State, o: Options, c: int, jitter: nat, ms: nat, d: int)
    requires |s.versions| > 0 && Enabled(s, o, StoreValue(c, jitter)) && d !in s.callers && d != c
    ensures var stored := Apply(s, o, StoreValue(c, jitter));
            var t := Apply(Apply(stored, o, Tick(ms)), o, Call(d));
            var load := s.callers[c].load;
            && Result(load, s.now, s.now - load.readAt) in stored.results
            && (d !in t.callers <==> ms <= (o.ttlSeconds + jitter) * 1000)
            && (d !in t.callers ==> Result(load, s.now + ms, s.now - load.readAt) in t.results)
            && (d in t.callers ==> t.callers[d] == Waiting(s.now + ms + 5000))
  {
  }

  /** A caller that wakes finds a value stored meanwhile, and goes back to the head of the loop otherwise. */
  lemma WakingFindsTheValue(s: State, o: Options, d: int)
    requires |s.versions| > 0 && Enabled(s, o, Wake(d))
    ensures var t := Apply(s, o, Wake(d));
            if s.redis.entry.Some? && s.now <= s.redis.entry.value.expiresAt
            then d !in t.callers && exists r :: r in t.results && r.load == s.redis.entry.value.load && r.at == s.now
            else t.callers[d] == Waiting(s.callers[d].deadline) && t.results == s.results
  {
    var t := Apply(s, o, Wake(d));
    if s.redis.entry.Some? && s.now <= s.redis.entry.value.expiresAt {
      assert HitResult(s.redis.entry.value, s.now) in t.results;
    }
  }

  /** In the loop: before the deadline the lock is asked for and taken if it is free or five seconds old; a caller that
      does not get it sleeps fifty milliseconds; after the deadline it loads without. */
  lemma LoopSteps(s: State, o: Options, d: int, token: int)
    requires |s.versions| > 0 && d in s.callers
    ensures s.callers[d].Waiting? ==>
      Apply(s, o, CheckDeadline(d)).callers[d] == if s.now < s.callers[d].deadline then Asking(s.callers[d].deadline) else Loading(None, s.now)
    ensures s.callers[d].Asking? && token !in s.tokens ==>
      var t := Apply(s, o, TryLock(d, token));
      if s.redis.lock.None? || s.redis.lock.value.expiresAt < s.now
      then t.callers[d] == Loading(Some(token), s.now) && t.redis.lock == Some(Lock(token, s.now + 5000))
      else t.callers[d] == Sleeping(s.callers[d].deadline, s.now + 50) && t.redis == s.redis
  {
  }

  /** Whoever still has the lock frees it in the end. */
  lemma UnlockFreesOwn(value: int, o: Options, events: seq<Event>, c: int)
    requires var s := Run(value, o, events);
             c in s.callers && s.callers[c].Finishing? && HasLock(s.callers[c]) && s.now <= s.callers[c].lockedAt + 5000
    ensures Apply(Run(value, o, events), o, Unlock(c)).redis.lock == None
  {
    InvForever(value, o, events);
    assert LockInv(Run(value, o, events), Run(value, o, events).callers[c]);
  }

  lemma RunThen(value: int, o: Options, events: seq<Event>, e: Event)
    ensures Run(value, o, events + [e]) == Apply(Run(value, o, events), o, e)
  {
    assert (events + [e])[..|events|] == events;
  }

  /** Caller 1 has read the row under its lock and not stored it yet. */
  lemma ReadBeforeTheCommit(o: Options, a: int)
    ensures Run(a, o, [Call(1), CheckDeadline(1), TryLock(1, 7), ReadRow(1)])
         == State(Redis(None, Some(Lock(7, LOCK_TTL_MS))), [Version(a, 0, -1)], {}, map[],
                  map[1 := Holding(Some(7), 0, Loaded(a, 0, 0, 3))], {7}, {}, 0, 4)
  {
    RunThen(a, o, [], Call(1));
    RunThen(a, o, [Call(1)], CheckDeadline(1));
    RunThen(a, o, [Call(1), CheckDeadline(1)], TryLock(1, 7));
    RunThen(a, o, [Call(1), CheckDeadline(1), TryLock(1, 7)], ReadRow(1));
    assert [] + [Call(1)] == [Call(1)];
    assert [Call(1)] + [CheckDeadline(1)] == [Call(1), CheckDeadline(1)];
    assert [Call(1), CheckDeadline(1)] + [TryLock(1, 7)] == [Call(1), CheckDeadline(1), TryLock(1, 7)];
    assert [Call(1), CheckDeadline(1), TryLock(1, 7)] + [ReadRow(1)] == [Call(1), CheckDeadline(1), TryLock(1, 7), ReadRow(1)];
    assert Run(a, o, []) == Init(a);
    assert Run(a, o, [Call(1)]).callers == map[1 := Waiting(5000)];
    assert Run(a, o, [Call(1), CheckDeadline(1)]).callers == map[1 := Asking(5000)];
    assert Run(a, o, [Call(1), CheckDeadline(1), TryLock(1, 7)]).callers == map[1 := Loading(Some(7), 0)];
    assert Run(a, o, [Call(1), CheckDeadline(1), TryLock(1, 7), ReadRow(1)]).callers == map[1 := Holding(Some(7), 0, Loaded(a, 0, 0, 3))];
  }

  /** The second excuse is real: a commit and its delete fall between the read and the store,
      and the old value stays cached with no writer left to delete it. */
  lemma MissedDeleteLeavesStaleEntry(o: Options, a: int, b: int)
    requires a != b
    ensures exists events :: var s := Run(a, o, events);
            s.writers == {} && s.redis.entry.Some? && s.redis.entry.value.load.value == a && s.versions[|s.versions| - 1].value == b
  {
    ReadBeforeTheCommit(o, a);
    var read := [Call(1), CheckDeadline(1), TryLock(1, 7), ReadRow(1)];
    RunThen(a, o, read, CommitWrite(b));
    RunThen(a, o, read + [CommitWrite(b)], DeleteAfter(1));
    RunThen(a, o, read + [CommitWrite(b)] + [DeleteAfter(1)], StoreValue(1, 0));
    assert Run(a, o, read + [CommitWrite(b)]).writers == {1};
    assert Run(a, o, read + [CommitWrite(b)] + [DeleteAfter(1)]).writers == {};
    var s := Run(a, o, read + [CommitWrite(b)] + [DeleteAfter(1)] + [StoreValue(1, 0)]);
    assert s.writers == {} && s.redis.entry.Some? && s.redis.entry.value.load.value == a;
    assert s.versions == [Version(a, 0, -1), Version(b, 0, 4)];
  }
}
