/**
 The sliding-window limiter.  One key of the sorted set, with its expiry, for a fixed window and limit;
 times are milliseconds of the Redis clock.  The members are fresh ids, so the set is a sequence of scores.
 */
module RateLimit {
  import opened Wrappers

  /** `hits` ascend, as a sorted set lists them; a key without `expireAt` does not exist. */
  datatype Key = Key(hits: seq<int>, expireAt: Option<int>)

  /** What the storage answers the throttler guard. */
  datatype Record = Record(totalHits: int, timeToExpire: int, isBlocked: bool, timeToBlockExpire: int)

  function CeilSeconds(ms: int): int { (ms + 999) / 1000 }

  function Max(a: int, b: int): int { if a < b then b else a }

  /** Redis drops a key once its expiry instant has passed. */
  function Existing(k: Key, now: int): seq<int> {
    if k.expireAt.Some? && now > k.expireAt.value then [] else k.hits
  }

  /** ZREMRANGEBYSCORE -inf .. now - window. */
  function Inside(hits: seq<int>, now: int, window: int): seq<int> {
    if hits == [] then []
    else Inside(hits[..|hits| - 1], now, window) + if hits[|hits| - 1] > now - window then [hits[|hits| - 1]] else []
  }

  predicate Admits(k: Key, now: int, window: int, limit: int) { |Inside(Existing(k, now), now, window)| < limit }

  function Hit(k: Key, now: int, window: int, limit: int): Key {
    var inside := Inside(Existing(k, now), now, window);
    if |inside| < limit then Key(inside + [now], Some(now + window))
    else Key(inside, k.expireAt)
  }

  class Limiter {
    var hits: seq<int>
    var expireAt: Option<int>

    function Contents(): Key reads this { Key(hits, expireAt) }

    constructor ()
      ensures Contents() == Key([], None)
    {
      hits, expireAt := [], None;
    }

    /** The script and `increment`: drop what left the window, count, maybe add, and report. */
    method Increment(now: int, window: int, limit: int) returns (r: Record)
      requires limit >= 1
      modifies this
      ensures Contents() == Hit(old(Contents()), now, window, limit)
      ensures r.isBlocked == !Admits(old(Contents()), now, window, limit)
      ensures |hits| >= 1
      ensures r.totalHits == if r.isBlocked then |hits| + 1 else |hits|
      ensures r.timeToExpire == Max(1, CeilSeconds(hits[0] + window - now))
      ensures r.timeToBlockExpire == if r.isBlocked then r.timeToExpire else 0
    {
      if expireAt.Some? && now > expireAt.value {
        hits := [];
      }
      var kept: seq<int> := [];
      var i := 0;
      while i < |hits|
        invariant 0 <= i <= |hits| && kept == Inside(hits[..i], now, window)
      {
        assert hits[..i + 1][..i] == hits[..i];
        if hits[i] > now - window {
          kept := kept + [hits[i]];
        }
        i := i + 1;
      }
      assert hits[..i] == hits;
      hits := kept;
      var allowed := |hits| < limit;
      if allowed {
        hits := hits + [now];
        expireAt := Some(now + window);
      }
      var left := Max(1, CeilSeconds(hits[0] + window - now));
      r := Record(if allowed then |hits| else |hits| + 1, left, !allowed, if allowed then 0 else left);
    }
  }

  /* ---------- the reference: a log of admitted hits that is never cleaned ---------- */

  predicate LogAdmits(log: seq<int>, now: int, window: int, limit: int) { |Inside(log, now, window)| < limit }

  /** The log of admitted hits after a sequence of attempts. */
  function Log(attempts: seq<int>, window: int, limit: int): seq<int> {
    if attempts == [] then []
    else
      var log, now := Log(attempts[..|attempts| - 1], window, limit), attempts[|attempts| - 1];
      if LogAdmits(log, now, window, limit) then log + [now] else log
  }

  function KeyAfter(attempts: seq<int>, window: int, limit: int): Key {
    if attempts == [] then Key([], None)
    else Hit(KeyAfter(attempts[..|attempts| - 1], window, limit), attempts[|attempts| - 1], window, limit)
  }

  predicate Monotone(times: seq<int>) { forall i, j :: 0 <= i < j < |times| ==> times[i] <= times[j] }

  predicate UpTo(times: seq<int>, now: int) { forall i :: 0 <= i < |times| ==> times[i] <= now }

  lemma InsideOfAppended(hits: seq<int>, t: int, now: int, window: int)
    ensures Inside(hits + [t], now, window) == Inside(hits, now, window) + if t > now - window then [t] else []
  {
    assert (hits + [t])[..|hits + [t]| - 1] == hits;
  }

  /** Cleaning up to an earlier instant loses nothing that a later one would count. */
  lemma {:induction false} InsideTwice(hits: seq<int>, earlier: int, now: int, window: int)
    requires earlier <= now
    ensures Inside(Inside(hits, earlier, window), now, window) == Inside(hits, now, window)
  {
    if hits != [] {
      var front, last := hits[..|hits| - 1], hits[|hits| - 1];
      InsideTwice(front, earlier, now, window);
      if last > earlier - window {
        InsideOfAppended(Inside(front, earlier, window), last, now, window);
      } else {
        assert Inside(hits, earlier, window) == Inside(front, earlier, window);
      }
    }
  }

  lemma {:induction false} NothingInside(hits: seq<int>, now: int, window: int)
    requires forall i :: 0 <= i < |hits| ==> hits[i] <= now - window
    ensures Inside(hits, now, window) == []
  {
    if hits != [] {
      NothingInside(hits[..|hits| - 1], now, window);
    }
  }

  lemma {:induction false} InsideIsPart(hits: seq<int>, now: int, window: int)
    ensures forall i :: 0 <= i < |Inside(hits, now, window)| ==>
      Inside(hits, now, window)[i] in hits && Inside(hits, now, window)[i] > now - window
    ensures Monotone(hits) ==> Monotone(Inside(hits, now, window))
  {
    if hits != [] {
      var front, last := hits[..|hits| - 1], hits[|hits| - 1];
      InsideIsPart(front, now, window);
      var inside := Inside(front, now, window);
      forall i | 0 <= i < |inside| ensures inside[i] in hits && (Monotone(hits) ==> inside[i] <= last) {
        assert inside[i] in front;
        var k :| 0 <= k < |front| && front[k] == inside[i];
        assert hits[k] == inside[i];
      }
    }
  }

  /** What the key remembers of the log. */
  predicate Tracks(k: Key, log: seq<int>, t: int, window: int) {
    && Monotone(log) && UpTo(log, t)
    && k.hits == Inside(log, t, window)
    && k.expireAt == if log == [] then None else Some(log[|log| - 1] + window)
  }

  lemma TrackedCount(k: Key, log: seq<int>, t: int, now: int, window: int)
    requires Tracks(k, log, t, window) && t <= now
    ensures Inside(Existing(k, now), now, window) == Inside(log, now, window)
  {
    if k.expireAt.Some? && now > k.expireAt.value {
      forall i | 0 <= i < |log| ensures log[i] <= now - window {
        assert log[i] <= log[|log| - 1];
      }
      NothingInside(log, now, window);
    } else {
      InsideTwice(log, t, now, window);
    }
  }

  /** An admitted hit is the newest of the log and of the key. */
  lemma TrackAdmitted(k: Key, log: seq<int>, t: int, now: int, window: int, limit: int)
    requires Tracks(k, log, t, window) && t <= now && window > 0 && LogAdmits(log, now, window, limit)
    ensures Tracks(Hit(k, now, window, limit), log + [now], now, window)
  {
    TrackedCount(k, log, t, now, window);
    InsideOfAppended(log, now, now, window);
  }

  lemma TrackRefused(k: Key, log: seq<int>, t: int, now: int, window: int, limit: int)
    requires Tracks(k, log, t, window) && t <= now && !LogAdmits(log, now, window, limit)
    ensures Tracks(Hit(k, now, window, limit), log, now, window)
  {
    TrackedCount(k, log, t, now, window);
  }

  lemma TrackStep(k: Key, log: seq<int>, t: int, now: int, window: int, limit: int)
    requires Tracks(k, log, t, window) && t <= now && limit >= 1 && window > 0
    ensures Tracks(Hit(k, now, window, limit), if LogAdmits(log, now, window, limit) then log + [now] else log, now, window)
  {
    if LogAdmits(log, now, window, limit) {
      TrackAdmitted(k, log, t, now, window, limit);
    } else {
      TrackRefused(k, log, t, now, window, limit);
    }
  }

  lemma {:induction false} KeyTracksLog(attempts: seq<int>, now: int, window: int, limit: int) returns (t: int)
    requires Monotone(attempts) && UpTo(attempts, now) && limit >= 1 && window > 0
    ensures t <= now && Tracks(KeyAfter(attempts, window, limit), Log(attempts, window, limit), t, window)
  {
    if attempts == [] {
      t := now;
    } else {
      var front := attempts[..|attempts| - 1];
      var earlier := KeyTracksLog(front, attempts[|attempts| - 1], window, limit);
      t := attempts[|attempts| - 1];
      TrackStep(KeyAfter(front, window, limit), Log(front, window, limit), earlier, t, window, limit);
    }
  }

  /** The expiring key admits exactly what a log that is never cleaned would admit. */
  lemma {:induction false} SameAsTheLog(attempts: seq<int>, now: int, window: int, limit: int)
    requires Monotone(attempts) && UpTo(attempts, now) && limit >= 1 && window > 0
    ensures Admits(KeyAfter(attempts, window, limit), now, window, limit) <==> LogAdmits(Log(attempts, window, limit), now, window, limit)
  {
    var t := KeyTracksLog(attempts, now, window, limit);
    TrackedCount(KeyAfter(attempts, window, limit), Log(attempts, window, limit), t, now, window);
  }

  /* ---------- never more than `limit` in a window ---------- */

  /** Admitted hits in the half-open interval [from, to). */
  function CountIn(log: seq<int>, from: int, to: int): nat {
    if log == [] then 0
    else CountIn(log[..|log| - 1], from, to) + if from <= log[|log| - 1] < to then 1 else 0
  }

  lemma CountInOfAppended(log: seq<int>, t: int, from: int, to: int)
    ensures CountIn(log + [t], from, to) == CountIn(log, from, to) + if from <= t < to then 1 else 0
  {
    assert (log + [t])[..|log + [t]| - 1] == log;
  }

  lemma {:induction false} RecentAreInside(log: seq<int>, from: int, to: int, now: int, window: int)
    requires from > now - window
    ensures CountIn(log, from, to) <= |Inside(log, now, window)|
  {
    if log != [] {
      RecentAreInside(log[..|log| - 1], from, to, now, window);
    }
  }

  /** Whatever the attempts, every interval of window length holds at most `limit` admitted hits. */
  lemma {:induction false} NeverMoreThanLimit(attempts: seq<int>, window: int, limit: int, from: int)
    requires limit >= 1 && window > 0
    ensures CountIn(Log(attempts, window, limit), from, from + window) <= limit
  {
    if attempts != [] {
      var log, now := Log(attempts[..|attempts| - 1], window, limit), attempts[|attempts| - 1];
      NeverMoreThanLimit(attempts[..|attempts| - 1], window, limit, from);
      if LogAdmits(log, now, window, limit) {
        CountInOfAppended(log, now, from, from + window);
        if from <= now < from + window {
          RecentAreInside(log, from, from + window, now, window);
        }
      }
    }
  }

  /* ---------- Retry-After ---------- */

  lemma {:induction false} InsideIsCounted(log: seq<int>, now: int, window: int)
    requires UpTo(log, now)
    ensures |Inside(log, now, window)| == CountIn(log, now - window + 1, now + 1)
  {
    if log != [] {
      InsideIsCounted(log[..|log| - 1], now, window);
    }
  }

  lemma {:induction false} AllStillInside(hits: seq<int>, now: int, window: int)
    requires forall i :: 0 <= i < |hits| ==> hits[i] > now - window
    ensures Inside(hits, now, window) == hits
  {
    if hits != [] {
      AllStillInside(hits[..|hits| - 1], now, window);
      assert hits == hits[..|hits| - 1] + [hits[|hits| - 1]];
    }
  }

  lemma {:induction false} InsideIsNoLonger(hits: seq<int>, now: int, window: int)
    ensures |Inside(hits, now, window)| <= |hits|
    ensures hits != [] && hits[0] <= now - window ==> |Inside(hits, now, window)| < |hits|
  {
    if hits != [] {
      InsideIsNoLonger(hits[..|hits| - 1], now, window);
    }
  }

  /** A full key admits its next hit exactly when its oldest hit leaves the window. */
  lemma AdmittedWhenOldestLeaves(k: Key, t: int, window: int, limit: int)
    requires IsFull(k, window, limit)
    ensures Admits(k, t, window, limit) <==> t >= k.hits[0] + window
  {
    assert k.hits[0] <= k.hits[|k.hits| - 1];
    if t >= k.hits[0] + window {
      InsideIsNoLonger(k.hits, t, window);
    } else {
      assert forall i :: 0 <= i < |k.hits| ==> k.hits[0] <= k.hits[i];
      AllStillInside(k.hits, t, window);
    }
  }

  lemma LastOfInside(log: seq<int>, t: int, window: int)
    requires Inside(log, t, window) != [] && Monotone(log)
    ensures log != [] && Inside(log, t, window)[|Inside(log, t, window)| - 1] == log[|log| - 1]
  {
    if log[|log| - 1] <= t - window {
      NothingInside(log, t, window);
    }
  }

  predicate IsFull(k: Key, window: int, limit: int) {
    |k.hits| == limit && limit >= 1 && Monotone(k.hits) && k.expireAt == Some(k.hits[|k.hits| - 1] + window)
  }

  lemma FullWhenBlocked(k: Key, log: seq<int>, t: int, now: int, window: int, limit: int)
    requires Tracks(k, log, t, window) && t <= now && limit >= 1 && !Admits(k, now, window, limit)
    requires CountIn(log, now - window + 1, now + 1) <= limit
    ensures IsFull(Hit(k, now, window, limit), window, limit) && now - window < Hit(k, now, window, limit).hits[0]
  {
    TrackedCount(k, log, t, now, window);
    InsideIsCounted(log, now, window);
    InsideIsPart(log, now, window);
    LastOfInside(log, now, window);
  }

  /** A refused attempt finds the key exactly full. */
  lemma {:induction false} BlockedKeyIsFull(attempts: seq<int>, now: int, window: int, limit: int)
    requires Monotone(attempts) && UpTo(attempts, now) && limit >= 1 && window > 0
    requires !Admits(KeyAfter(attempts, window, limit), now, window, limit)
    ensures IsFull(Hit(KeyAfter(attempts, window, limit), now, window, limit), window, limit)
    ensures now - window < Hit(KeyAfter(attempts, window, limit), now, window, limit).hits[0]
  {
    var t := KeyTracksLog(attempts, now, window, limit);
    NeverMoreThanLimit(attempts, window, limit, now - window + 1);
    FullWhenBlocked(KeyAfter(attempts, window, limit), Log(attempts, window, limit), t, now, window, limit);
  }

  lemma CeilIsLeast(ms: int, n: nat)
    requires ms > 0
    ensures 1000 * n >= ms <==> n >= Max(1, CeilSeconds(ms))
  {
    var q := CeilSeconds(ms);
    assert 1000 * q >= ms > 1000 * (q - 1);
    if n >= q {
      assert 1000 * n >= 1000 * q;
    } else {
      assert 1000 * n <= 1000 * (q - 1);
    }
  }

  lemma FullKeyRetry(k: Key, now: int, window: int, limit: int, n: nat)
    requires IsFull(k, window, limit) && now - window < k.hits[0]
    ensures Admits(k, now + 1000 * n, window, limit) <==> n >= Max(1, CeilSeconds(k.hits[0] + window - now))
  {
    AdmittedWhenOldestLeaves(k, now + 1000 * n, window, limit);
    CeilIsLeast(k.hits[0] + window - now, n);
  }

  /** The reported number of seconds is the least that helps: a caller who is refused and comes back after
      n whole seconds, with no other hit in between, is admitted exactly when n has reached it. */
  lemma {:induction false} RetryAfterIsExact(attempts: seq<int>, now: int, window: int, limit: int, n: nat, k: Key)
    requires Monotone(attempts) && UpTo(attempts, now) && limit >= 1 && window > 0
    requires !Admits(KeyAfter(attempts, window, limit), now, window, limit)
    requires k == Hit(KeyAfter(attempts, window, limit), now, window, limit)
    ensures |k.hits| > 0
    ensures Admits(k, now + 1000 * n, window, limit) <==> n >= Max(1, CeilSeconds(k.hits[0] + window - now))
  {
    BlockedKeyIsFull(attempts, now, window, limit);
    FullKeyRetry(k, now, window, limit, n);
  }
}
