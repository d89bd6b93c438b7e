/**
 Refresh-token families: at most one usable session each, and nothing usable after a revocation.
 */
module SessionProofs {
  import opened Wrappers
  import opened Sessions

  /** Rows may gain sessions and change flags, but a session never changes family. */
  predicate Evolves(s: State, t: State) {
    && (forall h :: h in s.rows ==> h in t.rows && t.rows[h].family == s.rows[h].family)
    && s.handedOut <= t.handedOut
  }

  lemma KnownFamilyRemains(s: State, t: State, family: int)
    requires Evolves(s, t)
    requires exists h :: h in s.rows && h in s.handedOut && s.rows[h].family == family
    ensures exists h :: h in t.rows && h in t.handedOut && t.rows[h].family == family
  {
    var h :| h in s.rows && h in s.handedOut && s.rows[h].family == family;
    assert h in t.rows && h in t.handedOut && t.rows[h].family == family;
  }

  /** A transaction and a half-finished login are never of one family. */
  lemma LoginIsAlone(lockOf: int -> int, s: State, u: int, login: Login)
    requires Inv(lockOf, s) && u in s.txns && login in s.logins
    ensures s.txns[u].family != login.family
  {
    assert TxnInv(lockOf, s, u);
    assert LoginInv(s, login);
    var h :| h in s.rows && h in s.handedOut && s.rows[h].family == s.txns[u].family;
  }

  lemma LoginCreateKeepsInv(lockOf: int -> int, s: State, hash: int, family: int)
    requires Inv(lockOf, s) && Enabled(lockOf, s, LoginCreate(hash, family))
    ensures Inv(lockOf, Apply(lockOf, s, LoginCreate(hash, family)))
  {
    var t := Apply(lockOf, s, LoginCreate(hash, family));
    assert Evolves(s, t);
    forall u | u in t.txns ensures TxnInv(lockOf, t, u) {
      assert TxnInv(lockOf, s, u);
      KnownFamilyRemains(s, t, s.txns[u].family);
      assert UnrevokedOf(t.rows, s.txns[u].family) == UnrevokedOf(s.rows, s.txns[u].family);
    }
    forall l | l in t.logins ensures LoginInv(t, l) {
      if l in s.logins {
        assert LoginInv(s, l);
      }
    }
  }

  lemma LoginSignKeepsInv(lockOf: int -> int, s: State, login: Login)
    requires Inv(lockOf, s) && Enabled(lockOf, s, LoginSign(login))
    ensures Inv(lockOf, Apply(lockOf, s, LoginSign(login)))
  {
    var t := Apply(lockOf, s, LoginSign(login));
    assert LoginInv(s, login);
    forall u | u in t.txns ensures TxnInv(lockOf, t, u) {
      assert TxnInv(lockOf, s, u);
      KnownFamilyRemains(s, t, s.txns[u].family);
    }
    forall l | l in t.logins ensures LoginInv(t, l) {
      assert LoginInv(s, l);
    }
  }

  lemma BeginKeepsInv(lockOf: int -> int, s: State, e: Event)
    requires Inv(lockOf, s) && Enabled(lockOf, s, e) && (e.Present? || e.BeginRevoke?)
    ensures Inv(lockOf, Apply(lockOf, s, e))
  {
    var t := Apply(lockOf, s, e);
    forall u | u in t.txns ensures TxnInv(lockOf, t, u) {
      if u in s.txns {
        assert TxnInv(lockOf, s, u);
      } else {
        assert e.hash in t.rows && e.hash in t.handedOut && t.rows[e.hash].family == t.txns[u].family;
      }
    }
    forall l | l in t.logins ensures LoginInv(t, l) {
      assert LoginInv(s, l);
    }
  }

  lemma LockKeepsInv(lockOf: int -> int, s: State, x: int)
    requires Inv(lockOf, s) && Enabled(lockOf, s, LockFamily(x))
    ensures Inv(lockOf, Apply(lockOf, s, LockFamily(x)))
  {
    var t := Apply(lockOf, s, LockFamily(x));
    forall u | u in t.txns ensures TxnInv(lockOf, t, u) {
      assert TxnInv(lockOf, s, u);
    }
    forall l | l in t.logins ensures LoginInv(t, l) {
      assert LoginInv(s, l);
    }
  }

  /** Steps that change one transaction's phase and nothing another transaction looks at. */
  lemma PhaseKeepsInv(lockOf: int -> int, s: State, e: Event)
    requires Inv(lockOf, s) && Enabled(lockOf, s, e) && (e.Consume? || e.Create? || e.RevokeRows?)
    ensures Inv(lockOf, Apply(lockOf, s, e))
  {
    var t := Apply(lockOf, s, e);
    assert TxnInv(lockOf, s, e.txn);
    forall u | u in t.txns ensures TxnInv(lockOf, t, u) {
      assert TxnInv(lockOf, s, u);
    }
    forall l | l in t.logins ensures LoginInv(t, l) {
      assert LoginInv(s, l);
    }
  }

  lemma ConsumedFamilyIsNotRevoked(lockOf: int -> int, s: State, x: int)
    requires Inv(lockOf, s) && x in s.txns && s.txns[x].Rotation? && HasConsumed(s.txns[x].phase)
    ensures s.txns[x].family !in s.revoked
  {
    assert TxnInv(lockOf, s, x);
  }

  lemma SignKeepsInv(lockOf: int -> int, s: State, x: int)
    requires Inv(lockOf, s) && Enabled(lockOf, s, Sign(x))
    ensures Inv(lockOf, Apply(lockOf, s, Sign(x)))
  {
    var t := Apply(lockOf, s, Sign(x));
    assert TxnInv(lockOf, s, x);
    ConsumedFamilyIsNotRevoked(lockOf, s, x);
    forall u | u in t.txns ensures TxnInv(lockOf, t, u) {
      assert TxnInv(lockOf, s, u);
    }
    forall l | l in t.logins ensures LoginInv(t, l) {
      assert LoginInv(s, l);
    }
    assert TokenInv(t);
  }

  lemma RollbackKeepsInv(lockOf: int -> int, s: State, x: int)
    requires Inv(lockOf, s) && Enabled(lockOf, s, Rollback(x))
    ensures Inv(lockOf, Apply(lockOf, s, Rollback(x)))
  {
    var t := Apply(lockOf, s, Rollback(x));
    forall u | u in t.txns ensures TxnInv(lockOf, t, u) {
      assert TxnInv(lockOf, s, u);
    }
    forall l | l in t.logins ensures LoginInv(t, l) {
      assert LoginInv(s, l);
    }
  }

  /** While one transaction of a family is past its lock, every other one still waits for it. */
  lemma OthersWait(lockOf: int -> int, s: State, x: int, u: int)
    requires Inv(lockOf, s) && x in s.txns && u in s.txns && x != u
    requires s.txns[x].family == s.txns[u].family && IsPast(s.txns[x].phase)
    ensures s.txns[u].phase == Presented
  {
    assert TxnInv(lockOf, s, x) && TxnInv(lockOf, s, u);
  }

  /** A commit that rewrites rows of the committing family only. */
  predicate TouchesOnly(s: State, t: State, family: int) {
    && Evolves(s, t)
    && (forall h :: h in t.rows && t.rows[h].family != family ==> h in s.rows && t.rows[h] == s.rows[h])
    && (forall h :: h in s.rows && s.rows[h].family != family ==> t.rows[h] == s.rows[h])
  }

  lemma SameUnrevoked(s: State, t: State, touched: int, family: int)
    requires TouchesOnly(s, t, touched) && family != touched
    ensures UnrevokedOf(t.rows, family) == UnrevokedOf(s.rows, family)
  {
    forall h ensures h in UnrevokedOf(t.rows, family) <==> h in UnrevokedOf(s.rows, family) {
      if h in s.rows && s.rows[h].family == family {
        assert t.rows[h] == s.rows[h];
      }
    }
  }

  lemma OtherTxnsSurvive(lockOf: int -> int, s: State, t: State, x: int, u: int)
    requires Inv(lockOf, s) && x in s.txns && IsPast(s.txns[x].phase) && u in s.txns && u != x
    requires TouchesOnly(s, t, s.txns[x].family)
    requires t.txns == s.txns - {x} && t.locks == (map l | l in s.locks && s.locks[l] != x :: s.locks[l])
    requires NewHashOf(s.txns[u]).Some? ==> NewHashOf(s.txns[u]).value !in t.rows && NewHashOf(s.txns[u]).value !in t.handedOut
    ensures TxnInv(lockOf, t, u)
  {
    assert TxnInv(lockOf, s, u);
    KnownFamilyRemains(s, t, s.txns[u].family);
    if s.txns[u].family == s.txns[x].family {
      OthersWait(lockOf, s, x, u);
    } else {
      SameUnrevoked(s, t, s.txns[x].family, s.txns[u].family);
    }
  }

  lemma LoginsSurvive(lockOf: int -> int, s: State, t: State, x: int, l: Login)
    requires Inv(lockOf, s) && x in s.txns && l in s.logins
    requires TouchesOnly(s, t, s.txns[x].family)
    requires l.hash !in t.handedOut && t.revoked <= s.revoked + {s.txns[x].family}
    ensures LoginInv(t, l)
  {
    assert LoginInv(s, l);
    LoginIsAlone(lockOf, s, x, l);
  }

  /** The rows a committing rotation leaves: its own family's session is used up, and maybe a new one is there. */
  lemma RotationTouchesOnly(lockOf: int -> int, s: State, x: int)
    requires Inv(lockOf, s) && Enabled(lockOf, s, Commit(x)) && HasConsumed(s.txns[x].phase)
    ensures TouchesOnly(s, Apply(lockOf, s, Commit(x)), s.txns[x].family) && OneLive(Apply(lockOf, s, Commit(x)).rows)
    ensures RevokedStay(Apply(lockOf, s, Commit(x)))
  {
    assert TxnInv(lockOf, s, x);
    ConsumedFamilyIsNotRevoked(lockOf, s, x);
  }

  lemma CommitRotationKeepsInv(lockOf: int -> int, s: State, x: int)
    requires Inv(lockOf, s) && Enabled(lockOf, s, Commit(x)) && HasConsumed(s.txns[x].phase)
    ensures Inv(lockOf, Apply(lockOf, s, Commit(x)))
  {
    var t := Apply(lockOf, s, Commit(x));
    assert TxnInv(lockOf, s, x);
    RotationTouchesOnly(lockOf, s, x);
    forall u | u in t.txns ensures TxnInv(lockOf, t, u) {
      assert TxnInv(lockOf, s, u);
      OtherTxnsSurvive(lockOf, s, t, x, u);
    }
    forall l | l in t.logins ensures LoginInv(t, l) {
      assert LoginInv(s, l);
      LoginsSurvive(lockOf, s, t, x, l);
    }
  }

  lemma CommitRevocationKeepsInv(lockOf: int -> int, s: State, x: int)
    requires Inv(lockOf, s) && Enabled(lockOf, s, Commit(x)) && s.txns[x].phase.Marked?
    ensures Inv(lockOf, Apply(lockOf, s, Commit(x)))
  {
    var t := Apply(lockOf, s, Commit(x));
    var r := s.txns[x];
    assert TxnInv(lockOf, s, x);
    assert TouchesOnly(s, t, r.family);
    forall u | u in t.txns ensures TxnInv(lockOf, t, u) {
      assert TxnInv(lockOf, s, u);
      OtherTxnsSurvive(lockOf, s, t, x, u);
    }
    forall l | l in t.logins ensures LoginInv(t, l) {
      assert LoginInv(s, l);
      LoginsSurvive(lockOf, s, t, x, l);
    }
  }

  lemma CommitRefusedKeepsInv(lockOf: int -> int, s: State, x: int)
    requires Inv(lockOf, s) && Enabled(lockOf, s, Commit(x)) && s.txns[x].phase.Refused?
    ensures Inv(lockOf, Apply(lockOf, s, Commit(x)))
  {
    RollbackKeepsInv(lockOf, s, x);
    assert Apply(lockOf, s, Commit(x)) == Apply(lockOf, s, Rollback(x));
  }

  lemma ClockKeepsInv(lockOf: int -> int, s: State, e: Event)
    requires Inv(lockOf, s) && Enabled(lockOf, s, e) && (e.Tick? || e.DenyFamily? || e.CheckExpiry? || e.AskDenylist?)
    ensures Inv(lockOf, Apply(lockOf, s, e))
  {
    var t := Apply(lockOf, s, e);
    forall u | u in t.txns ensures TxnInv(lockOf, t, u) {
      assert TxnInv(lockOf, s, u);
    }
    forall l | l in t.logins ensures LoginInv(t, l) {
      assert LoginInv(s, l);
    }
  }

  lemma StepKeepsInv(lockOf: int -> int, s: State, e: Event)
    requires Inv(lockOf, s)
    ensures Inv(lockOf, Apply(lockOf, s, e))
  {
    if Enabled(lockOf, s, e) {
      match e
      case LoginCreate(hash, family) => LoginCreateKeepsInv(lockOf, s, hash, family);
      case LoginSign(login) => LoginSignKeepsInv(lockOf, s, login);
      case Present(_, _) => BeginKeepsInv(lockOf, s, e);
      case BeginRevoke(_, _) => BeginKeepsInv(lockOf, s, e);
      case LockFamily(x) => LockKeepsInv(lockOf, s, x);
      case Consume(_) => PhaseKeepsInv(lockOf, s, e);
      case Create(_, _) => PhaseKeepsInv(lockOf, s, e);
      case RevokeRows(_) => PhaseKeepsInv(lockOf, s, e);
      case Sign(x) => SignKeepsInv(lockOf, s, x);
      case Commit(x) =>
        if HasConsumed(s.txns[x].phase) {
          CommitRotationKeepsInv(lockOf, s, x);
        } else if s.txns[x].phase.Marked? {
          CommitRevocationKeepsInv(lockOf, s, x);
        } else {
          CommitRefusedKeepsInv(lockOf, s, x);
        }
      case Rollback(x) => RollbackKeepsInv(lockOf, s, x);
      case _ => ClockKeepsInv(lockOf, s, e);
    }
  }

  lemma {:induction false} InvForever(lockOf: int -> int, s: State, events: seq<Event>)
    requires Inv(lockOf, s)
    ensures Inv(lockOf, Run(lockOf, s, events))
  {
    if events != [] {
      InvForever(lockOf, s, events[..|events| - 1]);
      StepKeepsInv(lockOf, Run(lockOf, s, events[..|events| - 1]), events[|events| - 1]);
    }
  }

  /** Over all interleavings, and whatever lock ids collide: two sessions of a family are never both usable. */
  lemma AtMostOneUsable(lockOf: int -> int, now: nat, events: seq<Event>, g: int, h: int)
    requires g in Run(lockOf, Empty(now), events).rows && h in Run(lockOf, Empty(now), events).rows && g != h
    requires Run(lockOf, Empty(now), events).rows[g].family == Run(lockOf, Empty(now), events).rows[h].family
    ensures !(IsLive(Run(lockOf, Empty(now), events).rows[g]) && IsLive(Run(lockOf, Empty(now), events).rows[h]))
  {
    InvForever(lockOf, Empty(now), events);
  }

  function SessionsOf(t: Table, family: int): set<int> { set h | h in t && t[h].family == family }

  lemma RevokedFamilyIsFrozen(lockOf: int -> int, s: State, e: Event, family: int)
    requires Inv(lockOf, s) && family in s.revoked
    ensures family in Apply(lockOf, s, e).revoked
    ensures SessionsOf(Apply(lockOf, s, e).rows, family) == SessionsOf(s.rows, family)
  {
    if Enabled(lockOf, s, e) && e.Commit? {
      assert TxnInv(lockOf, s, e.txn);
      if HasConsumed(s.txns[e.txn].phase) {
        ConsumedFamilyIsNotRevoked(lockOf, s, e.txn);
      }
    }
  }

  lemma {:induction false} FrozenForever(lockOf: int -> int, s: State, later: seq<Event>, family: int)
    requires Inv(lockOf, s) && family in s.revoked
    ensures family in Run(lockOf, s, later).revoked
    ensures SessionsOf(Run(lockOf, s, later).rows, family) == SessionsOf(s.rows, family)
  {
    if later != [] {
      FrozenForever(lockOf, s, later[..|later| - 1], family);
      InvForever(lockOf, s, later[..|later| - 1]);
      RevokedFamilyIsFrozen(lockOf, Run(lockOf, s, later[..|later| - 1]), later[|later| - 1], family);
    }
  }

  /** Once a revocation has committed, no session of the family is usable in any later state and none is
      ever created, not even by a rotation that was already running. */
  lemma RevokedForever(lockOf: int -> int, now: nat, events: seq<Event>, later: seq<Event>, family: int)
    requires family in Run(lockOf, Empty(now), events).revoked
    ensures SessionsOf(Run(lockOf, Run(lockOf, Empty(now), events), later).rows, family)
         == SessionsOf(Run(lockOf, Empty(now), events).rows, family)
    ensures forall h :: h in SessionsOf(Run(lockOf, Run(lockOf, Empty(now), events), later).rows, family) ==>
      !IsLive(Run(lockOf, Run(lockOf, Empty(now), events), later).rows[h])
  {
    var s := Run(lockOf, Empty(now), events);
    InvForever(lockOf, Empty(now), events);
    FrozenForever(lockOf, s, later, family);
    InvForever(lockOf, s, later);
  }

  /* ---------- what can be used ---------- */

  lemma CommitKeepsLife(lockOf: int -> int, s: State, x: int)
    requires Inv(lockOf, s) && LifeInv(s) && Enabled(lockOf, s, Commit(x))
    ensures LifeInv(Apply(lockOf, s, Commit(x)))
  {
    assert TxnInv(lockOf, s, x);
    var t := Apply(lockOf, s, Commit(x));
    if s.txns[x].phase.Marked? {
      forall h | h in t.rows && t.rows[h].revoked ensures t.rows[h].family in t.revoked {
        assert h in s.txns[x].phase.targets || s.rows[h].revoked;
      }
    }
  }

  lemma StepKeepsLife(lockOf: int -> int, s: State, e: Event)
    requires Inv(lockOf, s) && LifeInv(s)
    ensures LifeInv(Apply(lockOf, s, e))
  {
    if Enabled(lockOf, s, e) && e.Commit? {
      CommitKeepsLife(lockOf, s, e.txn);
    }
  }

  lemma {:induction false} LifeForever(lockOf: int -> int, s: State, events: seq<Event>)
    requires Inv(lockOf, s) && LifeInv(s)
    ensures LifeInv(Run(lockOf, s, events))
  {
    if events != [] {
      LifeForever(lockOf, s, events[..|events| - 1]);
      InvForever(lockOf, s, events[..|events| - 1]);
      StepKeepsLife(lockOf, Run(lockOf, s, events[..|events| - 1]), events[|events| - 1]);
    }
  }

  lemma SessionStaysOneStep(lockOf: int -> int, s: State, e: Event, h: int)
    requires Inv(lockOf, s) && LifeInv(s) && h in s.rows
    ensures h in Apply(lockOf, s, e).rows && h in Apply(lockOf, s, e).openedAt && Apply(lockOf, s, e).openedAt[h] == s.openedAt[h]
  {
    if Enabled(lockOf, s, e) && e.Commit? {
      assert TxnInv(lockOf, s, e.txn);
    }
  }

  /** A session stays what it is: its opening is never forgotten. */
  lemma {:induction false} SessionStays(lockOf: int -> int, s: State, later: seq<Event>, h: int)
    requires Inv(lockOf, s) && LifeInv(s) && h in s.rows
    ensures var t := Run(lockOf, s, later); h in t.rows && h in t.openedAt && t.openedAt[h] == s.openedAt[h]
  {
    if later != [] {
      var front := later[..|later| - 1];
      SessionStays(lockOf, s, front, h);
      InvForever(lockOf, s, front);
      LifeForever(lockOf, s, front);
      SessionStaysOneStep(lockOf, Run(lockOf, s, front), later[|later| - 1], h);
    }
  }

  /** In every later state, a session opened at some moment can be used exactly if it has not been, its family is not
      revoked, and less than thirty days have passed. */
  lemma UsableForThirtyDays(lockOf: int -> int, now: nat, events: seq<Event>, later: seq<Event>, h: int)
    requires h in Run(lockOf, Empty(now), events).rows
    ensures var s, t := Run(lockOf, Empty(now), events), Run(lockOf, Run(lockOf, Empty(now), events), later);
            h in s.openedAt && h in t.rows
            && (IsConsumable(t.rows, h, t.now) <==>
                  !t.rows[h].used && t.rows[h].family !in t.revoked && t.now < s.openedAt[h] + 30 * 24 * 60 * 60 * 1000)
  {
    var s := Run(lockOf, Empty(now), events);
    InvForever(lockOf, Empty(now), events);
    LifeForever(lockOf, Empty(now), events);
    InvForever(lockOf, s, later);
    LifeForever(lockOf, s, later);
    SessionStays(lockOf, s, later, h);
  }

  /** A login opens its session at that moment and hands it out. */
  lemma LoginOpens(lockOf: int -> int, s: State, hash: int, family: int)
    requires Enabled(lockOf, s, LoginCreate(hash, family))
    ensures var t := Apply(lockOf, Apply(lockOf, s, LoginCreate(hash, family)), LoginSign(Login(hash, family)));
            hash in t.rows && hash in t.openedAt && t.openedAt[hash] == s.now && t.rows[hash].family == family && IsLive(t.rows[hash])
            && hash in t.handedOut && Token(family, s.now / 1000) in t.tokens
  {
  }

  function Rotating(x: int, hash: int, newHash: int): seq<Event> {
    [Present(x, hash)] + [LockFamily(x)] + [Consume(x)] + [Create(x, newHash)] + [Sign(x)] + [Commit(x)]
  }

  lemma RotationSteps(lockOf: int -> int, s: State, x: int, hash: int, newHash: int) returns (t: State)
    requires x !in s.txns && hash in s.handedOut && IsConsumable(s.rows, hash, s.now)
    requires lockOf(s.rows[hash].family) !in s.locks && IsFreshHash(s, newHash)
    ensures t == Apply(lockOf, Apply(lockOf, Apply(lockOf, s, Present(x, hash)), LockFamily(x)), Consume(x))
    ensures t == s.(txns := s.txns[x := Rotation(hash, s.rows[hash].family, Consumed)], locks := s.locks[lockOf(s.rows[hash].family) := x])
  {
    t := Apply(lockOf, s, Present(x, hash));
    assert t.txns[x] == Rotation(hash, s.rows[hash].family, Presented);
    t := Apply(lockOf, t, LockFamily(x));
    assert t.txns[x] == Rotation(hash, s.rows[hash].family, Locked);
    t := Apply(lockOf, t, Consume(x));
    assert t.txns == s.txns[x := Rotation(hash, s.rows[hash].family, Consumed)];
  }

  lemma RotationEnds(lockOf: int -> int, s: State, x: int, hash: int, newHash: int) returns (t: State)
    requires x in s.txns && s.txns[x].Rotation? && s.txns[x].hash == hash && s.txns[x].phase == Consumed && hash in s.rows
    requires hash != newHash && IsFreshHash(s, newHash)
    ensures t == Apply(lockOf, Apply(lockOf, Apply(lockOf, s, Create(x, newHash)), Sign(x)), Commit(x))
    ensures newHash in t.rows && t.rows[newHash].family == s.txns[x].family && IsLive(t.rows[newHash])
    ensures newHash in t.openedAt && t.openedAt[newHash] == s.now
    ensures hash in t.rows && t.rows[hash].used && newHash in t.handedOut && Token(s.txns[x].family, s.now / 1000) in t.tokens
  {
    t := Apply(lockOf, s, Create(x, newHash));
    assert t.txns[x] == Rotation(hash, s.txns[x].family, Created(newHash, s.now));
    t := Apply(lockOf, t, Sign(x));
    assert t.txns[x] == Rotation(hash, s.txns[x].family, Signed(newHash, s.now));
    t := Apply(lockOf, t, Commit(x));
  }

  /** A refresh token that can be used, presented while nobody holds the family's lock, is rotated: it is used up, and a new
      one of the same family, opened now, is handed out together with an access token. */
  lemma RefreshRotates(lockOf: int -> int, s: State, x: int, hash: int, newHash: int)
    requires x !in s.txns && hash in s.handedOut && IsConsumable(s.rows, hash, s.now)
    requires lockOf(s.rows[hash].family) !in s.locks && IsFreshHash(s, newHash)
    ensures var t := Run(lockOf, s, Rotating(x, hash, newHash));
            && newHash in t.rows && t.rows[newHash].family == s.rows[hash].family && IsLive(t.rows[newHash])
            && newHash in t.openedAt && t.openedAt[newHash] == s.now && hash in t.rows && t.rows[hash].used
            && newHash in t.handedOut && Token(s.rows[hash].family, s.now / 1000) in t.tokens
  {
    var consumed := RotationSteps(lockOf, s, x, hash, newHash);
    assert IsFreshHash(consumed, newHash);
    var t := RotationEnds(lockOf, consumed, x, hash, newHash);
    var e1, e2, e3, e4, e5, e6 := Present(x, hash), LockFamily(x), Consume(x), Create(x, newHash), Sign(x), Commit(x);
    assert [] + [e1] == [e1] && Run(lockOf, s, []) == s;
    RunThen(lockOf, s, [], e1);
    RunThen(lockOf, s, [e1], e2);
    RunThen(lockOf, s, [e1] + [e2], e3);
    RunThen(lockOf, s, [e1] + [e2] + [e3], e4);
    RunThen(lockOf, s, [e1] + [e2] + [e3] + [e4], e5);
    RunThen(lockOf, s, [e1] + [e2] + [e3] + [e4] + [e5], e6);
    assert Run(lockOf, s, Rotating(x, hash, newHash)) == t;
  }

  /* ---------- verification: first the clock, then the denylist ---------- */

  lemma StepKeepsChecks(lockOf: int -> int, s: State, e: Event)
    requires Inv(lockOf, s) && CheckInv(s)
    ensures CheckInv(Apply(lockOf, s, e))
  {
  }

  lemma {:induction false} ChecksForever(lockOf: int -> int, s: State, events: seq<Event>)
    requires Inv(lockOf, s) && CheckInv(s)
    ensures CheckInv(Run(lockOf, s, events))
  {
    if events != [] {
      ChecksForever(lockOf, s, events[..|events| - 1]);
      InvForever(lockOf, s, events[..|events| - 1]);
      StepKeepsChecks(lockOf, Run(lockOf, s, events[..|events| - 1]), events[|events| - 1]);
    }
  }

  /** When the entry that lasts until `until` was written. */
  function DeniedAt(until: int): int { until - DENIED_TTL_SECONDS * 1000 }

  /** A verification of a denied family's token passes only if it began before the token's last instant and asked
      after the entry's: racing rotations included, the token was issued no later than the entry was written, and
      the verification lasted longer than the time between the two, by at least two milliseconds. */
  lemma DeniedTokenPassesOnlyIfSlow(lockOf: int -> int, now: nat, events: seq<Event>, p: Pass)
    requires p in Run(lockOf, Empty(now), events).passed && p.deniedUntil.Some?
    ensures p.checkedAt < (p.token.iat + DENIED_TTL_SECONDS) * 1000 <= p.deniedUntil.value < p.askedAt
    ensures p.token.iat * 1000 <= DeniedAt(p.deniedUntil.value)
    ensures p.askedAt - p.checkedAt > DeniedAt(p.deniedUntil.value) - p.token.iat * 1000 + 1
  {
    ChecksForever(lockOf, Empty(now), events);
  }

  lemma {:induction false} RunThen(lockOf: int -> int, s: State, events: seq<Event>, e: Event)
    ensures Run(lockOf, s, events + [e]) == Apply(lockOf, Run(lockOf, s, events), e)
  {
    assert (events + [e])[..|events + [e]| - 1] == events;
  }

  function Verification(start: nat, check: int, token: Token, lasting: nat): seq<Event> {
    [Tick(start)] + [CheckExpiry(check, token)] + [Tick(lasting)] + [AskDenylist(check)]
  }

  lemma CheckThenAsk(lockOf: int -> int, s: State, start: nat, check: int, token: Token, lasting: nat) returns (t: State)
    requires token in s.tokens && check !in s.checks
    ensures t == Apply(lockOf, Apply(lockOf, Apply(lockOf, Apply(lockOf, s, Tick(start)), CheckExpiry(check, token)), Tick(lasting)), AskDenylist(check))
    ensures t.passed == if IsUnexpired(token, s.now + start) && !IsDenied(s.denied, token.family, s.now + start + lasting)
      then s.passed + {Pass(token, s.now + start, s.now + start + lasting, EntryOf(s.denied, token.family))} else s.passed
  {
    t := Apply(lockOf, s, Tick(start));
    t := Apply(lockOf, t, CheckExpiry(check, token));
    assert check in t.checks <==> IsUnexpired(token, s.now + start);
    t := Apply(lockOf, t, Tick(lasting));
    t := Apply(lockOf, t, AskDenylist(check));
  }

  lemma VerificationRuns(lockOf: int -> int, s: State, start: nat, check: int, token: Token, lasting: nat)
    requires token in s.tokens && check !in s.checks
    ensures Run(lockOf, s, Verification(start, check, token, lasting)).passed ==
      if IsUnexpired(token, s.now + start) && !IsDenied(s.denied, token.family, s.now + start + lasting)
      then s.passed + {Pass(token, s.now + start, s.now + start + lasting, EntryOf(s.denied, token.family))} else s.passed
  {
    var e1, e2, e3, e4 := Tick(start), CheckExpiry(check, token), Tick(lasting), AskDenylist(check);
    var t := CheckThenAsk(lockOf, s, start, check, token, lasting);
    RunThen(lockOf, s, [], e1);
    RunThen(lockOf, s, [e1], e2);
    RunThen(lockOf, s, [e1] + [e2], e3);
    RunThen(lockOf, s, [e1] + [e2] + [e3], e4);
    assert [] + [e1] == [e1] && Run(lockOf, s, []) == s;
    assert Run(lockOf, s, Verification(start, check, token, lasting)) == t;
  }

  /** An access token of a family that was never denied passes exactly until its end: fifteen minutes and the tolerance. */
  lemma UndeniedTokenPasses(lockOf: int -> int, s: State, start: nat, check: int, token: Token, lasting: nat)
    requires token in s.tokens && token.family !in s.denied && check !in s.checks
    requires Pass(token, s.now + start, s.now + start + lasting, None) !in s.passed
    ensures Run(lockOf, s, Verification(start, check, token, lasting)).passed != s.passed <==> s.now + start < token.iat * 1000 + 905 * 1000
  {
    VerificationRuns(lockOf, s, start, check, token, lasting);
  }

  /** Exactly how slow: in any reachable state with the family denied, a verification of its token that takes `lasting`
      milliseconds can be timed to pass if and only if the token is not yet expired and `lasting` exceeds the time from
      the token's issue to the denial by at least two milliseconds. */
  lemma SlowVerificationCanPass(lockOf: int -> int, now: nat, events: seq<Event>, s: State, token: Token, check: int, lasting: nat)
    requires s == Run(lockOf, Empty(now), events)
    requires token in s.tokens && token.family in s.denied && check !in s.checks
    ensures (exists start: nat :: Run(lockOf, s, Verification(start, check, token, lasting)).passed != s.passed)
       <==> s.now < (token.iat + DENIED_TTL_SECONDS) * 1000
            && lasting > DeniedAt(s.denied[token.family]) - token.iat * 1000 + 1
  {
    ChecksForever(lockOf, Empty(now), events);
    InvForever(lockOf, Empty(now), events);
    var until, last := s.denied[token.family], (token.iat + DENIED_TTL_SECONDS) * 1000 - 1;
    forall start: nat | Run(lockOf, s, Verification(start, check, token, lasting)).passed != s.passed
      ensures s.now <= last && lasting > until - last
    {
      VerificationRuns(lockOf, s, start, check, token, lasting);
    }
    if s.now <= last && lasting > until - last {
      var start: nat := last - s.now;
      VerificationRuns(lockOf, s, start, check, token, lasting);
      assert Pass(token, last, last + lasting, Some(until)) !in s.passed;
      assert Run(lockOf, s, Verification(start, check, token, lasting)).passed != s.passed;
    }
  }

  /** Hence no token of a denied family passes a verification that is over within a millisecond, nor any that takes
      no longer than the token had been out when its family was denied. */
  lemma QuickVerificationNeverPasses(lockOf: int -> int, now: nat, events: seq<Event>, p: Pass)
    requires p in Run(lockOf, Empty(now), events).passed
    requires p.deniedUntil.Some? ==>
      p.askedAt - p.checkedAt <= 1 || p.askedAt - p.checkedAt <= DeniedAt(p.deniedUntil.value) - p.token.iat * 1000 + 1
    ensures p.deniedUntil.None?
  {
    ChecksForever(lockOf, Empty(now), events);
  }

  /** A logged-in family whose revocation has just begun. */
  lemma RevocationBegun(lockOf: int -> int) returns (events: seq<Event>)
    ensures Run(lockOf, Empty(0), events) ==
      State(map[1 := Session(7, false, false, REFRESH_TOKEN_TTL_MS)], map[], map[1 := Revocation(7, Presented)], {},
            {1}, {Token(7, 0)}, {}, map[], map[], {}, map[1 := 0], 0)
  {
    var e1, e2, e3 := LoginCreate(1, 7), LoginSign(Login(1, 7)), BeginRevoke(1, 1);
    events := [e1] + [e2] + [e3];
    RunThen(lockOf, Empty(0), [], e1);
    assert [] + [e1] == [e1];
    RunThen(lockOf, Empty(0), [e1], e2);
    RunThen(lockOf, Empty(0), [e1] + [e2], e3);
    assert Run(lockOf, Empty(0), []) == Empty(0);
    assert Run(lockOf, Empty(0), [e1]).logins == {Login(1, 7)};
    assert Run(lockOf, Empty(0), [e1] + [e2]).logins == {};
  }

  lemma LockAndMark(lockOf: int -> int, s: State) returns (t: State)
    requires 1 in s.txns && s.txns[1] == Revocation(7, Presented) && s.locks == map[]
    ensures t == Apply(lockOf, Apply(lockOf, s, LockFamily(1)), RevokeRows(1))
    ensures 1 in t.txns && t.txns[1].Revocation? && t.txns[1].family == 7 && t.txns[1].phase.Marked?
    ensures t.tokens == s.tokens && t.denied == s.denied && t.checks == s.checks && t.passed == s.passed && t.now == s.now
  {
    t := Apply(lockOf, s, LockFamily(1));
    assert t.txns[1] == Revocation(7, Locked);
    t := Apply(lockOf, t, RevokeRows(1));
  }

  lemma CommitAndDeny(lockOf: int -> int, s: State) returns (t: State)
    requires 1 in s.txns && s.txns[1].Revocation? && s.txns[1].family == 7 && s.txns[1].phase.Marked?
    ensures t == Apply(lockOf, Apply(lockOf, s, Commit(1)), DenyFamily(7))
    ensures t.tokens == s.tokens && t.denied == Denied(s.denied, 7, s.now)
    ensures t.checks == s.checks && t.passed == s.passed && t.now == s.now
  {
    t := Apply(lockOf, s, Commit(1));
    assert 7 in t.revoked;
    t := Apply(lockOf, t, DenyFamily(7));
  }

  lemma DeniedState(lockOf: int -> int) returns (events: seq<Event>)
    ensures var s := Run(lockOf, Empty(0), events);
            s.tokens == {Token(7, 0)} && s.denied == map[7 := 905000] && s.checks == map[] && s.passed == {} && s.now == 0
  {
    events := RevocationBegun(lockOf);
    var s := Run(lockOf, Empty(0), events);
    var marked := LockAndMark(lockOf, s);
    var denied := CommitAndDeny(lockOf, marked);
    RunThen(lockOf, Empty(0), events, LockFamily(1));
    RunThen(lockOf, Empty(0), events + [LockFamily(1)], RevokeRows(1));
    RunThen(lockOf, Empty(0), events + [LockFamily(1)] + [RevokeRows(1)], Commit(1));
    RunThen(lockOf, Empty(0), events + [LockFamily(1)] + [RevokeRows(1)] + [Commit(1)], DenyFamily(7));
    events := events + [LockFamily(1)] + [RevokeRows(1)] + [Commit(1)] + [DenyFamily(7)];
    assert Run(lockOf, Empty(0), events) == denied;
  }

  /** It does happen: a token issued in the second of its denial passes a verification that straddles both ends. */
  lemma DeniedTokenCanPass(lockOf: int -> int)
    ensures exists events ::
      Pass(Token(7, 0), 904999, 905001, Some(905000)) in Run(lockOf, Empty(0), events).passed
  {
    var events := DeniedState(lockOf);
    var s := Run(lockOf, Empty(0), events);
    VerificationRuns(lockOf, s, 904999, 1, Token(7, 0), 2);
    RunConcat(lockOf, Empty(0), events, Verification(904999, 1, Token(7, 0), 2));
    assert Pass(Token(7, 0), 904999, 905001, Some(905000)) in Run(lockOf, Empty(0), events + Verification(904999, 1, Token(7, 0), 2)).passed;
  }

  lemma {:induction false} RunConcat(lockOf: int -> int, s: State, events: seq<Event>, later: seq<Event>)
    ensures Run(lockOf, s, events + later) == Run(lockOf, Run(lockOf, s, events), later)
  {
    if later == [] {
      assert events + later == events;
    } else {
      var front := later[..|later| - 1];
      RunConcat(lockOf, s, events, front);
      assert (events + later)[..|events + later| - 1] == events + front;
    }
  }

  /** The lifetime of the entry is as short as it can be: with any shorter one, a token signed as the
      entry is written outlives it. */
  lemma ShorterEntryWouldLeak(ttlMs: int, now: int)
    requires 0 <= ttlMs < DENIED_TTL_SECONDS * 1000 - 1 && now % 1000 == 0
    ensures exists later: int ::
      now <= later && IsUnexpired(Token(7, now / 1000), later) && !IsDenied(map[7 := now + ttlMs], 7, later)
  {
    var later := now + DENIED_TTL_SECONDS * 1000 - 1;
    assert IsUnexpired(Token(7, now / 1000), later) && !IsDenied(map[7 := now + ttlMs], 7, later);
  }
}
