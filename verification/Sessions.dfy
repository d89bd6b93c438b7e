/**
 Refresh-token families and the access-token denylist.

 Transactions interleave statement by statement: each statement reads the committed rows, the writes
 appear at commit, and the advisory lock of a family is held from `lockFamily` to the end.  Two families
 may share a lock, since the lock id is a hash.  Times are milliseconds on one clock.  Refresh-token
 hashes are injective, so a session is known by its hash.
 */
module Sessions {
  import opened Wrappers

  const ACCESS_TOKEN_TTL_SECONDS: int := 900
  const CLOCK_TOLERANCE_SECONDS: int := 5
  const DENIED_TTL_SECONDS: int := ACCESS_TOKEN_TTL_SECONDS + CLOCK_TOLERANCE_SECONDS
  const REFRESH_TOKEN_TTL_MS: int := 30 * 24 * 60 * 60 * 1000

  datatype Session = Session(family: int, used: bool, revoked: bool, expiresAt: int)

  type Table = map<int, Session>

  predicate IsLive(s: Session) { !s.used && !s.revoked }

  predicate IsConsumable(t: Table, hash: int, now: int) { hash in t && IsLive(t[hash]) && t[hash].expiresAt > now }

  function Used(t: Table, hash: int): Table
    requires hash in t
  {
    t[hash := t[hash].(used := true)]
  }

  function UnrevokedOf(t: Table, family: int): set<int> {
    set h | h in t && t[h].family == family && !t[h].revoked
  }

  function RevokeAll(t: Table, hashes: set<int>): Table {
    map h | h in t :: if h in hashes then t[h].(revoked := true) else t[h]
  }

  function Opened(t: Table, hash: int, family: int, now: int): Table {
    t[hash := Session(family, false, false, now + REFRESH_TOKEN_TTL_MS)]
  }

  /** Families whose access tokens are refused, each until an instant. */
  type Denylist = map<int, int>

  function Denied(d: Denylist, family: int, now: int): Denylist { d[family := now + DENIED_TTL_SECONDS * 1000] }

  /* ---------- the repository and the handlers, run alone ---------- */

  datatype RefreshReply = Rotated(hash: int) | Unauthorized | Unavailable

  /** Redis answers in time, or it does not; a write that was given up may have been applied. */
  datatype RedisAnswer = Answered | NoAnswer(applied: bool)

  /** What a revoking request leaves in the denylist, and whether its caller is told that it failed. */
  function DeniedBy(d: Denylist, family: int, now: int, redis: RedisAnswer): Denylist {
    if redis == Answered || redis.applied then Denied(d, family, now) else d
  }

  /** The sessions of other families are as they were, and none is added or removed. */
  predicate SameElsewhere(before: Table, after: Table, family: int) {
    after.Keys == before.Keys && forall h :: h in before ==>
      after[h].family == before[h].family && (before[h].family != family ==> after[h] == before[h])
  }

  predicate AllRevoked(t: Table, family: int) { forall h :: h in t && t[h].family == family ==> t[h].revoked }

  class SessionStore {
    var rows: Table
    var denied: Denylist

    constructor (t: Table, d: Denylist)
      ensures rows == t && denied == d
    {
      rows, denied := t, d;
    }

    method Create(hash: int, family: int, now: int)
      requires hash !in rows
      modifies this`rows
      ensures rows == Opened(old(rows), hash, family, now)
    {
      rows := rows[hash := Session(family, false, false, now + REFRESH_TOKEN_TTL_MS)];
    }

    method Consume(hash: int, now: int) returns (family: Option<int>)
      modifies this`rows
      ensures family.Some? == IsConsumable(old(rows), hash, now)
      ensures family.Some? ==> family.value == old(rows)[hash].family && rows == Used(old(rows), hash)
      ensures family.None? ==> rows == old(rows)
    {
      if hash in rows && !rows[hash].used && !rows[hash].revoked && rows[hash].expiresAt > now {
        family := Some(rows[hash].family);
        rows := rows[hash := rows[hash].(used := true)];
      } else {
        family := None;
      }
    }

    method RevokeFamily(family: int)
      modifies this`rows
      ensures rows == RevokeAll(old(rows), UnrevokedOf(old(rows), family))
      ensures AllRevoked(rows, family) && SameElsewhere(old(rows), rows, family)
    {
      rows := map h | h in rows :: if rows[h].family == family && !rows[h].revoked then rows[h].(revoked := true) else rows[h];
      assert rows == RevokeAll(old(rows), UnrevokedOf(old(rows), family));
    }

    /** denyFamily: without an answer it throws, unless the service fails open. */
    method DenyFamily(family: int, now: int, redis: RedisAnswer, failOpen: bool) returns (throws: bool)
      modifies this`denied
      ensures denied == DeniedBy(old(denied), family, now, redis)
      ensures denied == if redis == NoAnswer(false) then old(denied) else old(denied)[family := now + 905000]
      ensures throws == (redis.NoAnswer? && !failOpen)
    {
      if redis.Answered? || redis.applied {
        denied := denied[family := now + DENIED_TTL_SECONDS * 1000];
      }
      throws := redis.NoAnswer? && !failOpen;
    }

    /** Rotate, or revoke and deny the family when the presented token had been used before. */
    method Refresh(hash: int, newHash: int, identityExists: bool, now: int, redis: RedisAnswer, failOpen: bool) returns (reply: RefreshReply)
      requires newHash !in rows
      modifies this
      ensures reply.Rotated? <==> IsConsumable(old(rows), hash, now) && identityExists
      ensures reply.Rotated? ==>
        rows == Used(old(rows), hash)[newHash := Session(old(rows)[hash].family, false, false, now + 2592000000)] && denied == old(denied)
      ensures !reply.Rotated? && hash in old(rows) && (old(rows)[hash].used || IsConsumable(old(rows), hash, now)) ==>
        && AllRevoked(rows, old(rows)[hash].family) && SameElsewhere(old(rows), rows, old(rows)[hash].family)
        && denied == DeniedBy(old(denied), old(rows)[hash].family, now, redis)
        && reply == if redis.NoAnswer? && !failOpen then Unavailable else Unauthorized
      ensures !reply.Rotated? && (hash in old(rows) ==> !old(rows)[hash].used && !IsConsumable(old(rows), hash, now)) ==>
        reply == Unauthorized && rows == old(rows) && denied == old(denied)
    {
      if hash in rows {
        var family := Consume(hash, now);
        if family.Some? && identityExists {
          Create(newHash, family.value, now);
          return Rotated(newHash);
        }
      }
      if hash in rows && rows[hash].used {
        var family := rows[hash].family;
        RevokeFamily(family);
        var throws := DenyFamily(family, now, redis, failOpen);
        if throws {
          return Unavailable;
        }
      }
      reply := Unauthorized;
    }

    /** Logout: an unknown token is no error; a known one takes its family with it. */
    method Logout(hash: int, now: int, redis: RedisAnswer, failOpen: bool) returns (throws: bool)
      modifies this
      ensures hash !in old(rows) ==> rows == old(rows) && denied == old(denied) && !throws
      ensures hash in old(rows) ==>
        && AllRevoked(rows, old(rows)[hash].family) && SameElsewhere(old(rows), rows, old(rows)[hash].family)
        && denied == DeniedBy(old(denied), old(rows)[hash].family, now, redis)
        && throws == (redis.NoAnswer? && !failOpen)
    {
      throws := false;
      if hash in rows {
        var family := rows[hash].family;
        RevokeFamily(family);
        throws := DenyFamily(family, now, redis, failOpen);
      }
    }
  }

  /* ---------- interleaved transactions ---------- */

  datatype Phase =
    | Presented                    // the token was looked up, nothing is locked
    | Locked
    | Refused                      // consume found nothing to update
    | Consumed                     // usedAt is written, not yet committed
    | Created(newHash: int, at: int)  // the new session is written too
    | Signed(newHash: int, at: int)   // and the access token is signed
    | Marked(targets: set<int>)    // the revoking UPDATE has written these rows

  datatype Txn = Rotation(hash: int, family: int, phase: Phase) | Revocation(family: int, phase: Phase)

  datatype Token = Token(family: int, iat: int)

  /** A login whose session row exists but whose pair has not been handed out. */
  datatype Login = Login(hash: int, family: int)

  /** An access token under verification: its `exp` held at `at`, the denylist is still to be asked. */
  datatype Check = Check(token: Token, at: int)

  /** A verification that passed: when it looked at the clock, when it asked Redis, and until when the family
      had been denied by then, if ever. */
  datatype Pass = Pass(token: Token, checkedAt: int, askedAt: int, deniedUntil: Option<int>)

  /** `openedAt` notes when each session was written; no step looks at it. */
  datatype State = State(
    rows: Table, locks: map<int, int>, txns: map<int, Txn>, logins: set<Login>,
    handedOut: set<int>, tokens: set<Token>, revoked: set<int>, denied: Denylist,
    checks: map<int, Check>, passed: set<Pass>, openedAt: map<int, int>, now: int)

  datatype Event =
    | Tick(ms: nat)
    | LoginCreate(hash: int, family: int)
    | LoginSign(login: Login)
    | Present(txn: int, hash: int)
    | BeginRevoke(txn: int, hash: int)     // logout or detected reuse of this token
    | LockFamily(txn: int)
    | Consume(txn: int)
    | Create(txn: int, newHash: int)
    | Sign(txn: int)
    | RevokeRows(txn: int)
    | Commit(txn: int)
    | Rollback(txn: int)
    | DenyFamily(family: int)              // after its revocation has committed
    | CheckExpiry(check: int, token: Token)
    | AskDenylist(check: int)

  predicate IsPast(phase: Phase) { phase != Presented }

  predicate HasConsumed(phase: Phase) { phase.Consumed? || phase.Created? || phase.Signed? }

  function NewHashOf(t: Txn): Option<int> {
    if t.phase.Created? || t.phase.Signed? then Some(t.phase.newHash) else None
  }

  predicate IsFreshHash(s: State, hash: int) {
    && hash !in s.rows && hash !in s.handedOut
    && forall t :: t in s.txns ==> NewHashOf(s.txns[t]) != Some(hash)
  }

  predicate IsFreshFamily(s: State, family: int) {
    && family !in s.revoked && family !in s.denied
    && (forall h :: h in s.rows ==> s.rows[h].family != family)
    && (forall t :: t in s.txns ==> s.txns[t].family != family)
    && (forall t :: t in s.tokens ==> t.family != family)
  }

  predicate Enabled(lockOf: int -> int, s: State, e: Event) {
    match e
    case Tick(_) => true
    case LoginCreate(hash, family) => IsFreshHash(s, hash) && IsFreshFamily(s, family)
    case LoginSign(login) => login in s.logins
    case Present(t, hash) => t !in s.txns && hash in s.handedOut && hash in s.rows
    case BeginRevoke(t, hash) => t !in s.txns && hash in s.handedOut && hash in s.rows
    case LockFamily(t) => t in s.txns && s.txns[t].phase == Presented && lockOf(s.txns[t].family) !in s.locks
    case Consume(t) => t in s.txns && s.txns[t].Rotation? && s.txns[t].phase == Locked
    case Create(t, newHash) => t in s.txns && s.txns[t].phase == Consumed && IsFreshHash(s, newHash)
    case Sign(t) => t in s.txns && s.txns[t].phase.Created?
    case RevokeRows(t) => t in s.txns && s.txns[t].Revocation? && s.txns[t].phase == Locked
    case Commit(t) => t in s.txns && (s.txns[t].phase.Refused? || s.txns[t].phase.Consumed? || s.txns[t].phase.Signed? || s.txns[t].phase.Marked?)
    case Rollback(t) => t in s.txns
    case DenyFamily(family) => family in s.revoked
    case CheckExpiry(c, token) => c !in s.checks && token in s.tokens && IsUnexpired(token, s.now)
    case AskDenylist(c) => c in s.checks
  }

  function To(s: State, t: int, phase: Phase): State
    requires t in s.txns
  {
    s.(txns := s.txns[t := s.txns[t].(phase := phase)])
  }

  /** The end of a transaction frees the locks it holds. */
  function Ended(s: State, t: int): State {
    s.(txns := s.txns - {t}, locks := map l | l in s.locks && s.locks[l] != t :: s.locks[l])
  }

  function Committed(s: State, t: int): State
    requires t in s.txns
  {
    var x := s.txns[t];
    match x.phase
    case Consumed => if x.Rotation? && x.hash in s.rows then s.(rows := Used(s.rows, x.hash)) else s
    case Signed(newHash, at) =>
      if x.Rotation? && x.hash in s.rows then
        s.(rows := Opened(Used(s.rows, x.hash), newHash, x.family, at),
           handedOut := s.handedOut + {newHash}, openedAt := s.openedAt[newHash := at])
      else s
    case Marked(targets) => s.(rows := RevokeAll(s.rows, targets), revoked := s.revoked + {x.family})
    case _ => s
  }

  function Apply(lockOf: int -> int, s: State, e: Event): State {
    if !Enabled(lockOf, s, e) then s
    else match e
      case Tick(ms) => s.(now := s.now + ms)
      case LoginCreate(hash, family) =>
        s.(rows := Opened(s.rows, hash, family, s.now),
           logins := s.logins + {Login(hash, family)}, openedAt := s.openedAt[hash := s.now])
      case LoginSign(login) =>
        s.(logins := s.logins - {login}, handedOut := s.handedOut + {login.hash},
           tokens := s.tokens + {Token(login.family, s.now / 1000)})
      case Present(t, hash) => s.(txns := s.txns[t := Rotation(hash, s.rows[hash].family, Presented)])
      case BeginRevoke(t, hash) => s.(txns := s.txns[t := Revocation(s.rows[hash].family, Presented)])
      case LockFamily(t) => To(s, t, Locked).(locks := s.locks[lockOf(s.txns[t].family) := t])
      case Consume(t) => To(s, t, if IsConsumable(s.rows, s.txns[t].hash, s.now) then Consumed else Refused)
      case Create(t, newHash) => To(s, t, Created(newHash, s.now))
      case Sign(t) =>
        To(s, t, Signed(s.txns[t].phase.newHash, s.txns[t].phase.at)).(tokens := s.tokens + {Token(s.txns[t].family, s.now / 1000)})
      case RevokeRows(t) => To(s, t, Marked(UnrevokedOf(s.rows, s.txns[t].family)))
      case Commit(t) => Ended(Committed(s, t), t)
      case Rollback(t) => Ended(s, t)
      case DenyFamily(family) => s.(denied := Denied(s.denied, family, s.now))
      case CheckExpiry(c, token) => s.(checks := s.checks[c := Check(token, s.now)])
      case AskDenylist(c) =>
        var check := s.checks[c];
        s.(checks := s.checks - {c},
           passed := if IsDenied(s.denied, check.token.family, s.now) then s.passed
                     else s.passed + {Pass(check.token, check.at, s.now, EntryOf(s.denied, check.token.family))})
  }

  function Run(lockOf: int -> int, s: State, events: seq<Event>): State {
    if events == [] then s else Apply(lockOf, Run(lockOf, s, events[..|events| - 1]), events[|events| - 1])
  }

  function Empty(now: nat): State { State(map[], map[], map[], {}, {}, {}, {}, map[], map[], {}, map[], now) }

  /* ---------- verification of an access token ---------- */

  /** `exp` with tolerance, in whole seconds, as the JWT library compares it. */
  predicate IsUnexpired(token: Token, now: int) {
    token.iat + ACCESS_TOKEN_TTL_SECONDS > now / 1000 - CLOCK_TOLERANCE_SECONDS
  }

  /** A Redis key exists up to and including its expiry instant. */
  predicate IsDenied(denied: Denylist, family: int, now: int) { family in denied && now <= denied[family] }

  function EntryOf(denied: Denylist, family: int): Option<int> { if family in denied then Some(denied[family]) else None }

  /* ---------- invariant ---------- */

  predicate TxnInv(lockOf: int -> int, s: State, t: int)
    requires t in s.txns
  {
    var x := s.txns[t];
    && (IsPast(x.phase) ==> lockOf(x.family) in s.locks && s.locks[lockOf(x.family)] == t)
    && (x.Rotation? ==> x.hash in s.rows && s.rows[x.hash].family == x.family && !x.phase.Marked?)
    && (x.Revocation? ==> x.phase.Presented? || x.phase.Locked? || x.phase.Marked?)
    && (x.Rotation? && HasConsumed(x.phase) ==> IsLive(s.rows[x.hash]))
    && (NewHashOf(x).Some? ==> NewHashOf(x).value !in s.rows && NewHashOf(x).value !in s.handedOut)
    && (x.phase.Marked? ==> x.phase.targets == UnrevokedOf(s.rows, x.family))
    && (exists h :: h in s.rows && h in s.handedOut && s.rows[h].family == x.family)
  }

  /** A half-finished login is alone in its family, and its refresh token is unknown to anyone. */
  predicate LoginInv(s: State, login: Login) {
    && login.hash !in s.handedOut && login.family !in s.revoked
    && (forall h :: h in s.rows && s.rows[h].family == login.family ==> h == login.hash)
    && login.hash in s.rows && s.rows[login.hash].family == login.family
  }

  predicate OneLive(t: Table) {
    forall g, h :: g in t && h in t && g != h && t[g].family == t[h].family && IsLive(t[g]) ==> !IsLive(t[h])
  }

  predicate RevokedStay(s: State) {
    forall h :: h in s.rows && s.rows[h].family in s.revoked ==> s.rows[h].revoked
  }

  predicate NewHashesDiffer(s: State) {
    forall t, u :: t in s.txns && u in s.txns && t != u && NewHashOf(s.txns[t]).Some? ==> NewHashOf(s.txns[t]) != NewHashOf(s.txns[u])
  }

  predicate TokenInv(s: State) {
    && (forall k :: k in s.tokens ==> k.iat * 1000 <= s.now)
    && (forall f :: f in s.denied ==> f in s.revoked)
    && (forall k :: k in s.tokens && k.family in s.denied ==> (k.iat + DENIED_TTL_SECONDS) * 1000 <= s.denied[k.family])
  }

  predicate Inv(lockOf: int -> int, s: State) {
    && (forall t :: t in s.txns ==> TxnInv(lockOf, s, t))
    && (forall l :: l in s.logins ==> LoginInv(s, l))
    && OneLive(s.rows) && RevokedStay(s) && NewHashesDiffer(s) && TokenInv(s)
  }

  /** What is known of verifications under way and of those that passed. */
  predicate CheckInv(s: State) {
    && (forall c :: c in s.checks ==> s.checks[c].token in s.tokens && IsUnexpired(s.checks[c].token, s.checks[c].at))
    && (forall p :: p in s.passed ==> IsUnexpired(p.token, p.checkedAt) && p.askedAt <= s.now)
    && (forall p :: p in s.passed && p.deniedUntil.Some? ==>
          p.deniedUntil.value < p.askedAt && (p.token.iat + DENIED_TTL_SECONDS) * 1000 <= p.deniedUntil.value)
  }

  /** Sessions live thirty days from when they were written, and are revoked with their family. */
  predicate LifeInv(s: State) {
    && s.openedAt.Keys == s.rows.Keys
    && (forall h :: h in s.rows ==> s.rows[h].expiresAt == s.openedAt[h] + 2592000000 && s.openedAt[h] <= s.now)
    && (forall h :: h in s.rows && s.rows[h].revoked ==> s.rows[h].family in s.revoked)
    && (forall t :: t in s.txns && NewHashOf(s.txns[t]).Some? ==> s.txns[t].phase.at <= s.now)
  }
}
