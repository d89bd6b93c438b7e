/**
 Registration provisions the rest of a person: identity, then user, then account and order buyer,
 through two outboxes and two logs.  Rows are sent any number of times, a consumer may repeat a message
 whose effect committed before its offset, and offsets may be rewound.
 */
module Provisioning {

  /** What a log holds: the two events of the chain, events of other types, and messages no schema accepts. */
  datatype Message = Registered(identity: int) | UserCreated(user: int, identity: int) | OtherType | Malformed(content: int)

  datatype Group = Profile | Accounts | Buyers

  /** A rejected message is kept on the dead-letter topic of the group that rejected it. */
  datatype DeadLetter = DeadLetter(group: Group, message: Message)

  datatype OutboxRow = OutboxRow(event: Message, published: bool)

  datatype User = User(id: int, identity: int)

  datatype Buyer = Buyer(identity: int, user: int)

  /** `sessions` are the refresh-token hashes that registration hands out, with their identities. */
  datatype State = State(
    identities: set<int>, sessions: map<int, int>, identityOutbox: seq<OutboxRow>, identityLog: seq<Message>,
    users: seq<User>, userOutbox: seq<OutboxRow>, userLog: seq<Message>,
    accounts: seq<int>, buyers: seq<Buyer>,
    profileOffset: nat, accountOffset: nat, buyerOffset: nat, deadLetters: seq<DeadLetter>)

  predicate HasUser(users: seq<User>, identity: int) { exists i :: 0 <= i < |users| && users[i].identity == identity }

  predicate IsUser(users: seq<User>, id: int, identity: int) { User(id, identity) in users }

  predicate HasBuyer(buyers: seq<Buyer>, identity: int, user: int) {
    exists i :: 0 <= i < |buyers| && (buyers[i].identity == identity || buyers[i].user == user)
  }

  /** INSERT ... ON CONFLICT DO NOTHING; only an inserted user announces itself. */
  function CreateUser(s: State, identity: int, newId: int): State {
    if HasUser(s.users, identity) then s
    else s.(users := s.users + [User(newId, identity)],
            userOutbox := s.userOutbox + [OutboxRow(UserCreated(newId, identity), false)])
  }

  function CreateAccount(s: State, user: int): State {
    if user in s.accounts then s else s.(accounts := s.accounts + [user])
  }

  function RegisterBuyer(s: State, identity: int, user: int): State {
    if HasBuyer(s.buyers, identity, user) then s else s.(buyers := s.buyers + [Buyer(identity, user)])
  }

  function Reject(s: State, group: Group, m: Message): State {
    if m.Malformed? then s.(deadLetters := s.deadLetters + [DeadLetter(group, m)]) else s
  }

  function HandleProfile(s: State, m: Message, newId: int): State {
    if m.Registered? then CreateUser(s, m.identity, newId) else Reject(s, Profile, m)
  }

  function HandleAccount(s: State, m: Message): State {
    if m.UserCreated? then CreateAccount(s, m.user) else Reject(s, Accounts, m)
  }

  function HandleBuyer(s: State, m: Message): State {
    if m.UserCreated? then RegisterBuyer(s, m.identity, m.user) else Reject(s, Buyers, m)
  }

  class PeopleStore {
    var identities: set<int>
    var sessions: map<int, int>
    var identityOutbox: seq<OutboxRow>
    var users: seq<User>
    var userOutbox: seq<OutboxRow>
    var accounts: seq<int>
    var buyers: seq<Buyer>

    constructor ()
      ensures identities == {} && sessions == map[] && identityOutbox == [] && users == [] && userOutbox == []
      ensures accounts == [] && buyers == []
    {
      identities, sessions, identityOutbox, users, userOutbox, accounts, buyers := {}, map[], [], [], [], [], [];
    }

    /** register: the identity, its event and its first session in one transaction; a taken login writes nothing. */
    method Register(identity: int, hash: int) returns (conflict: bool)
      requires hash !in sessions
      modifies this`identities, this`sessions, this`identityOutbox
      ensures conflict == (identity in old(identities))
      ensures identities == old(identities) + {identity}
      ensures identityOutbox == if conflict then old(identityOutbox) else old(identityOutbox) + [OutboxRow(Registered(identity), false)]
      ensures sessions == if conflict then old(sessions) else old(sessions)[hash := identity]
    {
      conflict := identity in identities;
      if !conflict {
        identities := identities + {identity};
        identityOutbox := identityOutbox + [OutboxRow(Registered(identity), false)];
        sessions := sessions[hash := identity];
      }
    }

    /** UserCreateCommandHandler.execute */
    method ExecuteUserCreate(identity: int, newId: int)
      modifies this`users, this`userOutbox
      ensures HasUser(users, identity)
      ensures HasUser(old(users), identity) ==> users == old(users) && userOutbox == old(userOutbox)
      ensures !HasUser(old(users), identity) ==>
        users == old(users) + [User(newId, identity)] && userOutbox == old(userOutbox) + [OutboxRow(UserCreated(newId, identity), false)]
    {
      if HasUser(users, identity) {
        return;
      }
      users := users + [User(newId, identity)];
      assert users[|users| - 1].identity == identity;
      userOutbox := userOutbox + [OutboxRow(UserCreated(newId, identity), false)];
    }

    method CreateBuyerIfAbsent(identity: int, user: int) returns (inserted: bool)
      modifies this`buyers
      ensures inserted == !HasBuyer(old(buyers), identity, user)
      ensures buyers == if inserted then old(buyers) + [Buyer(identity, user)] else old(buyers)
    {
      inserted := !HasBuyer(buyers, identity, user);
      if inserted {
        buyers := buyers + [Buyer(identity, user)];
      }
    }
  }

  datatype Event =
    | Register(identity: int, hash: int)
    | SendIdentity(row: nat, marks: bool)      // one send of an outbox row; its mark may be lost
    | SendUser(row: nat, marks: bool)
    | NoiseIdentity(message: Message)          // other event types and garbage on the same topics
    | NoiseUser(message: Message)
    | ConsumeProfile(newId: int, commits: bool)  // the effect, then perhaps the offset
    | ConsumeAccount(commits: bool)
    | ConsumeBuyer(commits: bool)
    | RewindProfile(to: nat)
    | RewindAccount(to: nat)
    | RewindBuyer(to: nat)

  predicate IsNoise(m: Message) { m.OtherType? || m.Malformed? }

  predicate Enabled(s: State, e: Event) {
    match e
    case Register(i, hash) => i !in s.identities && hash !in s.sessions
    case SendIdentity(k, _) => k < |s.identityOutbox|
    case SendUser(k, _) => k < |s.userOutbox|
    case NoiseIdentity(m) => IsNoise(m)
    case NoiseUser(m) => IsNoise(m)
    case ConsumeProfile(newId, _) => s.profileOffset < |s.identityLog| && forall i :: 0 <= i < |s.users| ==> s.users[i].id != newId
    case ConsumeAccount(_) => s.accountOffset < |s.userLog|
    case ConsumeBuyer(_) => s.buyerOffset < |s.userLog|
    case RewindProfile(to) => to <= s.profileOffset
    case RewindAccount(to) => to <= s.accountOffset
    case RewindBuyer(to) => to <= s.buyerOffset
  }

  function Apply(s: State, e: Event): State {
    if !Enabled(s, e) then s
    else match e
      case Register(i, hash) =>
        s.(identities := s.identities + {i}, sessions := s.sessions[hash := i], identityOutbox := s.identityOutbox + [OutboxRow(Registered(i), false)])
      case SendIdentity(k, marks) =>
        s.(identityLog := s.identityLog + [s.identityOutbox[k].event],
           identityOutbox := if marks then s.identityOutbox[k := s.identityOutbox[k].(published := true)] else s.identityOutbox)
      case SendUser(k, marks) =>
        s.(userLog := s.userLog + [s.userOutbox[k].event],
           userOutbox := if marks then s.userOutbox[k := s.userOutbox[k].(published := true)] else s.userOutbox)
      case NoiseIdentity(m) => s.(identityLog := s.identityLog + [m])
      case NoiseUser(m) => s.(userLog := s.userLog + [m])
      case ConsumeProfile(newId, commits) =>
        HandleProfile(s, s.identityLog[s.profileOffset], newId).(profileOffset := s.profileOffset + if commits then 1 else 0)
      case ConsumeAccount(commits) =>
        HandleAccount(s, s.userLog[s.accountOffset]).(accountOffset := s.accountOffset + if commits then 1 else 0)
      case ConsumeBuyer(commits) =>
        HandleBuyer(s, s.userLog[s.buyerOffset]).(buyerOffset := s.buyerOffset + if commits then 1 else 0)
      case RewindProfile(to) => s.(profileOffset := to)
      case RewindAccount(to) => s.(accountOffset := to)
      case RewindBuyer(to) => s.(buyerOffset := to)
  }

  function Empty(): State { State({}, map[], [], [], [], [], [], [], [], 0, 0, 0, []) }

  function Run(events: seq<Event>): State {
    if events == [] then Empty() else Apply(Run(events[..|events| - 1]), events[|events| - 1])
  }

  /* ---------- invariant ---------- */

  predicate UniqueUsers(users: seq<User>) {
    forall i, j :: 0 <= i < j < |users| ==> users[i].identity != users[j].identity && users[i].id != users[j].id
  }

  predicate UniqueBuyers(buyers: seq<Buyer>) {
    forall i, j :: 0 <= i < j < |buyers| ==> buyers[i].identity != buyers[j].identity && buyers[i].user != buyers[j].user
  }

  predicate UniqueEvents(rows: seq<OutboxRow>) {
    forall i, j :: 0 <= i < j < |rows| ==> rows[i].event != rows[j].event
  }

  predicate IdentitySide(s: State) {
    && (forall k :: 0 <= k < |s.identityOutbox| ==> s.identityOutbox[k].event.Registered? && s.identityOutbox[k].event.identity in s.identities)
    && (forall i :: i in s.identities ==> exists k :: 0 <= k < |s.identityOutbox| && s.identityOutbox[k].event == Registered(i))
    && (forall k :: 0 <= k < |s.identityOutbox| && s.identityOutbox[k].published ==> s.identityOutbox[k].event in s.identityLog)
    && s.sessions.Values == s.identities
    && s.profileOffset <= |s.identityLog|
    && (forall p :: 0 <= p < s.profileOffset && s.identityLog[p].Registered? ==> HasUser(s.users, s.identityLog[p].identity))
  }

  /** Every user announces itself in exactly one outbox row, and nothing else does. */
  predicate UserSide(s: State) {
    && UniqueUsers(s.users) && UniqueEvents(s.userOutbox)
    && |s.userOutbox| == |s.users|
    && (forall k :: 0 <= k < |s.users| ==> s.userOutbox[k].event == UserCreated(s.users[k].id, s.users[k].identity))
    && (forall k :: 0 <= k < |s.userOutbox| && s.userOutbox[k].published ==> s.userOutbox[k].event in s.userLog)
    && (forall p :: 0 <= p < |s.userLog| && s.userLog[p].UserCreated? ==> IsUser(s.users, s.userLog[p].user, s.userLog[p].identity))
  }

  predicate FollowerSide(s: State) {
    && s.accountOffset <= |s.userLog| && s.buyerOffset <= |s.userLog|
    && (forall p :: 0 <= p < s.accountOffset && s.userLog[p].UserCreated? ==> s.userLog[p].user in s.accounts)
    && (forall p :: 0 <= p < s.buyerOffset && s.userLog[p].UserCreated? ==> Buyer(s.userLog[p].identity, s.userLog[p].user) in s.buyers)
    && UniqueBuyers(s.buyers)
    && (forall k :: 0 <= k < |s.buyers| ==> IsUser(s.users, s.buyers[k].user, s.buyers[k].identity))
  }

  predicate Inv(s: State) { IdentitySide(s) && UserSide(s) && FollowerSide(s) }

  lemma HasUserGrows(users: seq<User>, user: User, identity: int)
    requires HasUser(users, identity)
    ensures HasUser(users + [user], identity)
  {
    var i :| 0 <= i < |users| && users[i].identity == identity;
    assert (users + [user])[i].identity == identity;
  }

  lemma RegisterKeepsInv(s: State, i: int, hash: int)
    requires Inv(s) && i !in s.identities && hash !in s.sessions
    ensures Inv(Apply(s, Register(i, hash)))
  {
    var t := Apply(s, Register(i, hash));
    assert t.sessions.Values == s.sessions.Values + {i} by {
      assert forall h :: h in s.sessions ==> t.sessions[h] == s.sessions[h];
      assert t.sessions[hash] == i;
    }
    forall j | j in t.identities ensures exists k :: 0 <= k < |t.identityOutbox| && t.identityOutbox[k].event == Registered(j) {
      if j == i {
        assert t.identityOutbox[|s.identityOutbox|].event == Registered(j);
      } else {
        var k :| 0 <= k < |s.identityOutbox| && s.identityOutbox[k].event == Registered(j);
        assert t.identityOutbox[k].event == Registered(j);
      }
    }
  }

  lemma SendIdentityKeepsInv(s: State, k: nat, marks: bool)
    requires Inv(s) && k < |s.identityOutbox|
    ensures Inv(Apply(s, SendIdentity(k, marks)))
  {
    var t := Apply(s, SendIdentity(k, marks));
    assert forall j :: 0 <= j < |s.identityOutbox| ==> t.identityOutbox[j].event == s.identityOutbox[j].event;
    forall j | j in t.identities ensures exists q :: 0 <= q < |t.identityOutbox| && t.identityOutbox[q].event == Registered(j) {
      var q :| 0 <= q < |s.identityOutbox| && s.identityOutbox[q].event == Registered(j);
      assert t.identityOutbox[q].event == Registered(j);
    }
  }

  lemma SendUserKeepsInv(s: State, k: nat, marks: bool)
    requires Inv(s) && k < |s.userOutbox|
    ensures Inv(Apply(s, SendUser(k, marks)))
  {
    var t := Apply(s, SendUser(k, marks));
    assert forall j :: 0 <= j < |s.userOutbox| ==> t.userOutbox[j].event == s.userOutbox[j].event;
    assert s.users[k] in s.users;
  }

  /** A new user is announced, and nobody else changes. */
  lemma CreateUserKeepsInv(s: State, identity: int, newId: int)
    requires Inv(s) && !HasUser(s.users, identity) && forall i :: 0 <= i < |s.users| ==> s.users[i].id != newId
    ensures Inv(CreateUser(s, identity, newId)) && HasUser(CreateUser(s, identity, newId).users, identity)
  {
    var t, user := CreateUser(s, identity, newId), User(newId, identity);
    assert t.users == s.users + [user] && t.users[|s.users|].identity == identity;
    forall p | 0 <= p < t.profileOffset && t.identityLog[p].Registered? ensures HasUser(t.users, t.identityLog[p].identity) {
      HasUserGrows(s.users, user, s.identityLog[p].identity);
    }
    assert IdentitySide(t);
    assert forall u :: u in s.users ==> u in t.users;
    assert FollowerSide(t);
  }

  lemma ProfileKeepsInv(s: State, newId: int, commits: bool)
    requires Inv(s) && Enabled(s, ConsumeProfile(newId, commits))
    ensures Inv(Apply(s, ConsumeProfile(newId, commits)))
  {
    var m := s.identityLog[s.profileOffset];
    if m.Registered? && !HasUser(s.users, m.identity) {
      CreateUserKeepsInv(s, m.identity, newId);
    }
  }

  lemma AccountKeepsInv(s: State, commits: bool)
    requires Inv(s) && Enabled(s, ConsumeAccount(commits))
    ensures Inv(Apply(s, ConsumeAccount(commits)))
  {
    var t := Apply(s, ConsumeAccount(commits));
    assert t.identities == s.identities && t.sessions == s.sessions && t.identityOutbox == s.identityOutbox
      && t.identityLog == s.identityLog && t.profileOffset == s.profileOffset && t.users == s.users;
    assert IdentitySide(t) by {
      forall i | i in t.identities ensures exists k :: 0 <= k < |t.identityOutbox| && t.identityOutbox[k].event == Registered(i) {
        var k :| 0 <= k < |s.identityOutbox| && s.identityOutbox[k].event == Registered(i);
        assert t.identityOutbox[k].event == Registered(i);
      }
    }
    assert t.userOutbox == s.userOutbox && t.userLog == s.userLog && UserSide(t);
    assert t.buyers == s.buyers && t.buyerOffset == s.buyerOffset;
  }

  /** A conflicting buyer is the same buyer, since identity and user name each other uniquely. */
  lemma ConflictIsTheSame(users: seq<User>, buyers: seq<Buyer>, identity: int, user: int)
    requires UniqueUsers(users) && IsUser(users, user, identity) && HasBuyer(buyers, identity, user)
    requires forall k :: 0 <= k < |buyers| ==> IsUser(users, buyers[k].user, buyers[k].identity)
    ensures Buyer(identity, user) in buyers
  {
    var i :| 0 <= i < |buyers| && (buyers[i].identity == identity || buyers[i].user == user);
    assert IsUser(users, buyers[i].user, buyers[i].identity);
    var a :| 0 <= a < |users| && users[a] == User(buyers[i].user, buyers[i].identity);
    var b :| 0 <= b < |users| && users[b] == User(user, identity);
    assert a == b;
    assert buyers[i] == Buyer(identity, user);
  }

  lemma BuyerKeepsInv(s: State, commits: bool)
    requires Inv(s) && Enabled(s, ConsumeBuyer(commits))
    ensures Inv(Apply(s, ConsumeBuyer(commits)))
  {
    var t := Apply(s, ConsumeBuyer(commits));
    var m := s.userLog[s.buyerOffset];
    if m.UserCreated? {
      assert IsUser(s.users, m.user, m.identity);
      if HasBuyer(s.buyers, m.identity, m.user) {
        ConflictIsTheSame(s.users, s.buyers, m.identity, m.user);
      } else {
        assert t.buyers[|s.buyers|] == Buyer(m.identity, m.user);
      }
      forall p | 0 <= p < t.buyerOffset && t.userLog[p].UserCreated?
        ensures Buyer(t.userLog[p].identity, t.userLog[p].user) in t.buyers
      {
        assert p < s.buyerOffset || t.userLog[p] == m;
      }
      assert FollowerSide(t);
    }
  }

  lemma StepKeepsInv(s: State, e: Event)
    requires Inv(s)
    ensures Inv(Apply(s, e))
  {
    if Enabled(s, e) {
      match e
      case Register(i, hash) => RegisterKeepsInv(s, i, hash);
      case SendIdentity(k, marks) => SendIdentityKeepsInv(s, k, marks);
      case SendUser(k, marks) => SendUserKeepsInv(s, k, marks);
      case ConsumeProfile(newId, commits) => ProfileKeepsInv(s, newId, commits);
      case ConsumeAccount(commits) => AccountKeepsInv(s, commits);
      case ConsumeBuyer(commits) => BuyerKeepsInv(s, commits);
      case _ =>
    }
  }

  lemma {:induction false} InvForever(events: seq<Event>)
    ensures Inv(Run(events))
  {
    if events != [] {
      InvForever(events[..|events| - 1]);
      StepKeepsInv(Run(events[..|events| - 1]), events[|events| - 1]);
    }
  }

  /** In every reachable state: at most one user per identity, one announcement per user, one buyer per identity;
      and exactly the registered identities have been given a session. */
  lemma NeverTwice(events: seq<Event>)
    ensures UniqueUsers(Run(events).users) && UniqueEvents(Run(events).userOutbox) && UniqueBuyers(Run(events).buyers)
    ensures |Run(events).userOutbox| == |Run(events).users|
    ensures Run(events).sessions.Values == Run(events).identities
  {
    InvForever(events);
  }

  /** Everything written has been sent and everything sent has been consumed. */
  predicate Drained(s: State) {
    && (forall k :: 0 <= k < |s.identityOutbox| ==> s.identityOutbox[k].published)
    && (forall k :: 0 <= k < |s.userOutbox| ==> s.userOutbox[k].published)
    && s.profileOffset == |s.identityLog| && s.accountOffset == |s.userLog| && s.buyerOffset == |s.userLog|
  }

  /** The identity has this user and no other, the user its account, and the buyer of the identity is that user. */
  ghost predicate ProvisionedAs(s: State, identity: int, user: int) {
    && IsUser(s.users, user, identity)
    && (forall u: User :: u in s.users && u.identity == identity ==> u.id == user)
    && user in s.accounts
    && Buyer(identity, user) in s.buyers
    && (forall b: Buyer :: b in s.buyers && b.identity == identity ==> b.user == user)
  }

  /** Provisioning converges: once drained, every registered identity is provisioned completely and consistently,
      whatever was resent or replayed. */
  lemma Converges(events: seq<Event>, identity: int)
    requires Drained(Run(events)) && identity in Run(events).identities
    ensures exists user :: ProvisionedAs(Run(events), identity, user)
  {
    var s := Run(events);
    InvForever(events);
    var k :| 0 <= k < |s.identityOutbox| && s.identityOutbox[k].event == Registered(identity);
    assert s.identityOutbox[k].event in s.identityLog;
    var p :| 0 <= p < |s.identityLog| && s.identityLog[p] == Registered(identity);
    assert HasUser(s.users, identity);
    var i :| 0 <= i < |s.users| && s.users[i].identity == identity;
    var user := s.users[i].id;
    assert s.users[i] == User(user, identity);
    assert s.userOutbox[i].event in s.userLog;
    var q :| 0 <= q < |s.userLog| && s.userLog[q] == UserCreated(user, identity);
    assert ProvisionedAs(s, identity, user);
  }

  /* ---------- rejected messages ---------- */

  predicate Rejected(s: State, group: Group, log: seq<Message>, offset: nat) {
    forall p :: 0 <= p < offset && p < |log| && log[p].Malformed? ==> DeadLetter(group, log[p]) in s.deadLetters
  }

  predicate RejectedInv(s: State) {
    && Rejected(s, Profile, s.identityLog, s.profileOffset) && Rejected(s, Accounts, s.userLog, s.accountOffset)
    && Rejected(s, Buyers, s.userLog, s.buyerOffset)
    && forall i :: 0 <= i < |s.deadLetters| ==> s.deadLetters[i].message.Malformed?
  }

  /** A log that only grows, and an offset that moves past a rejected message only, keep what was rejected. */
  lemma RejectedGrows(s: State, t: State, group: Group, log: seq<Message>, after: seq<Message>, offset: nat, next: nat)
    requires Rejected(s, group, log, offset) && log <= after && offset <= |log|
    requires s.deadLetters <= t.deadLetters && next <= offset + 1
    requires next == offset + 1 ==> offset < |log| && (log[offset].Malformed? ==> DeadLetter(group, log[offset]) in t.deadLetters)
    ensures Rejected(t, group, after, next)
  {
    forall p | 0 <= p < next && p < |after| && after[p].Malformed? ensures DeadLetter(group, after[p]) in t.deadLetters {
      if p < offset {
        assert log[p] == after[p];
        assert DeadLetter(group, log[p]) in s.deadLetters;
      }
    }
  }

  lemma ProfileRejects(s: State, e: Event)
    requires s.profileOffset <= |s.identityLog| && Rejected(s, Profile, s.identityLog, s.profileOffset)
    ensures Rejected(Apply(s, e), Profile, Apply(s, e).identityLog, Apply(s, e).profileOffset)
  {
    var t := Apply(s, e);
    RejectedGrows(s, t, Profile, s.identityLog, t.identityLog, s.profileOffset, t.profileOffset);
  }

  lemma AccountsReject(s: State, e: Event)
    requires s.accountOffset <= |s.userLog| && Rejected(s, Accounts, s.userLog, s.accountOffset)
    ensures Rejected(Apply(s, e), Accounts, Apply(s, e).userLog, Apply(s, e).accountOffset)
  {
    var t := Apply(s, e);
    RejectedGrows(s, t, Accounts, s.userLog, t.userLog, s.accountOffset, t.accountOffset);
  }

  lemma BuyersReject(s: State, e: Event)
    requires s.buyerOffset <= |s.userLog| && Rejected(s, Buyers, s.userLog, s.buyerOffset)
    ensures Rejected(Apply(s, e), Buyers, Apply(s, e).userLog, Apply(s, e).buyerOffset)
  {
    var t := Apply(s, e);
    RejectedGrows(s, t, Buyers, s.userLog, t.userLog, s.buyerOffset, t.buyerOffset);
  }

  lemma OnlyMalformed(s: State, e: Event)
    requires forall i :: 0 <= i < |s.deadLetters| ==> s.deadLetters[i].message.Malformed?
    ensures forall i :: 0 <= i < |Apply(s, e).deadLetters| ==> Apply(s, e).deadLetters[i].message.Malformed?
  {
  }

  lemma RejectedStep(s: State, e: Event)
    requires s.profileOffset <= |s.identityLog| && s.accountOffset <= |s.userLog| && s.buyerOffset <= |s.userLog| && RejectedInv(s)
    ensures RejectedInv(Apply(s, e))
  {
    ProfileRejects(s, e);
    AccountsReject(s, e);
    BuyersReject(s, e);
    OnlyMalformed(s, e);
  }

  /** Whatever a consumer has passed over as malformed is on its group's dead-letter topic, and nothing else is. */
  lemma {:induction false} RejectedAreKept(events: seq<Event>)
    ensures RejectedInv(Run(events))
  {
    if events != [] {
      InvForever(events[..|events| - 1]);
      RejectedAreKept(events[..|events| - 1]);
      RejectedStep(Run(events[..|events| - 1]), events[|events| - 1]);
    }
  }
}
