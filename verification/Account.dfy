/**
 The account context: balances, the append-only ledger and the inbox that makes a redelivered
 charge or refund harmless.

 Money is counted in cents.  A ledger entry carries, beside the columns of the table, the id of the
 order whose message wrote it (`cause`), so that the entries of one order can be told apart.
 */
module Account {
  import opened Wrappers
  import opened Limits

  datatype Consumer = CustomerCharge | CustomerRefund

  datatype Kind = Deposit | Payment | Withdrawal | Refund

  datatype Status = Pending | Failed | Success

  datatype Entry = Entry(customer: int, amount: int, kind: Kind, status: Status, cause: Option<int>)

  datatype Db = Db(balance: map<int, int>, ledger: seq<Entry>, inbox: set<(Consumer, int)>)

  /** `wellFormed` stands for the envelope checks of the gateway: version, type and uuid formats. */
  datatype ChargeMsg = ChargeMsg(wellFormed: bool, id: int, customer: int, amount: int)

  datatype RefundMsg = RefundMsg(wellFormed: bool, id: int, chargeId: int, customer: int, amount: int)

  datatype Reason = CustomerNotFound | InsufficientAmount

  datatype ChargeReply = ChargeNack | Charged | Rejected(reason: Reason, available: int)

  datatype RefundReply = RefundNack | Refunded | NotCharged | Thrown

  predicate IsValidMovement(customer: int, amount: int) {
    0 < customer <= MAX_SAFE_INTEGER && 0 < amount < NUMERIC_LIMIT
  }

  /* ---------- what one delivery does, as a function of the tables ---------- */

  function HandleCharge(db: Db, m: ChargeMsg): (Db, ChargeReply) {
    if !m.wellFormed || !IsValidMovement(m.customer, m.amount) then (db, ChargeNack)
    else if (CustomerCharge, m.id) in db.inbox then (db, Charged)
    else if m.customer !in db.balance then (db, Rejected(CustomerNotFound, 0))
    else if db.balance[m.customer] < m.amount then (db, Rejected(InsufficientAmount, db.balance[m.customer]))
    else
      (Db(db.balance[m.customer := db.balance[m.customer] - m.amount],
          db.ledger + [Entry(m.customer, m.amount, Payment, Success, Some(m.id))],
          db.inbox + {(CustomerCharge, m.id)}),
       Charged)
  }

  function HandleRefund(db: Db, m: RefundMsg): (Db, RefundReply) {
    if !m.wellFormed || !IsValidMovement(m.customer, m.amount) then (db, RefundNack)
    else if (CustomerRefund, m.id) in db.inbox then (db, Refunded)
    else if (CustomerCharge, m.chargeId) !in db.inbox then
      (db.(inbox := db.inbox + {(CustomerRefund, m.id), (CustomerCharge, m.chargeId)}), NotCharged)
    else if BalanceOf(db, m.customer) + m.amount >= NUMERIC_LIMIT then (db, Thrown)
    else
      (Db(db.balance[m.customer := BalanceOf(db, m.customer) + m.amount],
          db.ledger + [Entry(m.customer, m.amount, Refund, Success, Some(m.chargeId))],
          db.inbox + {(CustomerRefund, m.id)}),
       Refunded)
  }

  function Provision(db: Db, customer: int): Db {
    if customer in db.balance then db else db.(balance := db.balance[customer := 0])
  }

  /** A top-up by a process outside this repository: it keeps balance and ledger together. */
  function TopUp(db: Db, customer: int, amount: nat): Db {
    if BalanceOf(db, customer) + amount >= NUMERIC_LIMIT then db
    else Db(db.balance[customer := BalanceOf(db, customer) + amount],
            db.ledger + [Entry(customer, amount, Deposit, Success, None)],
            db.inbox)
  }

  function BalanceOf(db: Db, customer: int): int {
    if customer in db.balance then db.balance[customer] else 0
  }

  /* ---------- the same deliveries, statement by statement ---------- */

  class AccountStore {
    var balance: map<int, int>
    var ledger: seq<Entry>
    var inbox: set<(Consumer, int)>

    function Contents(): Db reads this { Db(balance, ledger, inbox) }

    constructor (db: Db)
      ensures Contents() == db
    {
      balance, ledger, inbox := db.balance, db.ledger, db.inbox;
    }

    method Rollback(db: Db)
      modifies this
      ensures Contents() == db
    {
      balance, ledger, inbox := db.balance, db.ledger, db.inbox;
    }

    /** INSERT ... ON CONFLICT DO NOTHING on the inbox. */
    method MarkProcessed(consumer: Consumer, id: int) returns (inserted: bool)
      modifies this`inbox
      ensures inserted == ((consumer, id) !in old(inbox))
      ensures inbox == old(inbox) + {(consumer, id)}
    {
      inserted := (consumer, id) !in inbox;
      inbox := inbox + {(consumer, id)};
    }

    /** The guarded UPDATE: it touches a row only when the balance covers the amount. */
    method Debit(customer: int, amount: int) returns (done: bool)
      modifies this`balance
      ensures done == (customer in old(balance) && old(balance)[customer] >= amount)
      ensures balance == if done then old(balance)[customer := old(balance)[customer] - amount] else old(balance)
    {
      done := customer in balance && balance[customer] >= amount;
      if done {
        balance := balance[customer := balance[customer] - amount];
      }
    }

    /** The upsert; the numeric column refuses a balance of 10^10 or more. */
    method Credit(customer: int, amount: int) returns (done: bool)
      modifies this`balance
      ensures done == (BalanceOf(old(Contents()), customer) + amount < NUMERIC_LIMIT)
      ensures balance == if done then old(balance)[customer := BalanceOf(old(Contents()), customer) + amount] else old(balance)
    {
      var next := if customer in balance then balance[customer] + amount else amount;
      done := next < NUMERIC_LIMIT;
      if done {
        balance := balance[customer := next];
      }
    }

    method CreateIfAbsent(customer: int) returns (inserted: bool)
      modifies this`balance
      ensures inserted == (customer !in old(balance))
      ensures Contents() == Provision(old(Contents()), customer)
    {
      inserted := customer !in balance;
      if inserted {
        balance := balance[customer := 0];
      }
    }

    /** One transaction: the inbox row, then the debit and the ledger row; a rejection undoes the inbox row too. */
    method HandleCustomerCharge(m: ChargeMsg) returns (reply: ChargeReply)
      modifies this
      ensures Contents() == HandleCharge(old(Contents()), m).0
      ensures reply == HandleCharge(old(Contents()), m).1
    {
      if !m.wellFormed || !IsValidMovement(m.customer, m.amount) {
        return ChargeNack;
      }
      var begin := Contents();
      var isNew := MarkProcessed(CustomerCharge, m.id);
      if !isNew {
        assert inbox == begin.inbox;
        return Charged;
      }
      var debited := Debit(m.customer, m.amount);
      if !debited {
        reply := if m.customer in balance then Rejected(InsufficientAmount, balance[m.customer])
                 else Rejected(CustomerNotFound, 0);
        Rollback(begin);
        return;
      }
      ledger := ledger + [Entry(m.customer, m.amount, Payment, Success, Some(m.id))];
      reply := Charged;
    }

    /** One transaction: the refund's inbox row, then either the fence or the credit with its ledger row. */
    method HandleCustomerRefund(m: RefundMsg) returns (reply: RefundReply)
      modifies this
      ensures Contents() == HandleRefund(old(Contents()), m).0
      ensures reply == HandleRefund(old(Contents()), m).1
    {
      if !m.wellFormed || !IsValidMovement(m.customer, m.amount) {
        return RefundNack;
      }
      var begin := Contents();
      var isNew := MarkProcessed(CustomerRefund, m.id);
      if !isNew {
        assert inbox == begin.inbox;
        return Refunded;
      }
      var fenced := MarkProcessed(CustomerCharge, m.chargeId);
      if fenced {
        assert inbox == begin.inbox + {(CustomerRefund, m.id), (CustomerCharge, m.chargeId)};
        return NotCharged;
      }
      assert inbox == begin.inbox + {(CustomerRefund, m.id)};
      var credited := Credit(m.customer, m.amount);
      if !credited {
        Rollback(begin);
        return Thrown;
      }
      ledger := ledger + [Entry(m.customer, m.amount, Refund, Success, Some(m.chargeId))];
      reply := Refunded;
    }
  }

  /* ---------- what the answers mean ---------- */

  /** The order's money, before and after, and every answer with its cause; the bounds are those of the gateway's test. */
  lemma ChargeAnswers(db: Db, m: ChargeMsg)
    ensures var (after, reply) := HandleCharge(db, m);
            var accepted := m.wellFormed && 0 < m.customer < 0x20_0000_0000_0000 && 0 < m.amount < 1_000_000_000_000;
            var isNew := (CustomerCharge, m.id) !in db.inbox;
            && (reply == ChargeNack <==> !accepted)
            && (reply == Rejected(CustomerNotFound, 0) <==> accepted && isNew && m.customer !in db.balance)
            && (reply.Rejected? && reply.reason == InsufficientAmount <==>
                  accepted && isNew && m.customer in db.balance && db.balance[m.customer] < m.amount)
            && (reply.Rejected? && reply.reason == InsufficientAmount ==> reply.available == db.balance[m.customer])
            && (reply == Charged <==> accepted && (!isNew || (m.customer in db.balance && db.balance[m.customer] >= m.amount)))
            && (reply == Charged && isNew ==>
                  after.inbox == db.inbox + {(CustomerCharge, m.id)} && |after.ledger| == |db.ledger| + 1
                  && BalanceOf(after, m.customer) == BalanceOf(db, m.customer) - m.amount)
            && (reply != Charged || !isNew ==> after == db)
  {
  }

  lemma RefundAnswers(db: Db, m: RefundMsg)
    ensures var (after, reply) := HandleRefund(db, m);
            var accepted := m.wellFormed && 0 < m.customer < 0x20_0000_0000_0000 && 0 < m.amount < 1_000_000_000_000;
            var isNew := (CustomerRefund, m.id) !in db.inbox;
            var charged := (CustomerCharge, m.chargeId) in db.inbox;
            && (reply == RefundNack <==> !accepted)
            && (reply == NotCharged <==> accepted && isNew && !charged)
            && (reply == Thrown <==> accepted && isNew && charged && BalanceOf(db, m.customer) + m.amount >= 1_000_000_000_000)
            && (reply == NotCharged ==>
                  after == db.(inbox := after.inbox) && (CustomerRefund, m.id) in after.inbox && (CustomerCharge, m.chargeId) in after.inbox)
            && (reply == Refunded && isNew ==>
                  BalanceOf(after, m.customer) == BalanceOf(db, m.customer) + m.amount && |after.ledger| == |db.ledger| + 1)
            && (reply == Thrown || reply == RefundNack || !isNew ==> after == db)
  {
  }

  /** Provisioning gives the customer an account and leaves every balance as it was. */
  lemma ProvisionMeaning(db: Db, customer: int)
    ensures customer in Provision(db, customer).balance && Provision(db, customer).balance.Keys == db.balance.Keys + {customer}
    ensures forall c :: BalanceOf(Provision(db, customer), c) == BalanceOf(db, c)
  {
  }

  /* ---------- balance = signed sum of the ledger ---------- */

  function Signed(e: Entry): int {
    if e.status != Success then 0
    else match e.kind
      case Deposit => e.amount
      case Refund => e.amount
      case Payment => -e.amount
      case Withdrawal => -e.amount
  }

  function Sum(ledger: seq<Entry>, customer: int): int {
    if ledger == [] then 0
    else
      var last := ledger[|ledger| - 1];
      Sum(ledger[..|ledger| - 1], customer) + if last.customer == customer then Signed(last) else 0
  }

  /** For every customer the balance is the signed sum of the ledger and is not negative. */
  ghost predicate Balanced(db: Db) {
    forall c: int :: BalanceOf(db, c) == Sum(db.ledger, c) && 0 <= BalanceOf(db, c)
  }

  lemma SumOfAppended(ledger: seq<Entry>, e: Entry, customer: int)
    ensures Sum(ledger + [e], customer) == Sum(ledger, customer) + if e.customer == customer then Signed(e) else 0
  {
    assert (ledger + [e])[..|ledger + [e]| - 1] == ledger;
  }

  datatype Op =
    | OpCharge(charge: ChargeMsg)
    | OpRefund(refund: RefundMsg)
    | OpProvision(customer: int)
    | OpTopUp(toCustomer: int, amount: nat)

  function Apply(db: Db, op: Op): Db {
    match op
    case OpCharge(m) => HandleCharge(db, m).0
    case OpRefund(m) => HandleRefund(db, m).0
    case OpProvision(c) => Provision(db, c)
    case OpTopUp(c, a) => TopUp(db, c, a)
  }

  function Run(db: Db, ops: seq<Op>): Db {
    if ops == [] then db else Apply(Run(db, ops[..|ops| - 1]), ops[|ops| - 1])
  }

  lemma BalancedMovement(db: Db, e: Entry, inbox: set<(Consumer, int)>)
    requires Balanced(db)
    requires 0 <= BalanceOf(db, e.customer) + Signed(e)
    ensures Balanced(Db(db.balance[e.customer := BalanceOf(db, e.customer) + Signed(e)], db.ledger + [e], inbox))
  {
    var after := Db(db.balance[e.customer := BalanceOf(db, e.customer) + Signed(e)], db.ledger + [e], inbox);
    forall c: int ensures BalanceOf(after, c) == Sum(after.ledger, c) && 0 <= BalanceOf(after, c) {
      assert BalanceOf(db, c) == Sum(db.ledger, c) && 0 <= BalanceOf(db, c);
      SumOfAppended(db.ledger, e, c);
    }
  }

  lemma BalancedSameMoney(db: Db, after: Db)
    requires Balanced(db) && after.ledger == db.ledger
    requires forall c: int :: BalanceOf(after, c) == BalanceOf(db, c)
    ensures Balanced(after)
  {
  }

  lemma BalancedStep(db: Db, op: Op)
    requires Balanced(db)
    ensures Balanced(Apply(db, op))
  {
    var after := Apply(db, op);
    if after.ledger == db.ledger {
      BalancedSameMoney(db, after);
    } else {
      match op
      case OpCharge(m) => BalancedMovement(db, Entry(m.customer, m.amount, Payment, Success, Some(m.id)), after.inbox);
      case OpRefund(m) => BalancedMovement(db, Entry(m.customer, m.amount, Refund, Success, Some(m.chargeId)), after.inbox);
      case OpProvision(_) =>
      case OpTopUp(c, a) => BalancedMovement(db, Entry(c, a, Deposit, Success, None), after.inbox);
    }
  }

  /** No sequence of charges, rejections, refunds, fences, provisionings and redeliveries parts the two. */
  lemma {:induction false} BalancedForever(db: Db, ops: seq<Op>)
    requires Balanced(db)
    ensures Balanced(Run(db, ops))
  {
    if ops != [] {
      BalancedForever(db, ops[..|ops| - 1]);
      BalancedStep(Run(db, ops[..|ops| - 1]), ops[|ops| - 1]);
    }
  }

  /* ---------- the entries one order causes ---------- */

  predicate Caused(e: Entry, kind: Kind, id: int) {
    e.kind == kind && e.cause == Some(id)
  }

  function Count(ledger: seq<Entry>, kind: Kind, id: int): nat {
    if ledger == [] then 0
    else
      var last := ledger[|ledger| - 1];
      Count(ledger[..|ledger| - 1], kind, id) + if Caused(last, kind, id) then 1 else 0
  }

  function Payments(db: Db, id: int): nat { Count(db.ledger, Payment, id) }

  function Refunds(db: Db, id: int): nat { Count(db.ledger, Refund, id) }

  /** What the order's ledger entries do to the customer's balance, over all customers. */
  function Net(ledger: seq<Entry>, id: int): int {
    if ledger == [] then 0
    else
      var last := ledger[|ledger| - 1];
      Net(ledger[..|ledger| - 1], id) + if last.cause == Some(id) then Signed(last) else 0
  }

  lemma CountOfAppended(ledger: seq<Entry>, e: Entry, kind: Kind, id: int)
    ensures Count(ledger + [e], kind, id) == Count(ledger, kind, id) + if Caused(e, kind, id) then 1 else 0
    ensures Net(ledger + [e], id) == Net(ledger, id) + if e.cause == Some(id) then Signed(e) else 0
  {
    assert (ledger + [e])[..|ledger + [e]| - 1] == ledger;
  }

  /** Every entry the order caused is a successful movement of its own amount on its own customer. */
  ghost predicate OwnEntries(db: Db, id: int, customer: int, amount: int) {
    forall e :: e in db.ledger && e.cause == Some(id) ==>
      e.customer == customer && e.amount == amount && e.status == Success && (e.kind == Payment || e.kind == Refund)
  }

  /** The whole relation between the inbox rows of an order and its ledger entries. */
  ghost predicate Coherent(db: Db, id: int, customer: int, amount: int) {
    var charged := (CustomerCharge, id) in db.inbox;
    var refunded := (CustomerRefund, id) in db.inbox;
    && OwnEntries(db, id, customer, amount)
    && Net(db.ledger, id) == amount * (Refunds(db, id) - Payments(db, id))
    && Refunds(db, id) <= Payments(db, id) <= 1
    && (refunded ==> charged && Refunds(db, id) == Payments(db, id))
    && (!refunded ==> Refunds(db, id) == 0 && Payments(db, id) == if charged then 1 else 0)
  }

  /** The ids the order service gives its messages: the refund repeats the id of the charge it undoes. */
  predicate Disciplined(op: Op, id: int, customer: int, amount: int) {
    match op
    case OpCharge(m) => m.id == id ==> m.customer == customer && m.amount == amount
    case OpRefund(m) => m.id == m.chargeId && (m.id == id ==> m.customer == customer && m.amount == amount)
    case OpProvision(_) => true
    case OpTopUp(_, _) => true
  }

  /** An entry of another order (or of none) leaves the order's entries as they are. */
  lemma ForeignEntry(ledger: seq<Entry>, e: Entry, id: int)
    requires e.cause != Some(id)
    ensures Count(ledger + [e], Payment, id) == Count(ledger, Payment, id)
    ensures Count(ledger + [e], Refund, id) == Count(ledger, Refund, id)
    ensures Net(ledger + [e], id) == Net(ledger, id)
  {
    CountOfAppended(ledger, e, Payment, id);
    CountOfAppended(ledger, e, Refund, id);
  }

  /** The charge that debits: it is the order's first. */
  lemma CoherentDebit(db: Db, m: ChargeMsg, customer: int, amount: int)
    requires Coherent(db, m.id, customer, amount) && m.customer == customer && m.amount == amount
    requires HandleCharge(db, m).1 == Charged && (CustomerCharge, m.id) !in db.inbox
    ensures Coherent(HandleCharge(db, m).0, m.id, customer, amount)
  {
    var e := Entry(m.customer, m.amount, Payment, Success, Some(m.id));
    CountOfAppended(db.ledger, e, Payment, m.id);
    CountOfAppended(db.ledger, e, Refund, m.id);
    assert HandleCharge(db, m).0.ledger == db.ledger + [e];
    assert amount * (0 - 1) == -amount && amount * (0 - 0) == 0;
  }

  lemma CoherentCharge(db: Db, m: ChargeMsg, id: int, customer: int, amount: int)
    requires Coherent(db, id, customer, amount)
    requires m.id == id ==> m.customer == customer && m.amount == amount
    ensures Coherent(HandleCharge(db, m).0, id, customer, amount)
  {
    var (after, reply) := HandleCharge(db, m);
    if m.id != id {
      ForeignMovement(db, after, Entry(m.customer, m.amount, Payment, Success, Some(m.id)), id, customer, amount);
    } else if reply == Charged && (CustomerCharge, id) !in db.inbox {
      CoherentDebit(db, m, customer, amount);
    } else {
      assert after == db;
    }
  }

  /** What another order does to the tables. */
  lemma ForeignMovement(db: Db, after: Db, e: Entry, id: int, customer: int, amount: int)
    requires Coherent(db, id, customer, amount) && e.cause != Some(id)
    requires after.ledger == db.ledger || after.ledger == db.ledger + [e]
    requires (CustomerCharge, id) in after.inbox <==> (CustomerCharge, id) in db.inbox
    requires (CustomerRefund, id) in after.inbox <==> (CustomerRefund, id) in db.inbox
    ensures Coherent(after, id, customer, amount)
  {
    ForeignEntry(db.ledger, e, id);
  }

  /** The refund that credits: it follows a charge, and none was refunded before. */
  lemma CoherentCredit(db: Db, m: RefundMsg, customer: int, amount: int)
    requires Coherent(db, m.id, customer, amount) && m.id == m.chargeId && m.customer == customer && m.amount == amount
    requires HandleRefund(db, m).1 == Refunded && (CustomerRefund, m.id) !in db.inbox
    ensures Coherent(HandleRefund(db, m).0, m.id, customer, amount)
  {
    var e := Entry(m.customer, m.amount, Refund, Success, Some(m.chargeId));
    CountOfAppended(db.ledger, e, Payment, m.id);
    CountOfAppended(db.ledger, e, Refund, m.id);
    assert HandleRefund(db, m).0.ledger == db.ledger + [e];
    assert amount * (0 - 1) == -amount && amount * (1 - 1) == 0;
  }

  lemma CoherentRefund(db: Db, m: RefundMsg, id: int, customer: int, amount: int)
    requires Coherent(db, id, customer, amount)
    requires m.id == m.chargeId && (m.id == id ==> m.customer == customer && m.amount == amount)
    ensures Coherent(HandleRefund(db, m).0, id, customer, amount)
  {
    var (after, reply) := HandleRefund(db, m);
    if m.id != id {
      ForeignMovement(db, after, Entry(m.customer, m.amount, Refund, Success, Some(m.chargeId)), id, customer, amount);
    } else if reply == Refunded && (CustomerRefund, id) !in db.inbox {
      CoherentCredit(db, m, customer, amount);
    } else {
      assert after.ledger == db.ledger;
    }
  }

  lemma CoherentStep(db: Db, op: Op, id: int, customer: int, amount: int)
    requires Coherent(db, id, customer, amount)
    requires Disciplined(op, id, customer, amount)
    ensures Coherent(Apply(db, op), id, customer, amount)
  {
    match op
    case OpCharge(m) => CoherentCharge(db, m, id, customer, amount);
    case OpRefund(m) => CoherentRefund(db, m, id, customer, amount);
    case OpProvision(_) =>
    case OpTopUp(c, a) => CoherentTopUp(db, c, a, id, customer, amount);
  }

  lemma CoherentTopUp(db: Db, c: int, a: nat, id: int, customer: int, amount: int)
    requires Coherent(db, id, customer, amount)
    ensures Coherent(TopUp(db, c, a), id, customer, amount)
  {
    ForeignEntry(db.ledger, Entry(c, a, Deposit, Success, None), id);
  }

  /** Whatever is lost, duplicated, delayed or reordered: refunds <= payments <= 1 for every order. */
  lemma {:induction false} CoherentForever(db: Db, ops: seq<Op>, id: int, customer: int, amount: int)
    requires Coherent(db, id, customer, amount)
    requires forall op :: op in ops ==> Disciplined(op, id, customer, amount)
    ensures Coherent(Run(db, ops), id, customer, amount)
  {
    if ops != [] {
      CoherentForever(db, ops[..|ops| - 1], id, customer, amount);
      CoherentStep(Run(db, ops[..|ops| - 1]), ops[|ops| - 1], id, customer, amount);
    }
  }

  lemma InboxGrows(db: Db, ops: seq<Op>, row: (Consumer, int))
    requires row in db.inbox
    ensures row in Run(db, ops).inbox
  {
  }

  /** A processed refund means a zero net effect, whether it credited or fenced. */
  lemma RefundedNetsToZero(db: Db, id: int, customer: int, amount: int)
    requires Coherent(db, id, customer, amount) && (CustomerRefund, id) in db.inbox
    ensures Net(db.ledger, id) == 0
  {
    var pays := Payments(db, id);
    assert Refunds(db, id) == pays;
    assert amount * (pays - pays) == 0;
  }

  /** Once a refund of the order has been answered, its net effect is zero in every later state,
      even with charges of the order still to be delivered. */
  lemma {:induction false} RefundSettlesForever(db: Db, m: RefundMsg, later: seq<Op>, customer: int, amount: int)
    requires Coherent(db, m.id, customer, amount)
    requires Disciplined(OpRefund(m), m.id, customer, amount)
    requires HandleRefund(db, m).1 == Refunded || HandleRefund(db, m).1 == NotCharged
    requires forall op :: op in later ==> Disciplined(op, m.id, customer, amount)
    ensures Net(Run(HandleRefund(db, m).0, later).ledger, m.id) == 0
  {
    var settled := HandleRefund(db, m).0;
    CoherentRefund(db, m, m.id, customer, amount);
    CoherentForever(settled, later, m.id, customer, amount);
    InboxGrows(settled, later, (CustomerRefund, m.id));
    RefundedNetsToZero(Run(settled, later), m.id, customer, amount);
  }

  /** The shared id is needed: two refunds under their own ids pay one charge back twice. */
  lemma SeparateRefundIdsPayTwice()
    ensures exists db: Db, ops: seq<Op> ::
      Coherent(db, 7, 1, 40) && Refunds(Run(db, ops), 7) == 2 && Payments(Run(db, ops), 7) == 1
  {
    var db := Db(map[1 := 100], [], {});
    var charge := OpCharge(ChargeMsg(true, 7, 1, 40));
    var first, second := OpRefund(RefundMsg(true, 8, 7, 1, 40)), OpRefund(RefundMsg(true, 9, 7, 1, 40));
    var e1, e2 := Entry(1, 40, Payment, Success, Some(7)), Entry(1, 40, Refund, Success, Some(7));
    var s1, s2, s3 := Run(db, [charge]), Run(db, [charge, first]), Run(db, [charge, first, second]);
    assert [charge][..0] == [] && [charge, first][..1] == [charge] && [charge, first, second][..2] == [charge, first];
    assert Run(db, []) == db;
    assert s1 == Apply(db, charge) && s1.ledger == [e1] && s1.balance[1] == 60 && (CustomerCharge, 7) in s1.inbox;
    assert s2 == Apply(s1, first) && s2.ledger == [e1, e2] && s2.balance[1] == 100 && (CustomerRefund, 9) !in s2.inbox;
    assert s3 == Apply(s2, second) && s3.ledger == [e1, e2, e2];
    LedgerOfThree(e1, e2);
    assert Coherent(db, 7, 1, 40);
  }

  lemma LedgerOfThree(e1: Entry, e2: Entry)
    requires Caused(e1, Payment, 7) && Caused(e2, Refund, 7)
    ensures Count([e1, e2, e2], Payment, 7) == 1 && Count([e1, e2, e2], Refund, 7) == 2
  {
    assert [e1, e2, e2] == [e1, e2] + [e2] && [e1, e2] == [e1] + [e2] && [e1] == [] + [e1];
    CountOfAppended([e1, e2], e2, Payment, 7);
    CountOfAppended([e1, e2], e2, Refund, 7);
    CountOfAppended([e1], e2, Payment, 7);
    CountOfAppended([e1], e2, Refund, 7);
    CountOfAppended([], e1, Payment, 7);
    CountOfAppended([], e1, Refund, 7);
  }
}
