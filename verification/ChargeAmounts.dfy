/**
 Where the order's texts meet the account's cents: what the gateway accepts, and what a stored total is charged.
 */
module ChargeAmounts {
  import opened Wrappers
  import Account
  import opened Pricing

  /** A movement is accepted exactly when its customer is a positive safe integer and its amount, written out as the order
      stores it, matches the gateway's pattern and is positive as a double. */
  lemma ValidMovementIff(fl: real -> real, customer: int, n: nat)
    requires Rounds(fl)
    ensures Account.IsValidMovement(customer, n) <==> 0 < customer < 0x20_0000_0000_0000 && AcceptsAmount(fl, FormatCents(n))
  {
    AmountRoundTrip(n);
    NumberSign(fl, n);
  }

  /** From the cart to the account: a placed order of some cost, sent for a known customer whose balance covers it and whose
      charge is new, is answered `success`, and the balance falls by exactly what the cart costs. */
  lemma CartIsCharged(fl: real -> real, items: seq<Item>, offers: map<int, Offer>, db: Account.Db, m: Account.ChargeMsg)
    requires Rounds(fl) && WfOffers(offers) && |items| <= MAX_LINES && ToLines(items, offers).Ok?
    requires Fits(FixedTotal(fl, ToLines(items, offers).value)) && Fits(FixedDiscount(fl, ToLines(items, offers).value))
    requires m.wellFormed && 0 < m.customer < 0x20_0000_0000_0000 && Some(m.amount) == FixedTotal(fl, ToLines(items, offers).value)
    requires m.amount > 0 && (Account.CustomerCharge, m.id) !in db.inbox
    requires m.customer in db.balance && db.balance[m.customer] >= m.amount
    ensures forall i :: 0 <= i < |items| ==> items[i].offerId in offers
    ensures m.amount == Payable(items, offers) && Account.HandleCharge(db, m).1 == Account.Charged
    ensures m.customer in Account.HandleCharge(db, m).0.balance
      && Account.HandleCharge(db, m).0.balance[m.customer] == db.balance[m.customer] - Payable(items, offers)
  {
    CartIsStoredExactly(fl, items, offers);
    ChargeKeepsTheAmount(fl, m.amount);
    ValidMovementIff(fl, m.customer, m.amount);
  }
}
