/**
 * A payment against a debt. Its save hook checks the amount against what
 * remains, decrements the debt and the client's balanse by the same amount,
 * and writes the payment, the debt and the client, in that order.
 */
module PaymentModels {
  import opened Common
  import opened Persistence
  import opened ClientModels
  import opened DebtModels

  /**
   * What a payment save does to its (stored) debt and the client's balanse,
   * including the debt's own save hook that runs after the decrement. Only
   * `remainingAmount >= amount` is checked; the sign of `amount` is not.
   */
  function PaymentEffect(d: DebtFields, balanse: Cents, amount: Cents): (r: Result<(DebtFields, Cents)>)
    requires d.id.Some?
    ensures r.Ok? <==> amount <= d.remainingAmount
    ensures r.Err? ==> r.error == ValueError(PaymentExceedsMessage)
    ensures r.Ok? ==> r.value.0.remainingAmount == d.remainingAmount - amount && r.value.1 == balanse - amount
    ensures r.Ok? ==> r.value.0.remainingAmount >= 0
    ensures r.Ok? ==> (r.value.0.isPaid <==> d.isPaid || r.value.0.remainingAmount == 0)
    ensures r.Ok? ==> r.value.0.id == d.id && r.value.0.totalAmount == d.totalAmount && r.value.0.dueDate == d.dueDate
  {
    if d.remainingAmount >= amount then
      Ok(SaveEffect(d.(remainingAmount := d.remainingAmount - amount), balanse - amount))
    else
      Err(ValueError(PaymentExceedsMessage))
  }

  /** Paying exactly what remains settles the debt: nothing remains and it is marked paid. */
  lemma PayingRemainderSettles(d: DebtFields, balanse: Cents)
    requires d.id.Some?
    ensures PaymentEffect(d, balanse, d.remainingAmount).Ok?
    ensures PaymentEffect(d, balanse, d.remainingAmount).value.0.remainingAmount == 0
    ensures PaymentEffect(d, balanse, d.remainingAmount).value.0.isPaid
  {
  }

  class Payment {
    const id: PaymentId
    const debt: Debt
    const amount: Cents
    var user: Option<UserId>

    constructor (id: PaymentId, debt: Debt, amount: Cents, user: Option<UserId>)
      ensures this.id == id && this.debt == debt && this.amount == amount && this.user == user
    {
      this.id := id;
      this.debt := debt;
      this.amount := amount;
      this.user := user;
    }

    function Row(): (row: PaymentRow)
      requires debt.id.Some?
      reads this, debt
    {
      PaymentRow(id, debt.id.value, amount, user)
    }

    /** The save hook; the debt must already be stored, as its key is written into the payment row. */
    method Save(store: Store) returns (r: Outcome)
      requires debt.id.Some?
      modifies debt, debt.client, store
      ensures var e := PaymentEffect(old(debt.Fields()), old(debt.client.balanse), amount);
        if e.Ok? then
          && r == Pass
          && (debt.Fields(), debt.client.balanse) == e.value
          && store.log == old(store.log) + [SavedPayment(Row()), SavedDebt(debt.Row()), SavedClient(debt.client.Row())]
          && store.lastDebtId == old(store.lastDebtId)
        else
          && r == Fail(e.error)
          && unchanged(debt, debt.client, store)
    {
      if debt.remainingAmount >= amount {
        debt.remainingAmount := debt.remainingAmount - amount;
        debt.client.balanse := debt.client.balanse - amount;
      } else {
        return Fail(ValueError(PaymentExceedsMessage));
      }
      store.Write(SavedPayment(Row()));
      debt.Save(store);
      store.Write(SavedClient(debt.client.Row()));
      r := Pass;
    }
  }

  /** `Payment.objects.create`: builds the payment and saves it; the object is only handed back when the save succeeds. */
  method CreatePayment(id: PaymentId, debt: Debt, amount: Cents, user: Option<UserId>, store: Store) returns (r: Result<Payment>)
    requires debt.id.Some?
    modifies debt, debt.client, store
    ensures var e := PaymentEffect(old(debt.Fields()), old(debt.client.balanse), amount);
      if e.Ok? then
        && r.Ok? && fresh(r.value)
        && r.value.id == id && r.value.debt == debt && r.value.amount == amount && r.value.user == user
        && (debt.Fields(), debt.client.balanse) == e.value
        && store.log == old(store.log) + [SavedPayment(r.value.Row()), SavedDebt(debt.Row()), SavedClient(debt.client.Row())]
        && store.lastDebtId == old(store.lastDebtId)
      else
        && r == Err(e.error)
        && unchanged(debt, debt.client, store)
  {
    var p := new Payment(id, debt, amount, user);
    var outcome := p.Save(store);
    if outcome.Pass? {
      r := Ok(p);
    } else {
      r := Err(outcome.error);
    }
  }
}

/** The validated fields of a payment request, which serializers fill in before creating the payment. */
module PaymentRequests {
  import opened Common
  import opened DebtModels

  class PaymentData {
    const debt: Debt
    const amount: Cents
    /** Never taken from the request body: the field is read-only. */
    var user: Option<UserId>

    constructor (debt: Debt, amount: Cents)
      ensures this.debt == debt && this.amount == amount && user == None
    {
      this.debt := debt;
      this.amount := amount;
      user := None;
    }
  }
}
