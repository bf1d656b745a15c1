/**
 * The payments app's serializer: it stamps the requesting user on a payment
 * only when the caller's company is the company of the debt's client.
 */
module PaymentSerializers {
  import opened Common
  import opened Persistence
  import opened DebtModels
  import opened PaymentModels
  import opened PaymentRequests

  /** Whether the caller works for the company of the client that owes the debt (two absent companies count as equal). */
  predicate SameCompany(request: Requester, debt: Debt)
    reads debt
  {
    request.company == debt.client.company
  }

  /** Stamps the caller when the companies match, leaves `user` as it was otherwise, then creates the payment. */
  method Create(data: PaymentData, request: Requester, id: PaymentId, store: Store) returns (r: Result<Payment>)
    requires data.debt.id.Some?
    modifies data, data.debt, data.debt.client, store
    ensures data.user == if SameCompany(request, data.debt) then Some(request.user) else old(data.user)
    ensures var e := PaymentEffect(old(data.debt.Fields()), old(data.debt.client.balanse), data.amount);
      if e.Ok? then
        && r.Ok? && fresh(r.value)
        && r.value.user == data.user && r.value.debt == data.debt && r.value.amount == data.amount && r.value.id == id
        && (data.debt.Fields(), data.debt.client.balanse) == e.value
        && store.log == old(store.log) + [SavedPayment(r.value.Row()), SavedDebt(data.debt.Row()), SavedClient(data.debt.client.Row())]
        && store.lastDebtId == old(store.lastDebtId)
      else
        && r == Err(e.error)
        && unchanged(data.debt, data.debt.client, store)
  {
    if request.company == data.debt.client.company {
      data.user := Some(request.user);
    }
    r := CreatePayment(id, data.debt, data.amount, data.user, store);
  }
}
