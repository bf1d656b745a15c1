/**
 * The payment views: both querysets are scoped to the caller's company,
 * found through the payment's debt and that debt's client, and creation
 * always records the caller as the payment's user.
 */
module PaymentViews {
  import opened Common
  import opened Persistence
  import opened Sequences
  import opened PaymentModels
  import opened PaymentRequests
  import DebtViews
  import PaymentSerializers

  /** `debt__client__company`. */
  function PaymentCompany(t: Tables, p: PaymentRow): (company: Option<CompanyId>)
  {
    match DebtViews.FindDebt(t.debts, p.debt)
    case Some(d) => DebtViews.DebtCompany(t, d)
    case None => None
  }

  /** The queryset of the list view and of the detail view alike. */
  function ScopedPayments(request: Requester, t: Tables): (r: seq<PaymentRow>)
    ensures request.company.None? ==> r == []
    ensures forall p :: p in r <==> request.company.Some? && p in t.payments && PaymentCompany(t, p) == request.company
  {
    if request.company.None? then []
    else Filter(t.payments, (p: PaymentRow) => PaymentCompany(t, p) == request.company)
  }

  /** A payment is visible exactly when the debt it pays is visible in the debt detail view. */
  lemma ScopedPaymentsFollowDebts(request: Requester, t: Tables, p: PaymentRow)
    requires p in t.payments
    ensures p in ScopedPayments(request, t) <==>
      DebtViews.FindDebt(t.debts, p.debt).Some? && DebtViews.FindDebt(t.debts, p.debt).value in DebtViews.DetailDebts(request, t)
  {
  }

  /** What a debt's own payment list shows, the payment list shows too. */
  lemma DebtPaymentsAreScoped(request: Requester, debtId: DebtId, t: Tables)
    ensures forall p :: p in DebtViews.DebtPayments(request, debtId, t) ==> p in ScopedPayments(request, t)
  {
    forall p | p in DebtViews.DebtPayments(request, debtId, t) ensures p in ScopedPayments(request, t) {
      assert p.debt == debtId;
    }
  }

  /**
   * Creation through the list view: the caller is passed to the serializer's
   * save, so the payment is stamped with the caller whatever the companies.
   */
  method PerformCreate(data: PaymentData, request: Requester, id: PaymentId, store: Store) returns (r: Result<Payment>)
    requires data.debt.id.Some?
    modifies data, data.debt, data.debt.client, store
    ensures data.user == Some(request.user)
    ensures var e := PaymentEffect(old(data.debt.Fields()), old(data.debt.client.balanse), data.amount);
      if e.Ok? then
        && r.Ok? && fresh(r.value)
        && r.value.user == Some(request.user) && r.value.debt == data.debt && r.value.amount == data.amount
        && (data.debt.Fields(), data.debt.client.balanse) == e.value
        && store.log == old(store.log) + [SavedPayment(r.value.Row()), SavedDebt(data.debt.Row()), SavedClient(data.debt.client.Row())]
        && store.lastDebtId == old(store.lastDebtId)
      else
        && r == Err(e.error)
        && unchanged(data.debt, data.debt.client, store)
  {
    data.user := Some(request.user);
    r := PaymentSerializers.Create(data, request, id, store);
  }
}
