/**
 * The debt views' querysets: every list is scoped to the caller's company,
 * found through the client that owes each debt.
 */
module DebtViews {
  import opened Common
  import opened Persistence
  import opened Sequences
  import ClientModels

  /** The stored debt with this primary key. */
  function FindDebt(debts: seq<DebtRow>, id: DebtId): (r: Option<DebtRow>)
    ensures r.Some? ==> r.value in debts && r.value.id == id
    ensures r.None? <==> forall d :: d in debts ==> d.id != id
  {
    if debts == [] then None
    else if debts[0].id == id then Some(debts[0])
    else FindDebt(debts[1..], id)
  }

  /** `client__company`: the company of the client that owes the debt. */
  function DebtCompany(t: Tables, d: DebtRow): (company: Option<CompanyId>)
  {
    match ClientModels.FindClient(t.clients, d.client)
    case Some(c) => c.company
    case None => None
  }

  /** Past its due date and not marked paid. */
  predicate Overdue(d: DebtRow, today: Date)
  {
    d.dueDate < today && !d.isPaid
  }

  /** The `filter` query parameter, `all` when absent. */
  function FilterType(param: Option<string>): (filter: string)
  {
    if param.Some? then param.value else "all"
  }

  function CompanyDebts(t: Tables, company: CompanyId): (r: seq<DebtRow>)
  {
    Filter(t.debts, (d: DebtRow) => DebtCompany(t, d) == Some(company))
  }

  /** The list view (`today` is the time-zone-aware date): nothing without a company; the company's debts for `all`, its overdue ones for `overdue`; nothing for any other filter. */
  function ListDebts(request: Requester, filter: Option<string>, today: Date, t: Tables): (r: seq<DebtRow>)
    ensures request.company.None? ==> r == []
    ensures request.company.Some? && FilterType(filter) == "all" ==>
      forall d :: d in r <==> d in t.debts && DebtCompany(t, d) == request.company
    ensures request.company.Some? && FilterType(filter) == "overdue" ==>
      forall d :: d in r <==> d in t.debts && DebtCompany(t, d) == request.company && Overdue(d, today)
    ensures FilterType(filter) != "all" && FilterType(filter) != "overdue" ==> r == []
  {
    if request.company.None? then []
    else if FilterType(filter) == "all" then CompanyDebts(t, request.company.value)
    else if FilterType(filter) == "overdue" then
      Filter(t.debts, (d: DebtRow) => DebtCompany(t, d) == request.company && Overdue(d, today))
    else []
  }

  /** The overdue list is part of the full list. */
  lemma OverdueWithinAll(request: Requester, today: Date, t: Tables)
    ensures forall d :: d in ListDebts(request, Some("overdue"), today, t) ==> d in ListDebts(request, None, today, t)
    ensures forall d :: d in ListDebts(request, Some("overdue"), today, t) ==> Overdue(d, today)
  {
  }

  /** The detail view only reaches debts of the caller's company. */
  function DetailDebts(request: Requester, t: Tables): (r: seq<DebtRow>)
    ensures request.company.None? ==> r == []
    ensures forall d :: d in r <==> request.company.Some? && d in t.debts && DebtCompany(t, d) == request.company
  {
    if request.company.None? then [] else CompanyDebts(t, request.company.value)
  }

  /** The debt exists and its client belongs to the caller's company. */
  predicate DebtInScope(request: Requester, debtId: DebtId, t: Tables)
  {
    && FindDebt(t.debts, debtId).Some?
    && request.company.Some?
    && DebtCompany(t, FindDebt(t.debts, debtId).value) == request.company
  }

  /**
   * The payments of one debt: none when the debt does not exist, when the
   * caller has no company or when the debt belongs to another company;
   * otherwise every payment recorded against it.
   */
  function DebtPayments(request: Requester, debtId: DebtId, t: Tables): (r: seq<PaymentRow>)
    ensures !DebtInScope(request, debtId, t) ==> r == []
    ensures DebtInScope(request, debtId, t) ==> forall p :: p in r <==> p in t.payments && p.debt == debtId
  {
    match FindDebt(t.debts, debtId)
    case None => []
    case Some(debt) =>
      if request.company.None? then []
      else if DebtCompany(t, debt) != request.company then []
      else Filter(t.payments, (p: PaymentRow) => p.debt == debtId)
  }
}
