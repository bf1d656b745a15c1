/**
 * The client views: the company's client list, and one client together
 * with all of its debts.
 */
module ClientViews {
  import opened Common
  import opened Persistence
  import opened Sequences
  import ClientModels
  import DebtViews

  /** Only the caller's company's clients; a caller without a company gets an error, not an empty list. */
  function ListClients(request: Requester, clients: seq<ClientRow>): (r: Result<seq<ClientRow>>)
    ensures r.Err? <==> request.company.None?
    ensures r.Err? ==> r.error == ValueError(NoCompanyMessage)
    ensures r.Ok? ==> forall c :: c in r.value <==> c in clients && c.company == request.company
  {
    if request.company.Some? then Ok(Filter(clients, (c: ClientRow) => c.company == request.company))
    else Err(ValueError(NoCompanyMessage))
  }

  /** The response body: the client once, and its debts. */
  datatype ClientDebts = ClientDebts(client: ClientRow, debts: seq<DebtRow>)

  /**
   * Not found when no client has the id; permission denied when the client's
   * company differs from the caller's; otherwise the client and all of its
   * debts. Two absent companies compare equal, so a caller without a company
   * reaches the clients that have none.
   */
  function ListClientDebts(request: Requester, id: ClientId, t: Tables): (r: Result<ClientDebts>)
    ensures ClientModels.FindClient(t.clients, id).None? <==> r == Err(NotFound)
    ensures ClientModels.FindClient(t.clients, id).Some? && ClientModels.FindClient(t.clients, id).value.company != request.company
            <==> r == Err(PermissionDenied(NoAccessMessage))
    ensures r.Ok? ==> r.value.client == ClientModels.FindClient(t.clients, id).value && r.value.client.company == request.company
    ensures r.Ok? ==> forall d :: d in r.value.debts <==> d in t.debts && d.client == id
  {
    match ClientModels.FindClient(t.clients, id)
    case None => Err(NotFound)
    case Some(client) =>
      if client.company != request.company then Err(PermissionDenied(NoAccessMessage))
      else Ok(ClientDebts(client, Filter(t.debts, (d: DebtRow) => d.client == id)))
  }

  /** For a caller with a company, the debts shown for one of its clients are all in its debt list. */
  lemma ClientDebtsWithinDebtList(request: Requester, id: ClientId, today: Date, t: Tables)
    requires request.company.Some?
    requires ListClientDebts(request, id, t).Ok?
    ensures forall d :: d in ListClientDebts(request, id, t).value.debts ==> d in DebtViews.ListDebts(request, None, today, t)
  {
    var r := ListClientDebts(request, id, t).value;
    forall d | d in r.debts ensures d in DebtViews.ListDebts(request, None, today, t) {
      assert DebtViews.DebtCompany(t, d) == r.client.company;
    }
  }
}
