/**
 * The debts app's serializers: validation of a debt request, the clients a
 * caller may attach a debt to, creation of a debt from validated fields, and
 * the payment serializer that stamps the requesting user.
 */
module DebtSerializers {
  import opened Common
  import opened Persistence
  import opened Sequences
  import opened ClientModels
  import opened DebtModels
  import opened PaymentModels
  import opened PaymentRequests

  /** A debt as a request body may present it, read-only fields included. */
  datatype DebtInput = DebtInput(client: ClientId, totalAmount: Cents, dueDate: Option<Date>, isPaid: Option<bool>, remainingAmount: Option<Cents>)

  /** The writable fields that reach validation. */
  datatype DebtAttrs = DebtAttrs(client: ClientId, totalAmount: Cents, dueDate: Option<Date>)

  /** Drops the read-only `is_paid` and `remaining_amount`. */
  function WritableAttrs(input: DebtInput): (attrs: DebtAttrs)
    ensures attrs.client == input.client && attrs.totalAmount == input.totalAmount && attrs.dueDate == input.dueDate
  {
    DebtAttrs(input.client, input.totalAmount, input.dueDate)
  }

  /** Whatever the caller sends for the read-only fields, the same attributes are validated. */
  lemma ReadOnlyFieldsIgnored(input: DebtInput, paid: Option<bool>, remaining: Option<Cents>)
    ensures WritableAttrs(input.(isPaid := paid, remainingAmount := remaining)) == WritableAttrs(input)
  {
  }

  /**
   * Rejects a negative total, then a supplied due date that is not strictly
   * after today; an absent due date passes. Valid attributes come back as they are.
   */
  function Validate(attrs: DebtAttrs, today: Date): (r: Result<DebtAttrs>)
    ensures r.Ok? <==> attrs.totalAmount >= 0 && (attrs.dueDate.None? || attrs.dueDate.value > today)
    ensures r.Ok? ==> r.value == attrs
    ensures attrs.totalAmount < 0 ==> r == Err(ValidationError(NegativeDebtMessage))
    ensures attrs.totalAmount >= 0 && r.Err? ==> r == Err(ValidationError(DueDateMessage))
  {
    if attrs.totalAmount < 0 then Err(ValidationError(NegativeDebtMessage))
    else if attrs.dueDate.Some? && attrs.dueDate.value <= today then Err(ValidationError(DueDateMessage))
    else Ok(attrs)
  }

  /**
   * The default due date would itself pass the check a supplied date must
   * pass, even though the two read different clocks, as long as the local
   * and the time-zone-aware dates are at most a day apart.
   */
  lemma DefaultDueDatePasses(attrs: DebtAttrs, today: Date, utcToday: Date)
    requires attrs.totalAmount >= 0
    requires today - 1 <= utcToday <= today + 1
    ensures Validate(attrs.(dueDate := Some(DefaultDueDate(utcToday))), today).Ok?
  {
  }

  /**
   * Whether the `client` field's queryset holds this client. Without a
   * request the queryset is empty; with one it holds the clients whose
   * company equals the caller's, which for a caller with no company means
   * the clients that have none either.
   */
  predicate MaySelect(request: Option<Requester>, c: ClientRow)
  {
    request.Some? && c.company == request.value.company
  }

  /** The clients a debt may name. */
  function SelectableClients(request: Option<Requester>, clients: seq<ClientRow>): (r: seq<ClientRow>)
    ensures forall c :: c in r <==> request.Some? && c in clients && c.company == request.value.company
  {
    Filter(clients, (c: ClientRow) => MaySelect(request, c))
  }

  /**
   * Field validation, then `validate`, then creation. The client the request
   * names must lie in the `client` field's queryset, or the request is
   * refused before `validate` runs; the debt gets the supplied due date or
   * the default one, and its save hook charges the client. A rejected
   * request changes nothing. Validation reads the server's local date
   * (`today`), the default due date the time-zone-aware one (`utcToday`).
   */
  method Create(attrs: DebtAttrs, client: Client, request: Option<Requester>, today: Date, utcToday: Date, store: Store)
    returns (r: Result<Debt>)
    requires client.id == attrs.client
    modifies client, store
    ensures !MaySelect(request, client.Row()) ==> r == Err(ValidationError(InvalidPkMessage)) && unchanged(client, store)
    ensures MaySelect(request, client.Row()) && Validate(attrs, today).Err? ==>
      r == Err(Validate(attrs, today).error) && unchanged(client, store)
    ensures MaySelect(request, old(client.Row())) && Validate(attrs, today).Ok? ==>
      r.Ok? && fresh(r.value) && r.value.client == client
    ensures r.Ok? ==>
      && MaySelect(request, old(client.Row()))
      && r.value.Fields() == DebtFields(Some(old(store.lastDebtId) + 1), attrs.totalAmount, attrs.totalAmount,
                                        if attrs.dueDate.Some? then attrs.dueDate.value else DefaultDueDate(utcToday),
                                        attrs.totalAmount == 0)
      && store.lastDebtId == old(store.lastDebtId) + 1
      && client.balanse == old(client.balanse) + attrs.totalAmount
      && store.log == old(store.log) + [SavedClient(client.Row()), SavedDebt(r.value.Row())]
  {
    if !MaySelect(request, client.Row()) {
      return Err(ValidationError(InvalidPkMessage));
    }
    var v := Validate(attrs, today);
    if v.Err? {
      return Err(v.error);
    }
    var due := if attrs.dueDate.Some? then attrs.dueDate.value else DefaultDueDate(utcToday);
    var d := new Debt(client, attrs.totalAmount, due);
    d.Save(store);
    r := Ok(d);
  }

  /** The payment serializer of this app: stamps the requesting user whenever there is a request, then creates. */
  method PaymentCreate(data: PaymentData, request: Option<Requester>, id: PaymentId, store: Store) returns (r: Result<Payment>)
    requires data.debt.id.Some?
    modifies data, data.debt, data.debt.client, store
    ensures data.user == if request.Some? then Some(request.value.user) else old(data.user)
    ensures var e := PaymentEffect(old(data.debt.Fields()), old(data.debt.client.balanse), data.amount);
      if e.Ok? then
        && r.Ok? && fresh(r.value)
        && r.value.user == data.user && r.value.debt == data.debt && r.value.amount == data.amount && r.value.id == id
        && (data.debt.Fields(), data.debt.client.balanse) == e.value
        && store.log == old(store.log) + [SavedPayment(r.value.Row()), SavedDebt(data.debt.Row()), SavedClient(data.debt.client.Row())]
        && store.lastDebtId == old(store.lastDebtId)
      else
        && r == Err(e.error)
        && unchanged(data.debt, data.debt.client, store)
  {
    if request.Some? {
      data.user := Some(request.value.user);
    }
    r := CreatePayment(id, data.debt, data.amount, data.user, store);
  }
}
