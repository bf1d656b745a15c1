/**
 * The clients app's serializers: client creation bound to the caller's
 * company, and the nested debt serializer's validation.
 */
module ClientSerializers {
  import opened Common
  import opened Persistence
  import opened ClientModels
  import DebtSerializers

  /**
   * The validated fields of a client request. Every model field is writable
   * except `created_at`, so `balanse` may be sent; absent, it takes the
   * field default. `company` is overwritten by `Create`.
   */
  class ClientData {
    const name: string
    const phone: string
    const balanse: Option<Cents>
    var company: Option<CompanyId>

    constructor (name: string, phone: string, balanse: Option<Cents>, company: Option<CompanyId>)
      ensures this.name == name && this.phone == phone && this.balanse == balanse && this.company == company
    {
      this.name := name;
      this.phone := phone;
      this.balanse := balanse;
      this.company := company;
    }
  }

  /** The opening balanse a client is created with: the one sent, or the field default zero. */
  function OpeningBalanse(sent: Option<Cents>): (b: Cents)
    ensures sent.None? ==> b == 0
    ensures sent.Some? ==> b == sent.value
  {
    if sent.Some? then sent.value else 0
  }

  /**
   * Refuses a caller without a company; otherwise replaces whatever company
   * the request carried by the caller's and inserts the new client with the
   * balanse sent (zero when none was), which the uniqueness constraints may
   * still refuse. A balanse sent here is not backed by any debt.
   */
  method Create(data: ClientData, request: Requester, id: ClientId, rows: seq<ClientRow>)
    returns (r: Result<Client>, table: seq<ClientRow>)
    modifies data
    ensures request.company.None? ==> r == Err(ValidationError(NoCompanyMessage)) && table == rows && unchanged(data)
    ensures request.company.Some? ==> data.company == request.company
    ensures request.company.Some? ==>
      var row := ClientRow(id, data.name, data.phone, OpeningBalanse(data.balanse), request.company);
      && (Insert(rows, row).Ok? ==> r.Ok? && fresh(r.value) && r.value.Row() == row && table == rows + [row])
      && (Insert(rows, row).Err? ==> r == Err(Insert(rows, row).error) && table == rows)
  {
    if request.company.None? {
      return Err(ValidationError(NoCompanyMessage)), rows;
    }
    data.company := request.company;
    var client := new Client(id, data.name, data.phone, OpeningBalanse(data.balanse), data.company);
    var inserted := Insert(rows, client.Row());
    if inserted.Ok? {
      r, table := Ok(client), inserted.value;
    } else {
      r, table := Err(inserted.error), rows;
    }
  }

  /** The nested debt serializer only rejects a negative total; valid attributes come back unchanged. */
  function ValidateDebt(attrs: DebtSerializers.DebtAttrs): (r: Result<DebtSerializers.DebtAttrs>)
    ensures r.Ok? <==> attrs.totalAmount >= 0
    ensures r.Ok? ==> r.value == attrs
    ensures r.Err? ==> r.error == ValidationError(NegativeDebtMessage)
  {
    if attrs.totalAmount < 0 then Err(ValidationError(NegativeDebtMessage)) else Ok(attrs)
  }

  /** The debts app's validation is the stricter of the two: it adds the due-date check. */
  lemma DebtsValidationIsStricter(attrs: DebtSerializers.DebtAttrs, today: Date)
    ensures DebtSerializers.Validate(attrs, today).Ok? ==> ValidateDebt(attrs).Ok?
    ensures attrs.dueDate.None? ==> DebtSerializers.Validate(attrs, today) == ValidateDebt(attrs)
  {
  }
}
