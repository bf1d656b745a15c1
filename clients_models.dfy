/**
 * The client record: its mutable `balanse` (the backend's own spelling),
 * and the two uniqueness constraints scoped by company.
 */
module ClientModels {
  import opened Common
  import opened Persistence

  class Client {
    const id: ClientId
    const name: string
    const phone: string
    const company: Option<CompanyId>
    /** Aggregate outstanding debt, updated in place by debt and payment saves. */
    var balanse: Cents

    /** A new client with the given opening `balanse`; the field's default is zero. */
    constructor (id: ClientId, name: string, phone: string, balanse: Cents, company: Option<CompanyId>)
      ensures this.id == id && this.name == name && this.phone == phone && this.company == company
      ensures this.balanse == balanse
    {
      this.id := id;
      this.name := name;
      this.phone := phone;
      this.company := company;
      this.balanse := balanse;
    }

    function Row(): (row: ClientRow)
      reads this
    {
      ClientRow(id, name, phone, balanse, company)
    }
  }

  /** The stored client with this primary key. */
  function FindClient(clients: seq<ClientRow>, id: ClientId): (r: Option<ClientRow>)
    ensures r.Some? ==> r.value in clients && r.value.id == id
    ensures r.None? <==> forall c :: c in clients ==> c.id != id
  {
    if clients == [] then None
    else if clients[0].id == id then Some(clients[0])
    else FindClient(clients[1..], id)
  }

  /**
   * Two rows violate a constraint when they share a company and a name, or
   * a company and a phone. A row without a company never clashes: the
   * database treats NULLs as distinct in a unique constraint.
   */
  predicate Clash(a: ClientRow, b: ClientRow)
  {
    a.company.Some? && a.company == b.company && (a.name == b.name || a.phone == b.phone)
  }

  /** Both constraints, `unique_client_name_per_company` and `unique_client_phone_per_company`, hold. */
  predicate UniquePerCompany(rows: seq<ClientRow>)
  {
    forall i, j :: 0 <= i < j < |rows| ==> !Clash(rows[i], rows[j])
  }

  /** Inserts a client row, failing as the database does when a constraint would be violated. */
  function Insert(rows: seq<ClientRow>, row: ClientRow): (r: Result<seq<ClientRow>>)
    ensures r.Ok? <==> forall c :: c in rows ==> !Clash(c, row)
    ensures r.Ok? ==> r.value == rows + [row]
    ensures r.Err? ==> r.error.IntegrityError?
  {
    if exists c :: c in rows && Clash(c, row) then
      Err(IntegrityError(if exists c :: c in rows && c.company == row.company && c.name == row.name
                         then "unique_client_name_per_company" else "unique_client_phone_per_company"))
    else Ok(rows + [row])
  }

  /** Inserting through `Insert` keeps both constraints. */
  lemma InsertKeepsUnique(rows: seq<ClientRow>, row: ClientRow)
    requires UniquePerCompany(rows)
    requires Insert(rows, row).Ok?
    ensures UniquePerCompany(Insert(rows, row).value)
  {
    var r := Insert(rows, row).value;
    forall i, j | 0 <= i < j < |r| ensures !Clash(r[i], r[j]) {
      if j == |rows| {
        assert r[i] in rows;
        assert !Clash(r[i], row);
      }
    }
  }

  /** Under the constraints, two distinct clients of one company differ in name and in phone. */
  lemma UniqueMeansDistinct(rows: seq<ClientRow>, i: nat, j: nat)
    requires UniquePerCompany(rows)
    requires i < |rows| && j < |rows| && i != j
    requires rows[i].company.Some? && rows[i].company == rows[j].company
    ensures rows[i].name != rows[j].name && rows[i].phone != rows[j].phone
  {
    if i < j { assert !Clash(rows[i], rows[j]); } else { assert !Clash(rows[j], rows[i]); }
  }

  /** The constraints are per company: clients of different companies may share name and phone. */
  lemma OtherCompanyMayShare(rows: seq<ClientRow>, row: ClientRow)
    requires forall c :: c in rows ==> c.company != row.company
    ensures Insert(rows, row).Ok?
  {
  }
}
