/**
 * A debt owed by a client. Its save hook initialises the remaining amount
 * and charges the client's balanse on the first save only, and marks the
 * debt paid whenever nothing remains.
 */
module DebtModels {
  import opened Common
  import opened Persistence
  import opened ClientModels

  /** Days between the creation date and the default due date. */
  const DefaultTermDays := 30

  /** The due date a debt gets when none is supplied. */
  function DefaultDueDate(today: Date): (due: Date)
    ensures due > today
    ensures due - today == DefaultTermDays
  {
    today + DefaultTermDays
  }

  /** The debt's own fields; `id` is absent until the first save has written the row. */
  datatype DebtFields = DebtFields(id: Option<DebtId>, totalAmount: Cents, remainingAmount: Cents, dueDate: Date, isPaid: bool)

  /**
   * What one save does to the debt's fields and to its client's balanse,
   * given both before the call.
   */
  function SaveEffect(d: DebtFields, balanse: Cents): (r: (DebtFields, Cents))
    ensures r.0.id == d.id && r.0.totalAmount == d.totalAmount && r.0.dueDate == d.dueDate
    ensures d.id.None? ==> r.0.remainingAmount == d.totalAmount && r.1 == balanse + d.totalAmount
    ensures d.id.Some? ==> r.0.remainingAmount == d.remainingAmount && r.1 == balanse
    ensures r.0.isPaid <==> d.isPaid || r.0.remainingAmount == 0
  {
    var remaining := if d.id.None? then d.totalAmount else d.remainingAmount;
    var balanse' := if d.id.None? then balanse + d.totalAmount else balanse;
    (d.(remainingAmount := remaining, isPaid := d.isPaid || remaining == 0), balanse')
  }

  /** A save leaves balanse minus remaining amount where it was, unless it is the first one. */
  lemma SaveKeepsOutstandingGap(d: DebtFields, balanse: Cents)
    ensures var (d', b') := SaveEffect(d, balanse);
      b' - d'.remainingAmount == if d.id.None? then balanse else balanse - d.remainingAmount
  {
  }

  /** Saving an already stored debt twice is the same as saving it once. */
  lemma ResaveIsIdempotent(d: DebtFields, balanse: Cents)
    requires d.id.Some?
    ensures var once := SaveEffect(d, balanse); SaveEffect(once.0, once.1) == once
  {
  }

  /** A new debt of zero is stored already paid. */
  lemma ZeroDebtIsStoredPaid(d: DebtFields, balanse: Cents)
    requires d.id.None? && d.totalAmount == 0
    ensures SaveEffect(d, balanse).0.isPaid
    ensures SaveEffect(d, balanse).1 == balanse
  {
  }

  class Debt {
    var id: Option<DebtId>
    const client: Client
    var totalAmount: Cents
    var remainingAmount: Cents
    var dueDate: Date
    var isPaid: bool

    /**
     * An unsaved debt. The remaining amount has no value until the first
     * save copies the total into it; zero stands in for that here.
     */
    constructor (client: Client, totalAmount: Cents, dueDate: Date)
      ensures this.client == client
      ensures Fields() == DebtFields(None, totalAmount, 0, dueDate, false)
    {
      this.client := client;
      id := None;
      this.totalAmount := totalAmount;
      remainingAmount := 0;
      this.dueDate := dueDate;
      isPaid := false;
    }

    function Fields(): (fields: DebtFields)
      reads this
    {
      DebtFields(id, totalAmount, remainingAmount, dueDate, isPaid)
    }

    function Row(): (row: DebtRow)
      requires id.Some?
      reads this
    {
      DebtRow(id.value, client.id, totalAmount, remainingAmount, dueDate, isPaid)
    }

    /**
     * The save hook. On the first save the client row is written (with the
     * charged balanse) before the debt row, and the debt receives the next
     * auto-increment id.
     */
    method Save(store: Store)
      modifies this, client, store
      ensures (Fields().(id := old(id)), client.balanse) == SaveEffect(old(Fields()), old(client.balanse))
      ensures id == if old(id).None? then Some(old(store.lastDebtId) + 1) else old(id)
      ensures store.lastDebtId == if old(id).None? then old(store.lastDebtId) + 1 else old(store.lastDebtId)
      ensures store.log == old(store.log) + (if old(id).None? then [SavedClient(client.Row())] else []) + [SavedDebt(Row())]
    {
      var isNew := id.None?;
      if isNew {
        remainingAmount := totalAmount;
        client.balanse := client.balanse + totalAmount;
        store.Write(SavedClient(client.Row()));
      }
      if remainingAmount == 0 {
        isPaid := true;
      }
      if isNew {
        var n := store.NextDebtId();
        id := Some(n);
      }
      store.Write(SavedDebt(Row()));
    }
  }
}
