/**
 * The rows the backend writes and the database that receives them.
 * The database is modelled as an append-only log of row writes, which is
 * enough to state what each save persists and in which order, plus the
 * counter behind the debts table's auto-increment primary key.
 */
module Persistence {
  import opened Common

  datatype ClientRow = ClientRow(id: ClientId, name: string, phone: string, balanse: Cents, company: Option<CompanyId>)

  datatype DebtRow = DebtRow(id: DebtId, client: ClientId, totalAmount: Cents, remainingAmount: Cents, dueDate: Date, isPaid: bool)

  datatype PaymentRow = PaymentRow(id: PaymentId, debt: DebtId, amount: Cents, user: Option<UserId>)

  /** One row write, as issued by a model's save. */
  datatype Saved = SavedClient(client: ClientRow) | SavedDebt(debt: DebtRow) | SavedPayment(payment: PaymentRow)

  /** A snapshot of the three tables, as the views query them (in storage order). */
  datatype Tables = Tables(clients: seq<ClientRow>, debts: seq<DebtRow>, payments: seq<PaymentRow>)

  class Store {
    var log: seq<Saved>
    var lastDebtId: nat

    constructor ()
      ensures log == [] && lastDebtId == 0
    {
      log := [];
      lastDebtId := 0;
    }

    /** Writes one row. */
    method Write(s: Saved)
      modifies this
      ensures log == old(log) + [s]
      ensures lastDebtId == old(lastDebtId)
    {
      log := log + [s];
    }

    /** Draws the next value of the debts table's auto-increment key. */
    method NextDebtId() returns (id: DebtId)
      modifies this
      ensures id == old(lastDebtId) + 1 && lastDebtId == id
      ensures log == old(log)
    {
      lastDebtId := lastDebtId + 1;
      id := lastDebtId;
    }
  }
}
