/**
 * A caller of the object-level operations: what can be concluded from their
 * contracts alone when one debt is opened, paid off in two payments, and
 * then overpaid, and a debt for another company's client is refused.
 */
module Scenario {
  import opened Common
  import opened Persistence
  import opened ClientModels
  import opened PaymentModels
  import opened PaymentRequests
  import DebtSerializers
  import PaymentViews

  method PayOffOneDebt()
  {
    var store := new Store();
    var client := new Client(1, "Client", "+998900000000", 0, Some(7));
    var caller := Requester(5, Some(7));

    var created := DebtSerializers.Create(DebtSerializers.DebtAttrs(1, 10000, None), client, Some(caller), 0, 0, store);
    assert created.Ok?;
    var debt := created.value;
    assert client.balanse == 10000 && debt.remainingAmount == 10000 && !debt.isPaid;
    assert debt.dueDate == 30;

    var first := new PaymentData(debt, 4000);
    var p1 := PaymentViews.PerformCreate(first, caller, 100, store);
    assert p1.Ok? && p1.value.user == Some(5);
    assert debt.remainingAmount == 6000 && client.balanse == 6000 && !debt.isPaid;

    var second := new PaymentData(debt, 6000);
    var p2 := PaymentViews.PerformCreate(second, caller, 101, store);
    assert p2.Ok?;
    assert debt.remainingAmount == 0 && client.balanse == 0 && debt.isPaid;

    var log := store.log;
    var third := new PaymentData(debt, 1000);
    var p3 := PaymentViews.PerformCreate(third, caller, 102, store);
    assert p3.Err?;
    assert debt.remainingAmount == 0 && client.balanse == 0 && debt.isPaid && store.log == log;

    var foreign := new Client(2, "Other", "+998900000001", 0, Some(8));
    var refused := DebtSerializers.Create(DebtSerializers.DebtAttrs(2, 5000, None), foreign, Some(caller), 0, 0, store);
    assert refused == Err(ValidationError(InvalidPkMessage));
    assert foreign.balanse == 0 && store.log == log;
  }
}
