/**
 * One client's books over time: the balanse, the client's debts in creation
 * order and the payments applied to them. Each operation of `Op` goes
 * through the same validation and save hooks as a create request does; the
 * lemmas state what stays true across any sequence of them. The detail
 * views' updates and deletions are modelled apart, at the end, with what
 * each of them breaks.
 */
module Ledger {
  import opened Common
  import opened DebtModels
  import opened PaymentModels
  import DebtSerializers

  /** A payment as recorded: the index of the debt it paid, and its amount. */
  datatype Applied = Applied(debt: nat, amount: Cents)

  datatype Account = Account(balanse: Cents, debts: seq<DebtFields>, payments: seq<Applied>)

  /** A request against the client's books. */
  datatype Op =
    /** `today` is the server's local date, which validation reads; `utcToday` the time-zone-aware date the default due date counts from. */
    | NewDebt(totalAmount: Cents, dueDate: Option<Date>, today: Date, utcToday: Date)
    | Pay(debt: nat, amount: Cents)
    | Resave(debt: nat)

  /** A freshly created client that was sent no balanse: zero balanse, no debts, no payments. */
  const Opened := Account(0, [], [])

  function SumRemaining(ds: seq<DebtFields>): (total: Cents)
  {
    if ds == [] then 0 else SumRemaining(ds[..|ds| - 1]) + ds[|ds| - 1].remainingAmount
  }

  /** The total of the payments applied to debt `k`. */
  function PaidTo(ps: seq<Applied>, k: nat): (paid: Cents)
  {
    if ps == [] then 0
    else PaidTo(ps[..|ps| - 1], k) + (if ps[|ps| - 1].debt == k then ps[|ps| - 1].amount else 0)
  }

  /**
   * The invariants the save hooks keep: the balanse is what remains owed,
   * every debt is stored, nothing remaining means paid, and what has been
   * paid on a debt is its total less what remains.
   */
  predicate Consistent(a: Account)
  {
    && a.balanse == SumRemaining(a.debts)
    && (forall k :: 0 <= k < |a.debts| ==>
          && a.debts[k].id.Some?
          && a.debts[k].remainingAmount >= 0
          && (a.debts[k].remainingAmount == 0 ==> a.debts[k].isPaid)
          && a.debts[k].totalAmount - a.debts[k].remainingAmount == PaidTo(a.payments, k))
    && (forall i :: 0 <= i < |a.payments| ==> a.payments[i].debt < |a.debts|)
  }

  /** Every recorded payment was of a non-negative amount; the save hook does not check this. */
  predicate PaymentsNonNegative(a: Account)
  {
    forall i :: 0 <= i < |a.payments| ==> a.payments[i].amount >= 0
  }

  /** The paid flag is set exactly when nothing remains. */
  predicate PaidFlagExact(a: Account)
  {
    forall k :: 0 <= k < |a.debts| ==> (a.debts[k].isPaid <==> a.debts[k].remainingAmount == 0)
  }

  /** One operation; an error leaves the books as they were. */
  function Step(a: Account, op: Op): (r: Result<Account>)
  {
    match op
    case NewDebt(total, due, today, utcToday) =>
      var v := DebtSerializers.Validate(DebtSerializers.DebtAttrs(0, total, due), today);
      if v.Err? then Err(v.error)
      else
        var created := DebtFields(None, total, 0, if due.Some? then due.value else DefaultDueDate(utcToday), false);
        var (d, b) := SaveEffect(created, a.balanse);
        Ok(Account(b, a.debts + [d.(id := Some(|a.debts| + 1))], a.payments))
    case Pay(k, amount) =>
      if k >= |a.debts| || a.debts[k].id.None? then Err(NotFound)
      else
        var e := PaymentEffect(a.debts[k], a.balanse, amount);
        if e.Err? then Err(e.error)
        else Ok(Account(e.value.1, a.debts[k := e.value.0], a.payments + [Applied(k, amount)]))
    case Resave(k) =>
      if k >= |a.debts| || a.debts[k].id.None? then Err(NotFound)
      else
        var (d, b) := SaveEffect(a.debts[k], a.balanse);
        Ok(Account(b, a.debts[k := d], a.payments))
  }

  function Run(a: Account, ops: seq<Op>): (b: Account)
    decreases |ops|
  {
    if ops == [] then a
    else
      var r := Step(a, ops[0]);
      Run(if r.Ok? then r.value else a, ops[1..])
  }

  lemma {:induction false} SumRemainingAppend(ds: seq<DebtFields>, d: DebtFields)
    ensures SumRemaining(ds + [d]) == SumRemaining(ds) + d.remainingAmount
  {
    assert (ds + [d])[..|ds|] == ds;
  }

  lemma {:induction false} SumRemainingUpdate(ds: seq<DebtFields>, k: nat, d: DebtFields)
    requires k < |ds|
    ensures SumRemaining(ds[k := d]) == SumRemaining(ds) - ds[k].remainingAmount + d.remainingAmount
  {
    var n := |ds| - 1;
    if k == n {
      assert ds[k := d][..n] == ds[..n];
    } else {
      SumRemainingUpdate(ds[..n], k, d);
      assert ds[k := d][..n] == ds[..n][k := d];
    }
  }

  lemma {:induction false} PaidToAppend(ps: seq<Applied>, x: Applied, k: nat)
    ensures PaidTo(ps + [x], k) == PaidTo(ps, k) + (if x.debt == k then x.amount else 0)
  {
    assert (ps + [x])[..|ps|] == ps;
  }

  /** No payment is recorded against a debt index beyond the recorded ones. */
  lemma {:induction false} PaidToUnused(ps: seq<Applied>, k: nat)
    requires forall i :: 0 <= i < |ps| ==> ps[i].debt != k
    ensures PaidTo(ps, k) == 0
  {
    if ps != [] {
      PaidToUnused(ps[..|ps| - 1], k);
    }
  }

  lemma {:induction false} PaidToNonNegative(ps: seq<Applied>, k: nat)
    requires forall i :: 0 <= i < |ps| ==> ps[i].amount >= 0
    ensures PaidTo(ps, k) >= 0
  {
    if ps != [] {
      PaidToNonNegative(ps[..|ps| - 1], k);
    }
  }

  lemma NewDebtKeepsConsistent(a: Account, total: Cents, due: Option<Date>, today: Date, utcToday: Date)
    requires Consistent(a)
    requires Step(a, NewDebt(total, due, today, utcToday)).Ok?
    ensures Consistent(Step(a, NewDebt(total, due, today, utcToday)).value)
  {
    var a' := Step(a, NewDebt(total, due, today, utcToday)).value;
    var n := |a.debts|;
    assert a'.debts == a.debts + [a'.debts[n]] && a'.payments == a.payments;
    assert a'.debts[n].remainingAmount == total && a'.balanse == a.balanse + total;
    SumRemainingAppend(a.debts, a'.debts[n]);
    PaidToUnused(a.payments, n);
  }

  lemma PayKeepsConsistent(a: Account, k: nat, amount: Cents)
    requires Consistent(a)
    requires Step(a, Pay(k, amount)).Ok?
    ensures Consistent(Step(a, Pay(k, amount)).value)
  {
    var a' := Step(a, Pay(k, amount)).value;
    var d := a'.debts[k];
    assert a'.debts == a.debts[k := d] && a'.payments == a.payments + [Applied(k, amount)];
    assert d.remainingAmount == a.debts[k].remainingAmount - amount && a'.balanse == a.balanse - amount;
    SumRemainingUpdate(a.debts, k, d);
    forall j | 0 <= j < |a'.debts|
      ensures a'.debts[j].totalAmount - a'.debts[j].remainingAmount == PaidTo(a'.payments, j)
    {
      PaidToAppend(a.payments, Applied(k, amount), j);
    }
  }

  lemma ResaveKeepsConsistent(a: Account, k: nat)
    requires Consistent(a)
    requires Step(a, Resave(k)).Ok?
    ensures Consistent(Step(a, Resave(k)).value)
  {
    var a' := Step(a, Resave(k)).value;
    assert a'.debts == a.debts[k := a'.debts[k]] && a'.balanse == a.balanse;
    SumRemainingUpdate(a.debts, k, a'.debts[k]);
  }

  /** Every successful operation keeps the books consistent. */
  lemma StepKeepsConsistent(a: Account, op: Op)
    requires Consistent(a)
    requires Step(a, op).Ok?
    ensures Consistent(Step(a, op).value)
  {
    match op
    case NewDebt(total, due, today, utcToday) => NewDebtKeepsConsistent(a, total, due, today, utcToday);
    case Pay(k, amount) => PayKeepsConsistent(a, k, amount);
    case Resave(k) => ResaveKeepsConsistent(a, k);
  }

  /** Balance invariant: after any sequence of requests the client's balanse is the sum of what remains on its debts. */
  lemma {:induction false} RunKeepsConsistent(a: Account, ops: seq<Op>)
    requires Consistent(a)
    ensures Consistent(Run(a, ops))
    ensures Run(a, ops).balanse == SumRemaining(Run(a, ops).debts)
    decreases |ops|
  {
    if ops != [] {
      var r := Step(a, ops[0]);
      if r.Ok? {
        StepKeepsConsistent(a, ops[0]);
      }
      RunKeepsConsistent(if r.Ok? then r.value else a, ops[1..]);
    }
  }

  /** From a newly created client, the books stay consistent whatever is requested. */
  lemma FromOpenedConsistent(ops: seq<Op>)
    ensures Consistent(Run(Opened, ops))
  {
    RunKeepsConsistent(Opened, ops);
  }

  /** How far the balanse stands above what remains owed; a client created with a balanse starts with that gap. */
  function Gap(a: Account): (g: Cents)
  {
    a.balanse - SumRemaining(a.debts)
  }

  /** Every successful operation moves the balanse and what remains owed by the same amount. */
  lemma StepKeepsGap(a: Account, op: Op)
    requires Step(a, op).Ok?
    ensures Gap(Step(a, op).value) == Gap(a)
  {
    var a' := Step(a, op).value;
    match op
    case NewDebt(total, due, today, utcToday) =>
      var n := |a.debts|;
      assert a'.debts == a.debts + [a'.debts[n]];
      SumRemainingAppend(a.debts, a'.debts[n]);
    case Pay(k, amount) =>
      SumRemainingUpdate(a.debts, k, a'.debts[k]);
    case Resave(k) =>
      SumRemainingUpdate(a.debts, k, a'.debts[k]);
  }

  /**
   * The form of the balance invariant that holds from any starting point,
   * including a client created with a balanse not backed by debts: requests
   * never change the gap between the balanse and what remains owed.
   */
  lemma {:induction false} RunKeepsGap(a: Account, ops: seq<Op>)
    ensures Gap(Run(a, ops)) == Gap(a)
    decreases |ops|
  {
    if ops != [] {
      var r := Step(a, ops[0]);
      if r.Ok? {
        StepKeepsGap(a, ops[0]);
      }
      RunKeepsGap(if r.Ok? then r.value else a, ops[1..]);
    }
  }

  /** A client created with an opening balanse is never consistent unless that balanse is zero, whatever follows. */
  lemma CreatedWithBalanse(b: Cents, ops: seq<Op>)
    ensures Run(Account(b, [], []), ops).balanse == b + SumRemaining(Run(Account(b, [], []), ops).debts)
    ensures b != 0 ==> !Consistent(Run(Account(b, [], []), ops))
  {
    RunKeepsGap(Account(b, [], []), ops);
  }

  /** With non-negative payments only, every debt stays within zero and its total. */
  lemma RemainingWithinTotal(a: Account, k: nat)
    requires Consistent(a) && PaymentsNonNegative(a)
    requires k < |a.debts|
    ensures 0 <= a.debts[k].remainingAmount <= a.debts[k].totalAmount
  {
    PaidToNonNegative(a.payments, k);
  }

  /**
   * With a non-negative amount, a successful operation keeps the paid flag
   * exact: a debt is paid exactly when nothing remains on it.
   */
  lemma StepKeepsPaidFlagExact(a: Account, op: Op)
    requires Consistent(a) && PaidFlagExact(a)
    requires op.Pay? ==> op.amount >= 0
    requires Step(a, op).Ok?
    ensures PaidFlagExact(Step(a, op).value)
    ensures PaymentsNonNegative(a) ==> PaymentsNonNegative(Step(a, op).value)
  {
  }

  /** Whether every payment request in `ops` is of a non-negative amount. */
  predicate NonNegativeRequests(ops: seq<Op>)
  {
    forall i :: 0 <= i < |ops| ==> ops[i].Pay? ==> ops[i].amount >= 0
  }

  /**
   * Spelled out for a whole sequence of requests: as long as no payment is
   * negative, every debt stays within zero and its total and is marked paid
   * exactly when nothing remains on it.
   */
  lemma {:induction false} RunKeepsSettled(a: Account, ops: seq<Op>)
    requires Consistent(a) && PaidFlagExact(a) && PaymentsNonNegative(a)
    requires NonNegativeRequests(ops)
    ensures Consistent(Run(a, ops)) && PaidFlagExact(Run(a, ops)) && PaymentsNonNegative(Run(a, ops))
    ensures forall k :: 0 <= k < |Run(a, ops).debts| ==>
      0 <= Run(a, ops).debts[k].remainingAmount <= Run(a, ops).debts[k].totalAmount
    decreases |ops|
  {
    if ops != [] {
      var r := Step(a, ops[0]);
      if r.Ok? {
        StepKeepsConsistent(a, ops[0]);
        StepKeepsPaidFlagExact(a, ops[0]);
      }
      assert NonNegativeRequests(ops[1..]) by {
        forall i | 0 <= i < |ops[1..]| ensures ops[1..][i].Pay? ==> ops[1..][i].amount >= 0 {
          assert ops[1..][i] == ops[i + 1];
        }
      }
      RunKeepsSettled(if r.Ok? then r.value else a, ops[1..]);
    } else {
      forall k | 0 <= k < |a.debts| ensures 0 <= a.debts[k].remainingAmount <= a.debts[k].totalAmount {
        RemainingWithinTotal(a, k);
      }
    }
  }

  /** Overdraw is rejected with the source's message, and the books stay as they were. */
  lemma OverdrawRejected(a: Account, k: nat, amount: Cents)
    requires Consistent(a)
    requires k < |a.debts| && amount > a.debts[k].remainingAmount
    ensures Step(a, Pay(k, amount)) == Err(ValueError(PaymentExceedsMessage))
    ensures Run(a, [Pay(k, amount)]) == a
  {
  }

  /** A negative total is refused by validation before anything is saved. */
  lemma NegativeDebtRejected(a: Account, total: Cents, due: Option<Date>, today: Date, utcToday: Date)
    requires total < 0
    ensures Step(a, NewDebt(total, due, today, utcToday)) == Err(ValidationError(NegativeDebtMessage))
    ensures Run(a, [NewDebt(total, due, today, utcToday)]) == a
  {
  }

  /** Re-saving a stored debt changes neither the balanse nor the remaining amount. */
  lemma ResaveKeepsBalanse(a: Account, k: nat)
    requires Consistent(a) && k < |a.debts|
    ensures Step(a, Resave(k)).Ok?
    ensures Step(a, Resave(k)).value.balanse == a.balanse
    ensures Step(a, Resave(k)).value.debts[k].remainingAmount == a.debts[k].remainingAmount
  {
  }

  /**
   * The save hook does not check the sign of a payment: a negative payment on
   * a settled debt makes something remain again while the debt stays marked paid.
   */
  lemma NegativePaymentReopensPaidDebt(a: Account, k: nat)
    requires Consistent(a) && k < |a.debts|
    requires a.debts[k].remainingAmount == 0
    ensures Step(a, Pay(k, -1000)).Ok?
    ensures Step(a, Pay(k, -1000)).value.debts[k].remainingAmount == 1000
    ensures Step(a, Pay(k, -1000)).value.debts[k].isPaid
    ensures !PaidFlagExact(Step(a, Pay(k, -1000)).value)
  {
  }

  /** A debt of 100.00, paid 40.00 and then 60.00; a further 10.00 is refused. */
  lemma PaymentScenario()
    ensures var a1 := Step(Opened, NewDebt(10000, None, 0, 0)).value;
      && a1.balanse == 10000 && a1.debts[0].remainingAmount == 10000 && !a1.debts[0].isPaid
      && var a2 := Step(a1, Pay(0, 4000)).value;
      && a2.balanse == 6000 && a2.debts[0].remainingAmount == 6000 && !a2.debts[0].isPaid
      && var a3 := Step(a2, Pay(0, 6000)).value;
      && a3.balanse == 0 && a3.debts[0].remainingAmount == 0 && a3.debts[0].isPaid
      && Step(a3, Pay(0, 1000)) == Err(ValueError(PaymentExceedsMessage))
  {
  }

  // The detail views. Updating or deleting a debt or a payment goes through
  // no hook that adjusts the balanse or the other record, so none of these
  // paths keeps `Consistent`; each lemma below names what breaks.

  lemma {:induction false} SumRemainingConcat(p: seq<DebtFields>, q: seq<DebtFields>)
    ensures SumRemaining(p + q) == SumRemaining(p) + SumRemaining(q)
    decreases |q|
  {
    if q != [] {
      var q' := q[..|q| - 1];
      assert (p + q)[..|p + q| - 1] == p + q';
      SumRemainingConcat(p, q');
    } else {
      assert p + q == p;
    }
  }

  lemma {:induction false} PaidToConcat(p: seq<Applied>, q: seq<Applied>, k: nat)
    ensures PaidTo(p + q, k) == PaidTo(p, k) + PaidTo(q, k)
    decreases |q|
  {
    if q != [] {
      var q' := q[..|q| - 1];
      assert (p + q)[..|p + q| - 1] == p + q';
      PaidToConcat(p, q', k);
    } else {
      assert p + q == p;
    }
  }

  /** The payments to `k` counted around position `i`. */
  lemma PaidToSplit(ps: seq<Applied>, i: nat, k: nat)
    requires i < |ps|
    ensures PaidTo(ps, k) == PaidTo(ps[..i], k) + (if ps[i].debt == k then ps[i].amount else 0) + PaidTo(ps[i + 1..], k)
  {
    assert ps == ps[..i] + [ps[i]] + ps[i + 1..];
    PaidToConcat(ps[..i] + [ps[i]], ps[i + 1..], k);
    PaidToAppend(ps[..i], ps[i], k);
  }

  /**
   * A full update of debt `k` through the detail view: validation as on
   * creation, then the new total (and the due date, when one is sent) saved
   * through the hook, which on a stored debt leaves the remaining amount
   * and the balanse alone.
   */
  function UpdateDebt(a: Account, k: nat, total: Cents, due: Option<Date>, today: Date): (r: Result<Account>)
  {
    if k >= |a.debts| || a.debts[k].id.None? then Err(NotFound)
    else
      var v := DebtSerializers.Validate(DebtSerializers.DebtAttrs(0, total, due), today);
      if v.Err? then Err(v.error)
      else
        var edited := a.debts[k].(totalAmount := total, dueDate := if due.Some? then due.value else a.debts[k].dueDate);
        var (d, b) := SaveEffect(edited, a.balanse);
        Ok(Account(b, a.debts[k := d], a.payments))
  }

  /** Changing a debt's total keeps the balanse but no longer matches total less remaining to what was paid. */
  lemma UpdateDebtBreaksPaidTotal(a: Account, k: nat, total: Cents, due: Option<Date>, today: Date)
    requires Consistent(a)
    requires UpdateDebt(a, k, total, due, today).Ok?
    ensures Gap(UpdateDebt(a, k, total, due, today).value) == Gap(a)
    ensures UpdateDebt(a, k, total, due, today).value.debts[k].remainingAmount == a.debts[k].remainingAmount
    ensures total != a.debts[k].totalAmount ==> !Consistent(UpdateDebt(a, k, total, due, today).value)
  {
    var a' := UpdateDebt(a, k, total, due, today).value;
    SumRemainingUpdate(a.debts, k, a'.debts[k]);
    assert a'.payments == a.payments && a'.debts[k].totalAmount == total;
  }

  /** The payments left when debt `k` is deleted: its own go with it, and later debts move down one place. */
  function Cascade(ps: seq<Applied>, k: nat): (r: seq<Applied>)
    ensures |r| <= |ps|
  {
    if ps == [] then []
    else
      var x := ps[|ps| - 1];
      var rest := Cascade(ps[..|ps| - 1], k);
      if x.debt == k then rest
      else if x.debt > k then rest + [Applied(x.debt - 1, x.amount)]
      else rest + [x]
  }

  /** Every other debt keeps what was paid on it, under its new position. */
  lemma {:induction false} CascadeKeepsPaid(ps: seq<Applied>, k: nat, j: nat)
    ensures PaidTo(Cascade(ps, k), j) == PaidTo(ps, if j < k then j else j + 1)
    decreases |ps|
  {
    if ps != [] {
      var x := ps[|ps| - 1];
      var rest := Cascade(ps[..|ps| - 1], k);
      CascadeKeepsPaid(ps[..|ps| - 1], k, j);
      if x.debt > k {
        PaidToAppend(rest, Applied(x.debt - 1, x.amount), j);
      } else if x.debt < k {
        PaidToAppend(rest, x, j);
      }
    }
  }

  /** Deleting debt `k` through the detail view: the debt and its payments go, the balanse stays. */
  function DeleteDebt(a: Account, k: nat): (r: Result<Account>)
  {
    if k >= |a.debts| then Err(NotFound)
    else Ok(Account(a.balanse, a.debts[..k] + a.debts[k + 1..], Cascade(a.payments, k)))
  }

  /** Deleting a debt with something remaining on it leaves that amount in the balanse with no debt behind it. */
  lemma DeleteDebtStrandsBalanse(a: Account, k: nat)
    requires DeleteDebt(a, k).Ok?
    ensures DeleteDebt(a, k).value.balanse == a.balanse
    ensures Gap(DeleteDebt(a, k).value) == Gap(a) + a.debts[k].remainingAmount
    ensures Consistent(a) && a.debts[k].remainingAmount != 0 ==> !Consistent(DeleteDebt(a, k).value)
  {
    var ds := a.debts;
    assert ds == ds[..k] + [ds[k]] + ds[k + 1..];
    SumRemainingConcat(ds[..k] + [ds[k]], ds[k + 1..]);
    SumRemainingAppend(ds[..k], ds[k]);
    SumRemainingConcat(ds[..k], ds[k + 1..]);
  }

  /**
   * A full update of payment `i` through the detail view: the save hook
   * runs again and takes the (new) amount off the debt and the balanse a
   * second time, while the payment record is replaced rather than added.
   */
  function UpdatePayment(a: Account, i: nat, amount: Cents): (r: Result<Account>)
  {
    if i >= |a.payments| || a.payments[i].debt >= |a.debts| || a.debts[a.payments[i].debt].id.None? then Err(NotFound)
    else
      var k := a.payments[i].debt;
      var e := PaymentEffect(a.debts[k], a.balanse, amount);
      if e.Err? then Err(e.error)
      else Ok(Account(e.value.1, a.debts[k := e.value.0], a.payments[i := Applied(k, amount)]))
  }

  /** Re-saving a payment keeps the balanse equal to what remains, but the debt now counts the old amount as paid twice over. */
  lemma UpdatePaymentChargesAgain(a: Account, i: nat, amount: Cents)
    requires Consistent(a)
    requires UpdatePayment(a, i, amount).Ok?
    ensures Gap(UpdatePayment(a, i, amount).value) == Gap(a)
    ensures a.payments[i].amount != 0 ==> !Consistent(UpdatePayment(a, i, amount).value)
  {
    var a' := UpdatePayment(a, i, amount).value;
    var k := a.payments[i].debt;
    SumRemainingUpdate(a.debts, k, a'.debts[k]);
    assert a'.payments == a.payments[i := Applied(k, amount)];
    PaidToSplit(a.payments, i, k);
    PaidToSplit(a'.payments, i, k);
    assert a'.payments[..i] == a.payments[..i] && a'.payments[i + 1..] == a.payments[i + 1..];
    assert a'.debts[k].remainingAmount == a.debts[k].remainingAmount - amount;
  }

  /** Deleting payment `i` through the detail view: the record goes, the debt and the balanse stay. */
  function DeletePayment(a: Account, i: nat): (r: Result<Account>)
  {
    if i >= |a.payments| then Err(NotFound)
    else Ok(Account(a.balanse, a.debts, a.payments[..i] + a.payments[i + 1..]))
  }

  /** Deleting a payment restores nothing: the debt still shows the amount as paid, but no payment accounts for it. */
  lemma DeletePaymentLosesPaid(a: Account, i: nat)
    requires Consistent(a)
    requires DeletePayment(a, i).Ok?
    ensures Gap(DeletePayment(a, i).value) == Gap(a)
    ensures a.payments[i].amount != 0 ==> !Consistent(DeletePayment(a, i).value)
  {
    var k := a.payments[i].debt;
    PaidToSplit(a.payments, i, k);
    PaidToConcat(a.payments[..i], a.payments[i + 1..], k);
  }
}
