# Debt and payment bookkeeping, modelled in Dafny

This project models the core of a small Django bookkeeping backend. A company's clients owe debts, and payments are recorded against those debts. Each client carries a running `balanse` (the backend's own spelling). The core is the balance engine inside two save hooks:

- **`Debt.save`** runs on a debt's first save only. It copies the total into the remaining amount and charges the total to the client's `balanse`. On every save it marks the debt paid once nothing remains on it.
- **`Payment.save`** refuses an amount larger than what remains. Otherwise it takes the amount off both the debt and the `balanse`. It then writes the payment, the debt and the client, in that order.

Around the engine sit:

- the serializers' validation and user/company stamping;
- the company-scoped querysets of the debt, payment and client views;
- the user record's normalisation: e-mail lower-casing, username generation, registration and login checks.

Layout, one module per source file:

| file | module | source |
|---|---|---|
| common.dfy | `Common`, `Sequences` | identifiers, money in cents, dates as day numbers, error values, an order-preserving filter |
| persistence.dfy | `Persistence` | the stored rows and `Store`, an append-only log of row writes plus the debts table's auto-increment key |
| clients_models.dfy | `ClientModels` | backend/clients/models.py |
| debts_models.dfy | `DebtModels` | backend/debts/models.py |
| payments_models.dfy | `PaymentModels`, `PaymentRequests` | backend/payments/models.py, and the validated payment fields the serializers fill in |
| debts_serializers.dfy | `DebtSerializers` | backend/debts/serializers.py |
| payments_serializers.dfy | `PaymentSerializers` | backend/payments/serializers.py |
| clients_serializers.dfy | `ClientSerializers` | backend/clients/serializers.py |
| debts_views.dfy, payments_views.dfy, clients_views.dfy | `DebtViews`, `PaymentViews`, `ClientViews` | the three views.py files |
| users_models.dfy, users_serializers.dfy | `UserModels`, `UserSerializers` | backend/users/models.py and serializers.py |
| ledger.dfy | `Ledger` | one client's books across any sequence of debt creations, payments and re-saves |
| scenario.dfy | `Scenario` | a caller that opens a debt of 100.00, pays 40.00 and 60.00, and is refused 10.00 |

Modelling choices:

- **Imperative code stays imperative.** `Client`, `Debt`, `Payment` and `User` are classes whose save hooks change their fields in place. Each hook is proved against a pure function or predicate of the old state: `SaveEffect`, `PaymentEffect`, `NormalizedEmail`, and `Generated`, which describes the one name the username loop `GenerateUsername` can return. The serializers' `validated_data` dictionaries are small classes that `create` writes into.
- **Views are pure.** The querysets are filters over a `Tables` snapshot, kept in storage order.
- **The ledger lifts the hooks to a whole account.** `Ledger.Step` applies the same validation and hook functions to one client's books, so the invariants proved there hold for the objects' saves.
- **Inputs stand in for the environment.** The dates, uuids, the random username digits, the set of taken usernames and the password check are all parameters. The source reads two clocks, and the model keeps them apart. Debt validation compares against the server's local date (`today`). The default due date and the overdue filter use the time-zone-aware date (`utcToday` in `DebtSerializers.Create` and `Ledger.NewDebt`, `today` in `DebtViews.ListDebts`). Around midnight the two can differ by a day.
- **Messages are the program's own.** Error messages appear in Russian or English as the source writes them. The framework's invalid-key message for a related field is shown without the key it would quote.

Behaviour kept exactly as the code has it, where it departs from the engine's intended design (positive payments, a paid flag that mirrors the remaining amount):

- **`Payment.save` does not check the sign of the amount.** A negative payment passes the `remaining_amount >= amount` guard and raises the remaining amount. On a settled debt this makes something remain again while `is_paid` stays true, because `Debt.save` never resets the flag. `Ledger.NegativePaymentReopensPaidDebt` shows this. The remaining-within-total and exact-paid-flag properties are therefore proved under an explicit "no negative payments" hypothesis (`Ledger.RunKeepsSettled`, `Ledger.RemainingWithinTotal`). The balance invariant needs no such hypothesis.
- **A client may be created with any `balanse`.** The client serializer leaves every model field but `created_at` writable, so the opening `balanse` a caller sends is stored with no debt behind it. The balance invariant therefore holds as a preserved gap: every request moves the balanse and what remains owed alike (`Ledger.RunKeepsGap`), and `balanse` equals the sum of what remains only for a client opened at zero (`Ledger.FromOpenedConsistent`, `Ledger.CreatedWithBalanse`).
- **The detail views change records without the matching bookkeeping.** Updating a debt's total leaves its remaining amount and the balanse alone (`Ledger.UpdateDebtBreaksPaidTotal`). Deleting a debt leaves what remained on it in the balanse (`Ledger.DeleteDebtStrandsBalanse`). Updating a payment takes its amount off a second time (`Ledger.UpdatePaymentChargesAgain`). Deleting a payment restores nothing (`Ledger.DeletePaymentLosesPaid`).
- **A re-save re-adds nothing.** A save through the debt detail view reaches the hook with an id, so the balanse is not charged again (`Ledger.ResaveKeepsBalanse`).
- **Django's `filter(company=None)` matches clients without a company.** So the debt serializer offers a caller without a company the clients that have none (`DebtSerializers.SelectableClients`).
- **The client-debts view compares companies with `!=`.** A caller without a company therefore reaches clients without one.
- **Registration lower-cases the e-mail in place before the password comparison.** The rewrite happens even when validation fails.
- **The payments serializer stamps the caller only when the companies match.** Through `PaymentListCreateView.perform_create`, the caller is passed to `save` first, so every payment created there records the caller. Nothing on that path checks that the debt belongs to the caller's company.
- **`get_full_name` is never called.** `UserSerializer` lists `full_name` without declaring a method field, so the model property is what is serialised. Both are modelled, and `UserSerializers.GetFullNameAgrees` says when they agree.

## Model

| member | source | states |
|---|---|---|
| `ClientModels.Client.constructor` | backend/clients/models.py:5-16 | a new client holds the opening `balanse` it is given; the field default, used when none is sent, is zero |
| `ClientModels.Insert` | backend/clients/models.py:21-31 | an insert succeeds exactly when no stored client of the same company shares the name or the phone; otherwise it fails with an integrity error and the table is unchanged |
| `ClientModels.InsertKeepsUnique` | backend/clients/models.py:22-31 | inserting through the constraints keeps the table free of same-company name and phone duplicates |
| `ClientModels.UniqueMeansDistinct` | backend/clients/models.py:23-30 | under both constraints, two different clients of one company differ in name and in phone |
| `ClientModels.OtherCompanyMayShare` | backend/clients/models.py:22-31 | uniqueness is per company: a client whose company no stored client has is always accepted, whatever its name and phone |
| `DebtModels.DefaultDueDate` | backend/debts/models.py:6-7 | the default due date is 30 days after today, hence strictly in the future |
| `DebtModels.SaveEffect` | backend/debts/models.py:17-25 | on the first save the remaining amount becomes the total and the balanse grows by the total; on later saves both stay; afterwards the debt is paid exactly when it was paid before or nothing remains |
| `DebtModels.SaveKeepsOutstandingGap` | backend/debts/models.py:19-22 | only the first save moves balanse relative to the remaining amount |
| `DebtModels.ResaveIsIdempotent` | backend/debts/models.py:19-24 | saving a stored debt twice is the same as saving it once |
| `DebtModels.ZeroDebtIsStoredPaid` | backend/debts/models.py:19-24 | a new debt of zero is stored already paid and charges nothing |
| `DebtModels.Debt.constructor` | backend/debts/models.py:9-15 | an unsaved debt has no id and is not paid |
| `DebtModels.Debt.Save` | backend/debts/models.py:17-25 | the object-level hook does what `SaveEffect` says; a first save writes the client row and then the debt row and assigns the next key, and a later save writes only the debt row |
| `PaymentModels.PaymentEffect` | backend/payments/models.py:17-25 | a payment succeeds exactly when it does not exceed what remains; then the remaining amount and the balanse both drop by the amount, the remaining amount stays non-negative and the debt is paid once nothing remains; otherwise it fails with the source's message |
| `PaymentModels.PayingRemainderSettles` | backend/payments/models.py:18-24 | paying exactly the remaining amount leaves nothing remaining and the debt marked paid |
| `PaymentModels.Payment.constructor` | backend/payments/models.py:6-15 | a payment holds its debt, amount and user |
| `PaymentModels.Payment.Save` | backend/payments/models.py:17-25 | the object-level hook does what `PaymentEffect` says; on success it writes payment, debt and client in that order; on failure nothing changes and nothing is written |
| `PaymentModels.CreatePayment` | backend/payments/serializers.py:15 | the serializer's creation builds the payment from the validated fields unchanged and hands it back only if its save succeeds |
| `PaymentRequests.PaymentData.constructor` | backend/payments/serializers.py:8 | `user` is read-only: validated payment fields never carry a user from the request |
| `DebtSerializers.WritableAttrs` | backend/debts/serializers.py:15 | only client, total and due date reach validation |
| `DebtSerializers.ReadOnlyFieldsIgnored` | backend/debts/serializers.py:15 | whatever a caller sends for `is_paid` and `remaining_amount`, the same attributes are validated |
| `DebtSerializers.Validate` | backend/debts/serializers.py:24-33 | validation passes exactly when the total is non-negative and a supplied due date is after today (an absent one passes); a negative total is reported first; valid attributes come back unchanged |
| `DebtSerializers.DefaultDueDatePasses` | backend/debts/serializers.py:29-31 | the default due date, counted from the time-zone-aware date, meets the future-date rule a supplied date must meet against the local date, as long as the two dates are at most a day apart |
| `DebtSerializers.SelectableClients` | backend/debts/serializers.py:10-22 | the `client` field offers exactly the clients whose company equals the caller's, and none without a request |
| `DebtSerializers.Create` | backend/debts/serializers.py:10-33 | a client outside the `client` field's queryset is refused with the invalid-key error before validation, and nothing changes; a debt that fails validation changes nothing; an accepted one yields a fresh stored debt with remaining equal to total, the supplied or default due date, paid exactly when the total is zero, and the client charged the total |
| `DebtSerializers.PaymentCreate` | backend/debts/serializers.py:57-62 | whenever there is a request its user is stamped on the payment, and the payment is then created as `PaymentEffect` says |
| `PaymentSerializers.Create` | backend/payments/serializers.py:10-15 | the caller is stamped exactly when the caller's company is the debt's client's company; otherwise `user` is left as it was; the other fields pass to creation unchanged |
| `ClientSerializers.Create` | backend/clients/serializers.py:9-22 | a caller without a company gets the no-company validation error and nothing is written; otherwise the client is created with the caller's company, whatever company was sent, and with the `balanse` sent or zero when none was, subject to the uniqueness constraints |
| `ClientSerializers.ValidateDebt` | backend/clients/serializers.py:35-39 | the nested debt validation rejects exactly a negative total and otherwise returns the attributes unchanged |
| `ClientSerializers.DebtsValidationIsStricter` | backend/clients/serializers.py:35-39 | what the debts app accepts the clients app accepts too, and without a due date they agree |
| `ClientModels.FindClient` | backend/clients/views.py:30 | the lookup by primary key finds a stored client with that id, or reports that none exists |
| `DebtViews.FindDebt` | backend/debts/views.py:63-66 | the lookup by primary key finds a stored debt with that id, or reports that none exists |
| `DebtViews.ListDebts` | backend/debts/views.py:18-35 | a caller without a company gets nothing; filter `all` (the default) gives exactly the company's debts; `overdue` gives exactly the company's unpaid debts due before today; any other filter gives nothing |
| `DebtViews.OverdueWithinAll` | backend/debts/views.py:27-33 | the overdue list is part of the full list and holds only overdue debts |
| `DebtViews.DetailDebts` | backend/debts/views.py:47-51 | the detail view reaches exactly the debts of the caller's company |
| `DebtViews.DebtPayments` | backend/debts/views.py:59-74 | a debt's payment list is empty when the debt is missing, the caller has no company or the debt is another company's; otherwise it is exactly that debt's payments |
| `PaymentViews.ScopedPayments` | backend/payments/views.py:13-17 | a caller without a company sees no payments; otherwise exactly the payments whose debt's client is in its company (the detail view, lines 30-34, uses the same queryset) |
| `PaymentViews.ScopedPaymentsFollowDebts` | backend/payments/views.py:30-34 | a payment is visible exactly when the debt it pays is reachable through the debt detail view |
| `PaymentViews.DebtPaymentsAreScoped` | backend/payments/views.py:13-17 | every payment a debt's payment list shows is also in the caller's payment list |
| `PaymentViews.PerformCreate` | backend/payments/views.py:19-21 | a payment created through the list view always records the caller as its user, and otherwise behaves as `PaymentEffect` says |
| `ClientViews.ListClients` | backend/clients/views.py:16-21 | the list is exactly the clients of the caller's company; a caller without a company gets an error |
| `ClientViews.ListClientDebts` | backend/clients/views.py:29-42 | an unknown client gives not-found; a client of a different company gives permission denied; otherwise the client once, with exactly its debts |
| `ClientViews.ClientDebtsWithinDebtList` | backend/clients/views.py:35 | for a caller with a company, the debts shown for one of its clients are all in its debt list |
| `Ledger.NewDebtKeepsConsistent` | backend/debts/models.py:19-22 | creating a validated debt charges the balanse by exactly what the new debt leaves remaining, so the books stay consistent |
| `Ledger.PayKeepsConsistent` | backend/payments/models.py:18-20 | a successful payment lowers the balanse and the debt's remaining amount by the same amount and is counted in that debt's payments, so the books stay consistent |
| `Ledger.ResaveKeepsConsistent` | backend/debts/models.py:23-24 | re-saving a stored debt only sets its paid flag, so the books stay consistent |
| `Ledger.StepKeepsConsistent` | backend/payments/models.py:17-25 | every successful request keeps the balanse equal to the sum of remaining amounts, remaining amounts non-negative, zero-remaining debts paid, and each debt's payments summing to its total less what remains |
| `Ledger.RunKeepsConsistent` | backend/payments/models.py:18-20 | the balance invariant holds after any sequence of debt creations, payments and re-saves |
| `Ledger.FromOpenedConsistent` | backend/clients/models.py:9 | starting from a new client with zero balanse, the books are consistent after any sequence of requests |
| `Ledger.StepKeepsGap` | backend/debts/models.py:19-22 | every successful creation, payment or re-save moves the balanse and the sum of remaining amounts by the same amount |
| `Ledger.RunKeepsGap` | backend/payments/models.py:18-20 | from any starting books, including a client created with a balanse, any sequence of requests leaves the gap between the balanse and what remains owed unchanged |
| `Ledger.CreatedWithBalanse` | backend/clients/serializers.py:9-12 | a client created with an opening balanse keeps it on top of what its debts leave remaining, so its books are never consistent unless that balanse was zero |
| `Ledger.RemainingWithinTotal` | backend/payments/models.py:18-19 | with non-negative payments, every remaining amount lies between zero and the debt's total |
| `Ledger.StepKeepsPaidFlagExact` | backend/debts/models.py:23-24 | a request that is not a negative payment keeps each debt paid exactly when nothing remains on it |
| `Ledger.RunKeepsSettled` | backend/payments/models.py:18-24 | with no negative payments, any sequence of requests keeps every debt within its bounds and its paid flag exact |
| `Ledger.OverdrawRejected` | backend/payments/models.py:18-22 | a payment above the remaining amount fails with the source's message and leaves the books unchanged |
| `Ledger.NegativeDebtRejected` | backend/debts/serializers.py:26-27 | a negative debt is refused by validation and leaves the books unchanged |
| `Ledger.ResaveKeepsBalanse` | backend/debts/models.py:19-22 | re-saving a stored debt changes neither the balanse nor its remaining amount |
| `Ledger.NegativePaymentReopensPaidDebt` | backend/payments/models.py:18-20 | a negative payment on a settled debt is accepted, makes an amount remain again and leaves the debt marked paid |
| `Ledger.PaymentScenario` | backend/payments/models.py:17-25 | a debt of 100.00 paid 40.00 then 60.00 ends settled with zero balanse, and a further 10.00 is refused |
| `Ledger.UpdateDebtBreaksPaidTotal` | backend/debts/views.py:42-51 | updating a debt through the detail view keeps the balanse and the remaining amount, so a changed total no longer equals what was paid plus what remains |
| `Ledger.CascadeKeepsPaid` | backend/payments/models.py:8 | deleting a debt deletes its payments, and every other debt keeps what was paid on it |
| `Ledger.DeleteDebtStrandsBalanse` | backend/debts/views.py:42-51 | deleting a debt leaves the balanse as it was, so whatever remained on the debt stays in the balanse with no debt behind it |
| `Ledger.UpdatePaymentChargesAgain` | backend/payments/views.py:25-34 | updating a payment through the detail view runs the save hook again, so the amount comes off the debt and the balanse a second time while the payment record is only replaced; the debt no longer matches its payments |
| `Ledger.DeletePaymentLosesPaid` | backend/payments/views.py:25-34 | deleting a payment restores neither the debt nor the balanse, so the debt no longer matches its payments |
| `UserModels.Lower` | backend/users/models.py:46 | lower-casing keeps the length and lower-cases each character |
| `UserModels.LowerNormalises` | backend/users/models.py:44-47 | a lower-cased e-mail has no upper-case letter and lower-casing it again changes nothing |
| `UserModels.NormalizedEmail` | backend/users/models.py:44-47 | a present, non-empty e-mail is lower-cased; an absent or empty one is left as it is |
| `UserModels.NormalizedEmailIdempotent` | backend/users/models.py:44-47 | normalising an e-mail twice is normalising it once |
| `UserModels.DigitString` | backend/users/models.py:41 | the appended suffix is the random digits in the order drawn |
| `UserModels.TakenFromShrinks` | backend/users/models.py:40-41 | each round of the username loop leaves fewer taken names long enough to match, so the loop ends |
| `UserModels.GenerateUsername` | backend/users/models.py:39-42 | the generated username is `instagram-`, the uuid tail, then the random digits in the order drawn; it is not taken, and every shorter candidate on the way was taken |
| `UserModels.GeneratedIsUnique` | backend/users/models.py:39-42 | the uuid tail, the digits drawn and the taken names determine the generated username: there is only one name the loop can end with |
| `UserModels.User.FullName` | backend/users/models.py:33-35 | the full name is the first name, one space, then the last name |
| `UserModels.User.CheckEmail` | backend/users/models.py:44-47 | the e-mail becomes its normalised form |
| `UserModels.User.CheckUsername` | backend/users/models.py:37-42 | a non-empty username is kept; an empty one is replaced by the generated name: prefix, uuid tail and drawn digits, untaken, with every shorter candidate taken |
| `UserModels.User.Clean` | backend/users/models.py:56-58 | cleaning normalises the e-mail and then keeps the username or fills in the generated one |
| `UserModels.User.Save` | backend/users/models.py:61-63 | the row written carries the normalised e-mail and the kept or generated username |
| `UserSerializers.ValidateRegistration` | backend/users/serializers.py:15-19 | an absent e-mail fails with a key error and a null one with an attribute error, both before the passwords are compared; otherwise the e-mail is lower-cased in place and validation passes exactly when password and confirmation match, failing with the mismatch error otherwise |
| `UserSerializers.CreateUser` | backend/users/serializers.py:21-23 | the confirmation is removed first; an empty username makes `create_user` fail with its value error and nothing is created; otherwise the user is created with the given username and the lower-cased e-mail, an absent or null one becoming the empty string |
| `UserSerializers.FindByEmail` | backend/users/serializers.py:33 | the lookup returns the first stored user with that e-mail, or none when no user has it |
| `UserSerializers.ValidateLogin` | backend/users/serializers.py:31-38 | login succeeds exactly when a user has the lower-cased e-mail and the password check accepts it, and then returns that user; otherwise it fails with the credentials error |
| `UserSerializers.LoginIgnoresCase` | backend/users/serializers.py:32 | two spellings of an e-mail that lower-case alike log in alike |
| `UserSerializers.Strip` | backend/users/serializers.py:63 | stripping keeps the middle part of the text, which neither starts nor ends with whitespace, and removes only whitespace |
| `UserSerializers.GetFullName` | backend/users/serializers.py:62-63 | the serializer's full name is first name, space, last name with the surrounding whitespace cut: it neither starts nor ends with whitespace and only whitespace is removed |
| `UserSerializers.GetFullNameAgrees` | backend/users/serializers.py:62-63 | when both names are non-empty, the first does not start with whitespace and the last does not end with it, the serializer's full name equals the model's |
| `UserSerializers.GetFullNameOfNoName` | backend/users/serializers.py:62-63 | a user with neither name gets an empty full name from the serializer |

## Left out

- **Django ORM and DRF plumbing.** Querysets, `get_object_or_404`, responses, status codes and the resolution of primary keys to objects are modelled as functions over a `Tables` snapshot, with errors as values. `DebtSerializers.Create` takes the client object its key resolves to, and checks it against the `client` field's queryset.
- **Persistence.** It is only a write log. Atomicity, transactions and rollbacks are not modelled. Neither are concurrent payments on one debt or row locks; each save is one atomic step.
- **Decimal field width.** `max_digits=10, decimal_places=2` bounds `balanse` and the amounts to 99,999,999.99 in magnitude, that is below 10^10 cents. The serializers' decimal fields refuse a larger debt total, payment amount or client `balanse` with a validation error before `validate` runs. That field-level range check is not modelled: amounts are unbounded integer cents, so `DebtSerializers.Validate`, `DebtSerializers.Create` and `Ledger.Step` accept totals the program refuses.
- PaymentModels.Payment.Save: requires a stored debt. A payment on a debt that was never saved fails inside Django when it writes the debt key; that error path is not modelled, and the callers carry the same requirement.
- Ledger.Step: covers debt creation, payment and re-save only, and `Ledger.RunKeepsConsistent` and `Ledger.RunKeepsSettled` hold for sequences of those. The detail views' four other writes are modelled apart (`Ledger.UpdateDebt`, `Ledger.DeleteDebt`, `Ledger.UpdatePayment`, `Ledger.DeletePayment`), and none of them keeps the invariant.
- Ledger.Consistent: is broken by each detail-view write. Changing a debt's total breaks "paid equals total less remaining". Deleting a debt with something remaining breaks "balanse equals the sum remaining". Updating a payment, or deleting one, breaks "paid equals total less remaining" for its debt. A client created with a non-zero `balanse` breaks "balanse equals the sum remaining" from the start.
- **Partial updates and moving a debt or payment.** `PATCH` requests that omit the total, and updates that point a debt at another client or a payment at another debt, are not modelled. `Ledger.UpdateDebt` and `Ledger.UpdatePayment` keep the owner fixed.
- **Missing payment user.** A payment left without a user would be refused by the database's not-null constraint. The model's store accepts the row.
- **Passwords and tokens.** Password validation and hashing, JWT issue and refresh (`token`, `TokenRefreshSerializer`, backend/users/views.py) are not modelled. Password checking is an opaque predicate parameter.
- **Django's username normalisation and field validation on registration.** `create_user` also applies Unicode normalisation to the username, which is not modelled. Its e-mail normalisation lower-cases only the domain and turns a missing e-mail into the empty string; `check_email` then lower-cases the whole address, which is what `UserSerializers.CreateUser` states. The registration `username` field already refuses an empty value before `validate` runs; the model places that refusal at `create_user`. Username generation in `User.check_username` is therefore unreachable through registration and is modelled for the user's own save.
- UserModels.Lower: lower-cases ASCII letters only, whereas Python's `str.lower` is Unicode-aware. `UserSerializers.IsSpace` does follow Python's whitespace set.
- **Timestamps and ids.** `created_at`/`updated_at` (including the read-only `created_at` on clients), uuid generation and the clock are not modelled. Uuids, "today" and random digits are parameters.
- **Identity of `balanse` with stored debts.** The balance invariant is proved for one client's books in `Ledger`. The object level shows the same per-save effect but keeps no global table of a client's debts.
- **Frontend, URL configuration, admin, migrations and companies.** These are out of scope. A company is an opaque id.
