/**
 * Shared vocabulary of the bookkeeping backend: identifiers, money, dates,
 * the error values that stand for the exceptions the backend raises, and
 * the caller principal that every view and serializer consults.
 */
module Common {

  /** Money is held in integer cents: the decimal fields have two decimal places. */
  type Cents = int

  /** A calendar date, as a day number. */
  type Date = int

  /** Identifiers. Clients, payments and users carry a uuid; debts an auto-increment integer. */
  type CompanyId = nat
  type ClientId = nat
  type DebtId = nat
  type PaymentId = nat
  type UserId = nat

  datatype Option<+T> = None | Some(value: T)

  /** The exceptions raised by the core, as values. */
  datatype Error =
    | ValidationError(message: string)
    | ValueError(message: string)
    | PermissionDenied(message: string)
    | NotFound
    | IntegrityError(constraint: string)
    | KeyError(key: string)
    | AttributeError(attribute: string)

  datatype Result<+T> = Ok(value: T) | Err(error: Error)

  datatype Outcome = Pass | Fail(error: Error)

  /** The authenticated user behind a request, with the company it belongs to (nullable). */
  datatype Requester = Requester(user: UserId, company: Option<CompanyId>)

  /** The messages the backend raises, as it writes them. */
  const PaymentExceedsMessage := "Payment exceeds remaining debt amount."
  const NegativeDebtMessage := "Сумма долга не может быть отрицательной."
  const DueDateMessage := "Срок должен быть позже сегодняшнего дня."
  const NoCompanyMessage := "У пользователя нет связанной компании."
  const NoAccessMessage := "У вас нет доступа к задолженности этого клиента."
  const PasswordMismatchMessage := "Пароли не совпадают!"
  const InvalidCredentialsMessage := "Неверные учетные данные"
  const UsernameRequiredMessage := "The given username must be set"
  /** The framework's message for a primary key outside a related field's queryset (the key itself is not interpolated). */
  const InvalidPkMessage := "Invalid pk - object does not exist."
}

/** Order-preserving selection from a sequence, the shape of every queryset filter. */
module Sequences {

  function Filter<T(!new)>(s: seq<T>, p: T -> bool): (r: seq<T>)
    ensures |r| <= |s|
    ensures forall x :: x in r <==> x in s && p(x)
  {
    if s == [] then []
    else if p(s[0]) then [s[0]] + Filter(s[1..], p)
    else Filter(s[1..], p)
  }
}
