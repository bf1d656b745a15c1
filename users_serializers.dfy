/**
 * Registration and login: e-mail lower-casing, the password confirmation,
 * the credential check, and the serializer's full-name formatting.
 */
module UserSerializers {
  import opened Common
  import opened UserModels

  /**
   * The validated registration fields; `confirmPassword` is dropped before
   * the user is created. The e-mail field is optional and nullable, so it
   * may be absent (`None`) or null (`Some(None)`).
   */
  class RegistrationData {
    var email: Option<Option<string>>
    const password: string
    var confirmPassword: Option<string>
    const userRoles: string
    const username: string

    constructor (email: Option<Option<string>>, password: string, confirmPassword: string, userRoles: string, username: string)
      ensures this.email == email && this.password == password && this.confirmPassword == Some(confirmPassword)
      ensures this.userRoles == userRoles && this.username == username
    {
      this.email := email;
      this.password := password;
      this.confirmPassword := Some(confirmPassword);
      this.userRoles := userRoles;
      this.username := username;
    }
  }

  /**
   * Lower-cases the e-mail in place, then compares password and confirmation.
   * The e-mail is rewritten even when the comparison fails. An absent e-mail
   * raises a key error and a null one an attribute error, before the
   * passwords are compared.
   */
  method ValidateRegistration(data: RegistrationData) returns (r: Outcome)
    requires data.confirmPassword.Some?
    modifies data`email
    ensures old(data.email).None? ==> r == Fail(KeyError("email")) && data.email == old(data.email)
    ensures old(data.email) == Some(None) ==> r == Fail(AttributeError("lower")) && data.email == old(data.email)
    ensures old(data.email).Some? && old(data.email).value.Some? ==>
      && data.email == Some(Some(Lower(old(data.email).value.value)))
      && (r.Pass? <==> data.password == data.confirmPassword.value)
      && (r.Fail? ==> r.error == ValidationError(PasswordMismatchMessage))
  {
    if data.email.None? {
      return Fail(KeyError("email"));
    }
    if data.email.value.None? {
      return Fail(AttributeError("lower"));
    }
    data.email := Some(Some(Lower(data.email.value.value)));
    if data.password != data.confirmPassword.value {
      return Fail(ValidationError(PasswordMismatchMessage));
    }
    r := Pass;
  }

  /**
   * The e-mail `create_user` receives, after its own normalisation has
   * turned an absent or null one into the empty string.
   */
  function SentEmail(email: Option<Option<string>>): (e: string)
    ensures email.Some? && email.value.Some? ==> e == email.value.value
    ensures email.None? || email.value.None? ==> e == ""
  {
    if email.Some? && email.value.Some? then email.value.value else ""
  }

  /**
   * Drops the confirmation and calls `create_user`, which refuses an empty
   * username before anything is saved; otherwise the new user's save
   * normalises it, keeping the username it was given. Password hashing is
   * not modelled.
   */
  method CreateUser(data: RegistrationData, uuidTail: string, digits: nat -> Digit, taken: set<string>)
    returns (r: Result<User>, row: Option<UserRow>)
    modifies data`confirmPassword
    ensures data.confirmPassword == None
    ensures data.username == "" ==> r == Err(ValueError(UsernameRequiredMessage)) && row.None?
    ensures data.username != "" ==>
      && r.Ok? && fresh(r.value)
      && r.value.username == data.username
      && r.value.email == Some(Lower(SentEmail(data.email)))
      && row == Some(UserRow(data.username, Some(Lower(SentEmail(data.email))), "", ""))
  {
    data.confirmPassword := None;
    if data.username == "" {
      return Err(ValueError(UsernameRequiredMessage)), None;
    }
    var user := new User(data.username, Some(SentEmail(data.email)), "", "", None);
    var saved := user.Save(uuidTail, digits, taken);
    r, row := Ok(user), Some(saved);
  }

  /**
   * The position of the first stored user with this e-mail. The e-mail
   * column is unique, so at most one row matches and the primary-key order
   * `first()` imposes makes no difference.
   */
  function FindByEmail(users: seq<UserRow>, email: string): (r: Option<nat>)
    ensures r.Some? ==> r.value < |users| && users[r.value].email == Some(email)
    ensures r.Some? ==> forall j :: 0 <= j < r.value ==> users[j].email != Some(email)
    ensures r.None? ==> forall j :: 0 <= j < |users| ==> users[j].email != Some(email)
  {
    if users == [] then None
    else if users[0].email == Some(email) then Some(0)
    else
      var rest := FindByEmail(users[1..], email);
      if rest.Some? then Some(rest.value + 1) else None
  }

  /**
   * Looks the user up by the lower-cased e-mail and checks the password with
   * the supplied (opaque) password check; either failure gives the same error.
   */
  function ValidateLogin(email: string, password: string, users: seq<UserRow>, checkPassword: (UserRow, string) -> bool)
    : (r: Result<UserRow>)
    ensures r.Ok? <==> FindByEmail(users, Lower(email)).Some? && checkPassword(users[FindByEmail(users, Lower(email)).value], password)
    ensures r.Ok? ==> r.value in users && r.value.email == Some(Lower(email)) && checkPassword(r.value, password)
    ensures r.Err? ==> r.error == ValidationError(InvalidCredentialsMessage)
  {
    var found := FindByEmail(users, Lower(email));
    if found.None? || !checkPassword(users[found.value], password) then Err(ValidationError(InvalidCredentialsMessage))
    else Ok(users[found.value])
  }

  /** Login ignores the case of the e-mail typed. */
  lemma LoginIgnoresCase(e1: string, e2: string, password: string, users: seq<UserRow>, checkPassword: (UserRow, string) -> bool)
    requires Lower(e1) == Lower(e2)
    ensures ValidateLogin(e1, password, users, checkPassword) == ValidateLogin(e2, password, users, checkPassword)
  {
  }

  /** Python's whitespace, which `str.strip` removes. */
  predicate IsSpace(c: char)
  {
    var n := c as int;
    (9 <= n <= 13) || (28 <= n <= 32) || n == 0x85 || n == 0xA0 || n == 0x1680 || (0x2000 <= n <= 0x200A)
    || n == 0x2028 || n == 0x2029 || n == 0x202F || n == 0x205F || n == 0x3000
  }

  function LeadingSpaces(s: string): (n: nat)
    ensures n <= |s|
    ensures forall i :: 0 <= i < n ==> IsSpace(s[i])
    ensures n < |s| ==> !IsSpace(s[n])
  {
    if s == [] || !IsSpace(s[0]) then 0 else 1 + LeadingSpaces(s[1..])
  }

  function TrailingSpaces(s: string): (n: nat)
    ensures n <= |s|
    ensures forall i :: |s| - n <= i < |s| ==> IsSpace(s[i])
    ensures n < |s| ==> !IsSpace(s[|s| - n - 1])
  {
    if s == [] || !IsSpace(s[|s| - 1]) then 0 else 1 + TrailingSpaces(s[..|s| - 1])
  }

  /** `str.strip()`: the longest middle part that neither starts nor ends with whitespace, everything cut being whitespace. */
  function Strip(s: string): (r: string)
    ensures r == [] || (!IsSpace(r[0]) && !IsSpace(r[|r| - 1]))
    ensures LeadingSpaces(s) + |r| <= |s| && r == s[LeadingSpaces(s)..LeadingSpaces(s) + |r|]
    ensures forall i :: 0 <= i < |s| && !(LeadingSpaces(s) <= i < LeadingSpaces(s) + |r|) ==> IsSpace(s[i])
  {
    var rest := s[LeadingSpaces(s)..];
    rest[..|rest| - TrailingSpaces(rest)]
  }

  /**
   * The serializer's `get_full_name`: the model's full name with surrounding
   * whitespace stripped. It neither starts nor ends with whitespace, it is a
   * stretch of first name, space, last name, and all that was cut is whitespace.
   */
  function GetFullName(firstName: string, lastName: string): (r: string)
    ensures var s := firstName + " " + lastName;
      && (r == [] || (!IsSpace(r[0]) && !IsSpace(r[|r| - 1])))
      && LeadingSpaces(s) + |r| <= |s| && r == s[LeadingSpaces(s)..LeadingSpaces(s) + |r|]
      && forall i :: 0 <= i < |s| && !(LeadingSpaces(s) <= i < LeadingSpaces(s) + |r|) ==> IsSpace(s[i])
  {
    Strip(firstName + " " + lastName)
  }

  /** When neither name starts or ends with whitespace, stripping changes nothing and both forms agree. */
  lemma GetFullNameAgrees(user: User)
    requires user.firstName != [] && !IsSpace(user.firstName[0])
    requires user.lastName != [] && !IsSpace(user.lastName[|user.lastName| - 1])
    ensures GetFullName(user.firstName, user.lastName) == user.FullName()
  {
    var s := user.FullName();
    assert s[0] == user.firstName[0];
    assert s[|s| - 1] == user.lastName[|user.lastName| - 1];
    assert LeadingSpaces(s) == 0;
    assert TrailingSpaces(s) == 0;
  }

  /** A user without either name gets an empty full name from the serializer, not a lone space. */
  lemma GetFullNameOfNoName()
    ensures GetFullName("", "") == ""
  {
    assert IsSpace(' ');
  }
}
