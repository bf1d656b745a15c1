/**
 * The user record's normalisation: the e-mail is lower-cased and a missing
 * username is generated as `instagram-` plus the last group of a uuid,
 * extended one random digit at a time until no user has it.
 */
module UserModels {
  import opened Common

  const GeneratedPrefix := "instagram-"

  /** Lower-cases the ASCII letters. */
  function LowerChar(c: char): (lower: char)
  {
    if 'A' <= c <= 'Z' then (c as int + 32) as char else c
  }

  function Lower(s: string): (r: string)
    ensures |r| == |s|
    ensures forall i :: 0 <= i < |s| ==> r[i] == LowerChar(s[i])
  {
    seq(|s|, i requires 0 <= i < |s| => LowerChar(s[i]))
  }

  /** Lower-casing leaves no upper-case ASCII letter and is idempotent. */
  lemma LowerNormalises(s: string)
    ensures forall i :: 0 <= i < |Lower(s)| ==> !('A' <= Lower(s)[i] <= 'Z')
    ensures Lower(Lower(s)) == Lower(s)
  {
  }

  /** The e-mail as `check_email` leaves it: lower-cased when present and non-empty. */
  function NormalizedEmail(email: Option<string>): (r: Option<string>)
    ensures email.None? || email == Some("") ==> r == email
    ensures email.Some? && email.value != "" ==> r == Some(Lower(email.value))
  {
    if email.Some? && email.value != "" then Some(Lower(email.value)) else email
  }

  /** Normalising twice is normalising once. */
  lemma NormalizedEmailIdempotent(email: Option<string>)
    ensures NormalizedEmail(NormalizedEmail(email)) == NormalizedEmail(email)
  {
    if email.Some? && email.value != "" {
      LowerNormalises(email.value);
    }
  }

  type Digit = d: int | 0 <= d <= 9

  function DigitChar(d: Digit): (c: char)
  {
    ('0' as int + d) as char
  }

  /** The first `n` random digits, as text. */
  function DigitString(digits: nat -> Digit, n: nat): (s: string)
    ensures |s| == n
    ensures forall i :: 0 <= i < n ==> s[i] == DigitChar(digits(i))
  {
    if n == 0 then "" else DigitString(digits, n - 1) + [DigitChar(digits(n - 1))]
  }

  /** The taken usernames at least `n` characters long. */
  function TakenFrom(taken: set<string>, n: nat): (long: set<string>)
  {
    set s | s in taken && |s| >= n
  }

  lemma {:induction false} SubsetNotLarger<T>(a: set<T>, b: set<T>)
    requires a <= b
    ensures |a| <= |b|
    decreases a
  {
    if a != {} {
      var x :| x in a;
      SubsetNotLarger(a - {x}, b - {x});
    }
  }

  /** Each round drops the current candidate, and nothing shorter returns, so fewer taken names remain long enough. */
  lemma TakenFromShrinks(taken: set<string>, name: string, longer: string)
    requires name in taken && |longer| == |name| + 1
    ensures |TakenFrom(taken, |longer|)| < |TakenFrom(taken, |name|)|
  {
    var big := TakenFrom(taken, |name|);
    assert name in big;
    SubsetNotLarger(TakenFrom(taken, |longer|), big - {name});
  }

  /**
   * A username the generation loop can end with: the prefix, the uuid tail
   * and the first few random digits; not taken, while every shorter
   * candidate along the way was.
   */
  predicate Generated(name: string, uuidTail: string, digits: nat -> Digit, taken: set<string>)
  {
    var base := GeneratedPrefix + uuidTail;
    && name !in taken
    && |name| >= |base|
    && name == base + DigitString(digits, |name| - |base|)
    && forall m :: 0 <= m < |name| - |base| ==> base + DigitString(digits, m) in taken
  }

  /** The uuid tail, the digits drawn and the taken names determine the generated username. */
  lemma GeneratedIsUnique(n1: string, n2: string, uuidTail: string, digits: nat -> Digit, taken: set<string>)
    requires Generated(n1, uuidTail, digits, taken) && Generated(n2, uuidTail, digits, taken)
    ensures n1 == n2
  {
    var base := GeneratedPrefix + uuidTail;
    var k1: nat, k2: nat := |n1| - |base|, |n2| - |base|;
    assert k1 < k2 ==> base + DigitString(digits, k1) in taken;
    assert k2 < k1 ==> base + DigitString(digits, k2) in taken;
  }

  /**
   * The username loop: start from the prefix and the uuid tail, and while
   * the candidate is taken append the next random digit. It stops because
   * each round lengthens the candidate and only finitely many names are taken.
   */
  method GenerateUsername(uuidTail: string, digits: nat -> Digit, taken: set<string>) returns (name: string)
    ensures Generated(name, uuidTail, digits, taken)
  {
    var base := GeneratedPrefix + uuidTail;
    name := base;
    var i := 0;
    while name in taken
      invariant name == base + DigitString(digits, i)
      invariant forall m :: 0 <= m < i ==> base + DigitString(digits, m) in taken
      decreases |TakenFrom(taken, |name|)|
    {
      var longer := name + [DigitChar(digits(i))];
      TakenFromShrinks(taken, name, longer);
      name, i := longer, i + 1;
    }
  }

  class User {
    var username: string
    var email: Option<string>
    const firstName: string
    const lastName: string
    const company: Option<CompanyId>

    constructor (username: string, email: Option<string>, firstName: string, lastName: string, company: Option<CompanyId>)
      ensures this.username == username && this.email == email
      ensures this.firstName == firstName && this.lastName == lastName && this.company == company
    {
      this.username := username;
      this.email := email;
      this.firstName := firstName;
      this.lastName := lastName;
      this.company := company;
    }

    /** The `full_name` property: first name, one space, last name. */
    function FullName(): (r: string)
      reads this
      ensures |r| == |firstName| + 1 + |lastName|
      ensures r[..|firstName|] == firstName && r[|firstName|] == ' ' && r[|firstName| + 1..] == lastName
    {
      firstName + " " + lastName
    }

    method CheckEmail()
      modifies this`email
      ensures email == NormalizedEmail(old(email))
    {
      if email.Some? && email.value != "" {
        email := Some(Lower(email.value));
      }
    }

    /** Keeps a non-empty username; generates one otherwise. */
    method CheckUsername(uuidTail: string, digits: nat -> Digit, taken: set<string>)
      modifies this`username
      ensures old(username) != "" ==> username == old(username)
      ensures old(username) == "" ==> Generated(username, uuidTail, digits, taken)
    {
      if username == "" {
        username := GenerateUsername(uuidTail, digits, taken);
      }
    }

    /** E-mail first, then username. */
    method Clean(uuidTail: string, digits: nat -> Digit, taken: set<string>)
      modifies this`email, this`username
      ensures email == NormalizedEmail(old(email))
      ensures old(username) != "" ==> username == old(username)
      ensures old(username) == "" ==> Generated(username, uuidTail, digits, taken)
    {
      CheckEmail();
      CheckUsername(uuidTail, digits, taken);
    }

    /** Cleans, then returns the row it writes: the stored row carries the normalised values. */
    method Save(uuidTail: string, digits: nat -> Digit, taken: set<string>) returns (row: UserRow)
      modifies this`email, this`username
      ensures row == UserRow(username, email, firstName, lastName)
      ensures email == NormalizedEmail(old(email))
      ensures old(username) != "" ==> username == old(username)
      ensures old(username) == "" ==> Generated(username, uuidTail, digits, taken)
    {
      Clean(uuidTail, digits, taken);
      row := UserRow(username, email, firstName, lastName);
    }
  }

  /** A stored user, as login looks it up. */
  datatype UserRow = UserRow(username: string, email: Option<string>, firstName: string, lastName: string)
}
