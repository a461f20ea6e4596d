/**
 * `/api/register`: self-service sign-up. The body is validated field by
 * field, a known e-mail is refused, and the account is always created with
 * the worker role.
 */
module RegisterRoute {
  import opened Basics
  import opened Domain
  import opened Db

  /** The JSON body; None for a field that is absent. */
  datatype Registration = Registration(name: Option<string>, email: Option<string>, password: Option<string>)

  datatype Field = NameField | EmailField | PasswordField

  /** What the response reveals about the account: no password. */
  datatype Account = Account(id: Id, name: string, email: string, role: Role)

  datatype Outcome =
    | Registered(account: Account)
    | Invalid(fieldErrors: set<Field>)   // 400 with the schema's field errors
    | Failed(error: Error)

  const MIN_PASSWORD: nat := 6

  /**
   * The schema: a name of at least one character, an e-mail address
   * (`isEmail` stands for the schema library's address check) and a password
   * of at least six characters. Every failing field is reported.
   */
  function FieldErrors(body: Registration, isEmail: string -> bool): (r: set<Field>)
    ensures NameField in r <==> body.name.None? || |body.name.value| < 1
    ensures EmailField in r <==> body.email.None? || !isEmail(body.email.value)
    ensures PasswordField in r <==> body.password.None? || |body.password.value| < MIN_PASSWORD
  {
    (if body.name.None? || |body.name.value| < 1 then {NameField} else {})
    + (if body.email.None? || !isEmail(body.email.value) then {EmailField} else {})
    + (if body.password.None? || |body.password.value| < MIN_PASSWORD then {PasswordField} else {})
  }

  predicate StartsWith(s: string, prefix: string) {
    |prefix| <= |s| && s[..|prefix|] == prefix
  }

  /** `haystack.includes(needle)`: the needle starts at some position of the haystack. */
  predicate Contains(haystack: string, needle: string)
    decreases |haystack|
  {
    StartsWith(haystack, needle) || (haystack != [] && Contains(haystack[1..], needle))
  }

  /** A needle holding a character the haystack lacks is not in it. */
  lemma {:induction false} MissingCharNotContained(haystack: string, needle: string, c: char)
    requires c in needle && c !in haystack
    ensures !Contains(haystack, needle)
    decreases |haystack|
  {
    if haystack != [] {
      MissingCharNotContained(haystack[1..], needle, c);
    }
  }

  /** The catch block: the message of the thrown error picks the status. */
  function MapError(message: string): (r: Error)
    ensures r in {BadRequest, ServiceUnavailable, ServerError}
    ensures Contains(message, "Unique constraint failed") ==> r == BadRequest
    ensures !Contains(message, "Unique constraint failed") && Contains(message, "connect ECONNREFUSED") ==> r == ServiceUnavailable
    ensures r == ServerError <==> !Contains(message, "Unique constraint failed") && !Contains(message, "connect ECONNREFUSED")
  {
    if Contains(message, "Unique constraint failed") then BadRequest
    else if Contains(message, "connect ECONNREFUSED") then ServiceUnavailable
    else ServerError
  }

  /**
   * POST /api/register. `hashed` is the bcrypt hash of the password;
   * `thrown` is the message of an error the database raises, if it does
   * (its calls then write nothing).
   */
  method Register(
    db: Store, body: Registration, isEmail: string -> bool,
    hashed: string, userId: Id, now: Time, thrown: Option<string>)
    returns (r: Outcome)
    requires db.Valid()
    requires Unused(db.users, UserKey, userId)
    modifies db`users
    ensures db.Valid()
    ensures FieldErrors(body, isEmail) != {} ==> r == Invalid(FieldErrors(body, isEmail))
    ensures FieldErrors(body, isEmail) == {} && thrown.Some? ==> r == Failed(MapError(thrown.value))
    ensures FieldErrors(body, isEmail) == {} && thrown.None? && !Unused(old(db.users), UserEmail, body.email.value)
      ==> r == Failed(BadRequest)
    ensures !r.Registered? ==> unchanged(db)
    ensures r.Registered? <==>
      FieldErrors(body, isEmail) == {} && thrown.None? && Unused(old(db.users), UserEmail, body.email.value)
    ensures r.Registered? ==>
      && db.users == old(db.users) + [User(userId, body.name.value, body.email.value, hashed, WORKER, now)]
      && r.account == Account(userId, body.name.value, body.email.value, WORKER)
  {
    var errors := FieldErrors(body, isEmail);
    if errors != {} {
      return Invalid(errors);
    }
    if thrown.Some? {
      return Failed(MapError(thrown.value));
    }
    var name, email := body.name.value, body.email.value;
    var existing := Find(db.users, (u: User) => u.email == email);
    if existing.Some? {
      return Failed(BadRequest);
    }
    db.CreateUser(User(userId, name, email, hashed, WORKER, now));
    return Registered(Account(userId, name, email, WORKER));
  }

  /** A unique-constraint violation is reported as a bad request. */
  lemma UniqueViolationIsBadRequest()
    ensures MapError("Unique constraint failed on the fields: (`email`)") == BadRequest
  {
    assert StartsWith("Unique constraint failed on the fields: (`email`)", "Unique constraint failed");
  }

  /** A refused database connection is reported as service unavailable. */
  lemma RefusedConnectionIsUnavailable()
    ensures MapError("connect ECONNREFUSED 127.0.0.1:5432") == ServiceUnavailable
  {
    var c := "connect ECONNREFUSED 127.0.0.1:5432";
    assert StartsWith(c, "connect ECONNREFUSED");
    MissingCharNotContained(c, "Unique constraint failed", 'q');
  }

  /** Any other failure is an internal error. */
  lemma OtherFailureIsServerError()
    ensures MapError("timeout") == ServerError
  {
    MissingCharNotContained("timeout", "Unique constraint failed", 'q');
    MissingCharNotContained("timeout", "connect ECONNREFUSED", 'E');
  }
}
