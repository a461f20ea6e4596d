/**
 * The sign-up form in the browser: `validateForm` fills an error per field,
 * and `handleSubmit` sends the request only when there is none.
 */
module RegisterForm {
  import opened Basics

  /** `\s` and the characters `trim` removes, as far as the model covers them. */
  predicate IsSpace(c: char) {
    c in {' ', '\t', '\n', '\r', '\U{000B}', '\U{000C}', '\U{00A0}', '\U{FEFF}'}
  }

  /** `!s.trim()`: empty or only white space. */
  predicate Blank(s: string) {
    forall i :: 0 <= i < |s| ==> IsSpace(s[i])
  }

  /** No white space in `s[lo..hi]`. */
  predicate SolidBetween(s: string, lo: int, hi: int)
    requires 0 <= lo <= hi <= |s|
  {
    forall k :: lo <= k < hi ==> !IsSpace(s[k])
  }

  /**
   * `/\S+@\S+\.\S+/.test(s)`: somewhere in `s`, an `@` right after a
   * non-space character, then one or more non-space characters, a `.`, and
   * a non-space character. (The pattern is not anchored.)
   */
  predicate LooksLikeEmail(s: string) {
    exists at, dot :: 1 <= at && at + 2 <= dot < |s| - 1 && s[at] == '@' && s[dot] == '.'
      && !IsSpace(s[at - 1]) && SolidBetween(s, at + 1, dot) && !IsSpace(s[dot + 1])
  }

  const NAME_REQUIRED := "El nombre es requerido"
  const EMAIL_REQUIRED := "El correo electrónico es requerido"
  const EMAIL_INVALID := "El correo electrónico no es válido"
  const PASSWORD_REQUIRED := "La contraseña es requerida"
  const PASSWORD_SHORT := "La contraseña debe tener al menos 6 caracteres"
  const PASSWORD_MISMATCH := "Las contraseñas no coinciden"

  /** The error dictionary `validateForm` builds from the four inputs. */
  function FormErrors(name: string, email: string, password: string, confirmPassword: string)
    : (r: map<string, string>)
    ensures r.Keys <= {"name", "email", "password", "confirmPassword"}
    ensures "name" in r <==> Blank(name)
    ensures "email" in r <==> Blank(email) || !LooksLikeEmail(email)
    ensures "email" in r ==> r["email"] == (if Blank(email) then EMAIL_REQUIRED else EMAIL_INVALID)
    ensures "password" in r <==> |password| < 6
    ensures "password" in r ==> r["password"] == (if password == "" then PASSWORD_REQUIRED else PASSWORD_SHORT)
    ensures "confirmPassword" in r <==> password != confirmPassword
  {
    var e0: map<string, string> := map[];
    var e1 := if Blank(name) then e0["name" := NAME_REQUIRED] else e0;
    var e2 := if Blank(email) then e1["email" := EMAIL_REQUIRED]
              else if !LooksLikeEmail(email) then e1["email" := EMAIL_INVALID]
              else e1;
    var e3 := if password == "" then e2["password" := PASSWORD_REQUIRED]
              else if |password| < 6 then e2["password" := PASSWORD_SHORT]
              else e2;
    if password != confirmPassword then e3["confirmPassword" := PASSWORD_MISMATCH] else e3
  }

  /** The body the form posts to the registration endpoint. */
  datatype Request = Request(name: string, email: string, password: string)

  class RegisterForm {
    var name: string
    var email: string
    var password: string
    var confirmPassword: string
    var isLoading: bool
    var errors: map<string, string>
    var generalError: string

    constructor ()
      ensures name == "" && email == "" && password == "" && confirmPassword == ""
      ensures !isLoading && errors == map[] && generalError == ""
    {
      name, email, password, confirmPassword := "", "", "", "";
      isLoading, errors, generalError := false, map[], "";
    }

    /** `validateForm`: publishes the errors and tells whether there are none. */
    method ValidateForm() returns (ok: bool)
      modifies this`errors, this`generalError
      ensures errors == FormErrors(name, email, password, confirmPassword)
      ensures generalError == ""
      ensures ok <==> errors == map[]
    {
      generalError := "";
      errors := FormErrors(name, email, password, confirmPassword);
      ok := |errors.Keys| == 0;
      if !ok {
        assert errors.Keys != {};
      }
    }

    /** `handleSubmit` up to the request: None when validation fails. */
    method HandleSubmit() returns (sent: Option<Request>)
      modifies this`errors, this`generalError, this`isLoading
      ensures errors == FormErrors(name, email, password, confirmPassword) && generalError == ""
      ensures sent.None? <==> errors != map[]
      ensures sent.None? ==> isLoading == old(isLoading)
      ensures sent.Some? ==> sent.value == Request(name, email, password) && isLoading
    {
      generalError := "";
      var ok := ValidateForm();
      if !ok {
        return None;
      }
      isLoading := true;
      return Some(Request(name, email, password));
    }

    /** The end of the request: a failure shows its message, and loading stops either way. */
    method FinishSubmit(outcome: Outcome)
      modifies this`isLoading, this`generalError
      ensures !isLoading
      ensures outcome.Answered? && outcome.ok ==> generalError == old(generalError)
      ensures outcome.Answered? && !outcome.ok ==>
        generalError == (if outcome.error.Some? && outcome.error.value != "" then outcome.error.value
                         else REGISTER_FAILED)
      ensures outcome.Thrown? ==>
        generalError == (if outcome.message != "" then outcome.message else REGISTER_ERROR)
    {
      var shown := ShownError(outcome);
      if shown.Some? {
        generalError := shown.value;
      }
      isLoading := false;
    }
  }

  const REGISTER_FAILED := "Error al registrar usuario"
  const REGISTER_ERROR := "Ocurrió un error al registrar el usuario"

  /**
   * How the request ended: the server answered (with its `ok` flag and the
   * `error` field of the body, if any), or the request or the parsing of
   * the body threw.
   */
  datatype Outcome = Answered(ok: bool, error: Option<string>) | Thrown(message: string)

  /**
   * The message the `catch` shows, None on success. A refused answer is
   * rethrown with the body's `error`, or "Error al registrar usuario" when
   * that is missing or empty; a thrown error shows its own message, or the
   * generic one when it has none.
   */
  function ShownError(outcome: Outcome): (r: Option<string>)
    ensures r.None? <==> outcome.Answered? && outcome.ok
    ensures r.Some? ==> r.value != ""
    ensures outcome.Answered? && !outcome.ok && (outcome.error.None? || outcome.error.value == "") ==> r == Some(REGISTER_FAILED)
    ensures outcome.Answered? && outcome.error.Some? && outcome.error.value != "" && !outcome.ok ==> r == outcome.error
    ensures outcome.Thrown? ==> r == Some(if outcome.message != "" then outcome.message else REGISTER_ERROR)
  {
    match outcome
    case Answered(ok, error) =>
      if ok then None
      else if error.Some? && error.value != "" then error
      else Some(REGISTER_FAILED)
    case Thrown(message) => Some(if message != "" then message else REGISTER_ERROR)
  }

  /** The pattern accepts a plain address. */
  lemma PatternAcceptsAddress()
    ensures LooksLikeEmail("ana@railis.com")
  {
    var s := "ana@railis.com";
    assert SolidBetween(s, 4, 10);
    assert 1 <= 3 && 3 + 2 <= 10 < |s| - 1 && s[3] == '@' && s[10] == '.'
      && !IsSpace(s[2]) && SolidBetween(s, 4, 10) && !IsSpace(s[11]);
  }

  /** Without a dot there is no match. */
  lemma PatternNeedsDot(s: string)
    requires '.' !in s
    ensures !LooksLikeEmail(s)
  {
  }

  /** Without an `@` there is no match, and a match needs at least five characters. */
  lemma PatternNeedsAt(s: string)
    ensures '@' !in s ==> !LooksLikeEmail(s)
    ensures LooksLikeEmail(s) ==> |s| >= 5
  {
  }

  /** An address padded with spaces still passes: the pattern is not anchored and the e-mail is not trimmed. */
  lemma PaddedAddressPasses()
    ensures "email" !in FormErrors("Ana", " ana@railis.com ", "secreto", "secreto")
  {
    var s := " ana@railis.com ";
    assert SolidBetween(s, 5, 11);
    assert 1 <= 4 && 4 + 2 <= 11 < |s| - 1 && s[4] == '@' && s[11] == '.'
      && !IsSpace(s[3]) && SolidBetween(s, 5, 11) && !IsSpace(s[12]);
    assert !IsSpace(s[1]);
  }

  /** The password is not trimmed: six spaces pass the length check. */
  lemma PasswordNotTrimmed()
    ensures "password" !in FormErrors("Ana", "ana@railis.com", "      ", "      ")
  {
  }

  /**
   * A form the client accepts also meets the server's name and password
   * rules: a non-blank name has a character, and the password has at least
   * six.
   */
  lemma AcceptedFormMeetsServerLengths(name: string, email: string, password: string, confirmPassword: string)
    requires FormErrors(name, email, password, confirmPassword) == map[]
    ensures |name| >= 1 && |password| >= 6 && password == confirmPassword
  {
    assert "name" !in FormErrors(name, email, password, confirmPassword);
  }
}
