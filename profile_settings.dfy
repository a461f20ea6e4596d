/**
 * The profile form in the browser: its guards before the request, the
 * payload it sends, and the fields it clears after a successful save.
 */
module ProfileSettings {
  import opened Basics
  import ProfileRoute

  /** The JSON body the form sends; None is a field left out (`undefined`). */
  datatype Payload = Payload(name: string, email: string, currentPassword: Option<string>, newPassword: Option<string>)

  /** `value || undefined`. */
  function OrAbsent(s: string): (r: Option<string>)
    ensures r.None? <==> s == ""
    ensures r.Some? ==> r.value == s
  {
    if s == "" then None else Some(s)
  }

  /** How the profile endpoint reads a field: an absent one is "". */
  function Read(o: Option<string>): string {
    if o.Some? then o.value else ""
  }

  /** Why the form stopped before sending. */
  datatype Refusal = MissingNameOrEmail | PasswordMismatch

  datatype Submission = Send(payload: Payload) | Refused(reason: Refusal)

  class ProfileSettings {
    var name: string
    var email: string
    var currentPassword: string
    var newPassword: string
    var confirmPassword: string
    var isUpdating: bool

    /** The form starts from the signed-in user's name and e-mail, when known. */
    constructor (user: Option<(string, string)>)
      ensures name == (if user.Some? then user.value.0 else "")
      ensures email == (if user.Some? then user.value.1 else "")
      ensures currentPassword == "" && newPassword == "" && confirmPassword == "" && !isUpdating
    {
      name := if user.Some? then user.value.0 else "";
      email := if user.Some? then user.value.1 else "";
      currentPassword, newPassword, confirmPassword := "", "", "";
      isUpdating := false;
    }

    /**
     * `updateProfile` up to the request: a refusal leaves the form as it
     * was; otherwise the form is busy and the payload is returned.
     */
    method UpdateProfile() returns (r: Submission)
      modifies this`isUpdating
      ensures name == "" || email == "" ==> r == Refused(MissingNameOrEmail)
      ensures name != "" && email != "" && newPassword != "" && newPassword != confirmPassword
        ==> r == Refused(PasswordMismatch)
      ensures r.Refused? ==> isUpdating == old(isUpdating)
      ensures r.Send? <==> name != "" && email != "" && (newPassword == "" || newPassword == confirmPassword)
      ensures r.Send? ==>
        && isUpdating
        && r.payload == Payload(name, email, OrAbsent(currentPassword), OrAbsent(newPassword))
    {
      if name == "" || email == "" {
        return Refused(MissingNameOrEmail);
      }
      if newPassword != "" && newPassword != confirmPassword {
        return Refused(PasswordMismatch);
      }
      isUpdating := true;
      return Send(Payload(name, email, OrAbsent(currentPassword), OrAbsent(newPassword)));
    }

    /** The end of the request: after a save the three password fields are emptied. */
    method FinishUpdate(saved: bool)
      modifies this`currentPassword, this`newPassword, this`confirmPassword, this`isUpdating
      ensures !isUpdating
      ensures name == old(name) && email == old(email)
      ensures saved ==> currentPassword == "" && newPassword == "" && confirmPassword == ""
      ensures !saved ==> currentPassword == old(currentPassword) && newPassword == old(newPassword)
                         && confirmPassword == old(confirmPassword)
    {
      if saved {
        currentPassword := "";
        newPassword := "";
        confirmPassword := "";
      }
      isUpdating := false;
    }
  }

  /** The body of the request as the profile endpoint reads it. */
  function AsReceived(p: Payload): ProfileRoute.ProfileChange {
    ProfileRoute.ProfileChange(p.name, p.email, Read(p.currentPassword), Read(p.newPassword))
  }

  /**
   * Leaving out empty passwords loses nothing: the endpoint reads back
   * exactly what was typed, and a payload the form sends always has the
   * name and e-mail the endpoint requires.
   */
  lemma PayloadRoundTrip(name: string, email: string, current: string, replacement: string)
    requires name != "" && email != ""
    ensures AsReceived(Payload(name, email, OrAbsent(current), OrAbsent(replacement)))
         == ProfileRoute.ProfileChange(name, email, current, replacement)
    ensures var body := AsReceived(Payload(name, email, OrAbsent(current), OrAbsent(replacement)));
      body.name != "" && body.email != ""
  {
  }
}
