/** Client-side validation of the authentication forms: an ordered list of
    checks where the first one that fails decides the message, and the two
    chains built from it (sign-in and registration). */
module Validation {
  import opened Common
  import opened EmailPattern

  const RequiredMessage := "Email and password are required."
  const AllFieldsMessage := "All fields are required."
  const InvalidEmailMessage := "Please enter a valid email address."
  const ShortPasswordMessage := "Password must be at least 6 characters."
  const MinPasswordLength := 6

  /** One `if (!ok) { setError(message); return; }` guard. */
  datatype Check = Check(passes: bool, message: string)

  /** The alert state every authentication form keeps: an error text (or
      `null`) and the success flag. */
  datatype Feedback = Feedback(error: Option<string>, success: bool)

  /** Check `k` is the first failing one. */
  predicate FailsFirstAt(checks: seq<Check>, k: int)
  {
    && 0 <= k < |checks|
    && !checks[k].passes
    && forall i :: 0 <= i < k ==> checks[i].passes
  }

  /** Runs the guards in order and stops at the first failure: no message when
      every guard passes, otherwise the message of the first failing guard. */
  function FirstFailure(checks: seq<Check>): (r: Option<string>)
    ensures r.None? <==> forall i :: 0 <= i < |checks| ==> checks[i].passes
    ensures r.Some? ==> exists k :: FailsFirstAt(checks, k) && r.value == checks[k].message
  {
    if |checks| == 0 then None
    else if !checks[0].passes then
      assert FailsFirstAt(checks, 0);
      Some(checks[0].message)
    else
      var r := FirstFailure(checks[1..]);
      if r.Some? then
        var k :| FailsFirstAt(checks[1..], k) && r.value == checks[1..][k].message;
        assert FailsFirstAt(checks, k + 1);
        r
      else
        assert forall i :: 1 <= i < |checks| ==> checks[i] == checks[1..][i - 1];
        r
  }

  /** The two guards both forms share, after their own required-field guard:
      the e-mail pattern, then the minimum password length. */
  function FormatChecks(email: string, password: string): seq<Check>
  {
    [ Check(IsValidEmail(email), InvalidEmailMessage),
      Check(|password| >= MinPasswordLength, ShortPasswordMessage) ]
  }

  /** A form's own required-field guard followed by the format guards: the
      messages come in that order, and no message means all three passed. */
  lemma GuardedFormat(first: Check, email: string, password: string)
    ensures FirstFailure([first] + FormatChecks(email, password))
      == if !first.passes then Some(first.message)
         else if !IsValidEmail(email) then Some(InvalidEmailMessage)
         else if |password| < MinPasswordLength then Some(ShortPasswordMessage)
         else None
  {
    var checks := [first] + FormatChecks(email, password);
    assert checks[1] == Check(IsValidEmail(email), InvalidEmailMessage);
    assert checks[2] == Check(|password| >= MinPasswordLength, ShortPasswordMessage);
    var r := FirstFailure(checks);
    if r.Some? {
      var k :| FailsFirstAt(checks, k) && r.value == checks[k].message;
      assert k > 0 ==> checks[0].passes;
      assert k > 1 ==> checks[1].passes;
    } else {
      assert checks[0].passes && checks[1].passes && checks[2].passes;
    }
  }

  /** The sign-in chain, used verbatim by the login form and the login page. */
  function ValidateLogin(email: string, password: string): (r: Option<string>)
    ensures r.None? <==> email != "" && password != "" && IsValidEmail(email) && |password| >= MinPasswordLength
    ensures email == "" || password == "" ==> r == Some(RequiredMessage)
    ensures email != "" && password != "" && !IsValidEmail(email) ==> r == Some(InvalidEmailMessage)
    ensures email != "" && password != "" && IsValidEmail(email) && |password| < MinPasswordLength
      ==> r == Some(ShortPasswordMessage)
  {
    var required := Check(email != "" && password != "", RequiredMessage);
    GuardedFormat(required, email, password);
    FirstFailure([required] + FormatChecks(email, password))
  }

  /** The registration chain: all four fields required, then the same
      format guards. */
  function ValidateRegistration(firstName: string, lastName: string, email: string, password: string): (r: Option<string>)
    ensures r.None? <==> && firstName != "" && lastName != "" && email != "" && password != ""
                         && IsValidEmail(email) && |password| >= MinPasswordLength
    ensures firstName == "" || lastName == "" || email == "" || password == "" ==> r == Some(AllFieldsMessage)
    ensures firstName != "" && lastName != "" && email != "" && password != "" && !IsValidEmail(email)
      ==> r == Some(InvalidEmailMessage)
    ensures && firstName != "" && lastName != "" && email != "" && password != ""
            && IsValidEmail(email) && |password| < MinPasswordLength
      ==> r == Some(ShortPasswordMessage)
  {
    var required := Check(firstName != "" && lastName != "" && email != "" && password != "", AllFieldsMessage);
    GuardedFormat(required, email, password);
    FirstFailure([required] + FormatChecks(email, password))
  }

  /** With both names filled in, registration accepts exactly the credentials
      sign-in accepts, and once e-mail and password are present the two chains
      give the same message. Registration never accepts what sign-in rejects. */
  lemma ValidatorsAgree(firstName: string, lastName: string, email: string, password: string)
    ensures ValidateRegistration(firstName, lastName, email, password).None? ==> ValidateLogin(email, password).None?
    ensures firstName != "" && lastName != "" ==>
      (ValidateRegistration(firstName, lastName, email, password).None? <==> ValidateLogin(email, password).None?)
    ensures firstName != "" && lastName != "" && email != "" && password != "" ==>
      ValidateRegistration(firstName, lastName, email, password) == ValidateLogin(email, password)
  {
  }

  /** When the address is malformed the password is not examined: any two
      non-empty passwords get the same message. */
  lemma PasswordIgnoredForBadEmail(email: string, password1: string, password2: string)
    requires email != "" && password1 != "" && password2 != ""
    requires !IsValidEmail(email)
    ensures ValidateLogin(email, password1) == ValidateLogin(email, password2) == Some(InvalidEmailMessage)
  {
  }
}
