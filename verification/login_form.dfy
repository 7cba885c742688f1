/** `LoginForm`: the sign-in form component. Its submit handler clears the
    alerts, runs the sign-in validation chain, and only then calls `signIn`;
    the reply sets the error alert, or the success alert and a navigation to
    the recipe list. */
module LoginForm {
  import opened Common
  import opened Types
  import opened EmailPattern
  import opened Validation

  const LoginFailedMessage := "Login failed."
  const RecipesRoute := "/recipes"

  /** What one submit produced: the alerts afterwards, the `signIn` call made
      (if any) and the route pushed (if any). */
  datatype Submitted = Submitted(feedback: Feedback, signIn: Option<Credentials>, navigateTo: Option<string>)

  /** `handleSubmit`. `prior` is the alert state before the submit; `reply` is
      how the `signIn` promise settles (resolving to `{error}`, or throwing),
      consulted only when the call is made. */
  function HandleSubmit(prior: Feedback, email: string, password: string,
                        reply: Settled<Option<AuthError>>): (o: Submitted)
    // sign-in happens exactly when validation passes, with the credentials as typed
    ensures o.signIn.Some? <==> ValidateLogin(email, password).None?
    ensures o.signIn.Some? ==> o.signIn.value == Credentials(email, password)
    // a validation failure shows the first failing guard's message and nothing else
    ensures o.signIn.None? ==> o.feedback == Feedback(ValidateLogin(email, password), false) && o.navigateTo.None?
    // a rejected sign-in shows its message, or the fallback text
    ensures o.signIn.Some? && reply.Resolved? && reply.value.Some? ==>
      && o.feedback == Feedback(Some(MessageOr(reply.value.value, LoginFailedMessage)), false)
      && o.navigateTo.None?
    // an accepted sign-in shows success and goes to the recipe list
    ensures o.signIn.Some? && reply.Resolved? && reply.value.None? ==>
      o.feedback == Feedback(None, true) && o.navigateTo == Some(RecipesRoute)
    // a thrown sign-in escapes the handler and leaves the cleared alerts
    ensures o.signIn.Some? && reply.Rejected? ==> o.feedback == Feedback(None, false) && o.navigateTo.None?
    // an error alert is never blank, and navigation goes with success
    ensures o.feedback.error.Some? ==> o.feedback.error.value != ""
    ensures o.navigateTo.Some? <==> o.feedback.success
  {
    var cleared := prior.(error := None, success := false);
    var invalid := ValidateLogin(email, password);
    if invalid.Some? then
      Submitted(cleared.(error := invalid), None, None)
    else
      var call := Credentials(email, password);
      match reply
      case Resolved(Some(e)) => Submitted(cleared.(error := Some(MessageOr(e, LoginFailedMessage))), Some(call), None)
      case Resolved(None) => Submitted(cleared.(success := true), Some(call), Some(RecipesRoute))
      case Rejected => Submitted(cleared, Some(call), None)
  }

  /** Every submit starts by clearing both alerts, so what is shown afterwards
      does not depend on what was shown before. */
  lemma AlertsIgnorePrior(prior1: Feedback, prior2: Feedback, email: string, password: string,
                          reply: Settled<Option<AuthError>>)
    ensures HandleSubmit(prior1, email, password, reply) == HandleSubmit(prior2, email, password, reply)
  {
  }

  /** The four submits the login tests perform: an empty form, a short
      password, a sign-in the backend rejects, and one it accepts. */
  lemma TestScenarios(prior: Feedback)
    ensures HandleSubmit(prior, "", "", Resolved(None)) == Submitted(Feedback(Some(RequiredMessage), false), None, None)
    ensures HandleSubmit(prior, "user@example.com", "123", Resolved(None))
      == Submitted(Feedback(Some(ShortPasswordMessage), false), None, None)
    ensures HandleSubmit(prior, "fail@example.com", "password123", Resolved(Some(AuthError("Login failed."))))
      == Submitted(Feedback(Some("Login failed."), false), Some(Credentials("fail@example.com", "password123")), None)
    ensures HandleSubmit(prior, "user@example.com", "password123", Resolved(None))
      == Submitted(Feedback(None, true), Some(Credentials("user@example.com", "password123")), Some(RecipesRoute))
  {
    UserExampleAccepted();
    FailExampleAccepted();
  }
}
