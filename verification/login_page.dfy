/** The stand-alone login page (`pages/login`): the same submit handler as
    the login form, except that success does not navigate anywhere. */
module LoginPage {
  import opened Common
  import opened Types
  import opened Validation
  import LoginForm

  /** What one submit produced: the alerts afterwards and the `signIn` call
      made (if any). */
  datatype Submitted = Submitted(feedback: Feedback, signIn: Option<Credentials>)

  /** `handleSubmit` of the page; `reply` is how the awaited `signIn` settles. */
  function HandleSubmit(prior: Feedback, email: string, password: string,
                        reply: Settled<Option<AuthError>>): (o: Submitted)
    ensures o.signIn.Some? <==> ValidateLogin(email, password).None?
    ensures o.signIn.Some? ==> o.signIn.value == Credentials(email, password)
    ensures o.signIn.None? ==> o.feedback == Feedback(ValidateLogin(email, password), false)
    ensures o.signIn.Some? && reply.Resolved? && reply.value.Some? ==>
      o.feedback == Feedback(Some(MessageOr(reply.value.value, LoginForm.LoginFailedMessage)), false)
    ensures o.signIn.Some? && reply.Resolved? && reply.value.None? ==> o.feedback == Feedback(None, true)
    ensures o.signIn.Some? && reply.Rejected? ==> o.feedback == Feedback(None, false)
  {
    var cleared := prior.(error := None, success := false);
    var invalid := ValidateLogin(email, password);
    if invalid.Some? then
      Submitted(cleared.(error := invalid), None)
    else
      var call := Credentials(email, password);
      match reply
      case Resolved(Some(e)) => Submitted(cleared.(error := Some(MessageOr(e, LoginForm.LoginFailedMessage))), Some(call))
      case Resolved(None) => Submitted(cleared.(success := true), Some(call))
      case Rejected => Submitted(cleared, Some(call))
  }

  /** The page and the form behave identically on every input: the same
      alerts and the same `signIn` call. They differ only in that the form
      navigates to the recipe list, and it does so exactly on success. */
  lemma AgreesWithLoginForm(prior: Feedback, email: string, password: string, reply: Settled<Option<AuthError>>)
    ensures var page := HandleSubmit(prior, email, password, reply);
      var form := LoginForm.HandleSubmit(prior, email, password, reply);
      && page.feedback == form.feedback
      && page.signIn == form.signIn
      && (form.navigateTo.Some? <==> page.feedback.success)
      && (form.navigateTo.Some? ==> form.navigateTo.value == LoginForm.RecipesRoute)
  {
  }
}
