/** The registration page: the four-field validation chain, `signUp` with
    e-mail and password only, and a follow-up profile write for the first and
    last name when the auth context holds a user id. */
module RegisterPage {
  import opened Common
  import opened Types
  import opened Validation

  const RegistrationFailedMessage := "Registration failed."
  const ProfileSaveFailedMessage := "Failed to save profile info."

  /** The four controlled inputs of the form. */
  datatype Fields = Fields(firstName: string, lastName: string, email: string, password: string)

  /** What one submit produced: the alerts afterwards, the `signUp` call made
      (if any) and the `updateUserProfile` call made (if any). */
  datatype Submitted = Submitted(feedback: Feedback, signUp: Option<Credentials>, profileWrite: Option<ProfileCall>)

  /** `user && user.id`: a user is held and its id is a non-empty string. */
  predicate HoldsUserId(heldUserId: Option<string>)
  {
    heldUserId.Some? && heldUserId.value != ""
  }

  /** `handleSubmit`. `reply` is how the `signUp` promise settles (resolving to
      `{error}`, or throwing); `heldUserId` is the
      id of the auth context's user as the handler sees it; `write` is how the
      awaited `updateUserProfile` call settles. Each is consulted only when the
      corresponding call is made. */
  function HandleSubmit(prior: Feedback, f: Fields, reply: Settled<Option<AuthError>>, heldUserId: Option<string>,
                        write: Settled<Option<User>>): (o: Submitted)
    // sign-up happens exactly when validation passes, with e-mail and password only
    ensures o.signUp.Some? <==> ValidateRegistration(f.firstName, f.lastName, f.email, f.password).None?
    ensures o.signUp.Some? ==> o.signUp.value == Credentials(f.email, f.password)
    ensures o.signUp.None? ==>
      && o.feedback == Feedback(ValidateRegistration(f.firstName, f.lastName, f.email, f.password), false)
      && o.profileWrite.None?
    // a rejected sign-up shows its message or the fallback, and writes no profile
    ensures o.signUp.Some? && reply.Resolved? && reply.value.Some? ==>
      && o.feedback == Feedback(Some(MessageOr(reply.value.value, RegistrationFailedMessage)), false)
      && o.profileWrite.None?
    // a thrown sign-up escapes the handler: cleared alerts and no profile write
    ensures o.signUp.Some? && reply.Rejected? ==> o.feedback == Feedback(None, false) && o.profileWrite.None?
    // the profile write happens exactly after an accepted sign-up with a user id held
    ensures o.profileWrite.Some? <==> o.signUp.Some? && reply == Resolved(None) && HoldsUserId(heldUserId)
    ensures o.profileWrite.Some? ==> o.profileWrite.value == ProfileCall(heldUserId.value, f.firstName, f.lastName)
    // after an accepted sign-up, only a thrown profile write withholds success
    ensures o.signUp.Some? && reply == Resolved(None) ==>
      o.feedback == (if o.profileWrite.Some? && write.Rejected? then Feedback(Some(ProfileSaveFailedMessage), false)
                     else Feedback(None, true))
  {
    var cleared := prior.(error := None, success := false);
    var invalid := ValidateRegistration(f.firstName, f.lastName, f.email, f.password);
    if invalid.Some? then
      Submitted(cleared.(error := invalid), None, None)
    else
      var call := Credentials(f.email, f.password);
      match reply
      case Rejected =>
        Submitted(cleared, Some(call), None)
      case Resolved(Some(e)) =>
        Submitted(cleared.(error := Some(MessageOr(e, RegistrationFailedMessage))), Some(call), None)
      case Resolved(None) =>
        if HoldsUserId(heldUserId) then
          var profile := ProfileCall(heldUserId.value, f.firstName, f.lastName);
          if write.Rejected? then
            Submitted(cleared.(error := Some(ProfileSaveFailedMessage)), Some(call), Some(profile))
          else
            Submitted(cleared.(success := true), Some(call), Some(profile))
        else
          Submitted(cleared.(success := true), Some(call), None)
  }

  /** Success is shown exactly when validation passed, sign-up was accepted
      and no profile write threw; in particular a profile write that resolves
      to `null` (the service's own error path) still reports success. */
  lemma SuccessExactly(prior: Feedback, f: Fields, reply: Settled<Option<AuthError>>, heldUserId: Option<string>,
                       write: Settled<Option<User>>)
    ensures var o := HandleSubmit(prior, f, reply, heldUserId, write);
      o.feedback.success <==>
        && ValidateRegistration(f.firstName, f.lastName, f.email, f.password).None?
        && reply == Resolved(None)
        && !(HoldsUserId(heldUserId) && write.Rejected?)
    ensures HandleSubmit(prior, f, reply, heldUserId, Resolved(None)).feedback.success
      <==> HandleSubmit(prior, f, reply, heldUserId, Resolved(None)).signUp.Some? && reply == Resolved(None)
  {
  }
}
