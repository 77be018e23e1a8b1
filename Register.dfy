/**
 * The registration page's submit handler: three guards checked in order
 * (all fields filled in, passwords equal, terms accepted), then the
 * `register` call, whose failure is turned into a toast by a switch on the
 * error code.
 */
module Register {
  import opened Wrappers
  import opened Auth

  const FillAllMessage: string := "Please fill in all fields"
  const MismatchMessage: string := "Passwords do not match"
  const TermsMessage: string := "Please accept the terms and conditions"
  const SuccessMessage: string := "Registration successful"

  const EmailInUseMessage: string := "Email already in use. Please login instead."
  const InvalidEmailMessage: string := "Invalid email address." + " Please check and try again."
  const WeakPasswordMessage: string := "Password is too weak." + " Please use a stronger password."
  const DisabledMessage: string := "Registration is currently disabled." + " Please try again later."
  const FailedPrefix: string := "Registration failed: "
  const GenericFailure: string := "Registration failed. Please try again later."

  /** The codes the switch has a case for. */
  const ListedCodes: set<string> :=
    {"auth/email-already-in-use", "auth/invalid-email", "auth/weak-password", "auth/operation-not-allowed"}

  /** The toast text for a failed `register` call. */
  function ErrorMessage(e: AuthError): string {
    match e
    case OtherError => GenericFailure
    case FirebaseError(code, message) =>
      if code == "auth/email-already-in-use" then EmailInUseMessage
      else if code == "auth/invalid-email" then InvalidEmailMessage
      else if code == "auth/weak-password" then WeakPasswordMessage
      else if code == "auth/operation-not-allowed" then DisabledMessage
      else FailedPrefix + message
  }

  /** The branch of the switch an error falls into. */
  function CauseOf(e: AuthError): Cause {
    match e
    case OtherError => NotFirebase
    case FirebaseError(code, message) => if code in ListedCodes then Listed(code) else Unlisted(message)
  }

  /** The four listed codes have their own messages, whatever the error's message. */
  lemma ListedCodeMessages(m: string)
    ensures ErrorMessage(FirebaseError("auth/email-already-in-use", m)) == EmailInUseMessage
    ensures ErrorMessage(FirebaseError("auth/invalid-email", m)) == InvalidEmailMessage
    ensures ErrorMessage(FirebaseError("auth/weak-password", m)) == WeakPasswordMessage
    ensures ErrorMessage(FirebaseError("auth/operation-not-allowed", m)) == DisabledMessage
  {
  }

  /** Any other Firebase code reports the error's own message after the prefix; a non-Firebase error the generic text. */
  lemma OtherErrorMessages(e: AuthError)
    ensures e.FirebaseError? && e.code !in ListedCodes ==> ErrorMessage(e) == FailedPrefix + e.message
    ensures e.OtherError? ==> ErrorMessage(e) == GenericFailure
  {
  }

  /** The four fixed failure texts and the generic one are pairwise different. */
  lemma FixedMessagesDistinct()
    ensures EmailInUseMessage != InvalidEmailMessage && EmailInUseMessage != WeakPasswordMessage
    ensures EmailInUseMessage != DisabledMessage && EmailInUseMessage != GenericFailure
    ensures InvalidEmailMessage != WeakPasswordMessage && InvalidEmailMessage != DisabledMessage
    ensures InvalidEmailMessage != GenericFailure
    ensures WeakPasswordMessage != DisabledMessage && WeakPasswordMessage != GenericFailure
    ensures DisabledMessage != GenericFailure
  {
    assert EmailInUseMessage[0] == 'E' && InvalidEmailMessage[0] == 'I' && WeakPasswordMessage[0] == 'P';
    assert DisabledMessage[0] == 'R' && GenericFailure[0] == 'R';
    assert DisabledMessage[13] == 'i' && GenericFailure[13] == 'f';
    DifferAt(EmailInUseMessage, InvalidEmailMessage, 0);
    DifferAt(EmailInUseMessage, WeakPasswordMessage, 0);
    DifferAt(EmailInUseMessage, DisabledMessage, 0);
    DifferAt(EmailInUseMessage, GenericFailure, 0);
    DifferAt(InvalidEmailMessage, WeakPasswordMessage, 0);
    DifferAt(InvalidEmailMessage, DisabledMessage, 0);
    DifferAt(InvalidEmailMessage, GenericFailure, 0);
    DifferAt(WeakPasswordMessage, DisabledMessage, 0);
    DifferAt(WeakPasswordMessage, GenericFailure, 0);
    DifferAt(DisabledMessage, GenericFailure, 13);
  }

  /** A text made from the prefix is none of the fixed ones. */
  lemma PrefixedIsNotFixed(m: string)
    ensures FailedPrefix + m != EmailInUseMessage && FailedPrefix + m != InvalidEmailMessage
    ensures FailedPrefix + m != WeakPasswordMessage && FailedPrefix + m != DisabledMessage
    ensures FailedPrefix + m != GenericFailure
  {
    var s := FailedPrefix + m;
    assert s[0] == 'R' && s[13] == 'f' && s[19] == ':';
    assert EmailInUseMessage[0] == 'E' && InvalidEmailMessage[0] == 'I' && WeakPasswordMessage[0] == 'P';
    assert DisabledMessage[13] == 'i' && GenericFailure[19] == '.';
    DifferAt(s, EmailInUseMessage, 0);
    DifferAt(s, InvalidEmailMessage, 0);
    DifferAt(s, WeakPasswordMessage, 0);
    DifferAt(s, DisabledMessage, 13);
    DifferAt(s, GenericFailure, 19);
  }

  /**
   * The toast tells the branches apart: equal toasts come from the same
   * listed code, from unlisted codes with the same message, or both from
   * non-Firebase errors.
   */
  lemma ToastDeterminesCause(e1: AuthError, e2: AuthError)
    requires ErrorMessage(e1) == ErrorMessage(e2)
    ensures CauseOf(e1) == CauseOf(e2)
  {
    FixedMessagesDistinct();
    if e1.FirebaseError? { PrefixedIsNotFixed(e1.message); }
    if e2.FirebaseError? { PrefixedIsNotFixed(e2.message); }
    if e1.FirebaseError? && e2.FirebaseError? && e1.code !in ListedCodes && e2.code !in ListedCodes {
      PrefixInjective(FailedPrefix, e1.message, e2.message);
    }
  }

  /** Conversely, errors from the same branch of the switch give the same toast. */
  lemma CauseDeterminesToast(e1: AuthError, e2: AuthError)
    requires CauseOf(e1) == CauseOf(e2)
    ensures ErrorMessage(e1) == ErrorMessage(e2)
  {
  }

  /** All three guards pass. */
  predicate Ready(email: string, password: string, confirm: string, acceptTerms: bool) {
    email != [] && password != [] && confirm != [] && password == confirm && acceptTerms
  }

  /** `handleSubmit`, with the outcome of `register(email, password)` given as `call`. */
  function Submit(email: string, password: string, confirm: string, acceptTerms: bool, call: CallResult): (r: Outcome)
    ensures email == [] || password == [] || confirm == [] ==> r == Refused(FillAllMessage)
    ensures email != [] && password != [] && confirm != [] && password != confirm ==> r == Refused(MismatchMessage)
    ensures email != [] && password != [] && confirm != [] && password == confirm && !acceptTerms ==>
              r == Refused(TermsMessage)
    ensures r.called <==> Ready(email, password, confirm, acceptTerms)
    ensures r.route.Some? <==> Ready(email, password, confirm, acceptTerms) && call.Succeeded?
    ensures r.route.Some? ==> r.route.value == TradeRoute && r.toast == SuccessToast(SuccessMessage)
    ensures r.called && call.Failed? ==> r.toast == ErrorToast(ErrorMessage(call.error))
  {
    if email == [] || password == [] || confirm == [] then Refused(FillAllMessage)
    else if password != confirm then Refused(MismatchMessage)
    else if !acceptTerms then Refused(TermsMessage)
    else match call
      case Succeeded => Outcome(true, SuccessToast(SuccessMessage), Some(TradeRoute))
      case Failed(error) => Outcome(true, ErrorToast(ErrorMessage(error)), None)
  }

  /** When a guard stops the submission, what `register` would have done plays no part. */
  lemma RefusalIgnoresCall(email: string, password: string, confirm: string, acceptTerms: bool, c1: CallResult, c2: CallResult)
    requires !Ready(email, password, confirm, acceptTerms)
    ensures Submit(email, password, confirm, acceptTerms, c1) == Submit(email, password, confirm, acceptTerms, c2)
  {
  }

  /** Filling in every field is checked before the passwords are compared: empty fields never report a mismatch. */
  lemma EmptyBeforeMismatch(email: string, password: string, acceptTerms: bool, call: CallResult)
    ensures Submit(email, password, "", acceptTerms, call).toast == ErrorToast(FillAllMessage)
    ensures password != [] && email != [] ==>
              Submit(email, password, password + "x", acceptTerms, call).toast == ErrorToast(MismatchMessage)
  {
  }
}
