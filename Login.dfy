/**
 * The login page's submit handler: one guard (both fields filled in), then
 * the `login` call, whose failure is turned into a toast by a switch on the
 * error code.
 */
module Login {
  import opened Wrappers
  import opened Auth

  const MissingFieldsMessage: string := "Please enter both email and password"
  const SuccessMessage: string := "Login successful"

  const InvalidCredentialMessage: string := "Invalid email or password. Please try again."
  const UserNotFoundMessage: string := "No account found with this email." + " Please register first."
  const WrongPasswordMessage: string := "Incorrect password. Please try again."
  const TooManyRequestsMessage: string := "Too many failed login attempts." + " Please try again later."
  const FailedPrefix: string := "Login failed: "
  const GenericFailure: string := "Login failed. Please try again later."

  /** The codes the switch has a case for. */
  const ListedCodes: set<string> :=
    {"auth/invalid-credential", "auth/user-not-found", "auth/wrong-password", "auth/too-many-requests"}

  /** The toast text for a failed `login` call. */
  function ErrorMessage(e: AuthError): string {
    match e
    case OtherError => GenericFailure
    case FirebaseError(code, message) =>
      if code == "auth/invalid-credential" then InvalidCredentialMessage
      else if code == "auth/user-not-found" then UserNotFoundMessage
      else if code == "auth/wrong-password" then WrongPasswordMessage
      else if code == "auth/too-many-requests" then TooManyRequestsMessage
      else FailedPrefix + message
  }

  /** The branch of the switch an error falls into. */
  function CauseOf(e: AuthError): Cause {
    match e
    case OtherError => NotFirebase
    case FirebaseError(code, message) => if code in ListedCodes then Listed(code) else Unlisted(message)
  }

  /** The four listed codes have their own messages, whatever the error's message. */
  lemma ListedCodeMessages(m: string)
    ensures ErrorMessage(FirebaseError("auth/invalid-credential", m)) == InvalidCredentialMessage
    ensures ErrorMessage(FirebaseError("auth/user-not-found", m)) == UserNotFoundMessage
    ensures ErrorMessage(FirebaseError("auth/wrong-password", m)) == WrongPasswordMessage
    ensures ErrorMessage(FirebaseError("auth/too-many-requests", m)) == TooManyRequestsMessage
  {
  }

  /** Any other Firebase code reports the error's own message after the prefix; a non-Firebase error the generic text. */
  lemma OtherErrorMessages(e: AuthError)
    ensures e.FirebaseError? && e.code !in ListedCodes ==> ErrorMessage(e) == FailedPrefix + e.message
    ensures e.OtherError? ==> ErrorMessage(e) == GenericFailure
  {
  }

  /** The four fixed failure texts and the generic one are pairwise different. */
  lemma FixedMessagesDistinct()
    ensures InvalidCredentialMessage != UserNotFoundMessage && InvalidCredentialMessage != WrongPasswordMessage
    ensures InvalidCredentialMessage != TooManyRequestsMessage && InvalidCredentialMessage != GenericFailure
    ensures UserNotFoundMessage != WrongPasswordMessage && UserNotFoundMessage != TooManyRequestsMessage
    ensures UserNotFoundMessage != GenericFailure
    ensures WrongPasswordMessage != TooManyRequestsMessage && WrongPasswordMessage != GenericFailure
    ensures TooManyRequestsMessage != GenericFailure
  {
    assert InvalidCredentialMessage[0] == 'I' && InvalidCredentialMessage[2] == 'v';
    assert WrongPasswordMessage[0] == 'I' && WrongPasswordMessage[2] == 'c';
    assert UserNotFoundMessage[0] == 'N' && TooManyRequestsMessage[0] == 'T' && GenericFailure[0] == 'L';
    DifferAt(InvalidCredentialMessage, UserNotFoundMessage, 0);
    DifferAt(InvalidCredentialMessage, WrongPasswordMessage, 2);
    DifferAt(InvalidCredentialMessage, TooManyRequestsMessage, 0);
    DifferAt(InvalidCredentialMessage, GenericFailure, 0);
    DifferAt(UserNotFoundMessage, WrongPasswordMessage, 0);
    DifferAt(UserNotFoundMessage, TooManyRequestsMessage, 0);
    DifferAt(UserNotFoundMessage, GenericFailure, 0);
    DifferAt(WrongPasswordMessage, TooManyRequestsMessage, 0);
    DifferAt(WrongPasswordMessage, GenericFailure, 0);
    DifferAt(TooManyRequestsMessage, GenericFailure, 0);
  }

  /** A text made from the prefix is none of the fixed ones. */
  lemma PrefixedIsNotFixed(m: string)
    ensures FailedPrefix + m != InvalidCredentialMessage && FailedPrefix + m != UserNotFoundMessage
    ensures FailedPrefix + m != WrongPasswordMessage && FailedPrefix + m != TooManyRequestsMessage
    ensures FailedPrefix + m != GenericFailure
  {
    var s := FailedPrefix + m;
    assert s[0] == 'L' && s[12] == ':';
    assert InvalidCredentialMessage[0] == 'I' && WrongPasswordMessage[0] == 'I';
    assert UserNotFoundMessage[0] == 'N' && TooManyRequestsMessage[0] == 'T' && GenericFailure[12] == '.';
    DifferAt(s, InvalidCredentialMessage, 0);
    DifferAt(s, UserNotFoundMessage, 0);
    DifferAt(s, WrongPasswordMessage, 0);
    DifferAt(s, TooManyRequestsMessage, 0);
    DifferAt(s, GenericFailure, 12);
  }

  /**
   * The toast tells the branches apart: equal toasts come from the same
   * listed code, from unlisted codes with the same message, or both from
   * non-Firebase errors.
   */
  lemma ToastDeterminesCause(e1: AuthError, e2: AuthError)
    requires ErrorMessage(e1) == ErrorMessage(e2)
    ensures CauseOf(e1) == CauseOf(e2)
  {
    FixedMessagesDistinct();
    if e1.FirebaseError? { PrefixedIsNotFixed(e1.message); }
    if e2.FirebaseError? { PrefixedIsNotFixed(e2.message); }
    if e1.FirebaseError? && e2.FirebaseError? && e1.code !in ListedCodes && e2.code !in ListedCodes {
      PrefixInjective(FailedPrefix, e1.message, e2.message);
    }
  }

  /** Conversely, errors from the same branch of the switch give the same toast. */
  lemma CauseDeterminesToast(e1: AuthError, e2: AuthError)
    requires CauseOf(e1) == CauseOf(e2)
    ensures ErrorMessage(e1) == ErrorMessage(e2)
  {
  }

  /** `handleSubmit`, with the outcome of `login(email, password)` given as `call`. */
  function Submit(email: string, password: string, call: CallResult): (r: Outcome)
    ensures email == [] || password == [] ==> r == Refused(MissingFieldsMessage)
    ensures r.called <==> email != [] && password != []
    ensures r.route.Some? <==> email != [] && password != [] && call.Succeeded?
    ensures r.route.Some? ==> r.route.value == TradeRoute && r.toast == SuccessToast(SuccessMessage)
    ensures r.called && call.Failed? ==> r.toast == ErrorToast(ErrorMessage(call.error))
  {
    if email == [] || password == [] then Refused(MissingFieldsMessage)
    else match call
      case Succeeded => Outcome(true, SuccessToast(SuccessMessage), Some(TradeRoute))
      case Failed(error) => Outcome(true, ErrorToast(ErrorMessage(error)), None)
  }

  /** With a field empty, what `login` would have done plays no part. */
  lemma RefusalIgnoresCall(email: string, password: string, c1: CallResult, c2: CallResult)
    requires email == [] || password == []
    ensures Submit(email, password, c1) == Submit(email, password, c2)
  {
  }

  /** A failed login never navigates, whatever the error. */
  lemma FailureStaysOnPage(email: string, password: string, e: AuthError)
    ensures Submit(email, password, Failed(e)).route == None
    ensures Submit(email, password, Failed(e)).toast.ErrorToast?
  {
  }
}
