/**
 * What the login and registration pages share: the error an authentication
 * call can fail with, the result of that call (supplied from outside, since
 * the call itself goes to the identity provider), and what a form submission
 * ends in: whether the call was made, the toast shown and the route pushed.
 */
module Auth {
  import opened Wrappers

  /** A `FirebaseError` carries a code and a message; anything else thrown is `OtherError`. */
  datatype AuthError = FirebaseError(code: string, message: string) | OtherError

  /** How the awaited `login` / `register` call ended. */
  datatype CallResult = Succeeded | Failed(error: AuthError)

  datatype Toast = SuccessToast(text: string) | ErrorToast(text: string)

  /** The effect of one submission. */
  datatype Outcome = Outcome(called: bool, toast: Toast, route: Option<string>)

  /** Where a successful login or registration navigates. */
  const TradeRoute: string := "/trade"

  /** A guard failed: an error toast, no call, no navigation. */
  function Refused(message: string): (r: Outcome)
    ensures !r.called && r.route.None? && r.toast == ErrorToast(message)
  {
    Outcome(false, ErrorToast(message), None)
  }

  /** Which branch of an error-code switch produced a toast. */
  datatype Cause = Listed(code: string) | Unlisted(message: string) | NotFirebase

  /** Two words that differ at some index inside both differ. */
  lemma DifferAt(s: string, t: string, i: nat)
    requires i < |s| && i < |t| && s[i] != t[i]
    ensures s != t
  {
  }

  /** A prefix followed by different tails gives different strings. */
  lemma PrefixInjective(p: string, m1: string, m2: string)
    requires p + m1 == p + m2
    ensures m1 == m2
  {
    assert m1 == (p + m1)[|p|..];
    assert m2 == (p + m2)[|p|..];
  }
}
