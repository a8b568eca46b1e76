/** The sign-up page's submit handler: the two password checks, in their order, and
    the call to the provider's signup when both pass. */
module SignupPage {
  import AC = AuthContext

  const MinPasswordLength: nat := 6
  const PasswordsDiffer := "Passwords do not match"
  const PasswordTooShort := "Password must be at least 6 characters"

  /** The message the checks raise, or "" when both pass: a mismatch is reported
      before a short password. */
  function PasswordError(password: string, confirmPassword: string): (e: string)
    ensures password != confirmPassword ==> e == PasswordsDiffer
    ensures password == confirmPassword && |password| < MinPasswordLength ==> e == PasswordTooShort
    ensures e == "" <==> password == confirmPassword && |password| >= MinPasswordLength
  {
    if password != confirmPassword then PasswordsDiffer
    else if |password| < MinPasswordLength then PasswordTooShort
    else ""
  }

  /** The page after a submit: the error shown, whether it is loading, and whether
      signup was called. */
  datatype PageState = PageState(error: string, loading: bool, calledSignup: bool)

  /** handleSubmit, given the loading flag before the submit and what signup would
      return: the error is cleared first; a failed check shows its message and returns
      early; otherwise signup is called, a failure shows its error, and loading ends
      false. */
  function HandleSubmit(password: string, confirmPassword: string, wasLoading: bool, signupResult: AC.AuthResult): (s: PageState)
    ensures s.calledSignup <==> PasswordError(password, confirmPassword) == ""
    ensures !s.calledSignup ==> s.error == PasswordError(password, confirmPassword) && s.loading == wasLoading
    ensures s.calledSignup ==> !s.loading && s.error == (if signupResult.Failure? then signupResult.error else "")
  {
    var e := PasswordError(password, confirmPassword);
    if e != "" then PageState(e, wasLoading, false)
    else PageState(if signupResult.Failure? then signupResult.error else "", false, true)
  }

  /** The result signup hands back for a decision of the provider. */
  function SignupResult(d: AC.SignupOutcome): (r: AC.AuthResult)
    ensures r == AC.Success <==> d.Registered?
    ensures d.Rejected? ==> r == AC.Failure(d.error)
  {
    match d
    case Rejected(e) => AC.Failure(e)
    case Registered(_, _) => AC.Success
  }

  /** Submitting matching passwords of at least six characters with a new email
      shows no error and registers the user; with an email already stored it shows
      "Email already registered"; a mismatch never reaches registration whatever the
      stored users are. */
  lemma SubmitOutcome(users: seq<AC.StoredUser>, name: string, email: string, password: string, confirmPassword: string, newId: string)
    ensures var d := AC.SignupDecision(users, name, email, password, newId);
      var s := HandleSubmit(password, confirmPassword, false, SignupResult(d));
      && (password != confirmPassword ==> s == PageState(PasswordsDiffer, false, false))
      && (password == confirmPassword && |password| >= MinPasswordLength ==>
            (s.error == "" <==> forall j :: 0 <= j < |users| ==> users[j].email != email))
      && (password == confirmPassword && |password| >= MinPasswordLength && s.error != "" ==> s.error == AC.EmailRegistered)
  {
  }
}
