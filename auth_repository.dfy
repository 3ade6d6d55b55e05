/** The Firebase wrapper behind the authentication screens. Firebase itself is
    an input: each call is given the outcome its task would complete with. Every
    wrapper turns that outcome into a ResultWrapper that is Success or Error,
    never Loading. */
module AuthRepositoryModel {
  import opened Wrappers

  /** How an awaited Firebase task ends: with a value or by throwing. */
  datatype TaskOutcome<+T> = Completes(value: T) | Throws(exception: Exception)

  /** The signed-in account as the screens see it. */
  datatype SignedInUser = SignedInUser(uid: string, email: Option<string>)

  /** Firebase's AuthResult: the account the sign-in produced. */
  datatype AuthResult = AuthResult(user: SignedInUser)

  /** An opaque Google sign-in credential. */
  datatype Credential = Credential(idToken: string)

  /** The link settings of a password-reset email. */
  datatype ActionCodeSettings = ActionCodeSettings(
    url: string,
    handleCodeInApp: bool,
    androidPackageName: string,
    installIfNotAvailable: bool,
    minimumVersion: string)

  const EmailNotFound: string := "Gagal memverifikasi kode, email tidak ditemukan."

  /** `try { Success(task.await()) } catch (e) { Error(e) }`, the shape of
      register, login, Google sign-in, the reset email and the reset confirm. */
  function Wrap<T>(outcome: TaskOutcome<T>): (r: ResultWrapper<T>)
    ensures r.IsTerminal()
    ensures r.Success? <==> outcome.Completes?
    ensures r.Success? ==> r.value == outcome.value
    ensures r.Error? ==> r.exception == outcome.exception
  {
    match outcome
    case Completes(v) => Success(v)
    case Throws(e) => Error(e)
  }

  /** `verifyPasswordResetCode(code)`: the account's email, or an error when
      the task throws or yields no email. */
  function VerifyResult(outcome: TaskOutcome<Option<string>>): (r: ResultWrapper<string>)
    ensures r.IsTerminal()
    ensures r.Success? <==> outcome.Completes? && outcome.value.Some?
    ensures r.Success? ==> r.value == outcome.value.value
    ensures outcome.Completes? && outcome.value.None? ==> r == Error(Fail(EmailNotFound))
    ensures outcome.Throws? ==> r == Error(outcome.exception)
  {
    match outcome
    case Completes(Some(email)) => Success(email)
    case Completes(None) => Error(Fail(EmailNotFound))
    case Throws(e) => Error(e)
  }
}
