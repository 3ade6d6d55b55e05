/** AuthViewModel: four result channels (auth, reset email, code verification,
    reset confirmation), a shared loading flag and the current user. Every
    operation follows one protocol: loading on, its own channel to Loading, the
    repository's result into that channel, loading off. A clear function resets
    one channel to null. */
module AuthViewModelModel {
  import opened Wrappers
  import opened AuthRepositoryModel

  const ContinueUrl: string := "https://hexenapp-backend.web.app/finishPasswordReset"

  /** The settings sendPasswordResetEmail builds: open the app for the link,
      install it if missing, minimum version "1". */
  function ResetSettings(packageName: string): (s: ActionCodeSettings)
    ensures s.url == ContinueUrl && s.handleCodeInApp && s.installIfNotAvailable
    ensures s.androidPackageName == packageName && s.minimumVersion == "1"
  {
    ActionCodeSettings(ContinueUrl, true, packageName, true, "1")
  }

  /** The Firebase requests the view model causes, in order. */
  datatype FirebaseCall =
    | CreateUser(email: string, password: string)
    | SignIn(email: string, password: string)
    | SignInWithCredential(credential: Credential)
    | GoogleSignOut
    | SignOut
    | SendResetEmail(email: string, settings: ActionCodeSettings)
    | VerifyCode(code: string)
    | ConfirmReset(code: string, newPassword: string)

  /** One observable step: a Firebase request or an assignment to a state flow. */
  datatype Event =
    | Called(call: FirebaseCall)
    | LoadingSet(loading: bool)
    | AuthSet(auth: Option<ResultWrapper<AuthResult>>)
    | ResetSet(reset: Option<ResultWrapper<Unit>>)
    | VerifySet(verify: Option<ResultWrapper<string>>)
    | ConfirmSet(confirm: Option<ResultWrapper<Unit>>)
    | UserSet(user: Option<SignedInUser>)

  datatype AuthState = AuthState(
    currentUser: Option<SignedInUser>,
    authResult: Option<ResultWrapper<AuthResult>>,
    resetPasswordResult: Option<ResultWrapper<Unit>>,
    verifyCodeResult: Option<ResultWrapper<string>>,
    confirmResetResult: Option<ResultWrapper<Unit>>,
    isLoading: bool)

  /** A channel at rest: null or a finished result, never Loading. */
  predicate AtRest<T>(channel: Option<ResultWrapper<T>>) {
    channel.None? || channel.value.IsTerminal()
  }

  /** No channel is left Loading. */
  predicate Settled(s: AuthState) {
    AtRest(s.authResult) && AtRest(s.resetPasswordResult) && AtRest(s.verifyCodeResult) && AtRest(s.confirmResetResult)
  }

  /** The events of one operation on the auth channel. */
  function AuthProtocol(call: FirebaseCall, result: ResultWrapper<AuthResult>): seq<Event> {
    [LoadingSet(true), AuthSet(Some(Loading)), Called(call), AuthSet(Some(result)), LoadingSet(false)]
  }

  class AuthViewModel {
    var currentUser: Option<SignedInUser>
    var authResult: Option<ResultWrapper<AuthResult>>
    var resetPasswordResult: Option<ResultWrapper<Unit>>
    var verifyCodeResult: Option<ResultWrapper<string>>
    var confirmResetResult: Option<ResultWrapper<Unit>>
    var isLoading: bool
    /** Everything the view model did, in order. */
    ghost var events: seq<Event>

    function State(): AuthState
      reads this
    {
      AuthState(currentUser, authResult, resetPasswordResult, verifyCodeResult, confirmResetResult, isLoading)
    }

    /** `init`: the repository's current user; every channel null. */
    constructor (initialUser: Option<SignedInUser>)
      ensures State() == AuthState(initialUser, None, None, None, None, false)
      ensures Settled(State())
      ensures events == [UserSet(initialUser)]
    {
      currentUser := initialUser;
      authResult := None;
      resetPasswordResult := None;
      verifyCodeResult := None;
      confirmResetResult := None;
      isLoading := false;
      events := [UserSet(initialUser)];
    }

    /** The current-user flow emits a user (or null when signed out). */
    method OnUserEmitted(user: Option<SignedInUser>)
      modifies this
      ensures State() == old(State()).(currentUser := user)
      ensures events == old(events) + [UserSet(user)]
    {
      currentUser := user;
      events := events + [UserSet(user)];
    }

    /** The current-user flow fails: the user becomes null. */
    method OnUserFlowFailed()
      modifies this
      ensures State() == old(State()).(currentUser := None)
      ensures events == old(events) + [UserSet(None)]
    {
      currentUser := None;
      events := events + [UserSet(None)];
    }

    method SetLoading(value: bool)
      modifies this
      ensures State() == old(State()).(isLoading := value)
      ensures events == old(events) + [LoadingSet(value)]
    {
      isLoading := value;
      events := events + [LoadingSet(value)];
    }

    method SetAuth(value: Option<ResultWrapper<AuthResult>>)
      modifies this
      ensures State() == old(State()).(authResult := value)
      ensures events == old(events) + [AuthSet(value)]
    {
      authResult := value;
      events := events + [AuthSet(value)];
    }

    method Call(call: FirebaseCall)
      modifies this
      ensures State() == old(State())
      ensures events == old(events) + [Called(call)]
    {
      events := events + [Called(call)];
    }

    /** The protocol shared by register, login and Google sign-in. */
    method RunAuth(call: FirebaseCall, outcome: TaskOutcome<AuthResult>)
      modifies this
      ensures State() == old(State()).(authResult := Some(Wrap(outcome)), isLoading := false)
      ensures events == old(events) + AuthProtocol(call, Wrap(outcome))
      ensures old(Settled(State())) ==> Settled(State())
    {
      SetLoading(true);
      SetAuth(Some(Loading));
      Call(call);
      var result := Wrap(outcome);
      SetAuth(Some(result));
      SetLoading(false);
    }

    /** `registerUser(email, password)`. */
    method RegisterUser(email: string, password: string, outcome: TaskOutcome<AuthResult>)
      modifies this
      ensures State() == old(State()).(authResult := Some(Wrap(outcome)), isLoading := false)
      ensures events == old(events) + AuthProtocol(CreateUser(email, password), Wrap(outcome))
      ensures old(Settled(State())) ==> Settled(State())
    {
      RunAuth(CreateUser(email, password), outcome);
    }

    /** `loginUser(email, password)`. */
    method LoginUser(email: string, password: string, outcome: TaskOutcome<AuthResult>)
      modifies this
      ensures State() == old(State()).(authResult := Some(Wrap(outcome)), isLoading := false)
      ensures events == old(events) + AuthProtocol(SignIn(email, password), Wrap(outcome))
      ensures old(Settled(State())) ==> Settled(State())
    {
      RunAuth(SignIn(email, password), outcome);
    }

    /** `signInWithGoogle(credential)`. */
    method SignInWithGoogle(credential: Credential, outcome: TaskOutcome<AuthResult>)
      modifies this
      ensures State() == old(State()).(authResult := Some(Wrap(outcome)), isLoading := false)
      ensures events == old(events) + AuthProtocol(SignInWithCredential(credential), Wrap(outcome))
      ensures old(Settled(State())) ==> Settled(State())
    {
      RunAuth(SignInWithCredential(credential), outcome);
    }

    /** `logoutUser(context)`: whatever the Google sign-out does, Firebase is
        signed out, authResult becomes null and loading ends. The current user
        is left to the user flow. */
    method LogoutUser(googleSignOut: TaskOutcome<Unit>)
      modifies this
      ensures State() == old(State()).(authResult := None, isLoading := false)
      ensures events == old(events) +
                [LoadingSet(true), Called(GoogleSignOut), Called(SignOut), AuthSet(None), LoadingSet(false)]
      ensures old(Settled(State())) ==> Settled(State())
    {
      SetLoading(true);
      Call(GoogleSignOut);
      match googleSignOut {
        case Completes(_) =>
        case Throws(_) =>
      }
      Call(SignOut);
      SetAuth(None);
      SetLoading(false);
    }

    /** `sendPasswordResetEmail(email)`, with the application's package name. */
    method SendPasswordResetEmail(email: string, packageName: string, outcome: TaskOutcome<Unit>)
      modifies this
      ensures State() == old(State()).(resetPasswordResult := Some(Wrap(outcome)), isLoading := false)
      ensures events == old(events) +
                [LoadingSet(true), ResetSet(Some(Loading)), Called(SendResetEmail(email, ResetSettings(packageName))),
                 ResetSet(Some(Wrap(outcome))), LoadingSet(false)]
      ensures old(Settled(State())) ==> Settled(State())
    {
      SetLoading(true);
      resetPasswordResult := Some(Loading);
      events := events + [ResetSet(Some(Loading))];
      Call(SendResetEmail(email, ResetSettings(packageName)));
      var result := Wrap(outcome);
      resetPasswordResult := Some(result);
      events := events + [ResetSet(Some(result))];
      SetLoading(false);
    }

    /** `verifyPasswordResetCode(actionCode)`. */
    method VerifyPasswordResetCode(code: string, outcome: TaskOutcome<Option<string>>)
      modifies this
      ensures State() == old(State()).(verifyCodeResult := Some(VerifyResult(outcome)), isLoading := false)
      ensures events == old(events) +
                [LoadingSet(true), VerifySet(Some(Loading)), Called(VerifyCode(code)),
                 VerifySet(Some(VerifyResult(outcome))), LoadingSet(false)]
      ensures old(Settled(State())) ==> Settled(State())
    {
      SetLoading(true);
      verifyCodeResult := Some(Loading);
      events := events + [VerifySet(Some(Loading))];
      Call(VerifyCode(code));
      var result := VerifyResult(outcome);
      verifyCodeResult := Some(result);
      events := events + [VerifySet(Some(result))];
      SetLoading(false);
    }

    /** `confirmPasswordReset(actionCode, newPassword)`. */
    method ConfirmPasswordReset(code: string, newPassword: string, outcome: TaskOutcome<Unit>)
      modifies this
      ensures State() == old(State()).(confirmResetResult := Some(Wrap(outcome)), isLoading := false)
      ensures events == old(events) +
                [LoadingSet(true), ConfirmSet(Some(Loading)), Called(ConfirmReset(code, newPassword)),
                 ConfirmSet(Some(Wrap(outcome))), LoadingSet(false)]
      ensures old(Settled(State())) ==> Settled(State())
    {
      SetLoading(true);
      confirmResetResult := Some(Loading);
      events := events + [ConfirmSet(Some(Loading))];
      Call(ConfirmReset(code, newPassword));
      var result := Wrap(outcome);
      confirmResetResult := Some(result);
      events := events + [ConfirmSet(Some(result))];
      SetLoading(false);
    }

    method ClearAuthResult()
      modifies this
      ensures State() == old(State()).(authResult := None)
      ensures events == old(events) + [AuthSet(None)]
      ensures old(Settled(State())) ==> Settled(State())
    {
      SetAuth(None);
    }

    method ClearResetPasswordResult()
      modifies this
      ensures State() == old(State()).(resetPasswordResult := None)
      ensures events == old(events) + [ResetSet(None)]
      ensures old(Settled(State())) ==> Settled(State())
    {
      resetPasswordResult := None;
      events := events + [ResetSet(None)];
    }

    method ClearVerifyCodeResult()
      modifies this
      ensures State() == old(State()).(verifyCodeResult := None)
      ensures events == old(events) + [VerifySet(None)]
      ensures old(Settled(State())) ==> Settled(State())
    {
      verifyCodeResult := None;
      events := events + [VerifySet(None)];
    }

    method ClearConfirmResetResult()
      modifies this
      ensures State() == old(State()).(confirmResetResult := None)
      ensures events == old(events) + [ConfirmSet(None)]
      ensures old(Settled(State())) ==> Settled(State())
    {
      confirmResetResult := None;
      events := events + [ConfirmSet(None)];
    }
  }

  /** The state an event leaves: an assignment to a flow replaces that flow,
      a Firebase request changes nothing. */
  function Apply(s: AuthState, e: Event): AuthState {
    match e
    case Called(_) => s
    case LoadingSet(b) => s.(isLoading := b)
    case AuthSet(a) => s.(authResult := a)
    case ResetSet(r) => s.(resetPasswordResult := r)
    case VerifySet(v) => s.(verifyCodeResult := v)
    case ConfirmSet(c) => s.(confirmResetResult := c)
    case UserSet(u) => s.(currentUser := u)
  }

  /** The state after the events, applied in order. */
  function Replay(s: AuthState, es: seq<Event>): AuthState
    decreases |es|
  {
    if |es| == 0 then s else Apply(Replay(s, es[..|es| - 1]), es[|es| - 1])
  }

  /** Replaying one auth operation's events from any state gives the state
      RunAuth leaves, and an observer that reads the flows between any two of
      its assignments never sees loading off while a channel holds Loading:
      the Loading marker appears only while loading is on and is overwritten
      by a terminal result before loading ends. */
  lemma {:induction false} AuthProtocolShape(s: AuthState, call: FirebaseCall, outcome: TaskOutcome<AuthResult>)
    ensures Replay(s, AuthProtocol(call, Wrap(outcome))) == s.(authResult := Some(Wrap(outcome)), isLoading := false)
    ensures Settled(s) ==>
              forall k :: 0 <= k <= |AuthProtocol(call, Wrap(outcome))| &&
                          !Replay(s, AuthProtocol(call, Wrap(outcome))[..k]).isLoading ==>
                            Settled(Replay(s, AuthProtocol(call, Wrap(outcome))[..k]))
  {
    var r := Wrap(outcome);
    var es := AuthProtocol(call, r);
    assert es[..0] == [];
    assert es[..1][..0] == es[..0];
    assert es[..2][..1] == es[..1];
    assert es[..3][..2] == es[..2];
    assert es[..4][..3] == es[..3];
    assert es[..5][..4] == es[..4];
    assert es[..5] == es;
    var s1 := s.(isLoading := true);
    assert Replay(s, es[..1]) == s1;
    assert Replay(s, es[..2]) == s1.(authResult := Some(Loading));
    assert Replay(s, es[..3]) == s1.(authResult := Some(Loading));
    assert Replay(s, es[..4]) == s1.(authResult := Some(r));
    assert Replay(s, es[..5]) == s.(authResult := Some(r), isLoading := false);
  }
}
