/** The registration screen: the input guard in front of `registerUser` and
    the reaction to the auth result. */
module RegisterScreenModel {
  import opened Wrappers
  import opened Text
  import opened AuthRepositoryModel
  import opened AuthViewModelModel
  import opened AppNavigationModel
  import opened SubmitPathModel

  const PasswordMismatch: string := "Password tidak cocok!"
  const FieldsRequired: string := "Semua field harus diisi"
  const RegisterSucceeded: string := "Registrasi berhasil!"
  const RegisterFailedPrefix: string := "Registrasi gagal: "

  /** What one submission does: register, or show a message. */
  datatype RegisterSubmission = RegisterWith(email: string, password: string) | Refuse(message: string)

  /** The rule written out in both the Done-key handler and the button's onClick. */
  function RegisterDecision(email: string, password: string, confirmPassword: string): RegisterSubmission {
    if !IsBlank(email) && !IsBlank(password) && !IsBlank(confirmPassword) then
      if password == confirmPassword then RegisterWith(email, password) else Refuse(PasswordMismatch)
    else Refuse(FieldsRequired)
  }

  /** registerUser is called exactly when all three fields are non-blank and
      the passwords are equal, with the email and password as typed; unequal
      non-blank passwords give the mismatch message; any blank field gives
      the "all fields" message, whether or not the passwords agree. */
  lemma RegisterDecisionSpec(email: string, password: string, confirmPassword: string)
    ensures RegisterDecision(email, password, confirmPassword).RegisterWith? <==>
              !IsBlank(email) && !IsBlank(password) && !IsBlank(confirmPassword) && password == confirmPassword
    ensures RegisterDecision(email, password, confirmPassword).RegisterWith? ==>
              RegisterDecision(email, password, confirmPassword) == RegisterWith(email, password)
    ensures !IsBlank(email) && !IsBlank(password) && !IsBlank(confirmPassword) && password != confirmPassword ==>
              RegisterDecision(email, password, confirmPassword) == Refuse(PasswordMismatch)
    ensures IsBlank(email) || IsBlank(password) || IsBlank(confirmPassword) ==>
              RegisterDecision(email, password, confirmPassword) == Refuse(FieldsRequired)
  {
  }

  /** A submission through one path: nothing when the path is unusable. */
  function Submit(path: SubmitPath, isLoading: bool, email: string, password: string, confirmPassword: string)
    : Option<RegisterSubmission>
  {
    if Usable(path, isLoading) then Some(RegisterDecision(email, password, confirmPassword))
    else None
  }

  /** Both paths apply the identical rule whenever they can be used; only the
      button disappears while loading. */
  lemma SubmitPathsAgree(isLoading: bool, email: string, password: string, confirmPassword: string)
    ensures Submit(DoneKey, isLoading, email, password, confirmPassword) ==
            Some(RegisterDecision(email, password, confirmPassword))
    ensures !isLoading ==>
              Submit(Button, isLoading, email, password, confirmPassword) ==
              Submit(DoneKey, isLoading, email, password, confirmPassword)
    ensures isLoading ==> Submit(Button, isLoading, email, password, confirmPassword).None?
  {
  }

  /** What the screen does for an auth result: a message, where it navigates
      (with the register screen popped), and whether it clears the result. */
  datatype RegisterReaction = RegisterReaction(toast: Option<string>, navigateTo: Option<string>, clear: bool)

  function RegisterReactionFor(result: Option<ResultWrapper<AuthResult>>): RegisterReaction {
    match result
    case Some(Success(_)) => RegisterReaction(Some(RegisterSucceeded), Some(ItemList), true)
    case Some(Error(e)) => RegisterReaction(Some(RegisterFailedPrefix + MessageText(e)), None, true)
    case Some(Loading) => RegisterReaction(None, None, false)
    case None => RegisterReaction(None, None, false)
  }

  /** Success goes to the item list and clears; Error only reports and
      clears; Loading and null do nothing. */
  lemma RegisterReactionSpec(result: Option<ResultWrapper<AuthResult>>)
    ensures RegisterReactionFor(result).navigateTo.Some? <==> result.Some? && result.value.Success?
    ensures RegisterReactionFor(result).navigateTo.Some? ==> RegisterReactionFor(result).navigateTo.value == ItemList
    ensures RegisterReactionFor(result).clear <==> result.Some? && result.value.IsTerminal()
    ensures RegisterReactionFor(result).toast.None? <==> !RegisterReactionFor(result).clear
    ensures result.Some? && result.value.Error? ==>
              RegisterReactionFor(result).toast == Some(RegisterFailedPrefix + MessageText(result.value.exception))
  {
  }

  /** `LaunchedEffect(authResult)`, applied to the view model. */
  method HandleAuthResult(vm: AuthViewModel) returns (r: RegisterReaction)
    modifies vm
    ensures r == RegisterReactionFor(old(vm.authResult))
    ensures r.clear ==> vm.State() == old(vm.State()).(authResult := None)
    ensures !r.clear ==> vm.State() == old(vm.State()) && vm.events == old(vm.events)
  {
    r := RegisterReactionFor(vm.authResult);
    if r.clear {
      vm.ClearAuthResult();
    }
  }

  /** Registering through the screen runs the view model's auth protocol with
      CreateUser on the typed email and password, and nothing otherwise. */
  method SubmitRegistration(vm: AuthViewModel, path: SubmitPath, email: string, password: string,
                            confirmPassword: string, outcome: TaskOutcome<AuthResult>)
    returns (d: Option<RegisterSubmission>)
    modifies vm
    ensures d == Submit(path, old(vm.isLoading), email, password, confirmPassword)
    ensures d.Some? && d.value.RegisterWith? ==>
              vm.State() == old(vm.State()).(authResult := Some(Wrap(outcome)), isLoading := false) &&
              vm.events == old(vm.events) + AuthProtocol(CreateUser(email, password), Wrap(outcome))
    ensures !(d.Some? && d.value.RegisterWith?) ==> vm.State() == old(vm.State()) && vm.events == old(vm.events)
  {
    d := Submit(path, vm.isLoading, email, password, confirmPassword);
    if d.Some? && d.value.RegisterWith? {
      vm.RegisterUser(email, password, outcome);
    }
  }
}
