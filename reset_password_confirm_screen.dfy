/** The screen that sets a new password from a reset link: it verifies the
    link's code, shows one of four panels, validates the two password fields
    and reacts to the verification and confirmation results. */
module ResetPasswordConfirmScreenModel {
  import opened Wrappers
  import opened Text
  import opened AuthRepositoryModel
  import opened AuthViewModelModel
  import opened SubmitPathModel

  const MissingCode: string := "Kode reset password tidak valid atau hilang."
  const VerifyFailedPrefix: string := "Gagal memverifikasi kode: "
  const VerifiedPrefix: string := "Kode terverifikasi untuk: "
  const DefaultLinkError: string := "Link reset password tidak valid atau sudah kedaluwarsa."
  const EmptyPassword: string := "Password tidak boleh kosong"
  const PasswordsDiffer: string := "Password baru tidak cocok!"
  const ResetDone: string := "Password berhasil direset! Silakan login dengan password baru Anda."
  const ResetFailedPrefix: string := "Gagal mereset password: "

  // ------------------------------------------------------------ validation

  /** What submitting the two fields (Done key or button) does. */
  datatype ResetSubmission = Confirm(newPassword: string) | Refuse(message: string)

  /** Both fields must be non-blank, then equal. */
  function ResetDecision(newPassword: string, confirmation: string): ResetSubmission {
    if !IsBlank(newPassword) && !IsBlank(confirmation) then
      if newPassword == confirmation then Confirm(newPassword) else Refuse(PasswordsDiffer)
    else Refuse(EmptyPassword)
  }

  /** confirmPasswordReset is called exactly when both fields are non-blank and
      equal, with the new password; a blank field gives the "empty" message
      (whether or not the fields are equal), unequal non-blank fields the
      "mismatch" message. */
  lemma ResetDecisionSpec(newPassword: string, confirmation: string)
    ensures ResetDecision(newPassword, confirmation).Confirm? <==>
              !IsBlank(newPassword) && !IsBlank(confirmation) && newPassword == confirmation
    ensures ResetDecision(newPassword, confirmation).Confirm? ==>
              ResetDecision(newPassword, confirmation).newPassword == newPassword
    ensures IsBlank(newPassword) || IsBlank(confirmation) ==>
              ResetDecision(newPassword, confirmation) == Refuse(EmptyPassword)
    ensures !IsBlank(newPassword) && !IsBlank(confirmation) && newPassword != confirmation ==>
              ResetDecision(newPassword, confirmation) == Refuse(PasswordsDiffer)
  {
  }

  /** A submission through one path: the Done key always applies the rule;
      the button, which a spinner replaces while loading, only when nothing
      is loading. */
  function ResetSubmit(path: SubmitPath, isLoading: bool, newPassword: string, confirmation: string)
    : Option<ResetSubmission>
  {
    if Usable(path, isLoading) then Some(ResetDecision(newPassword, confirmation)) else None
  }

  /** Both paths apply the identical rule whenever they can be used; only the
      button is unavailable while loading, so the Done key can start a second
      confirmation while one is running. */
  lemma ResetSubmitPathsAgree(isLoading: bool, newPassword: string, confirmation: string)
    ensures ResetSubmit(DoneKey, isLoading, newPassword, confirmation) == Some(ResetDecision(newPassword, confirmation))
    ensures !isLoading ==>
              ResetSubmit(Button, isLoading, newPassword, confirmation) ==
              ResetSubmit(DoneKey, isLoading, newPassword, confirmation)
    ensures isLoading ==> ResetSubmit(Button, isLoading, newPassword, confirmation).None?
  {
  }

  /** The inline "Password tidak cocok" flag: both fields non-EMPTY and different. */
  predicate MismatchShown(newPassword: string, confirmation: string) {
    |newPassword| > 0 && |confirmation| > 0 && newPassword != confirmation
  }

  /** The flag tests emptiness, not blankness: two different whitespace-only
      fields raise the mismatch flag although submitting them reports the
      "empty" message. Between non-blank fields the flag and the submit rule
      agree. */
  lemma MismatchFlagVersusSubmit()
    ensures MismatchShown(" ", "  ") && ResetDecision(" ", "  ") == Refuse(EmptyPassword)
    ensures forall p, c :: !IsBlank(p) && !IsBlank(c) ==>
              (MismatchShown(p, c) <==> ResetDecision(p, c) == Refuse(PasswordsDiffer))
  {
    assert IsBlank(" ") && IsBlank("  ");
    forall p, c | !IsBlank(p) && !IsBlank(c)
      ensures MismatchShown(p, c) <==> ResetDecision(p, c) == Refuse(PasswordsDiffer)
    {
      assert |p| > 0 && |c| > 0;
    }
  }

  /** The Reset Password button's `enabled`. */
  predicate ButtonEnabled(oobCode: Option<string>, isCodeVerified: bool) {
    oobCode.Some? && isCodeVerified
  }

  // ---------------------------------------------------------------- panels

  datatype Panel = ErrorPanel(text: string) | VerifyingSpinner | PasswordForm(email: Option<string>) | Processing

  /** The panel shown, tested in the screen's order. */
  function PanelFor(oobCode: Option<string>, verificationError: Option<string>, isCodeVerified: bool,
                    isLoading: bool, email: Option<string>): Panel {
    if oobCode.None? || (verificationError.Some? && !isCodeVerified) then
      ErrorPanel(verificationError.GetOr(DefaultLinkError))
    else if !isCodeVerified && isLoading then VerifyingSpinner
    else if isCodeVerified then PasswordForm(email)
    else Processing
  }

  /** The panel order: a missing code, or an error on an unverified code,
      shows the error panel (with the stored error or the default text);
      otherwise an unverified code shows the spinner while loading and the
      "processing" text when not; a verified code shows the form, in which
      the button is always enabled. */
  lemma PanelSpec(oobCode: Option<string>, verificationError: Option<string>, isCodeVerified: bool,
                  isLoading: bool, email: Option<string>)
    ensures var p := PanelFor(oobCode, verificationError, isCodeVerified, isLoading, email);
      && (p.ErrorPanel? <==> oobCode.None? || (verificationError.Some? && !isCodeVerified))
      && (p.ErrorPanel? && verificationError.Some? ==> p.text == verificationError.value)
      && (p.ErrorPanel? && verificationError.None? ==> p.text == DefaultLinkError)
      && (p.VerifyingSpinner? <==> oobCode.Some? && verificationError.None? && !isCodeVerified && isLoading)
      && (p.PasswordForm? <==> oobCode.Some? && isCodeVerified)
      && (p.Processing? <==> oobCode.Some? && verificationError.None? && !isCodeVerified && !isLoading)
      && (p.PasswordForm? ==> ButtonEnabled(oobCode, isCodeVerified) && p.email == email)
  {
  }

  // --------------------------------------------------------- confirm result

  /** What the screen does for a confirmation result. */
  datatype ConfirmReaction = ConfirmReaction(toast: Option<string>, clear: bool, toLogin: bool)

  function ConfirmReactionFor(result: Option<ResultWrapper<Unit>>): ConfirmReaction {
    match result
    case Some(Success(_)) => ConfirmReaction(Some(ResetDone), true, true)
    case Some(Error(e)) => ConfirmReaction(Some(ResetFailedPrefix + MessageText(e)), true, false)
    case Some(Loading) => ConfirmReaction(None, false, false)
    case None => ConfirmReaction(None, false, false)
  }

  /** Success clears the channel and goes to login; Error only clears (and
      reports); Loading and null do nothing. */
  lemma ConfirmReactionSpec(result: Option<ResultWrapper<Unit>>)
    ensures ConfirmReactionFor(result).toLogin <==> result.Some? && result.value.Success?
    ensures ConfirmReactionFor(result).clear <==> result.Some? && result.value.IsTerminal()
    ensures result.Some? && result.value.Error? ==>
              ConfirmReactionFor(result).toast == Some(ResetFailedPrefix + MessageText(result.value.exception))
  {
  }

  // ------------------------------------------------------------ the screen

  class ResetPasswordForm {
    var newPassword: string
    var confirmNewPassword: string
    var userEmailForDisplay: Option<string>
    var isCodeVerified: bool
    var verificationError: Option<string>

    constructor ()
      ensures newPassword == "" && confirmNewPassword == ""
      ensures userEmailForDisplay.None? && !isCodeVerified && verificationError.None?
    {
      newPassword := "";
      confirmNewPassword := "";
      userEmailForDisplay := None;
      isCodeVerified := false;
      verificationError := None;
    }

    /** `LaunchedEffect(oobCode)`: verify a present code; a missing one only
        records the error and verifies nothing. */
    method OnOobCode(oobCode: Option<string>, vm: AuthViewModel, outcome: TaskOutcome<Option<string>>)
      modifies this, vm
      ensures oobCode.None? ==>
                verificationError == Some(MissingCode) && vm.State() == old(vm.State()) && vm.events == old(vm.events)
      ensures oobCode.Some? ==>
                verificationError == old(verificationError) &&
                vm.State() == old(vm.State()).(verifyCodeResult := Some(VerifyResult(outcome)), isLoading := false) &&
                vm.events == old(vm.events) +
                  [LoadingSet(true), VerifySet(Some(Loading)), Called(VerifyCode(oobCode.value)),
                   VerifySet(Some(VerifyResult(outcome))), LoadingSet(false)]
      ensures newPassword == old(newPassword) && confirmNewPassword == old(confirmNewPassword)
      ensures isCodeVerified == old(isCodeVerified) && userEmailForDisplay == old(userEmailForDisplay)
    {
      if oobCode.Some? {
        vm.VerifyPasswordResetCode(oobCode.value, outcome);
      } else {
        verificationError := Some(MissingCode);
      }
    }

    /** `LaunchedEffect(verifyCodeResult)`: Success marks the code verified and
        keeps the email (and says so in a toast); Error stores the message and
        marks it unverified; both clear the channel. Loading and null change
        nothing. */
    method OnVerifyCodeResult(vm: AuthViewModel) returns (toast: Option<string>)
      modifies this, vm
      ensures var r := old(vm.verifyCodeResult);
        && (toast.Some? <==> r.Some? && r.value.Success?)
        && (toast.Some? ==> toast.value == VerifiedPrefix + r.value.value)
        && (r.Some? && r.value.Success? ==>
              isCodeVerified && userEmailForDisplay == Some(r.value.value) && verificationError.None? &&
              vm.State() == old(vm.State()).(verifyCodeResult := None))
        && (r.Some? && r.value.Error? ==>
              !isCodeVerified && verificationError == Some(VerifyFailedPrefix + MessageText(r.value.exception)) &&
              userEmailForDisplay == old(userEmailForDisplay) &&
              vm.State() == old(vm.State()).(verifyCodeResult := None))
        && (r.None? || r.value.Loading? ==>
              isCodeVerified == old(isCodeVerified) && verificationError == old(verificationError) &&
              userEmailForDisplay == old(userEmailForDisplay) && vm.State() == old(vm.State()))
      ensures newPassword == old(newPassword) && confirmNewPassword == old(confirmNewPassword)
    {
      toast := None;
      match vm.verifyCodeResult {
        case Some(Success(email)) =>
          userEmailForDisplay := Some(email);
          isCodeVerified := true;
          verificationError := None;
          toast := Some(VerifiedPrefix + email);
          vm.ClearVerifyCodeResult();
        case Some(Error(e)) =>
          verificationError := Some(VerifyFailedPrefix + MessageText(e));
          isCodeVerified := false;
          vm.ClearVerifyCodeResult();
        case Some(Loading) =>
        case None =>
      }
    }

    /** `LaunchedEffect(confirmResetResult)`, applied to the view model. */
    method OnConfirmResetResult(vm: AuthViewModel) returns (r: ConfirmReaction)
      modifies vm
      ensures r == ConfirmReactionFor(old(vm.confirmResetResult))
      ensures r.clear ==> vm.State() == old(vm.State()).(confirmResetResult := None)
      ensures !r.clear ==> vm.State() == old(vm.State())
    {
      r := ConfirmReactionFor(vm.confirmResetResult);
      if r.clear {
        vm.ClearConfirmResetResult();
      }
    }

    method OnNewPasswordChange(text: string)
      modifies this
      ensures newPassword == text && confirmNewPassword == old(confirmNewPassword)
      ensures isCodeVerified == old(isCodeVerified) && verificationError == old(verificationError)
      ensures userEmailForDisplay == old(userEmailForDisplay)
    {
      newPassword := text;
    }

    method OnConfirmPasswordChange(text: string)
      modifies this
      ensures confirmNewPassword == text && newPassword == old(newPassword)
      ensures isCodeVerified == old(isCodeVerified) && verificationError == old(verificationError)
      ensures userEmailForDisplay == old(userEmailForDisplay)
    {
      confirmNewPassword := text;
    }

    /** The Done key or the button (both only on the form panel, where the
        code is present). */
    method Submit(path: SubmitPath, oobCode: string, vm: AuthViewModel, outcome: TaskOutcome<Unit>)
      returns (d: Option<ResetSubmission>)
      modifies vm
      ensures d == ResetSubmit(path, old(vm.isLoading), newPassword, confirmNewPassword)
      ensures !(d.Some? && d.value.Confirm?) ==> vm.State() == old(vm.State()) && vm.events == old(vm.events)
      ensures d.Some? && d.value.Confirm? ==>
                vm.State() == old(vm.State()).(confirmResetResult := Some(Wrap(outcome)), isLoading := false) &&
                vm.events == old(vm.events) +
                  [LoadingSet(true), ConfirmSet(Some(Loading)), Called(ConfirmReset(oobCode, newPassword)),
                   ConfirmSet(Some(Wrap(outcome))), LoadingSet(false)]
    {
      d := ResetSubmit(path, vm.isLoading, newPassword, confirmNewPassword);
      if d.Some? && d.value.Confirm? {
        vm.ConfirmPasswordReset(oobCode, newPassword, outcome);
      }
    }
  }
}
