/** The password-recovery page (src/pages/auth/UpdatePassword.tsx): whether
    the URL carries a recovery token, how the session check and the auth
    listener end the "checking" spinner, and the submit handler's checks. */
module UpdatePassword {
  import opened Common

  const RecoveryMarker := "type=recovery"
  const TokenMarker := "access_token"
  const LoginPath := "/login"
  const MinPasswordLength := 6

  const InvalidLink := "Link tidak valid atau sudah kadaluarsa."
  const TooShortMessage := "Password minimal 6 karakter"
  const MismatchMessage := "Konfirmasi password tidak cocok"
  const UpdatedMessage := "Password berhasil diperbarui! Silakan login kembali."
  const FailurePrefix := "Gagal memperbarui password: "

  /** The URL hash is a recovery link when it is non-empty and names one of
      the two markers; the non-empty test adds nothing, since an empty hash
      contains neither marker. */
  predicate IsRecoveryLink(hash: string) {
    hash != "" && (Contains(hash, RecoveryMarker) || Contains(hash, TokenMarker))
  }

  /** A hash is a recovery link exactly when one of the markers occurs in
      it at some offset. */
  lemma RecoveryLinkIff(hash: string)
    ensures IsRecoveryLink(hash) <==>
      exists i: nat :: OccursAt(hash, RecoveryMarker, i) || OccursAt(hash, TokenMarker, i)
  {
    if Contains(hash, RecoveryMarker) {
      ContainsHasWitness(hash, RecoveryMarker);
    } else if Contains(hash, TokenMarker) {
      ContainsHasWitness(hash, TokenMarker);
    }
    if exists i: nat :: OccursAt(hash, RecoveryMarker, i) || OccursAt(hash, TokenMarker, i) {
      var i: nat :| OccursAt(hash, RecoveryMarker, i) || OccursAt(hash, TokenMarker, i);
      if OccursAt(hash, RecoveryMarker, i) {
        ContainsWitness(hash, RecoveryMarker, i);
      } else {
        ContainsWitness(hash, TokenMarker, i);
      }
    }
  }

  /** What the session check on mount decides. */
  datatype SessionCheck = StopChecking | KeepWaiting | RejectLink

  function SessionDecision(hasSession: bool, hash: string): (d: SessionCheck)
    ensures d == StopChecking <==> hasSession
    ensures d == KeepWaiting <==> !hasSession && IsRecoveryLink(hash)
    ensures d == RejectLink <==> !hasSession && !IsRecoveryLink(hash)
  {
    if hasSession then StopChecking
    else if IsRecoveryLink(hash) then KeepWaiting
    else RejectLink
  }

  /** The events the auth listener reacts to; any other event is `Other`. */
  datatype AuthEvent = PasswordRecovery | SignedIn | SignedOut | Other(name: string)

  /** The submit handler's two checks, in order. */
  datatype SubmitCheck = TooShort | Mismatch | Proceed

  function CheckSubmit(password: string, confirmPassword: string): (c: SubmitCheck)
    ensures c == Proceed <==> |password| >= MinPasswordLength && password == confirmPassword
    ensures c == TooShort <==> |password| < MinPasswordLength
    ensures c == Mismatch ==> password != confirmPassword
  {
    if |password| < MinPasswordLength then TooShort
    else if password != confirmPassword then Mismatch
    else Proceed
  }

  datatype Toast = ErrorToast(message: string) | SuccessToast(message: string)

  /** The page's state: the spinner flag, whether the effect is still
      mounted, the submit's loading flag, the last toast and the last
      navigation. */
  class UpdatePasswordPage {
    var checkingSession: bool
    var mounted: bool
    var loading: bool
    var toast: Option<Toast>
    var navigatedTo: Option<string>

    constructor ()
      ensures checkingSession && mounted && !loading
      ensures toast == None && navigatedTo == None
    {
      checkingSession := true;
      mounted := true;
      loading := false;
      toast := None;
      navigatedTo := None;
    }

    /** `verifyUser`: an existing session ends checking (while mounted); a
        recovery link without a session waits for the listener; neither
        reports an invalid link and goes to the login page. */
    method VerifyUser(hasSession: bool, hash: string)
      modifies this`checkingSession, this`toast, this`navigatedTo
      ensures SessionDecision(hasSession, hash) == StopChecking ==>
        checkingSession == (old(checkingSession) && !mounted) && unchanged(this`toast, this`navigatedTo)
      ensures SessionDecision(hasSession, hash) == KeepWaiting ==>
        unchanged(this`checkingSession, this`toast, this`navigatedTo)
      ensures SessionDecision(hasSession, hash) == RejectLink ==>
        checkingSession == old(checkingSession) && toast == Some(ErrorToast(InvalidLink)) && navigatedTo == Some(LoginPath)
    {
      var isRecoveryLink := hash != "" && (Contains(hash, RecoveryMarker) || Contains(hash, TokenMarker));
      if hasSession {
        if mounted {
          checkingSession := false;
        }
      } else if isRecoveryLink {
      } else {
        toast := Some(ErrorToast(InvalidLink));
        navigatedTo := Some(LoginPath);
      }
    }

    /** The `onAuthStateChange` listener: a recovery or sign-in event ends
        checking while mounted; any other event, sign-out included, changes
        nothing. */
    method OnAuthEvent(event: AuthEvent)
      modifies this`checkingSession
      ensures (event == PasswordRecovery || event == SignedIn) && mounted ==> !checkingSession
      ensures !((event == PasswordRecovery || event == SignedIn) && mounted) ==> checkingSession == old(checkingSession)
    {
      if event == PasswordRecovery || event == SignedIn {
        if mounted {
          checkingSession := false;
        }
      } else if event == SignedOut {
      }
    }

    /** The effect's cleanup. */
    method Unmount()
      modifies this`mounted
      ensures !mounted
    {
      mounted := false;
    }

    /** `handleUpdatePassword`. `updateError` is what `updateUser` would
        return (None for success). The update is requested only when both
        checks pass; a successful update signs out and goes to the login
        page; loading is back to false once the request has finished. */
    method HandleUpdatePassword(password: string, confirmPassword: string, updateError: Option<string>)
      returns (requestedUpdate: bool, signedOut: bool)
      modifies this`loading, this`toast, this`navigatedTo
      ensures requestedUpdate <==> CheckSubmit(password, confirmPassword) == Proceed
      ensures CheckSubmit(password, confirmPassword) == TooShort ==> toast == Some(ErrorToast(TooShortMessage))
      ensures CheckSubmit(password, confirmPassword) == Mismatch ==> toast == Some(ErrorToast(MismatchMessage))
      ensures !requestedUpdate ==> loading == old(loading)
      ensures requestedUpdate ==> !loading
      ensures signedOut <==> requestedUpdate && updateError.None?
      ensures signedOut ==> toast == Some(SuccessToast(UpdatedMessage)) && navigatedTo == Some(LoginPath)
      ensures requestedUpdate && updateError.Some? ==> toast == Some(ErrorToast(FailurePrefix + updateError.value))
      ensures !signedOut ==> navigatedTo == old(navigatedTo)
    {
      requestedUpdate := false;
      signedOut := false;
      if |password| < MinPasswordLength {
        toast := Some(ErrorToast(TooShortMessage));
        return;
      }
      if password != confirmPassword {
        toast := Some(ErrorToast(MismatchMessage));
        return;
      }
      loading := true;
      requestedUpdate := true;
      if updateError.Some? {
        toast := Some(ErrorToast(FailurePrefix + updateError.value));
      } else {
        toast := Some(SuccessToast(UpdatedMessage));
        signedOut := true;
        navigatedTo := Some(LoginPath);
      }
      loading := false;
    }
  }
}
