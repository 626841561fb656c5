/**
 * The password-reset page (src/pages/ResetPassword.jsx): two inputs, checks
 * run in a fixed order that stop at the first failure, and the POST carrying
 * the new password to the token's reset URL.
 */
module ResetPassword {
  import opened Wrappers
  import opened Http
  import opened Text

  const BothRequired: string := "Both fields are required"
  const TooShort: string := "Password must be at least 6 characters"
  const Mismatch: string := "Passwords do not match"
  const ResetFailed: string := "Failed to reset password"

  /**
   * The checks of `handleSubmit`, in order: both fields filled, then the new
   * password at least 6 UTF-16 code units long, then the two equal. The
   * result is the message of the first that fails.
   */
  function ResetCheck(newPassword: string, confirmPassword: string): (r: Option<string>)
    ensures r == Some(BothRequired) <==> newPassword == "" || confirmPassword == ""
    ensures r == Some(TooShort) <==> newPassword != "" && confirmPassword != "" && Utf16Length(newPassword) < 6
    ensures r == Some(Mismatch) <==>
      newPassword != "" && confirmPassword != "" && Utf16Length(newPassword) >= 6 && newPassword != confirmPassword
    ensures r.None? <==> Utf16Length(newPassword) >= 6 && newPassword == confirmPassword
  {
    if newPassword == "" || confirmPassword == "" then Some(BothRequired)
    else if Utf16Length(newPassword) < 6 then Some(TooShort)
    else if newPassword != confirmPassword then Some(Mismatch)
    else None
  }

  /** The request of a submit that passes the checks. */
  datatype ResetRequest = ResetRequest(url: string, newPassword: string)

  /** `${REACT_APP_BACKEND_URL}/auth/reset-password/${token}`; an unset URL reads as "undefined". */
  function ResetUrl(backendUrl: Option<string>, token: string): string {
    backendUrl.GetOr("undefined") + "/auth/reset-password/" + token
  }

  /** The state of the page; `token` comes from the route. */
  class ResetScreen {
    const token: string
    var newPassword: string
    var confirmPassword: string
    var error: string
    var success: string
    var loading: bool

    constructor (token: string)
      ensures this.token == token
      ensures newPassword == "" && confirmPassword == "" && error == "" && success == "" && !loading
    {
      this.token := token;
      newPassword, confirmPassword, error, success, loading := "", "", "", "", false;
    }

    method EditNewPassword(value: string)
      modifies this`newPassword
      ensures newPassword == value
    {
      newPassword := value;
    }

    method EditConfirmPassword(value: string)
      modifies this`confirmPassword
      ensures confirmPassword == value
    {
      confirmPassword := value;
    }

    /**
     * The synchronous part of `handleSubmit`: both messages are cleared, then
     * the checks run one after another and the first failure stops with its
     * message. Only when all pass is the request sent, with `loading` up.
     */
    method BeginSubmit(backendUrl: Option<string>) returns (request: Option<ResetRequest>)
      modifies this`error, this`success, this`loading
      ensures success == ""
      ensures request.None? <==> ResetCheck(newPassword, confirmPassword).Some?
      ensures request.None? ==> error == ResetCheck(newPassword, confirmPassword).value && loading == old(loading)
      ensures request.Some? ==>
        request.value == ResetRequest(ResetUrl(backendUrl, token), newPassword) && error == "" && loading
    {
      var p, c := newPassword, confirmPassword;
      error := "";
      success := "";
      if p == "" || c == "" {
        error := BothRequired;
        return None;
      }
      if Utf16Length(p) < 6 {
        error := TooShort;
        return None;
      }
      if p != c {
        error := Mismatch;
        return None;
      }
      loading := true;
      request := Some(ResetRequest(ResetUrl(backendUrl, token), p));
    }

    /**
     * The end of a sent request: `reply` carries the server's message. Success
     * shows it and schedules the redirect to the login page; failure shows
     * the server's message or the fallback. Either way `loading` drops.
     */
    method FinishSubmit(reply: Reply<Option<string>>) returns (redirect: bool)
      modifies this`error, this`success, this`loading
      ensures !loading
      ensures redirect == reply.Ok?
      ensures reply.Ok? ==> success == reply.data.GetOr("") && error == old(error)
      ensures reply.Failed? ==> error == FailureMessage(reply, ResetFailed) && success == old(success)
    {
      match reply {
        case Ok(message) =>
          success := message.GetOr("");
          redirect := true;
        case Failed(_, _) =>
          error := FailureMessage(reply, ResetFailed);
          redirect := false;
      }
      loading := false;
    }
  }
}
