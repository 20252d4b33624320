/** The password-reset form reached from an emailed link: the token check,
    the status/message machine of `handleSubmit` and what the page shows. */
module ResetPasswordView {
  import opened Text
  import opened FormStatus
  import opened AuthContext

  const MissingTokenMessage: string := "Invalid or missing reset token."
  const LoginAfterReset: string := "/login?message=Password reset successfully. Please login."

  /** What the page renders. */
  datatype Screen = InvalidLink | SuccessNotice | ResetForm(showsMessage: bool)

  /** No token: the invalid-link screen. Success replaces the form with a
      notice; an error shows the message above the form. */
  function View(token: Option<string>, status: Status): (s: Screen)
    ensures s.InvalidLink? <==> !Truthy(token)
    ensures s.SuccessNotice? <==> Truthy(token) && status.Success?
    ensures s.ResetForm? ==> (s.showsMessage <==> status.Error?)
  {
    if !Truthy(token) then InvalidLink
    else if status.Success? then SuccessNotice
    else ResetForm(status.Error?)
  }

  class Page {
    const token: Option<string>
    var password: string
    var confirmPassword: string
    var status: Status
    var message: string

    /** The first render, then the effect on `token`: a missing token is an
        error with its message. */
    constructor (token: Option<string>)
      ensures this.token == token && password == "" && confirmPassword == ""
      ensures !Truthy(token) ==> status == Error && message == MissingTokenMessage
      ensures Truthy(token) ==> status == Idle && message == ""
    {
      this.token := token;
      password, confirmPassword := "", "";
      status, message := Idle, "";
      if !Truthy(token) {
        status, message := Error, MissingTokenMessage;
      }
    }

    /** `handleSubmit` up to the request: a mismatch is an error and sends
        nothing; otherwise the status is 'loading', the message cleared and
        the token sent with the new password. */
    method BeginSubmit() returns (sent: Option<(Option<string>, string)>)
      modifies this
      ensures password == old(password) && confirmPassword == old(confirmPassword)
      ensures password != confirmPassword ==> sent.None? && status == Error && message == "Passwords do not match"
      ensures password == confirmPassword ==>
        sent == Some((token, password)) && status == Loading && message == "" && SubmitDisabled(status)
    {
      if password != confirmPassword {
        status, message := Error, "Passwords do not match";
        return None;
      }
      status, message := Loading, "";
      sent := Some((token, password));
    }

    /** `handleSubmit` after the request. Success schedules the move to the
        login page; failure shows the detail or a fixed message. */
    method FinishSubmit(response: Response<()>) returns (scheduled: Option<string>)
      modifies this
      ensures password == old(password) && confirmPassword == old(confirmPassword)
      ensures response.Ok? ==> status == Status.Success && message == old(message) && scheduled == Some(LoginAfterReset)
      ensures response.Failed? ==>
        && status == Error && scheduled.None?
        && message == OrElse(response.detail, "Failed to reset password. Token might be expired.")
    {
      if response.Ok? {
        status := Status.Success;
        scheduled := Some(LoginAfterReset);
      } else {
        status := Error;
        message := OrElse(response.detail, "Failed to reset password. Token might be expired.");
        scheduled := None;
      }
    }
  }

  /** A page opened without a token shows the invalid-link screen, with the
      error already set, and never the form. */
  lemma MissingTokenScreen(status: Status)
    ensures View(None, status) == InvalidLink && View(Some(""), status) == InvalidLink
  {
  }
}
