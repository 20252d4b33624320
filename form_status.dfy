/** The request status shared by the password-reset and forgot-password
    forms ('idle', 'loading', 'success', 'error'). */
module FormStatus {
  datatype Status = Idle | Loading | Success | Error

  /** `disabled={status === 'loading'}` on the submit button. */
  function SubmitDisabled(status: Status): (disabled: bool)
    ensures disabled <==> status.Loading?
  {
    status == Loading
  }
}
