/** The forgot-password form: its status machine, the development note shown
    when the service has no mail transport, and what the page renders. */
module ForgotPasswordView {
  import opened Text
  import opened FormStatus
  import opened AuthContext

  /** A JavaScript value as far as the arrow condition needs one. */
  datatype JsValue = JsBool(b: bool) | JsString(s: string)

  /** `!value` for a string: true exactly for the empty string. */
  function Not(s: string): (v: JsValue)
    ensures v == JsBool(s == "")
  {
    JsBool(s == "")
  }

  /** `===`: same type and same value. */
  predicate StrictEquals(a: JsValue, b: JsValue) {
    a == b
  }

  function StatusText(status: Status): (t: string)
    ensures t != ""
  {
    match status
    case Idle => "idle"
    case Loading => "loading"
    case Success => "success"
    case Error => "error"
  }

  /** The arrow icon's condition `!status === 'loading'`: `!` binds first,
      so a boolean is compared with a string. */
  function ArrowShown(status: Status): bool {
    StrictEquals(Not(StatusText(status)), JsString("loading"))
  }

  /** The arrow is never rendered, in any status. */
  lemma ArrowNeverShown(status: Status)
    ensures !ArrowShown(status)
  {
  }

  /** The form and the back link are both hidden once the request
      succeeded. */
  datatype Screen = Screen(formShown: bool, backLinkShown: bool, successShown: bool)

  function View(status: Status): (s: Screen)
    ensures s.formShown <==> !status.Success?
    ensures s.backLinkShown <==> !status.Success?
    ensures s.successShown <==> status.Success?
  {
    Screen(!status.Success?, status != Status.Success, status == Status.Success)
  }

  class Page {
    var email: string
    var status: Status
    var message: string
    var showDevNote: bool

    constructor ()
      ensures email == "" && status == Idle && message == "" && !showDevNote
    {
      email, status, message, showDevNote := "", Idle, "", false;
    }

    /** `handleSubmit` up to the request. */
    method BeginSubmit() returns (sent: string)
      modifies this
      ensures sent == email && email == old(email)
      ensures status == Loading && message == "" && showDevNote == old(showDevNote)
    {
      status, message := Loading, "";
      sent := email;
    }

    /** `handleSubmit` after the request. The reply's `smtp_configured`
        field is given as None when absent or not a boolean; only an exact
        `false` turns the development note on. */
    method FinishSubmit(response: Response<Option<bool>>)
      modifies this
      ensures email == old(email)
      ensures response.Ok? ==> status == Status.Success && message == old(message)
                               && (showDevNote <==> response.body == Some(false))
      ensures response.Failed? ==>
        && status == Error && showDevNote == old(showDevNote)
        && message == OrElse(response.detail, "Something went wrong. Please try again.")
    {
      if response.Ok? {
        showDevNote := response.body == Some(false);
        status := Status.Success;
      } else {
        status := Error;
        message := OrElse(response.detail, "Something went wrong. Please try again.");
      }
    }
  }
}
