/** The sign-up form: its validation order and where a successful
    registration leads. The registration call itself is the auth context's
    `register`, whose reply arrives through `FinishSubmit`. */
module RegisterView {
  import opened Text
  import opened AuthContext

  const MinPasswordLength: nat := 8

  /** The validation message, if any: the confirmation is compared first,
      and only a matching password is measured (in UTF-16 units, as
      `.length` counts). */
  function Validate(password: string, confirm: string): (error: Option<string>)
    ensures error == Some("Passwords do not match") <==> password != confirm
    ensures error == Some("Password must be at least 8 characters") <==>
      password == confirm && Utf16Length(password) < MinPasswordLength
    ensures error.None? <==> password == confirm && Utf16Length(password) >= MinPasswordLength
  {
    if password != confirm then Some("Passwords do not match")
    else if Utf16Length(password) < MinPasswordLength then Some("Password must be at least 8 characters")
    else None
  }

  /** Seven ASCII characters are too short, eight are enough, and a
      mismatch is reported whatever the length. */
  lemma ValidateExamples()
    ensures Validate("abcdefg", "abcdefg") == Some("Password must be at least 8 characters")
    ensures Validate("abcdefgh", "abcdefgh").None?
    ensures Validate("abc", "abd") == Some("Passwords do not match")
  {
    assert Utf16Length("abcdefg") == 7;
    assert Utf16Length("abcdefgh") == 8;
  }

  /** The route after a successful registration: the pending-verification
      page when the reply asks for verification, else the login page. */
  function NextRoute(needsVerify: Option<bool>, email: string, encode: string -> string): (route: string)
    ensures needsVerify == Some(true) ==> route == "/verify/pending?email=" + encode(email)
    ensures needsVerify != Some(true) ==> route == "/login?registered=true"
  {
    if needsVerify == Some(true) then "/verify/pending?email=" + encode(email) else "/login?registered=true"
  }

  /** The provider's `register` reports `needsVerify` false on success, so
      the verification page is never reached from this form. */
  lemma VerifyPageUnreachable(email: string, encode: string -> string)
    ensures NextRoute(Some(false), email, encode) == "/login?registered=true"
  {
  }

  class Form {
    var email: string
    var password: string
    var confirmPassword: string
    var error: Option<string>
    var loading: bool

    constructor ()
      ensures email == "" && password == "" && confirmPassword == "" && error.None? && !loading
    {
      email, password, confirmPassword, error, loading := "", "", "", None, false;
    }

    /** `handleSubmit` up to the call: a validation failure shows its message
        and ends loading; otherwise `register(email, password)` is called
        once, with loading raised and the error cleared. */
    method BeginSubmit() returns (call: Option<(string, string)>)
      modifies this
      ensures email == old(email) && password == old(password) && confirmPassword == old(confirmPassword)
      ensures call.Some? <==> Validate(password, confirmPassword).None?
      ensures call.Some? ==> call.value == (email, password) && loading && error.None?
      ensures call.None? ==> !loading && error == Validate(password, confirmPassword)
    {
      loading := true;
      error := None;
      if password != confirmPassword {
        error := Some("Passwords do not match");
        loading := false;
        return None;
      }
      if Utf16Length(password) < MinPasswordLength {
        error := Some("Password must be at least 8 characters");
        loading := false;
        return None;
      }
      call := Some((email, password));
    }

    /** `handleSubmit` after the call: success navigates away (loading stays
        raised), failure shows the reply's error and ends loading. */
    method FinishSubmit(reply: Reply, encode: string -> string) returns (navigate: Option<string>)
      modifies this
      ensures email == old(email) && password == old(password) && confirmPassword == old(confirmPassword)
      ensures reply.Success? ==>
        navigate == Some(NextRoute(reply.needsVerify, email, encode)) && loading == old(loading) && error == old(error)
      ensures reply.Failure? ==> navigate.None? && error == Some(reply.error) && !loading
    {
      if reply.Success? {
        navigate := Some(NextRoute(reply.needsVerify, email, encode));
      } else {
        navigate := None;
        error := Some(reply.error);
        loading := false;
      }
    }
  }
}
