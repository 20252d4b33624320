/** The profile part of the settings page: the prefill from the signed-in
    user, and `handleUpdateProfile`, which builds the `/users/update` body
    the service's `update_user` receives. */
module Settings {
  import opened Text
  import opened AuthContext
  import Service
  import Models
  import Auth

  /** The displayed name: the user's name, else the email up to its first
      '@'; with neither, `undefined` (None). */
  function PrefillName(user: UserInfo): (name: Option<string>)
    ensures Truthy(user.fullName) ==> name == user.fullName
    ensures !Truthy(user.fullName) && user.email.Some? ==> name == Some(BeforeFirst(user.email.value, '@'))
    ensures name.None? <==> !Truthy(user.fullName) && user.email.None?
  {
    if Truthy(user.fullName) then user.fullName
    else if user.email.Some? then Some(BeforeFirst(user.email.value, '@'))
    else None
  }

  /** The request body, or the message thrown before any request. */
  datatype Submission = Send(update: Service.UserUpdate) | Refuse(message: string)

  /** The body of `handleUpdateProfile`: name, email and bio always; a
      non-empty new password must equal its confirmation and then travels
      with the current password; an empty one sends no password field at
      all. */
  function BuildSubmission(fullName: Option<string>, email: string, bio: string,
                           currentPassword: string, newPassword: string, confirmPassword: string): (s: Submission)
    ensures newPassword != "" && newPassword != confirmPassword <==> s == Refuse("New passwords do not match")
    ensures s.Send? ==>
      && s.update.fullName == fullName && s.update.email == Some(email) && s.update.bio == Some(bio)
    ensures s.Send? && newPassword == "" ==> s.update.password.None? && s.update.currentPassword.None?
    ensures s.Send? && newPassword != "" ==>
      s.update.password == Some(newPassword) && s.update.currentPassword == Some(currentPassword)
  {
    var base := Service.UserUpdate(Some(email), fullName, Some(bio), None, None);
    if newPassword == "" then Send(base)
    else if newPassword != confirmPassword then Refuse("New passwords do not match")
    else Send(base.(password := Some(newPassword), currentPassword := Some(currentPassword)))
  }

  /** Saving the profile with the new-password field empty never changes the
      stored password, whatever is typed into the current-password field. */
  lemma ProfileSaveKeepsPassword(users: seq<Models.User>, ci: nat, fullName: Option<string>, email: string,
                                 bio: string, currentPassword: string, confirmPassword: string,
                                 verify: (string, string) -> bool, hash: string -> string)
    requires ci < |users|
    ensures var s := BuildSubmission(fullName, email, bio, currentPassword, "", confirmPassword);
            var r := Service.UpdateUserResult(users, ci, s.update, verify, hash);
            s.Send? && (r.Ok? ==> r.value.hashedPassword == users[ci].hashedPassword)
  {
  }

  /** A new password sent with the current-password field left empty is
      refused by the service. */
  lemma NewPasswordNeedsCurrent(users: seq<Models.User>, ci: nat, fullName: Option<string>, email: string,
                                bio: string, newPassword: string,
                                verify: (string, string) -> bool, hash: string -> string)
    requires ci < |users| && newPassword != ""
    ensures var s := BuildSubmission(fullName, email, bio, "", newPassword, newPassword);
            s.Send? && Service.UpdateUserResult(users, ci, s.update, verify, hash)
                       == Auth.Err(Auth.HttpError(400, "Current password required to change password"))
  {
  }

  datatype MessageKind = SuccessMessage | ErrorMessage
  datatype Message = Message(kind: MessageKind, text: string)

  class Page {
    var fullName: Option<string>
    var email: string
    var bio: string
    var currentPassword: string
    var newPassword: string
    var confirmPassword: string
    var loading: bool
    var msg: Option<Message>

    constructor ()
      ensures fullName == Some("") && email == "" && bio == ""
      ensures currentPassword == "" && newPassword == "" && confirmPassword == ""
      ensures !loading && msg.None?
    {
      fullName, email, bio := Some(""), "", "";
      currentPassword, newPassword, confirmPassword := "", "", "";
      loading, msg := false, None;
    }

    /** The effect on `user`: a signed-in user fills name, email and bio;
        the password fields keep what they hold. */
    method Prefill(user: Option<UserInfo>)
      modifies this
      ensures currentPassword == old(currentPassword) && newPassword == old(newPassword)
      ensures confirmPassword == old(confirmPassword) && loading == old(loading) && msg == old(msg)
      ensures user.None? ==> fullName == old(fullName) && email == old(email) && bio == old(bio)
      ensures user.Some? ==>
        && fullName == PrefillName(user.value)
        && email == OrElse(user.value.email, "") && bio == OrElse(user.value.bio, "")
    {
      if user.Some? {
        fullName := PrefillName(user.value);
        email := OrElse(user.value.email, "");
        bio := OrElse(user.value.bio, "");
      }
    }

    /** `handleUpdateProfile` up to the request: a mismatched new password is
        shown as an error and nothing is sent. */
    method BeginSave() returns (sent: Option<Service.UserUpdate>)
      modifies this
      ensures fullName == old(fullName) && email == old(email) && bio == old(bio)
      ensures currentPassword == old(currentPassword) && newPassword == old(newPassword)
      ensures confirmPassword == old(confirmPassword)
      ensures var s := BuildSubmission(fullName, email, bio, currentPassword, newPassword, confirmPassword);
              && (s.Send? ==> sent == Some(s.update) && loading && msg.None?)
              && (s.Refuse? ==> sent.None? && !loading && msg == Some(Message(ErrorMessage, s.message)))
    {
      loading, msg := true, None;
      var s := BuildSubmission(fullName, email, bio, currentPassword, newPassword, confirmPassword);
      if s.Refuse? {
        msg := Some(Message(ErrorMessage, s.message));
        loading := false;
        return None;
      }
      sent := Some(s.update);
    }

    /** `handleUpdateProfile` after the request: success asks for a reload
        and sets the success message; failure shows the detail or the
        error's message; loading ends either way. */
    method FinishSave(outcome: Settled) returns (reload: bool)
      modifies this
      ensures fullName == old(fullName) && email == old(email) && bio == old(bio)
      ensures currentPassword == old(currentPassword) && newPassword == old(newPassword)
      ensures confirmPassword == old(confirmPassword)
      ensures !loading
      ensures reload <==> outcome.Fulfilled?
      ensures outcome.Fulfilled? ==> msg == Some(Message(SuccessMessage, "Profile updated successfully!"))
      ensures outcome.Rejected? ==> msg == Some(Message(ErrorMessage, OrElse(outcome.detail, outcome.message)))
    {
      if outcome.Fulfilled? {
        reload := true;
        msg := Some(Message(SuccessMessage, "Profile updated successfully!"));
      } else {
        reload := false;
        msg := Some(Message(ErrorMessage, OrElse(outcome.detail, outcome.message)));
      }
      loading := false;
    }
  }
}
