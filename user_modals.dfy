/** The administrator's add, edit and delete user dialogs: their initial
    forms, the edit prefill, what each submits and when each renders. */
module UserModals {
  import opened Text
  import opened AuthContext

  /** The dialog form (`formData`). */
  datatype UserForm = UserForm(fullName: string, email: string, password: string, isSuperuser: bool, isActive: bool)

  /** What the edit dialog submits: the form with `password` deleted when it
      is empty. */
  datatype EditData = EditData(fullName: string, email: string, password: Option<string>, isSuperuser: bool, isActive: bool)

  const EmptyForm: UserForm := UserForm("", "", "", false, true)

  /** The edit form filled from a user: missing text becomes '', the
      password starts empty and both flags are copied. */
  function PrefillForm(user: UserInfo): (f: UserForm)
    ensures f.fullName == OrElse(user.fullName, "") && f.email == OrElse(user.email, "")
    ensures f.password == ""
    ensures f.isSuperuser == user.isSuperuser && f.isActive == user.isActive
  {
    UserForm(OrElse(user.fullName, ""), OrElse(user.email, ""), "", user.isSuperuser, user.isActive)
  }

  /** Every field of the form is submitted, except an empty password. */
  function StripPassword(f: UserForm): (d: EditData)
    ensures d.fullName == f.fullName && d.email == f.email
    ensures d.isSuperuser == f.isSuperuser && d.isActive == f.isActive
    ensures d.password.None? <==> f.password == ""
    ensures d.password.Some? ==> d.password.value == f.password
  {
    EditData(f.fullName, f.email, NonEmptyOrNull(f.password), f.isSuperuser, f.isActive)
  }

  /** Submitting a freshly prefilled form changes no password: nothing but
      the name, email and flags the user already has is sent. */
  lemma UntouchedEditSendsNoPassword(user: UserInfo)
    ensures StripPassword(PrefillForm(user)) ==
      EditData(OrElse(user.fullName, ""), OrElse(user.email, ""), None, user.isSuperuser, user.isActive)
  {
  }

  /** `Edit ${user.full_name || user.email}`: a missing email is
      interpolated as "null". */
  function EditTitle(user: UserInfo): (t: string)
    ensures Truthy(user.fullName) ==> t == "Edit " + user.fullName.value
    ensures !Truthy(user.fullName) ==> t == "Edit " + (if user.email.Some? then user.email.value else "null")
  {
    "Edit " + (if Truthy(user.fullName) then user.fullName.value
               else if user.email.Some? then user.email.value else "null")
  }

  /** The delete dialog renders only when open and given a user, and its
      confirm button submits that user's id. */
  function DeleteTarget(isOpen: bool, user: Option<UserInfo>): (id: Option<int>)
    ensures id.Some? <==> isOpen && user.Some?
    ensures id.Some? ==> id.value == user.value.id
  {
    if isOpen && user.Some? then Some(user.value.id) else None
  }

  class AddUserModal {
    var form: UserForm

    constructor ()
      ensures form == EmptyForm && form.isActive && !form.isSuperuser
    {
      form := EmptyForm;
    }

    /** `handleSubmit`: the modal renders nothing while closed, so only an
        open modal submits, and the form goes out as it stands. */
    method Submit(isOpen: bool) returns (data: Option<UserForm>)
      ensures data.Some? <==> isOpen
      ensures isOpen ==> data.value == form
    {
      data := if isOpen then Some(form) else None;
    }
  }

  class EditUserModal {
    var form: UserForm

    constructor ()
      ensures form == EmptyForm
    {
      form := EmptyForm;
    }

    /** The effect on `user`: a present user replaces the whole form. */
    method Prefill(user: Option<UserInfo>)
      modifies this
      ensures user.Some? ==> form == PrefillForm(user.value)
      ensures user.None? ==> form == old(form)
    {
      if user.Some? {
        form := PrefillForm(user.value);
      }
    }

    /** `handleSubmit`, reachable only while rendered (open, with a user):
        the user's id and the form without an empty password. */
    method Submit(isOpen: bool, user: Option<UserInfo>) returns (call: Option<(int, EditData)>)
      ensures call.Some? <==> isOpen && user.Some?
      ensures call.Some? ==> call.value == (user.value.id, StripPassword(form))
    {
      if !isOpen || user.None? {
        return None;
      }
      call := Some((user.value.id, StripPassword(form)));
    }
  }
}
