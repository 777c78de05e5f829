/** The manager-creation form and the change-password form. The first sends ten named text
    fields and an optional photo once the password rules pass; the second sends the current
    and new password once the new one is confirmed. */
module AccountForms {
  import opened Wrappers
  import opened JsObject
  import opened Passwords
  import opened WorkerForms

  // ---------------------------------------------------------------- creating a manager

  /** The manager form's fields as it opens, all "". */
  const ManagerFormFields: seq<string> := [
    "firstName", "lastName", "address", "city", "state", "zip", "email", "managerId",
    "phone", "password", "confirmPassword", "managerProfileImage"]

  /** The text fields the request carries, in the order it appends them. */
  const SubmittedManagerFields: seq<string> := [
    "firstName", "lastName", "address", "city", "state", "zip", "email", "managerId",
    "phone", "password"]

  /** The manager form: the text fields, the picked photo (kept under `profileImage`, apart
      from the `managerProfileImage` text field) and the password error. */
  datatype ManagerForm = ManagerForm(fields: Obj<string>, profileImage: Option<File>, passwordError: string)

  /** The form as it opens. */
  function EmptyManagerForm(): (f: ManagerForm)
    ensures Keys(f.fields) == ManagerFormFields
    ensures f.profileImage.None? && f.passwordError == ""
  {
    ManagerForm(BlankObject(ManagerFormFields), None, "")
  }

  /** `handleChange`: store the text; only the two password inputs clear the error. */
  function ManagerChange(f: ManagerForm, name: string, value: string): (r: ManagerForm)
    ensures Get(r.fields, name) == Some(value)
    ensures forall k :: k != name ==> Get(r.fields, k) == Get(f.fields, k)
    ensures IsPasswordField(name) ==> r.passwordError == ""
    ensures !IsPasswordField(name) ==> r.passwordError == f.passwordError
    ensures r.profileImage == f.profileImage
  {
    f.(fields := Set(f.fields, name, value), passwordError := ErrorAfterEdit(f.passwordError, name))
  }

  /** `handleFileChange`: a picked file becomes `profileImage`; no file changes nothing. */
  function ManagerFile(f: ManagerForm, file: Option<File>): (r: ManagerForm)
    ensures file.Some? ==> r == f.(profileImage := file)
    ensures file.None? ==> r == f
  {
    if file.Some? then f.(profileImage := file) else f
  }

  /** `FormData.append(k, formData[k])` for each of `keys`: the text of each field, in the
      order of `keys` (a missing field is sent as "undefined"). */
  function PickFields(o: Obj<string>, keys: seq<string>): (r: Obj<string>)
    ensures Keys(r) == keys
    ensures forall i :: 0 <= i < |r| ==> r[i].value == GetText(o, keys[i])
  {
    if |keys| == 0 then [] else [Entry(keys[0], GetText(o, keys[0]))] + PickFields(o, keys[1..])
  }

  /** The manager request: the ten text fields, and the photo as `managerProfileImage` when
      one was picked. */
  datatype ManagerRequest = ManagerRequest(fields: Obj<string>, managerProfileImage: Option<File>)

  /** `handleSubmit` of the manager form: a failed password check sets the error and sends
      nothing; otherwise the request goes out and the form is left as it is. */
  function ManagerSubmit(f: ManagerForm): (o: (Option<ManagerRequest>, ManagerForm))
    requires HasPasswordFields(f.fields)
    ensures var c := CheckNewPassword(Get(f.fields, "password").value, Get(f.fields, "confirmPassword").value);
      c.Rejected? ==> o == (None, f.(passwordError := c.message))
    ensures o.0.Some? <==>
      CheckNewPassword(Get(f.fields, "password").value, Get(f.fields, "confirmPassword").value) == Accepted
    ensures o.0.Some? ==> o.0.value.fields == PickFields(f.fields, SubmittedManagerFields)
    ensures o.0.Some? ==> o.0.value.managerProfileImage == f.profileImage && o.1 == f
  {
    var c := CheckNewPassword(Get(f.fields, "password").value, Get(f.fields, "confirmPassword").value);
    if c.Rejected? then (None, f.(passwordError := c.message))
    else (Some(ManagerRequest(PickFields(f.fields, SubmittedManagerFields), f.profileImage)), f)
  }

  /** The request names exactly the ten fields, never the confirmation, and sends the
      password that was typed. */
  lemma ManagerRequestFields(f: ManagerForm)
    requires HasPasswordFields(f.fields)
    ensures ManagerSubmit(f).0.Some? ==> Keys(ManagerSubmit(f).0.value.fields) == SubmittedManagerFields
    ensures ManagerSubmit(f).0.Some? ==> ManagerSubmit(f).0.value.fields[9] == Entry("password", Get(f.fields, "password").value)
    ensures |SubmittedManagerFields| == 10 && "confirmPassword" !in SubmittedManagerFields
  {
    assert SubmittedManagerFields[9] == "password";
  }

  // ---------------------------------------------------------------- changing the password

  /** The change-password fields as the form opens. */
  const PasswordFormFields: seq<string> := ["currentPassword", "newPassword", "confirmPassword"]

  /** The change-password form, all three fields "". */
  function EmptyPasswordForm(): (o: Obj<string>)
    ensures Keys(o) == PasswordFormFields
  {
    BlankObject(PasswordFormFields)
  }

  /** `togglePasswordVisibility(field)`: flip that field's flag (a missing flag counts as
      hidden) and no other. */
  function ToggleVisibility(flags: Obj<bool>, field: string): (r: Obj<bool>)
    ensures Get(r, field) == Some(!Get(flags, field).GetOr(false))
    ensures forall k :: k != field ==> Get(r, k) == Get(flags, k)
  {
    Set(flags, field, !Get(flags, field).GetOr(false))
  }

  /** Toggling twice shows the field as it was. */
  lemma ToggleVisibilityTwice(flags: Obj<bool>, field: string)
    requires Get(flags, field).Some?
    ensures Get(ToggleVisibility(ToggleVisibility(flags, field), field), field) == Get(flags, field)
  {
  }

  /** `handlePasswordChange`: store the text under the input's name. */
  function PasswordChange(form: Obj<string>, name: string, value: string): (r: Obj<string>)
    ensures Get(r, name) == Some(value)
    ensures forall k :: k != name ==> Get(r, k) == Get(form, k)
  {
    Set(form, name, value)
  }

  /** What submitting the change-password form does: the request (if any) and the form
      afterwards. */
  datatype PasswordOutcome = PasswordOutcome(request: Option<Obj<string>>, form: Obj<string>)

  /** `handleSubmit` of the change-password form: a new password that differs from its
      confirmation sends nothing; otherwise the form without `confirmPassword` is sent, and
      the fields are cleared only on a response with data. */
  function PasswordSubmit(form: Obj<string>, response: Response): (o: PasswordOutcome)
    ensures o.request.None? <==> Get(form, "newPassword") != Get(form, "confirmPassword")
    ensures o.request.None? ==> o.form == form
    ensures o.request.Some? ==> Get(o.request.value, "confirmPassword").None?
    ensures o.request.Some? ==> forall k :: k != "confirmPassword" ==> Get(o.request.value, k) == Get(form, k)
    ensures o.request.Some? ==> (response == DataResponse ==> o.form == EmptyPasswordForm())
    ensures o.request.Some? ==> (response != DataResponse ==> o.form == form)
  {
    if Get(form, "newPassword") != Get(form, "confirmPassword") then PasswordOutcome(None, form)
    else
      var after := if response == DataResponse then EmptyPasswordForm() else form;
      PasswordOutcome(Some(Delete(form, "confirmPassword")), after)
  }

  /** On a form holding both fields the check is exactly the change-password rule: any
      matching pair is sent, however short. */
  lemma PasswordSubmitIsChangeRule(form: Obj<string>, response: Response)
    ensures Get(form, "newPassword").Some? && Get(form, "confirmPassword").Some? ==>
      (PasswordSubmit(form, response).request.Some? <==>
       CheckChangePassword(Get(form, "newPassword").value, Get(form, "confirmPassword").value) == Accepted)
  {
  }
}
