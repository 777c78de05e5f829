/** The worker dialogs. The create dialog holds twelve text fields, the chosen services
    with their chosen add-ons and an optional photo, and on submit turns the chosen service
    names into catalogue ids. The edit dialog is filled from an existing worker, checks a
    photo's type and size, and leaves empty password fields out of the request. */
module WorkerForms {
  import opened Wrappers
  import opened JsObject
  import opened Seqs
  import opened Passwords

  /** A picked file: its MIME type and its size in bytes. */
  datatype File = File(name: string, mimeType: string, size: nat)

  /** A catalogue add-on and a catalogue service, as the services query returns them. */
  datatype CatalogueSub = CatalogueSub(id: string, subcategoryName: string)
  datatype CatalogueService = CatalogueService(id: string, serviceName: string, subcategory: Option<seq<CatalogueSub>>)

  /** One element of the `services` request field: a service id and its add-on ids. */
  datatype ServiceEntry = ServiceEntry(service: string, subcategories: seq<string>)

  /** How the create or update call came back: `res.data` set, `res.error` set, or neither. */
  datatype Response = DataResponse | ErrorResponse | EmptyResponse

  /** The create dialog's text fields, in the order the request lists them. */
  const WorkerFields: seq<string> := [
    "firstName", "lastName", "address", "city", "state", "zipCode",
    "title", "workerId", "phone", "email", "password", "confirmPassword"]

  /** An object holding `""` under each of `fields`, in that order. */
  function BlankObject(fields: seq<string>): (o: Obj<string>)
    ensures Keys(o) == fields
    ensures forall i :: 0 <= i < |o| ==> o[i].value == ""
  {
    if |fields| == 0 then [] else [Entry(fields[0], "")] + BlankObject(fields[1..])
  }

  // ---------------------------------------------------------------- the create dialog

  /** The create dialog's state. */
  datatype CreateDialog = CreateDialog(
    form: Obj<string>,
    selected: seq<string>,
    subSelections: Obj<seq<string>>,
    image: Option<File>,
    passwordError: string)

  /** The dialog as it opens, and as a successful submission leaves it. */
  function EmptyCreateDialog(): (d: CreateDialog)
    ensures Keys(d.form) == WorkerFields
    ensures d.selected == [] && d.subSelections == [] && d.image.None? && d.passwordError == ""
  {
    CreateDialog(BlankObject(WorkerFields), [], [], None, "")
  }

  /** `handleChange`: store the text under the input's name; the two password inputs also
      clear the password error. */
  function HandleChange(d: CreateDialog, name: string, value: string): (r: CreateDialog)
    ensures Get(r.form, name) == Some(value)
    ensures forall k :: k != name ==> Get(r.form, k) == Get(d.form, k)
    ensures r.passwordError == ErrorAfterEdit(d.passwordError, name)
    ensures r.selected == d.selected && r.subSelections == d.subSelections && r.image == d.image
  {
    d.(form := Set(d.form, name, value), passwordError := ErrorAfterEdit(d.passwordError, name))
  }

  /** Typing in a rendered input never adds or reorders a field. */
  lemma HandleChangeKeepsFields(d: CreateDialog, name: string, value: string)
    requires name in Keys(d.form)
    ensures Keys(HandleChange(d, name, value).form) == Keys(d.form)
  {
    SetKeys(d.form, name, value);
  }

  /** `handleImageChange`: a picked file replaces the photo, no file keeps it. */
  function HandleImage(d: CreateDialog, file: Option<File>): (r: CreateDialog)
    ensures file.Some? ==> r == d.(image := file)
    ensures file.None? ==> r == d
  {
    if file.Some? then d.(image := file) else d
  }

  /** `handleSelectMainService`: a service already chosen is ignored, a new one is added
      at the end. */
  function SelectMainService(d: CreateDialog, name: string): (r: CreateDialog)
    ensures name in d.selected ==> r == d
    ensures name !in d.selected ==> r == d.(selected := d.selected + [name])
  {
    if name in d.selected then d else d.(selected := d.selected + [name])
  }

  /** Choosing services never lists one twice. */
  lemma SelectKeepsNoDup(d: CreateDialog, name: string)
    requires NoDup(d.selected)
    ensures NoDup(SelectMainService(d, name).selected)
  {
    var r := SelectMainService(d, name).selected;
    if name !in d.selected {
      forall i, j | 0 <= i < j < |r| ensures r[i] != r[j] {
        if j == |d.selected| {
          assert r[i] in d.selected;
        }
      }
    }
  }

  /** `handleSelectSubService`: the add-on choice of one service is replaced. */
  function SelectSubService(d: CreateDialog, mainName: string, values: seq<string>): (r: CreateDialog)
    ensures Get(r.subSelections, mainName) == Some(values)
    ensures forall k :: k != mainName ==> Get(r.subSelections, k) == Get(d.subSelections, k)
    ensures r.selected == d.selected && r.form == d.form
  {
    d.(subSelections := Set(d.subSelections, mainName, values))
  }

  /** `handleDeleteService`: the service leaves the list and its add-on choice is dropped;
      every other service and choice stays. */
  function DeleteService(d: CreateDialog, name: string): (r: CreateDialog)
    ensures name !in r.selected && Get(r.subSelections, name).None?
    ensures forall x :: x != name ==> (x in r.selected <==> x in d.selected)
    ensures forall k :: k != name ==> Get(r.subSelections, k) == Get(d.subSelections, k)
    ensures Subseq(r.selected, d.selected)
    ensures r.form == d.form && r.image == d.image
  {
    d.(selected := RemoveAll(d.selected, name), subSelections := Delete(d.subSelections, name))
  }

  /** Choosing a new service and deleting it again restores the list. */
  lemma SelectThenDelete(d: CreateDialog, name: string)
    requires name !in d.selected
    ensures DeleteService(SelectMainService(d, name), name).selected == d.selected
  {
    RemoveAllAppend(d.selected, name);
  }

  /** `allServices?.find((s) => s.serviceName === name)`: the first match. */
  function FindService(all: seq<CatalogueService>, name: string): (r: Option<CatalogueService>)
    ensures r.Some? ==> r.value in all && r.value.serviceName == name
    ensures r.None? <==> forall i :: 0 <= i < |all| ==> all[i].serviceName != name
  {
    if |all| == 0 then None
    else if all[0].serviceName == name then Some(all[0])
    else FindService(all[1..], name)
  }

  /** `found.subcategory.find((ss) => ss.subcategoryName === name)`: the first match. */
  function FindSub(subs: seq<CatalogueSub>, name: string): (r: Option<CatalogueSub>)
    ensures r.Some? ==> r.value in subs && r.value.subcategoryName == name
    ensures r.None? <==> forall i :: 0 <= i < |subs| ==> subs[i].subcategoryName != name
  {
    if |subs| == 0 then None
    else if subs[0].subcategoryName == name then Some(subs[0])
    else FindSub(subs[1..], name)
  }

  /** The ids of the chosen add-ons, in the order chosen; `None` when one of them is not in
      the catalogue (reading `_id` of `undefined` throws). */
  function SubIds(subs: seq<CatalogueSub>, names: seq<string>): (r: Option<seq<string>>)
    ensures r.None? <==> exists i :: 0 <= i < |names| && FindSub(subs, names[i]).None?
    ensures r.Some? ==> |r.value| == |names|
    ensures r.Some? ==> forall i :: 0 <= i < |names| ==> r.value[i] == FindSub(subs, names[i]).value.id
  {
    if |names| == 0 then Some([])
    else
      match FindSub(subs, names[0])
      case None => None
      case Some(s) =>
        match SubIds(subs, names[1..])
        case None => None
        case Some(rest) => Some([s.id] + rest)
  }

  /** One element of `servicesArray`. `None` stands for the TypeError thrown when the
      service is not in the catalogue, the catalogue has not loaded, the service has no
      `subcategory` list, or a chosen add-on is not in it. A service with no add-ons gets
      `[]` whatever was chosen for it. */
  function EntryFor(all: Option<seq<CatalogueService>>, subSelections: Obj<seq<string>>, name: string): (r: Option<ServiceEntry>)
    ensures all.None? ==> r.None?
    ensures all.Some? && FindService(all.value, name).None? ==> r.None?
    ensures r.Some? ==> all.Some? && FindService(all.value, name).Some?
    ensures r.Some? ==> r.value.service == FindService(all.value, name).value.id
    ensures all.Some? && FindService(all.value, name).Some? && FindService(all.value, name).value.subcategory.None? ==> r.None?
    ensures all.Some? && FindService(all.value, name).Some? && FindService(all.value, name).value.subcategory == Some([]) ==>
      r == Some(ServiceEntry(FindService(all.value, name).value.id, []))
    ensures (all.Some? && FindService(all.value, name).Some? && FindService(all.value, name).value.subcategory.Some? &&
             |FindService(all.value, name).value.subcategory.value| > 0) ==>
        var ids := SubIds(FindService(all.value, name).value.subcategory.value, Get(subSelections, name).GetOr([]));
        (r.Some? <==> ids.Some?) && (r.Some? ==> r.value.subcategories == ids.value)
  {
    if all.None? then None
    else
      match FindService(all.value, name)
      case None => None
      case Some(found) =>
        match found.subcategory
        case None => None
        case Some(subs) =>
          if |subs| > 0 then
            match SubIds(subs, Get(subSelections, name).GetOr([]))
            case None => None
            case Some(ids) => Some(ServiceEntry(found.id, ids))
          else Some(ServiceEntry(found.id, []))
  }

  /** `servicesArray`: one entry per chosen service, in order, or `None` when building any
      of them throws. */
  function ServicesArray(all: Option<seq<CatalogueService>>, selected: seq<string>, subSelections: Obj<seq<string>>): (r: Option<seq<ServiceEntry>>)
    ensures r.None? <==> exists i :: 0 <= i < |selected| && EntryFor(all, subSelections, selected[i]).None?
    ensures r.Some? ==> |r.value| == |selected|
    ensures r.Some? ==> forall i :: 0 <= i < |selected| ==> r.value[i] == EntryFor(all, subSelections, selected[i]).value
  {
    if |selected| == 0 then Some([])
    else
      match EntryFor(all, subSelections, selected[0])
      case None => None
      case Some(e) =>
        match ServicesArray(all, selected[1..], subSelections)
        case None => None
        case Some(rest) => Some([e] + rest)
  }

  /** With nothing chosen the array is empty, loaded catalogue or not. */
  lemma NoServicesChosen(all: Option<seq<CatalogueService>>, subSelections: Obj<seq<string>>)
    ensures ServicesArray(all, [], subSelections) == Some([])
  {
  }

  /** The create request: every form field, the optional photo and the services. */
  datatype WorkerRequest = WorkerRequest(fields: Obj<string>, image: Option<File>, services: seq<ServiceEntry>)

  /** What a submission does: the request (if any), the dialog afterwards, whether it closed. */
  datatype CreateOutcome = CreateOutcome(request: Option<WorkerRequest>, dialog: CreateDialog, closed: bool)

  /** The form holds both password fields (true of every form the dialog builds). */
  predicate HasPasswordFields(form: Obj<string>) {
    "password" in Keys(form) && "confirmPassword" in Keys(form)
  }

  /** `handleSubmit` of the create dialog. A failed password check only sets the error.
      When building the services throws, nothing is sent and the dialog stays open. Otherwise
      every field (the confirmation included) is sent with the photo when there is one; the
      dialog closes whatever the response, and only a response with data resets it. */
  function SubmitCreate(d: CreateDialog, all: Option<seq<CatalogueService>>, response: Response): (o: CreateOutcome)
    requires HasPasswordFields(d.form)
    ensures var c := CheckNewPassword(Get(d.form, "password").value, Get(d.form, "confirmPassword").value);
      c.Rejected? ==> o == CreateOutcome(None, d.(passwordError := c.message), false)
    ensures o.request.Some? <==>
      CheckNewPassword(Get(d.form, "password").value, Get(d.form, "confirmPassword").value) == Accepted &&
      ServicesArray(all, d.selected, d.subSelections).Some?
    ensures o.request.Some? ==> o.request.value.fields == d.form && o.request.value.image == d.image
    ensures o.request.Some? ==> o.request.value.services == ServicesArray(all, d.selected, d.subSelections).value
    ensures o.request.Some? ==> o.closed
    ensures o.request.Some? ==> (o.dialog == EmptyCreateDialog() <==> response == DataResponse || d == EmptyCreateDialog())
    ensures o.request.None? ==> !o.closed
  {
    var c := CheckNewPassword(Get(d.form, "password").value, Get(d.form, "confirmPassword").value);
    if c.Rejected? then CreateOutcome(None, d.(passwordError := c.message), false)
    else
      match ServicesArray(all, d.selected, d.subSelections)
      case None => CreateOutcome(None, d, false)
      case Some(services) =>
        var after := if response == DataResponse then EmptyCreateDialog() else d;
        CreateOutcome(Some(WorkerRequest(d.form, d.image, services)), after, true)
  }

  /** From the empty dialog, typing only in its own inputs, the request carries exactly the
      twelve fields, the confirmation included. */
  lemma RequestCarriesAllFields(d: CreateDialog, all: Option<seq<CatalogueService>>, response: Response)
    requires Keys(d.form) == WorkerFields
    ensures HasPasswordFields(d.form)
    ensures SubmitCreate(d, all, response).request.Some? ==>
      Keys(SubmitCreate(d, all, response).request.value.fields) == WorkerFields
    ensures |WorkerFields| == 12 && WorkerFields[11] == "confirmPassword"
  {
    assert WorkerFields[10] == "password";
    assert WorkerFields[11] == "confirmPassword";
  }

  // ---------------------------------------------------------------- the edit dialog

  /** The photo types the edit dialog accepts. */
  const AllowedTypes: seq<string> := ["image/jpeg", "image/jpg", "image/png", "image/gif"]

  /** The largest photo the edit dialog accepts: 5 MiB. */
  const MaxImageSize: nat := 5 * 1024 * 1024

  /** The photo error shown in the edit dialog. */
  datatype ImageError = NoImageError | TypeNotAllowed | TooLarge(size: nat)

  /** The edit dialog's state. */
  datatype EditDialog = EditDialog(form: Obj<string>, image: Option<File>, imageError: ImageError, passwordError: string)

  /** The worker fields copied from the record, in form order; the two password fields
      follow. */
  const ProfileFields: seq<string> := [
    "firstName", "lastName", "address", "city", "state", "zipCode",
    "title", "workerId", "phone", "email"]

  /** `field: workerData.field || ""` for each profile field. */
  function CopyFields(worker: Obj<string>, fields: seq<string>): (o: Obj<string>)
    ensures Keys(o) == fields
    ensures forall i :: 0 <= i < |o| ==> o[i].value == Get(worker, fields[i]).GetOr("")
  {
    if |fields| == 0 then []
    else [Entry(fields[0], Get(worker, fields[0]).GetOr(""))] + CopyFields(worker, fields[1..])
  }

  /** The filled form: the copied fields, then both password fields blank. */
  function FilledForm(worker: Obj<string>, fields: seq<string>): (o: Obj<string>)
    ensures Keys(o) == fields + ["password", "confirmPassword"]
    ensures forall i :: 0 <= i < |fields| ==> o[i].value == Get(worker, fields[i]).GetOr("")
    ensures o[|fields|].value == "" && o[|fields| + 1].value == ""
  {
    var copied := CopyFields(worker, fields);
    var o := copied + [Entry("password", ""), Entry("confirmPassword", "")];
    assert Keys(o) == Keys(copied) + ["password", "confirmPassword"];
    o
  }

  /** The filling effect: when a worker is given and the dialog is open, the form takes the
      worker's fields ("" when missing) and blank passwords, and the picked photo and both
      errors are cleared; otherwise nothing changes. */
  function Populate(d: EditDialog, worker: Option<Obj<string>>, isOpen: bool): (r: EditDialog)
    ensures worker.None? || !isOpen ==> r == d
    ensures worker.Some? && isOpen ==> r.form == FilledForm(worker.value, ProfileFields)
    ensures worker.Some? && isOpen ==> r.image.None? && r.imageError == NoImageError && r.passwordError == ""
  {
    if worker.Some? && isOpen then EditDialog(FilledForm(worker.value, ProfileFields), None, NoImageError, "")
    else d
  }

  /** `handleImageChange` of the edit dialog: the error is cleared first; a file of another
      type or above 5 MiB is refused with an error and leaves the photo as it was; any other
      file becomes the photo. */
  function HandleEditImage(d: EditDialog, file: Option<File>): (r: EditDialog)
    ensures r.form == d.form && r.passwordError == d.passwordError
    ensures file.None? ==> r == d.(imageError := NoImageError)
    ensures file.Some? ==> (r.image == file <==> file.value.mimeType in AllowedTypes && file.value.size <= MaxImageSize) || d.image == file
    ensures file.Some? && file.value.mimeType !in AllowedTypes ==> r.image == d.image && r.imageError == TypeNotAllowed
    ensures file.Some? && file.value.mimeType in AllowedTypes && file.value.size > MaxImageSize ==>
      r.image == d.image && r.imageError == TooLarge(file.value.size)
    ensures file.Some? && file.value.mimeType in AllowedTypes && file.value.size <= MaxImageSize ==>
      r.image == file && r.imageError == NoImageError
  {
    match file
    case None => d.(imageError := NoImageError)
    case Some(f) =>
      if f.mimeType !in AllowedTypes then d.(imageError := TypeNotAllowed)
      else if f.size > MaxImageSize then d.(imageError := TooLarge(f.size))
      else d.(image := file, imageError := NoImageError)
  }

  /** The size limit is inclusive: exactly 5 MiB is accepted, one byte more is refused. */
  lemma SizeLimitBoundary(d: EditDialog)
    ensures HandleEditImage(d, Some(File("a.png", "image/png", 5242880))).image == Some(File("a.png", "image/png", 5242880))
    ensures HandleEditImage(d, Some(File("a.png", "image/png", 5242881))).image == d.image
  {
    assert AllowedTypes[2] == "image/png";
  }

  /** The edit request's fields: every field in form order, except that an empty password
      field is left out. */
  function EditFields(form: Obj<string>): (r: Obj<string>)
    ensures forall k :: !IsPasswordField(k) ==> Get(r, k) == Get(form, k)
    ensures forall e :: e in r <==> e in form && !(IsPasswordField(e.key) && e.value == "")
    ensures Subseq(r, form)
  {
    if |form| == 0 then []
    else if IsPasswordField(form[0].key) && form[0].value == "" then
      EditFields(form[1..])
    else [form[0]] + EditFields(form[1..])
  }

  /** The edit request: the worker id and the fields, with the photo when one was picked. */
  datatype EditRequest = EditRequest(id: string, fields: Obj<string>, image: Option<File>)

  /** What submitting the edit dialog does. */
  datatype EditOutcome = EditOutcome(request: Option<EditRequest>, dialog: EditDialog, closed: bool)

  /** `handleSubmit` of the edit dialog: the password rules apply only when a password was
      typed; a failure sets the error and sends nothing. The dialog closes only on a
      response with data. */
  function SubmitEdit(d: EditDialog, workerId: string, response: Response): (o: EditOutcome)
    ensures var c := CheckOptionalPassword(Get(d.form, "password").GetOr(""), Get(d.form, "confirmPassword").GetOr(""));
      c.Rejected? ==> o == EditOutcome(None, d.(passwordError := c.message), false)
    ensures o.request.Some? <==>
      CheckOptionalPassword(Get(d.form, "password").GetOr(""), Get(d.form, "confirmPassword").GetOr("")) == Accepted
    ensures o.request.Some? ==> o.request.value == EditRequest(workerId, EditFields(d.form), d.image) && o.dialog == d
    ensures o.closed <==> o.request.Some? && response == DataResponse
  {
    var c := CheckOptionalPassword(Get(d.form, "password").GetOr(""), Get(d.form, "confirmPassword").GetOr(""));
    if c.Rejected? then EditOutcome(None, d.(passwordError := c.message), false)
    else EditOutcome(Some(EditRequest(workerId, EditFields(d.form), d.image)), d, response == DataResponse)
  }

  /** A form whose password fields are blank sends no password field. */
  lemma BlankPasswordsOmitted(form: Obj<string>)
    requires forall i :: 0 <= i < |form| && IsPasswordField(form[i].key) ==> form[i].value == ""
    ensures Get(EditFields(form), "password").None?
    ensures Get(EditFields(form), "confirmPassword").None?
  {
    var r := EditFields(form);
    forall i | 0 <= i < |Keys(r)| ensures !IsPasswordField(Keys(r)[i]) {
      assert Keys(r)[i] == r[i].key && r[i] in r;
      var j :| 0 <= j < |form| && form[j] == r[i];
    }
    assert "password" !in Keys(r) && "confirmPassword" !in Keys(r);
  }

  /** A filled form sends no password field until one is typed. */
  lemma FilledFormOmitsPasswords(worker: Obj<string>, fields: seq<string>)
    requires forall i :: 0 <= i < |fields| ==> !IsPasswordField(fields[i])
    ensures Get(EditFields(FilledForm(worker, fields)), "password").None?
    ensures Get(EditFields(FilledForm(worker, fields)), "confirmPassword").None?
  {
    var o := FilledForm(worker, fields);
    assert |o| == |fields| + 2 by {
      assert |Keys(o)| == |o|;
    }
    forall i | 0 <= i < |fields| ensures !IsPasswordField(o[i].key) {
      assert Keys(o)[i] == o[i].key;
      assert Keys(o)[i] == fields[i];
    }
    BlankPasswordsOmitted(o);
  }

  /** Both password fields of a filled form hold "". */
  lemma FilledFormPasswordsBlank(worker: Obj<string>, fields: seq<string>)
    requires forall i :: 0 <= i < |fields| ==> !IsPasswordField(fields[i])
    ensures Get(FilledForm(worker, fields), "password") == Some("")
    ensures Get(FilledForm(worker, fields), "confirmPassword") == Some("")
  {
    var o := FilledForm(worker, fields);
    var copied := CopyFields(worker, fields);
    assert o == copied + [Entry("password", ""), Entry("confirmPassword", "")];
    assert "password" !in Keys(copied) && "confirmPassword" !in Keys(copied) by {
      forall i | 0 <= i < |copied| ensures !IsPasswordField(Keys(copied)[i]) {
        assert Keys(copied)[i] == fields[i];
      }
    }
    GetAppendMissing(copied, [Entry("password", ""), Entry("confirmPassword", "")], "password");
    GetAppendMissing(copied, [Entry("password", ""), Entry("confirmPassword", "")], "confirmPassword");
  }

  /** Saving a freshly filled dialog without typing a password sends the profile fields
      alone. */
  lemma UntouchedPasswordsAreOmitted(d: EditDialog, worker: Obj<string>, workerId: string, response: Response)
    ensures var o := SubmitEdit(Populate(d, Some(worker), true), workerId, response);
      o.request.Some? && Get(o.request.value.fields, "password").None? &&
      Get(o.request.value.fields, "confirmPassword").None?
  {
    var filled := Populate(d, Some(worker), true);
    var form := FilledForm(worker, ProfileFields);
    assert filled.form == form;
    ProfileFieldsAreNotPasswords();
    FilledFormPasswordsBlank(worker, ProfileFields);
    FilledFormOmitsPasswords(worker, ProfileFields);
    assert CheckOptionalPassword(Get(form, "password").GetOr(""), Get(form, "confirmPassword").GetOr("")) == Accepted;
  }

  lemma ProfileFieldsAreNotPasswords()
    ensures forall i :: 0 <= i < |ProfileFields| ==> !IsPasswordField(ProfileFields[i])
  {
  }

  /** Reading a key the first part lacks reads the second part. */
  lemma {:induction false} GetAppendMissing(a: Obj<string>, b: Obj<string>, k: string)
    requires k !in Keys(a)
    ensures Get(a + b, k) == Get(b, k)
  {
    if |a| > 0 {
      assert Keys(a)[0] == a[0].key;
      assert forall i :: 0 <= i < |Keys(a[1..])| ==> Keys(a[1..])[i] == Keys(a)[i + 1];
      assert (a + b)[1..] == a[1..] + b;
      GetAppendMissing(a[1..], b, k);
    } else {
      assert a + b == b;
    }
  }

  /** In an object without repeated keys, reading an entry's key gives its value. */
  lemma {:induction false} GetOfEntry(o: Obj<string>, i: nat)
    requires i < |o| && Wf(o)
    ensures Get(o, o[i].key) == Some(o[i].value)
  {
    if i > 0 {
      assert Wf(o[1..]);
      assert o[0].key != o[i].key;
      GetOfEntry(o[1..], i - 1);
    }
  }
}
