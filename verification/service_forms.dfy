/** The two service dialogs: the create dialog (a name, a price and at most four add-ons)
    and the update dialog (loaded from an existing service, any number of add-ons). Both
    clean the add-on list before sending it. */
module ServiceForms {
  import opened Wrappers
  import opened JsText
  import opened Seqs

  /** A price as the dialogs hold it: `null`, a number, or NaN (what `parseFloat` gives for
      text that does not start with a number). */
  datatype Price = Null | Num(n: int) | NaN

  /** One add-on row. */
  datatype AddOn = AddOn(subcategoryName: string, subcategoryPrice: Price)

  /** The create dialog's form, and the body of both dialogs' requests. */
  datatype ServiceForm = ServiceForm(serviceName: string, price: Price, subcategory: seq<AddOn>)

  /** Which field of an add-on row an input edits. */
  datatype AddOnField = NameField | PriceField

  /** The create dialog allows at most this many add-on rows. */
  const MaxAddOns: nat := 4

  /** JavaScript's global `isNaN`: `null` converts to 0 and so is not NaN. */
  predicate IsNaN(p: Price) {
    p.NaN?
  }

  /** `parseFloat(text)` restricted to texts that start with an optionally signed run of
      decimal digits: the integer part is read, and anything else is NaN. */
  function ParseFloat(text: string): (p: Price)
    ensures p.Num? || p.NaN?
    ensures p.Num? <==> ParseInt(text).Some?
    ensures p.Num? ==> p.n == ParseInt(text).value
  {
    match ParseInt(text)
    case Some(n) => Num(n)
    case None => NaN
  }

  /** Typing a printed integer into a price field yields that integer. */
  lemma ParseFloatIntToString(n: int)
    ensures ParseFloat(IntToString(n)) == Num(n)
  {
    ParseIntIntToString(n);
  }

  /** The create dialog's empty form, `{ serviceName: "", price: 0, subcategory: [] }`. */
  function EmptyForm(): (f: ServiceForm)
    ensures f.serviceName == "" && f.price == Num(0) && f.subcategory == []
  {
    ServiceForm("", Num(0), [])
  }

  // ---------------------------------------------------------------- the create dialog

  /** `handleMainChange`: the name field stores the text, the price field stores
      `parseFloat` of it. */
  function EditMain(f: ServiceForm, editsPrice: bool, value: string): (r: ServiceForm)
    ensures r.subcategory == f.subcategory
    ensures editsPrice ==> r.serviceName == f.serviceName && r.price == ParseFloat(value)
    ensures !editsPrice ==> r.serviceName == value && r.price == f.price
  {
    if editsPrice then f.(price := ParseFloat(value)) else f.(serviceName := value)
  }

  /** The "+ Add-Ons" button is disabled from four rows on. */
  predicate AddDisabled(f: ServiceForm) {
    |f.subcategory| >= MaxAddOns
  }

  /** `handleAddSubService`: nothing from four rows on, otherwise one empty row with a
      `null` price at the end. */
  function AddAddOn(f: ServiceForm): (r: ServiceForm)
    ensures AddDisabled(f) ==> r == f
    ensures !AddDisabled(f) ==> r.subcategory == f.subcategory + [AddOn("", Null)]
    ensures r.serviceName == f.serviceName && r.price == f.price
  {
    if |f.subcategory| >= MaxAddOns then f
    else f.(subcategory := f.subcategory + [AddOn("", Null)])
  }

  /** Replace one field of one row; the other row fields and rows stay. */
  function SetAddOnField(subs: seq<AddOn>, index: nat, field: AddOnField, name: string, price: Price): (r: seq<AddOn>)
    requires index < |subs|
    ensures |r| == |subs|
    ensures forall j :: 0 <= j < |r| && j != index ==> r[j] == subs[j]
    ensures field == NameField ==> r[index] == subs[index].(subcategoryName := name)
    ensures field == PriceField ==> r[index] == subs[index].(subcategoryPrice := price)
  {
    var old_ := subs[index];
    subs[index := if field == NameField then old_.(subcategoryName := name) else old_.(subcategoryPrice := price)]
  }

  /** `handleSubChange(index, e)` of the create dialog: a name stores the text, a price
      stores `parseFloat` of it. Rows are only rendered, and so only edited, for existing
      indices. */
  function EditAddOn(f: ServiceForm, index: nat, field: AddOnField, value: string): (r: ServiceForm)
    requires index < |f.subcategory|
    ensures r.serviceName == f.serviceName && r.price == f.price
    ensures |r.subcategory| == |f.subcategory|
    ensures forall j :: 0 <= j < |r.subcategory| && j != index ==> r.subcategory[j] == f.subcategory[j]
    ensures field == NameField ==> r.subcategory[index].subcategoryName == value
    ensures field == NameField ==> r.subcategory[index].subcategoryPrice == f.subcategory[index].subcategoryPrice
    ensures field == PriceField ==> r.subcategory[index].subcategoryPrice == ParseFloat(value)
    ensures field == PriceField ==> r.subcategory[index].subcategoryName == f.subcategory[index].subcategoryName
  {
    f.(subcategory := SetAddOnField(f.subcategory, index, field, value, ParseFloat(value)))
  }

  /** `splice(index, 1)` and `filter((_, i) => i !== index)`: drop the row at `index`; an
      index past the end removes nothing. */
  function RemoveRow(subs: seq<AddOn>, index: nat): (r: seq<AddOn>)
    ensures index >= |subs| ==> r == subs
    ensures index < |subs| ==> r == subs[..index] + subs[index + 1..]
    ensures Subseq(r, subs)
  {
    if index < |subs| then
      RemoveAtSubseq(subs, index);
      RemoveAt(subs, index)
    else
      SubseqRefl(subs);
      subs
  }

  lemma {:induction false} RemoveAtSubseq(s: seq<AddOn>, i: nat)
    requires i < |s|
    ensures Subseq(RemoveAt(s, i), s)
    decreases |s|
  {
    if i == 0 {
      SubseqRefl(s[1..]);
      assert RemoveAt(s, 0) == s[1..];
    } else {
      RemoveAtSubseq(s[1..], i - 1);
      assert RemoveAt(s, i)[1..] == RemoveAt(s[1..], i - 1);
    }
  }

  /** `handleRemoveSubService(index)`. */
  function RemoveAddOn(f: ServiceForm, index: nat): (r: ServiceForm)
    ensures r.serviceName == f.serviceName && r.price == f.price
    ensures r.subcategory == RemoveRow(f.subcategory, index)
  {
    f.(subcategory := RemoveRow(f.subcategory, index))
  }

  /** Adding a row and removing it again gives back the form. */
  lemma AddThenRemove(f: ServiceForm)
    requires !AddDisabled(f)
    ensures RemoveAddOn(AddAddOn(f), |f.subcategory|) == f
  {
    assert (f.subcategory + [AddOn("", Null)])[..|f.subcategory|] == f.subcategory;
  }

  /** A user action in the create dialog. */
  datatype CreateAction =
    | Main(editsPrice: bool, value: string)
    | Add
    | Edit(index: nat, field: AddOnField, value: string)
    | Remove(index: nat)

  /** The form after a run of actions; edits of rows that do not exist are not possible in
      the dialog and are skipped. */
  function RunCreate(f: ServiceForm, actions: seq<CreateAction>): ServiceForm
    decreases |actions|
  {
    if |actions| == 0 then f
    else
      var next := match actions[0]
        case Main(p, v) => EditMain(f, p, v)
        case Add => AddAddOn(f)
        case Edit(i, fld, v) => if i < |f.subcategory| then EditAddOn(f, i, fld, v) else f
        case Remove(i) => RemoveAddOn(f, i);
      RunCreate(next, actions[1..])
  }

  /** Starting from at most four rows, no run of actions ever produces a fifth. */
  lemma {:induction false} AddOnCapHolds(f: ServiceForm, actions: seq<CreateAction>)
    requires |f.subcategory| <= MaxAddOns
    ensures |RunCreate(f, actions).subcategory| <= MaxAddOns
    decreases |actions|
  {
    if |actions| > 0 {
      var next := match actions[0]
        case Main(p, v) => EditMain(f, p, v)
        case Add => AddAddOn(f)
        case Edit(i, fld, v) => if i < |f.subcategory| then EditAddOn(f, i, fld, v) else f
        case Remove(i) => RemoveAddOn(f, i);
      assert |next.subcategory| <= MaxAddOns;
      AddOnCapHolds(next, actions[1..]);
    }
  }

  /** The create dialog's add-on test as written: a non-blank name and `!isNaN(price)`,
      which a `null` price (a row whose price was never typed) passes. */
  predicate KeepAddOnAsWritten(a: AddOn) {
    Trim(a.subcategoryName) != "" && !IsNaN(a.subcategoryPrice)
  }

  /** The create dialog's add-on filter as written. */
  function SubmittedAddOnsAsWritten(subs: seq<AddOn>): (r: seq<AddOn>)
    ensures forall a :: a in r <==> a in subs && KeepAddOnAsWritten(a)
    ensures forall a :: multiset(r)[a] == if KeepAddOnAsWritten(a) then multiset(subs)[a] else 0
    ensures Subseq(r, subs)
  {
    Filter(subs, KeepAddOnAsWritten)
  }

  /** A name of Unicode white space only is blank to `trim`, so that row is never sent. */
  lemma UnicodeSpaceNameDropped(price: Price)
    ensures SubmittedAddOnsAsWritten([AddOn("\U{3000}\U{2028}", price)]) == []
  {
    TrimSpec("\U{3000}\U{2028}");
    assert !KeepAddOnAsWritten(AddOn("\U{3000}\U{2028}", price));
  }

  /** A named row whose price was never entered is sent with a `null` price. */
  lemma NullPriceIsSubmitted()
    ensures SubmittedAddOnsAsWritten([AddOn("Gel", Null)]) == [AddOn("Gel", Null)]
  {
    assert !IsSpace('G') && !IsSpace('l');
    assert TrimStart("Gel") == "Gel";
    assert TrimEnd("Gel") == "Gel";
    assert KeepAddOnAsWritten(AddOn("Gel", Null));
  }

  /** The intended add-on test, which is also the one the update dialog writes out: a
      non-blank name and a price that is a number (neither NaN nor `null`). */
  predicate KeepAddOn(a: AddOn) {
    Trim(a.subcategoryName) != "" && a.subcategoryPrice.Num?
  }

  /** The update dialog's test, `name.trim() !== "" && !isNaN(price) && price !== null`, is
      the intended one. */
  lemma UpdateTestIsKeepAddOn(a: AddOn)
    ensures (Trim(a.subcategoryName) != "" && !IsNaN(a.subcategoryPrice) && !a.subcategoryPrice.Null?) <==> KeepAddOn(a)
  {
  }

  /** The add-ons that are sent: exactly the rows with a non-blank name and a numeric
      price, in their original order. */
  function SubmittedAddOns(subs: seq<AddOn>): (r: seq<AddOn>)
    ensures forall a :: a in r <==> a in subs && KeepAddOn(a)
    ensures forall a :: multiset(r)[a] == if KeepAddOn(a) then multiset(subs)[a] else 0
    ensures Subseq(r, subs)
    ensures |r| <= |subs|
  {
    Filter(subs, KeepAddOn)
  }

  /** A list whose rows all pass is sent unchanged. */
  lemma SubmittedAddOnsAllKept(subs: seq<AddOn>)
    requires forall i :: 0 <= i < |subs| ==> KeepAddOn(subs[i])
    ensures SubmittedAddOns(subs) == subs
  {
  }

  /** The corrected filter sends no `null` price; the filter as written differs from it
      exactly on rows with a name and a `null` price. */
  lemma SubmittedAddOnsHaveNumericPrices(subs: seq<AddOn>)
    ensures forall a :: a in SubmittedAddOns(subs) ==> a.subcategoryPrice.Num?
    ensures forall a :: a in subs ==>
      (KeepAddOnAsWritten(a) && !KeepAddOn(a) <==> Trim(a.subcategoryName) != "" && a.subcategoryPrice.Null?)
  {
  }

  /** Cleaning an already clean list changes nothing. */
  lemma {:induction false} SubmittedAddOnsIdempotent(subs: seq<AddOn>)
    ensures SubmittedAddOns(SubmittedAddOns(subs)) == SubmittedAddOns(subs)
  {
    var r := SubmittedAddOns(subs);
    forall i | 0 <= i < |r| ensures KeepAddOn(r[i]) {
      assert r[i] in r;
    }
    SubmittedAddOnsAllKept(r);
  }

  /** What `handleCreate` does: whether a request was sent and with which body, the form
      afterwards, and whether the dialog was closed. */
  datatype CreateOutcome = CreateOutcome(request: Option<ServiceForm>, form: ServiceForm, closed: bool)

  /** `handleCreate` as written: nothing at all when the name is empty or the price is NaN;
      otherwise the form is sent with the add-ons its own filter keeps (a named row with a
      `null` price among them), the dialog closes on success, and the form is reset whether
      the request succeeds or fails. */
  function HandleCreate(f: ServiceForm, succeeded: bool): (o: CreateOutcome)
    ensures o.request.None? <==> f.serviceName == "" || IsNaN(f.price)
    ensures o.request.None? ==> o.form == f && !o.closed
    ensures o.request.Some? ==> o.form == EmptyForm() && (o.closed <==> succeeded)
    ensures o.request.Some? ==>
      o.request.value.serviceName == f.serviceName && o.request.value.price == f.price
    ensures o.request.Some? ==> o.request.value.subcategory == SubmittedAddOnsAsWritten(f.subcategory)
    ensures o.request.Some? ==>
      (forall a :: a in o.request.value.subcategory <==> a in f.subcategory && KeepAddOnAsWritten(a)) &&
      Subseq(o.request.value.subcategory, f.subcategory)
  {
    if f.serviceName == "" || IsNaN(f.price) then CreateOutcome(None, f, false)
    else CreateOutcome(Some(f.(subcategory := SubmittedAddOnsAsWritten(f.subcategory))), EmptyForm(), succeeded)
  }

  /** `handleCreate` with the intended add-on test: the same guard, reset and close, but
      only rows with a name and a numeric price are sent. */
  function HandleCreateCorrected(f: ServiceForm, succeeded: bool): (o: CreateOutcome)
    ensures o.request.None? <==> f.serviceName == "" || IsNaN(f.price)
    ensures o.request.None? ==> o.form == f && !o.closed
    ensures o.request.Some? ==> o.form == EmptyForm() && (o.closed <==> succeeded)
    ensures o.request.Some? ==>
      o.request.value.serviceName == f.serviceName && o.request.value.price == f.price &&
      o.request.value.subcategory == SubmittedAddOns(f.subcategory)
    ensures o.request.Some? ==> forall a :: a in o.request.value.subcategory ==> a.subcategoryPrice.Num?
  {
    if f.serviceName == "" || IsNaN(f.price) then CreateOutcome(None, f, false)
    else CreateOutcome(Some(f.(subcategory := SubmittedAddOns(f.subcategory))), EmptyForm(), succeeded)
  }

  /** A named row with a `null` price. */
  predicate NamedNullRow(a: AddOn) {
    Trim(a.subcategoryName) != "" && a.subcategoryPrice.Null?
  }

  /** Away from a named `null` row the two add-on tests agree. */
  lemma KeepTestsAgree(a: AddOn)
    ensures !NamedNullRow(a) ==> (KeepAddOnAsWritten(a) <==> KeepAddOn(a))
    ensures NamedNullRow(a) ==> KeepAddOnAsWritten(a) && !KeepAddOn(a)
  {
  }

  /** Without a named `null` row the two add-on filters send the same list. */
  lemma {:induction false} FiltersAgree(subs: seq<AddOn>)
    requires forall i :: 0 <= i < |subs| ==> !NamedNullRow(subs[i])
    ensures SubmittedAddOnsAsWritten(subs) == SubmittedAddOns(subs)
    decreases |subs|
  {
    if |subs| > 0 {
      var t := subs[1..];
      assert forall i :: 0 <= i < |t| ==> t[i] == subs[i + 1];
      KeepTestsAgree(subs[0]);
      FiltersAgree(t);
    }
  }

  /** The two add-on filters agree exactly when no row has a name and a `null` price. */
  lemma FiltersAgreeIff(subs: seq<AddOn>)
    ensures SubmittedAddOnsAsWritten(subs) == SubmittedAddOns(subs) <==>
      forall i :: 0 <= i < |subs| ==> !NamedNullRow(subs[i])
  {
    if forall i :: 0 <= i < |subs| ==> !NamedNullRow(subs[i]) {
      FiltersAgree(subs);
    } else {
      var i :| 0 <= i < |subs| && NamedNullRow(subs[i]);
      KeepTestsAgree(subs[i]);
      assert subs[i] in SubmittedAddOnsAsWritten(subs);
      assert subs[i] !in SubmittedAddOns(subs);
    }
  }

  /** The corrected create sends the same thing as the code as written, except when some
      add-on row has a name and a `null` price; that row is then sent only as written. */
  lemma HandleCreateCorrectionIff(f: ServiceForm, succeeded: bool)
    ensures HandleCreate(f, succeeded) == HandleCreateCorrected(f, succeeded) <==>
      f.serviceName == "" || IsNaN(f.price) || forall i :: 0 <= i < |f.subcategory| ==> !NamedNullRow(f.subcategory[i])
    ensures HandleCreate(f, succeeded).request.Some? ==> forall a :: a in f.subcategory ==>
      ((a in HandleCreate(f, succeeded).request.value.subcategory &&
        a !in HandleCreateCorrected(f, succeeded).request.value.subcategory) <==> NamedNullRow(a))
  {
    FiltersAgreeIff(f.subcategory);
    forall a | a in f.subcategory {
      KeepTestsAgree(a);
    }
  }

  // ---------------------------------------------------------------- the update dialog

  /** The update dialog's price field: the number loaded from the service, or the text the
      user typed (the initial form holds the text ""). */
  datatype PriceInput = Loaded(p: Price) | Typed(text: string)

  /** The update dialog's form. */
  datatype UpdateForm = UpdateForm(serviceName: string, price: PriceInput, subcategory: seq<AddOn>)

  /** The service handed to the update dialog; each field may be missing. */
  datatype LoadedService = LoadedService(
    id: Option<string>,
    serviceName: Option<string>,
    price: Price,
    subcategory: Option<seq<AddOn>>)

  /** The update request: the target id (`service?._id`) and the body. */
  datatype UpdateRequest = UpdateRequest(id: Option<string>, data: ServiceForm)

  /** The update dialog's initial form. */
  function InitialUpdateForm(): UpdateForm {
    UpdateForm("", Typed(""), [])
  }

  /** JavaScript truthiness of a price. */
  predicate Truthy(p: Price) {
    p.Num? && p.n != 0
  }

  /** The loading effect: with no service the form stays; otherwise a missing name becomes
      "", a missing or falsy price becomes 0 and missing add-ons become []. */
  function LoadForm(current: UpdateForm, service: Option<LoadedService>): (f: UpdateForm)
    ensures service.None? ==> f == current
    ensures service.Some? ==> f.serviceName == service.value.serviceName.GetOr("")
    ensures service.Some? ==> f.subcategory == service.value.subcategory.GetOr([])
    ensures service.Some? && Truthy(service.value.price) ==> f.price == Loaded(service.value.price)
    ensures service.Some? && !Truthy(service.value.price) ==> f.price == Loaded(Num(0))
  {
    match service
    case None => current
    case Some(s) =>
      UpdateForm(
        s.serviceName.GetOr(""),
        Loaded(if Truthy(s.price) then s.price else Num(0)),
        s.subcategory.GetOr([]))
  }

  /** A loaded form always holds a number as its price. */
  lemma LoadedPriceIsNumber(current: UpdateForm, service: LoadedService)
    ensures LoadForm(current, Some(service)).price.Loaded?
    ensures LoadForm(current, Some(service)).price.p.Num?
  {
  }

  /** `handleMainChange` of the update dialog: both fields store the raw text. */
  function EditUpdateMain(f: UpdateForm, editsPrice: bool, value: string): (r: UpdateForm)
    ensures r.subcategory == f.subcategory
    ensures editsPrice ==> r.serviceName == f.serviceName && r.price == Typed(value)
    ensures !editsPrice ==> r.serviceName == value && r.price == f.price
  {
    if editsPrice then f.(price := Typed(value)) else f.(serviceName := value)
  }

  /** `parseFloat(value) || 0`: text that is not a number, and 0, give 0. */
  function ParsePriceOrZero(value: string): (p: Price)
    ensures p.Num?
    ensures ParseInt(value).Some? ==> p == Num(ParseInt(value).value)
    ensures ParseInt(value).None? ==> p == Num(0)
  {
    Num(ParseInt(value).GetOr(0))
  }

  /** `handleSubChange(index, e)` of the update dialog: only the named field of row
      `index` changes, and a price always ends up a number. */
  function EditUpdateAddOn(f: UpdateForm, index: nat, field: AddOnField, value: string): (r: UpdateForm)
    requires index < |f.subcategory|
    ensures r.serviceName == f.serviceName && r.price == f.price
    ensures |r.subcategory| == |f.subcategory|
    ensures forall j :: 0 <= j < |r.subcategory| && j != index ==> r.subcategory[j] == f.subcategory[j]
    ensures field == NameField ==> r.subcategory[index] == f.subcategory[index].(subcategoryName := value)
    ensures field == PriceField ==> r.subcategory[index] == f.subcategory[index].(subcategoryPrice := ParsePriceOrZero(value))
    ensures field == PriceField ==> r.subcategory[index].subcategoryPrice.Num?
  {
    f.(subcategory := SetAddOnField(f.subcategory, index, field, value, ParsePriceOrZero(value)))
  }

  /** `handleAddSub`: one row `{ "", 0 }` at the end, with no cap. */
  function AddUpdateAddOn(f: UpdateForm): (r: UpdateForm)
    ensures r.serviceName == f.serviceName && r.price == f.price
    ensures r.subcategory == f.subcategory + [AddOn("", Num(0))]
  {
    f.(subcategory := f.subcategory + [AddOn("", Num(0))])
  }

  /** Unlike the create dialog, the update dialog adds a row at any count. */
  lemma UpdateDialogHasNoCap(f: UpdateForm)
    ensures |AddUpdateAddOn(f).subcategory| == |f.subcategory| + 1
    ensures AddDisabled(ServiceForm(f.serviceName, Num(0), f.subcategory)) ==>
      |AddAddOn(ServiceForm(f.serviceName, Num(0), f.subcategory)).subcategory| == |f.subcategory|
  {
  }

  /** `handleRemoveSub(index)`. */
  function RemoveUpdateAddOn(f: UpdateForm, index: nat): (r: UpdateForm)
    ensures r.serviceName == f.serviceName && r.price == f.price
    ensures r.subcategory == RemoveRow(f.subcategory, index)
  {
    f.(subcategory := RemoveRow(f.subcategory, index))
  }

  /** `parseFloat(formData.price)`: a loaded number stays, typed text is parsed. */
  function SubmitPrice(p: PriceInput): (r: Price)
    ensures r.Num? || r.NaN?
    ensures p.Loaded? && p.p.Num? ==> r == p.p
    ensures p.Typed? ==> r == ParseFloat(p.text)
  {
    match p
    case Loaded(Num(n)) => Num(n)
    case Loaded(_) => NaN
    case Typed(t) => ParseFloat(t)
  }

  /** `handleSubmit` of the update dialog: the trimmed name, the parsed price and the
      cleaned add-ons, sent for the service's id. */
  function UpdateSubmit(f: UpdateForm, service: Option<LoadedService>): (q: UpdateRequest)
    ensures q.id == (if service.Some? then service.value.id else None)
    ensures q.data.serviceName == Trim(f.serviceName)
    ensures q.data.price == SubmitPrice(f.price)
    ensures q.data.subcategory == SubmittedAddOns(f.subcategory)
    ensures forall a :: a in q.data.subcategory <==> a in f.subcategory && KeepAddOn(a)
    ensures Subseq(q.data.subcategory, f.subcategory)
  {
    var id := if service.Some? then service.value.id else None;
    UpdateRequest(id, ServiceForm(Trim(f.serviceName), SubmitPrice(f.price), SubmittedAddOns(f.subcategory)))
  }

  /** Loading a clean service and saving it unedited sends the service back as it was. */
  lemma LoadThenSubmit(current: UpdateForm, id: string, name: string, n: int, subs: seq<AddOn>)
    requires Trim(name) == name
    requires forall i :: 0 <= i < |subs| ==> KeepAddOn(subs[i])
    ensures var s := LoadedService(Some(id), Some(name), Num(n), Some(subs));
      UpdateSubmit(LoadForm(current, Some(s)), Some(s)) == UpdateRequest(Some(id), ServiceForm(name, Num(n), subs))
  {
    SubmittedAddOnsAllKept(subs);
  }
}
