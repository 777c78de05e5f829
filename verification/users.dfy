/** The user-management screen's local lists: workers and customers, the delete
    confirmation, adding a worker and the table rows built from both lists. */
module Users {
  import opened Wrappers
  import opened JsText
  import opened Seqs

  datatype SubService = SubService(name: Option<string>)

  /** A service picked for a worker, with its picked sub-services. */
  datatype SelectedService = SelectedService(name: Option<string>, subServices: Option<seq<SubService>>)

  datatype Worker = Worker(id: int, firstName: Option<string>, lastName: Option<string>,
                           workerId: Option<string>, city: Option<string>, state: Option<string>,
                           status: Option<string>, selectedServices: Option<seq<SelectedService>>)

  datatype Customer = Customer(id: int, name: Option<string>, location: Option<string>,
                               status: Option<string>)

  /** The row picked for deletion, tagged with the tab it was picked on. */
  datatype Target = Target(id: int, kind: string)

  datatype Screen = Screen(activeTab: string, workers: seq<Worker>, customers: seq<Customer>,
                           confirmOpen: bool, target: Option<Target>, createOpen: bool)

  /** A table row; `workerId` and `services` are empty for customers. */
  datatype TableRow = TableRow(id: int, name: string, workerId: string, location: string,
                               services: string, status: string)

  /** One service of a worker: "name (s1 + s2)" when it has sub-services, else its name.
      In the first form a missing name prints as "undefined"; in the second it reaches the
      outer join, which prints it as empty text. */
  function ServiceText(srv: SelectedService): (r: string)
    ensures srv.subServices.None? || |srv.subServices.value| == 0 ==> r == srv.name.GetOr("")
    ensures srv.subServices.Some? && |srv.subServices.value| > 0 ==>
      r == Show(srv.name) + " (" + Join(SubServiceNames(srv.subServices.value), " + ") + ")"
    ensures srv.subServices.Some? && |srv.subServices.value| > 0 ==>
      |r| > |Show(srv.name)| + 2 && r[..|Show(srv.name)| + 2] == Show(srv.name) + " (" && r[|r| - 1] == ')'
  {
    if srv.subServices.Some? && |srv.subServices.value| > 0 then
      Show(srv.name) + " (" + Join(SubServiceNames(srv.subServices.value), " + ") + ")"
    else srv.name.GetOr("")
  }

  /** `subServices.map((s) => s.name)` as `join` sees it: a missing name is empty text. */
  function SubServiceNames(subs: seq<SubService>): (r: seq<string>)
    ensures |r| == |subs|
    ensures forall i :: 0 <= i < |subs| ==> r[i] == subs[i].name.GetOr("")
  {
    seq(|subs|, i requires 0 <= i < |subs| => subs[i].name.GetOr(""))
  }

  /** A service with one named sub-service prints as "name (sub)". */
  lemma ServiceTextOneSub(name: string, sub: string)
    ensures ServiceText(SelectedService(Some(name), Some([SubService(Some(sub))]))) == name + " (" + sub + ")"
  {
    assert SubServiceNames([SubService(Some(sub))]) == [sub];
  }

  function ServiceTexts(selected: seq<SelectedService>): (r: seq<string>)
    ensures |r| == |selected|
    ensures forall i :: 0 <= i < |selected| ==> r[i] == ServiceText(selected[i])
  {
    seq(|selected|, i requires 0 <= i < |selected| => ServiceText(selected[i]))
  }

  /** `generateServiceString(selectedServices = [])`: the services joined with " + "; a
      missing list defaults to the empty one. */
  function GenerateServiceString(selected: Option<seq<SelectedService>>): (r: string)
    ensures selected.None? || |selected.value| == 0 ==> r == ""
    ensures selected.Some? && |selected.value| == 1 ==> r == ServiceText(selected.value[0])
  {
    Join(ServiceTexts(selected.GetOr([])), " + ")
  }

  /** Picking one more service appends " + " and its text. */
  lemma GenerateServiceStringSnoc(selected: seq<SelectedService>, srv: SelectedService)
    requires |selected| >= 1
    ensures GenerateServiceString(Some(selected + [srv])) ==
      GenerateServiceString(Some(selected)) + " + " + ServiceText(srv)
  {
    assert ServiceTexts(selected + [srv]) == ServiceTexts(selected) + [ServiceText(srv)];
    JoinSnoc(ServiceTexts(selected), ServiceText(srv), " + ");
  }

  /** The workers whose id differs from `id`, in order. */
  function WorkersWithout(ws: seq<Worker>, id: int): (r: seq<Worker>)
    ensures forall w :: w in r <==> w in ws && w.id != id
    ensures forall w :: multiset(r)[w] == if w.id == id then 0 else multiset(ws)[w]
    ensures Subseq(r, ws)
    ensures (forall i :: 0 <= i < |ws| ==> ws[i].id != id) ==> r == ws
  {
    Filter(ws, (w: Worker) => w.id != id)
  }

  /** The customers whose id differs from `id`, in order. */
  function CustomersWithout(cs: seq<Customer>, id: int): (r: seq<Customer>)
    ensures forall c :: c in r <==> c in cs && c.id != id
    ensures forall c :: multiset(r)[c] == if c.id == id then 0 else multiset(cs)[c]
    ensures Subseq(r, cs)
    ensures (forall i :: 0 <= i < |cs| ==> cs[i].id != id) ==> r == cs
  {
    Filter(cs, (c: Customer) => c.id != id)
  }

  /** `handleDeleteClick(row)`: remember the row with the active tab and open the dialog. */
  function DeleteClick(s: Screen, rowId: int): (r: Screen)
    ensures r.target == Some(Target(rowId, s.activeTab)) && r.confirmOpen
    ensures r.workers == s.workers && r.customers == s.customers
  {
    s.(target := Some(Target(rowId, s.activeTab)), confirmOpen := true)
  }

  /** `handleConfirmDelete`: without a target nothing happens; otherwise every row with the
      target's id leaves the workers list (target picked on the "worker" tab) or the
      customers list (any other tab), the other list is kept, and the dialog closes. */
  function ConfirmDelete(s: Screen): (r: Screen)
    ensures s.target.None? ==> r == s
    ensures s.target.Some? ==> !r.confirmOpen && r.target.None?
    ensures s.target.Some? && s.target.value.kind == "worker" ==>
      r.customers == s.customers && r.workers == WorkersWithout(s.workers, s.target.value.id) &&
      forall w :: w in r.workers <==> w in s.workers && w.id != s.target.value.id
    ensures s.target.Some? && s.target.value.kind != "worker" ==>
      r.workers == s.workers && r.customers == CustomersWithout(s.customers, s.target.value.id) &&
      forall c :: c in r.customers <==> c in s.customers && c.id != s.target.value.id
    ensures r.activeTab == s.activeTab && r.createOpen == s.createOpen
  {
    match s.target
    case None => s
    case Some(t) =>
      if t.kind == "worker" then
        s.(workers := WorkersWithout(s.workers, t.id), confirmOpen := false, target := None)
      else
        s.(customers := CustomersWithout(s.customers, t.id), confirmOpen := false, target := None)
  }

  /** Confirming twice is confirming once: the first confirmation clears the target. */
  lemma ConfirmDeleteIdempotent(s: Screen)
    ensures ConfirmDelete(ConfirmDelete(s)) == ConfirmDelete(s)
  {
  }

  /** `handleCancelDelete`: only closes the dialog; the target is kept. */
  function CancelDelete(s: Screen): (r: Screen)
    ensures !r.confirmOpen && r.target == s.target
    ensures r.workers == s.workers && r.customers == s.customers
  {
    s.(confirmOpen := false)
  }

  /** `handleSaveWorker(workerData)`: append the worker with id `now` (the clock reading)
      and status "active", and close the create dialog. */
  function SaveWorker(s: Screen, data: Worker, now: int): (r: Screen)
    ensures |r.workers| == |s.workers| + 1 && r.workers[..|s.workers|] == s.workers
    ensures r.workers[|s.workers|] == data.(id := now, status := Some("active"))
    ensures r.customers == s.customers && !r.createOpen
  {
    s.(workers := s.workers + [data.(id := now, status := Some("active"))], createOpen := false)
  }

  /** A worker's table row: "first last", workerId or "N/A", "city, state", the service
      string, and status or "active". */
  function WorkerRow(w: Worker): (row: TableRow)
    ensures row.id == w.id
    ensures row.name == Show(w.firstName) + " " + Show(w.lastName)
    ensures w.workerId.Some? && w.workerId.value != "" ==> row.workerId == w.workerId.value
    ensures w.workerId.None? || w.workerId == Some("") ==> row.workerId == "N/A"
    ensures w.status.Some? && w.status.value != "" ==> row.status == w.status.value
    ensures w.status.None? || w.status == Some("") ==> row.status == "active"
    ensures row.location == Show(w.city) + ", " + Show(w.state)
    ensures row.services == GenerateServiceString(w.selectedServices)
  {
    TableRow(w.id, Show(w.firstName) + " " + Show(w.lastName), OrElse(w.workerId, "N/A"),
             Show(w.city) + ", " + Show(w.state), GenerateServiceString(w.selectedServices),
             OrElse(w.status, "active"))
  }

  /** A customer's table row: name and location passed through as they are (a missing one
      renders as empty text), status or "active". */
  function CustomerRow(c: Customer): (row: TableRow)
    ensures row.id == c.id && row.workerId == "" && row.services == ""
    ensures row.name == c.name.GetOr("") && row.location == c.location.GetOr("")
    ensures c.status.Some? && c.status.value != "" ==> row.status == c.status.value
    ensures c.status.None? || c.status == Some("") ==> row.status == "active"
  {
    TableRow(c.id, c.name.GetOr(""), "", c.location.GetOr(""), "", OrElse(c.status, "active"))
  }

  /** `tableData`: the worker rows on the "worker" tab, the customer rows otherwise. */
  function TableData(s: Screen): (rows: seq<TableRow>)
    ensures s.activeTab == "worker" ==> |rows| == |s.workers|
    ensures s.activeTab == "worker" ==> forall i :: 0 <= i < |rows| ==> rows[i] == WorkerRow(s.workers[i])
    ensures s.activeTab != "worker" ==> |rows| == |s.customers|
    ensures s.activeTab != "worker" ==> forall i :: 0 <= i < |rows| ==> rows[i] == CustomerRow(s.customers[i])
  {
    if s.activeTab == "worker" then
      seq(|s.workers|, i requires 0 <= i < |s.workers| => WorkerRow(s.workers[i]))
    else
      seq(|s.customers|, i requires 0 <= i < |s.customers| => CustomerRow(s.customers[i]))
  }

  /** A saved worker shows up as the last worker row, with the new id and status "active". */
  lemma SavedWorkerRow(s: Screen, data: Worker, now: int)
    requires s.activeTab == "worker"
    ensures var rows := TableData(SaveWorker(s, data, now));
      |rows| == |s.workers| + 1 && rows[|s.workers|].id == now && rows[|s.workers|].status == "active"
  {
  }
}
