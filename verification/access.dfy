/** Per-manager module access: which sidebar entries a signed-in user sees, and the admin's
    list of toggles that grant a manager each module, updated optimistically. */
module Access {
  import opened Wrappers
  import opened JsObject
  import opened Seqs

  /** A sidebar entry: its label, route and the accessibility flag that shows it. */
  datatype MenuItem = MenuItem(name: string, path: string, accessKey: string)

  /** The sidebar's thirteen entries, in display order. "Notifications" and
      "Help & Support" are shown by the same flag. */
  const MenuItems: seq<MenuItem> := [
    MenuItem("Dashboard", "/", "isDashboardShow"),
    MenuItem("Analytics", "/analytics", "isAnalyticsShow"),
    MenuItem("Bookings", "/bookings", "isBookingManagementShow"),
    MenuItem("Transactions", "/transaction", "isTransactionsShow"),
    MenuItem("Services", "/services", "isServicesShow"),
    MenuItem("Users", "/users", "isUsersShow"),
    MenuItem("Managers", "/manager-management", "isManagerManagementShow"),
    MenuItem("States", "/states", "isStateShow"),
    MenuItem("Notifications", "/notification", "isHelpAndSupportShow"),
    MenuItem("Profile", "/profile", "isProfileShow"),
    MenuItem("Site Content", "/site-content", "isSiteContentShow"),
    MenuItem("Legalities", "/legalities", "isLegalitiesShow"),
    MenuItem("Help & Support", "/help", "isHelpAndSupportShow")]

  /** The signed-in user's record: the role and the accessibility flags, either may be
      missing. */
  datatype SignedIn = SignedIn(role: Option<string>, accessibility: Option<Obj<bool>>)

  predicate IsAdmin(user: Option<SignedIn>) {
    user.Some? && user.value.role == Some("admin")
  }

  /** `managerItem?.accessibility?.[item.accessKey] === true`. */
  predicate Granted(user: Option<SignedIn>, key: string) {
    user.Some? && user.value.accessibility.Some? && Get(user.value.accessibility.value, key) == Some(true)
  }

  /** The entries whose flag is granted, in order. */
  function GrantedItems(items: seq<MenuItem>, user: Option<SignedIn>): (r: seq<MenuItem>)
    ensures forall m :: m in r <==> m in items && Granted(user, m.accessKey)
    ensures forall m :: multiset(r)[m] == if Granted(user, m.accessKey) then multiset(items)[m] else 0
    ensures Subseq(r, items)
  {
    Filter(items, (m: MenuItem) => Granted(user, m.accessKey))
  }

  /** `accessibleMenuItems`: every entry for an admin; for anyone else the entries whose
      flag is exactly `true`, in menu order. */
  function VisibleItems(items: seq<MenuItem>, user: Option<SignedIn>): (r: seq<MenuItem>)
    ensures IsAdmin(user) ==> r == items
    ensures !IsAdmin(user) ==> forall m :: m in r <==> m in items && Granted(user, m.accessKey)
    ensures Subseq(r, items)
  {
    if IsAdmin(user) then
      SubseqRefl(items);
      items
    else GrantedItems(items, user)
  }

  /** Before the user's record arrives, or when it has no flags, a non-admin sees nothing. */
  lemma NoRecordNoItems(items: seq<MenuItem>, user: Option<SignedIn>)
    requires user.None? || (!IsAdmin(user) && user.value.accessibility.None?)
    ensures VisibleItems(items, user) == []
  {
    var r := VisibleItems(items, user);
    assert forall i :: 0 <= i < |r| ==> r[i] in r;
  }

  /** Entries sharing a flag are shown together: a non-admin sees "Notifications" exactly
      when they see "Help & Support". */
  lemma NotificationsWithHelp(user: Option<SignedIn>)
    ensures MenuItems[8].name == "Notifications" && MenuItems[12].name == "Help & Support"
    ensures MenuItems[8] in VisibleItems(MenuItems, user) <==> MenuItems[12] in VisibleItems(MenuItems, user)
  {
    var n := MenuItems[8];
    var h := MenuItems[12];
    assert n.accessKey == h.accessKey;
    assert n in MenuItems && h in MenuItems;
  }

  // ---------------------------------------------------------------- the access list

  /** The modules the access list offers, in display order, with their labels. The
      managers module is not among them. */
  const ModuleKeys: seq<string> := [
    "isDashboardShow", "isAnalyticsShow", "isBookingManagementShow", "isTransactionsShow",
    "isServicesShow", "isUsersShow", "isStateShow", "isHelpAndSupportShow", "isProfileShow",
    "isSiteContentShow", "isLegalitiesShow"]

  const ModuleLabels: seq<string> := [
    "Dashboard", "Analytics", "Bookings", "Transactions", "Services", "Users", "States",
    "Notifications", "Profile", "Site Content", "Legalities"]

  /** No toggle grants the "Managers" entry, so only an admin ever sees it. */
  lemma ManagersEntryNotOffered()
    ensures MenuItems[6].accessKey == "isManagerManagementShow"
    ensures MenuItems[6].accessKey !in ModuleKeys
  {
  }

  /** A manager record: its id and its accessibility flags (which may be missing). */
  datatype Manager = Manager(id: string, accessibility: Option<Obj<bool>>)

  /** `getManagerAccess`: the stored flag, or `false` when the manager, its flags or the
      flag are missing. */
  function ManagerAccess(m: Option<Manager>, key: string): (b: bool)
    ensures m.Some? && m.value.accessibility.Some? && Get(m.value.accessibility.value, key).Some? ==>
      b == Get(m.value.accessibility.value, key).value
    ensures m.None? || m.value.accessibility.None? || Get(m.value.accessibility.value, key).None? ==> !b
  {
    if m.Some? && m.value.accessibility.Some? then Get(m.value.accessibility.value, key).GetOr(false) else false
  }

  /** `{ ...manager, accessibility: { ...manager.accessibility, [key]: value } }`. */
  function WithFlag(m: Manager, key: string, value: bool): (r: Manager)
    ensures r.id == m.id && r.accessibility.Some?
    ensures Get(r.accessibility.value, key) == Some(value)
    ensures forall k :: k != key ==> Get(r.accessibility.value, k) == Get(m.accessibility.GetOr([]), k)
  {
    m.(accessibility := Some(Set(m.accessibility.GetOr([]), key, value)))
  }

  /** The `managerData.map(...)` of both the optimistic update and the rollback: the
      manager whose id matches gets the flag, every other manager is kept. */
  function UpdateFlag(managers: seq<Manager>, managerId: Option<string>, key: string, value: bool): (r: seq<Manager>)
    ensures |r| == |managers|
    ensures forall i :: 0 <= i < |r| && Some(managers[i].id) != managerId ==> r[i] == managers[i]
    ensures forall i :: 0 <= i < |r| && Some(managers[i].id) == managerId ==> r[i] == WithFlag(managers[i], key, value)
  {
    seq(|managers|, i requires 0 <= i < |managers| =>
      if Some(managers[i].id) == managerId then WithFlag(managers[i], key, value) else managers[i])
  }

  /** After the optimistic update the matching manager reads the new value for the toggled
      module and its old value for every other module. */
  lemma OptimisticUpdateReads(managers: seq<Manager>, managerId: Option<string>, key: string, value: bool, i: nat, other: string)
    requires i < |managers| && Some(managers[i].id) == managerId && other != key
    ensures ManagerAccess(Some(UpdateFlag(managers, managerId, key, value)[i]), key) == value
    ensures ManagerAccess(Some(UpdateFlag(managers, managerId, key, value)[i]), other) == ManagerAccess(Some(managers[i]), other)
  {
  }

  /** The request body: the single entry `{ [key]: value }`. */
  function TogglePayload(key: string, value: bool): (p: Obj<bool>)
    ensures Keys(p) == [key] && Get(p, key) == Some(value)
  {
    [Entry(key, value)]
  }

  /** The rollback: computed from the list as it was before the toggle, with the flag set
      to the opposite of the new value. */
  function Rollback(before: seq<Manager>, managerId: Option<string>, key: string, newValue: bool): (r: seq<Manager>)
    ensures |r| == |before|
    ensures forall i :: 0 <= i < |r| && Some(before[i].id) == managerId ==> ManagerAccess(Some(r[i]), key) == !newValue
    ensures forall i :: 0 <= i < |r| && Some(before[i].id) != managerId ==> r[i] == before[i]
  {
    UpdateFlag(before, managerId, key, !newValue)
  }

  /** The rollback gives back the matching manager exactly when it already held flags
      with `!newValue` stored for the module, which is what a checkbox toggle produces. */
  lemma RollbackRestoresIff(before: seq<Manager>, managerId: Option<string>, key: string, newValue: bool, i: nat)
    requires i < |before| && Some(before[i].id) == managerId
    ensures Rollback(before, managerId, key, newValue)[i] == before[i] <==>
      before[i].accessibility.Some? && Get(before[i].accessibility.value, key) == Some(!newValue)
  {
    if before[i].accessibility.Some? {
      SetUnchangedIff(before[i].accessibility.value, key, !newValue);
    }
  }

  /** How the request that stores a flag comes back. */
  datatype ToggleResponse = Stored | Failed

  /** `handleToggleAccess` as written: the optimistic list is set at once, and the request
      is made without `.unwrap()`. Its promise then resolves with `{ error }` on a failure
      instead of rejecting, so the `.catch` rollback never runs and the list stays the
      optimistic one whatever the response. */
  function HandleToggleAsWritten(managers: seq<Manager>, managerId: Option<string>, key: string, newValue: bool,
                                 response: ToggleResponse): (r: seq<Manager>)
    ensures |r| == |managers|
    ensures forall i :: 0 <= i < |r| && Some(managers[i].id) != managerId ==> r[i] == managers[i]
    ensures forall i :: 0 <= i < |r| && Some(managers[i].id) == managerId ==> ManagerAccess(Some(r[i]), key) == newValue
  {
    UpdateFlag(managers, managerId, key, newValue)
  }

  /** `handleToggleAccess` as intended, with the request unwrapped: a stored flag keeps the
      optimistic list, a failed one replaces it with the rollback. */
  function HandleToggle(managers: seq<Manager>, managerId: Option<string>, key: string, newValue: bool,
                        response: ToggleResponse): (r: seq<Manager>)
    ensures |r| == |managers|
    ensures forall i :: 0 <= i < |r| && Some(managers[i].id) != managerId ==> r[i] == managers[i]
    ensures forall i :: 0 <= i < |r| && Some(managers[i].id) == managerId ==>
      ManagerAccess(Some(r[i]), key) == (if response == Stored then newValue else !newValue)
  {
    match response
    case Stored => UpdateFlag(managers, managerId, key, newValue)
    case Failed => Rollback(managers, managerId, key, newValue)
  }

  /** As written, a failed toggle leaves the manager showing the value the server refused;
      the intended handler shows the opposite one. The two agree on every stored toggle. */
  lemma FailedToggleKeepsOptimistic(managers: seq<Manager>, managerId: Option<string>, key: string, newValue: bool, i: nat)
    requires i < |managers| && Some(managers[i].id) == managerId
    ensures ManagerAccess(Some(HandleToggleAsWritten(managers, managerId, key, newValue, Failed)[i]), key) == newValue
    ensures ManagerAccess(Some(HandleToggle(managers, managerId, key, newValue, Failed)[i]), key) == !newValue
    ensures HandleToggleAsWritten(managers, managerId, key, newValue, Failed) != HandleToggle(managers, managerId, key, newValue, Failed)
    ensures HandleToggleAsWritten(managers, managerId, key, newValue, Stored) == HandleToggle(managers, managerId, key, newValue, Stored)
  {
    var w := HandleToggleAsWritten(managers, managerId, key, newValue, Failed);
    var c := HandleToggle(managers, managerId, key, newValue, Failed);
    assert ManagerAccess(Some(w[i]), key) != ManagerAccess(Some(c[i]), key);
  }

  /** The modules that get a toggle row: those the server's accessibility record mentions,
      in list order. */
  function RenderedModules(keys: seq<string>, server: Obj<bool>): (r: seq<string>)
    ensures forall k :: k in r <==> k in keys && Get(server, k).Some?
    ensures forall k :: multiset(r)[k] == if Get(server, k).Some? then multiset(keys)[k] else 0
    ensures Subseq(r, keys)
  {
    Filter(keys, k => Get(server, k).Some?)
  }

  /** An empty server record gets no row. */
  lemma {:induction false} RenderedModulesNone(keys: seq<string>)
    ensures RenderedModules(keys, []) == []
    decreases |keys|
  {
    if |keys| > 0 {
      RenderedModulesNone(keys[1..]);
    }
  }

  /** A server record mentioning every module gets every row. */
  lemma {:induction false} RenderedModulesAll(keys: seq<string>, server: Obj<bool>)
    requires forall i :: 0 <= i < |keys| ==> Get(server, keys[i]).Some?
    ensures RenderedModules(keys, server) == keys
    decreases |keys|
  {
    if |keys| > 0 {
      var rest := keys[1..];
      assert forall i :: 0 <= i < |rest| ==> rest[i] == keys[i + 1];
      RenderedModulesAll(rest, server);
      assert Get(server, keys[0]).Some?;
      assert keys == [keys[0]] + rest;
    }
  }
}
