/** The sign-in session: the token kept in browser storage under "token", the auth slice of
    the store that mirrors it, the guard in front of the dashboard routes, the header every
    request carries, and the sidebar's log-out. Browser storage is a map from keys to
    strings; a storage that cannot be read is `None`. */
module Session {
  import opened Wrappers
  import opened JsObject

  /** Browser storage. */
  type Storage = map<string, string>

  /** The key the token is kept under. */
  const TokenKey := "token"

  /** The sign-in page the guard sends visitors to. */
  const SignInPath := "/auth/sign-in"

  /** The auth slice: the token (`None` for `null`) and the user an `updateUser` stored. */
  datatype AuthState = AuthState(token: Option<string>, user: Option<string>)

  /** `localStorage.getItem(key)`: `None` when the key is absent. */
  function GetItem(storage: Storage, key: string): (r: Option<string>)
    ensures r.Some? <==> key in storage
    ensures r.Some? ==> r.value == storage[key]
  {
    if key in storage then Some(storage[key]) else None
  }

  /** Truthiness of a stored string: present and not empty. */
  predicate Truthy(v: Option<string>) {
    v.Some? && v.value != ""
  }

  /** `getTokenFromStorage`: the stored token when it is truthy; `null` when it is absent,
      empty, or storage cannot be read. */
  function TokenFromStorage(storage: Option<Storage>): (t: Option<string>)
    ensures t.Some? <==> storage.Some? && Truthy(GetItem(storage.value, TokenKey))
    ensures t.Some? ==> t == GetItem(storage.value, TokenKey) && t.value != ""
  {
    match storage
    case None => None
    case Some(s) => if Truthy(GetItem(s, TokenKey)) then GetItem(s, TokenKey) else None
  }

  /** The slice's initial state: the token read from storage, no user. */
  function InitialAuth(storage: Option<Storage>): (a: AuthState)
    ensures a.token == TokenFromStorage(storage) && a.user.None?
  {
    AuthState(TokenFromStorage(storage), None)
  }

  /** `loggedUser`: keep the payload's token in the slice and in storage. */
  function LoggedUser(a: AuthState, storage: Storage, token: string): (r: (AuthState, Storage))
    ensures r.0 == a.(token := Some(token))
    ensures GetItem(r.1, TokenKey) == Some(token)
    ensures forall k :: k != TokenKey ==> GetItem(r.1, k) == GetItem(storage, k)
  {
    (a.(token := Some(token)), storage[TokenKey := token])
  }

  /** `updateUser`: only the user changes. */
  function UpdateUser(a: AuthState, user: string): (r: AuthState)
    ensures r.token == a.token && r.user == Some(user)
  {
    a.(user := Some(user))
  }

  /** `logoutUser`: the slice's token becomes `null` and the stored one is removed. */
  function LogoutUser(a: AuthState, storage: Storage): (r: (AuthState, Storage))
    ensures r.0 == a.(token := None)
    ensures GetItem(r.1, TokenKey).None?
    ensures forall k :: k != TokenKey ==> GetItem(r.1, k) == GetItem(storage, k)
  {
    (a.(token := None), storage - {TokenKey})
  }

  /** Signing in and then out leaves no token in the slice or in storage, and the rest of
      storage as it was. */
  lemma LoginThenLogout(a: AuthState, storage: Storage, token: string)
    ensures var (a1, s1) := LoggedUser(a, storage, token);
      var (a2, s2) := LogoutUser(a1, s1);
      a2.token.None? && TokenKey !in s2 && s2 == storage - {TokenKey}
  {
  }

  /** A page load after signing in with a non-empty token starts with that token. */
  lemma LoginSurvivesReload(a: AuthState, storage: Storage, token: string)
    requires token != ""
    ensures InitialAuth(Some(LoggedUser(a, storage, token).1)).token == LoggedUser(a, storage, token).0.token
  {
  }

  /** Where the route guard sends a visit. */
  datatype RouteDecision = Redirect(to: string, replace: bool) | Render

  /** The guard's stand-in for the stored user: the constant `true`. */
  const UserStr: bool := true

  /** `JSON.parse(userStr)` for a boolean: its text parses back to itself. */
  function ParseUser(userStr: bool): Option<bool> {
    Some(userStr)
  }

  /** `AdminRoutes`: redirect (replacing the history entry) when the token or the user is
      falsy, when the user does not parse, or when it parses to a falsy value; otherwise
      render the page. */
  function AdminRoute(storage: Storage): (d: RouteDecision)
    ensures d.Redirect? ==> d == Redirect(SignInPath, true)
  {
    var token := GetItem(storage, TokenKey);
    if !Truthy(token) || !UserStr then Redirect(SignInPath, true)
    else
      match ParseUser(UserStr)
      case None => Redirect(SignInPath, true)
      case Some(user) => if !user then Redirect(SignInPath, true) else Render
  }

  /** The guard renders exactly when a non-empty token is stored: the user checks never
      redirect. */
  lemma AdminRouteIff(storage: Storage)
    ensures AdminRoute(storage) == Render <==> TokenKey in storage && storage[TokenKey] != ""
    ensures ParseUser(UserStr) == Some(true)
  {
  }

  /** The decision depends only on whether a token is there, not on its value. */
  lemma AdminRouteIgnoresTokenValue(s1: Storage, s2: Storage)
    requires Truthy(GetItem(s1, TokenKey)) == Truthy(GetItem(s2, TokenKey))
    ensures AdminRoute(s1) == AdminRoute(s2)
  {
  }

  /** `prepareHeaders`: with a truthy stored token, set `Authorization` to "Bearer " and the
      token; leave every other header, and all headers when there is no token. */
  function PrepareHeaders(storage: Storage, headers: Obj<string>): (r: Obj<string>)
    ensures Truthy(GetItem(storage, TokenKey)) ==> Get(r, "Authorization") == Some("Bearer " + storage[TokenKey])
    ensures !Truthy(GetItem(storage, TokenKey)) ==> r == headers
    ensures forall k :: k != "Authorization" ==> Get(r, k) == Get(headers, k)
  {
    var token := GetItem(storage, TokenKey);
    if Truthy(token) then Set(headers, "Authorization", "Bearer " + token.value) else headers
  }

  /** An empty stored token adds no header. */
  lemma EmptyTokenNoHeader(storage: Storage, headers: Obj<string>)
    requires TokenKey in storage && storage[TokenKey] == ""
    ensures PrepareHeaders(storage, headers) == headers
  {
  }

  /** Requests carry a bearer header exactly when the guard lets the dashboard render. */
  lemma HeaderIffRouteRenders(storage: Storage, headers: Obj<string>)
    requires Get(headers, "Authorization").None?
    ensures Get(PrepareHeaders(storage, headers), "Authorization").Some? <==> AdminRoute(storage) == Render
  {
  }

  /** The sidebar's log-out: it removes the stored token but does not touch the store's
      auth slice. */
  function SidebarLogout(a: AuthState, storage: Storage): (r: (AuthState, Storage))
    ensures r.0 == a
    ensures GetItem(r.1, TokenKey).None?
    ensures forall k :: k != TokenKey ==> GetItem(r.1, k) == GetItem(storage, k)
  {
    (a, storage - {TokenKey})
  }

  /** After the sidebar's log-out the guard redirects and requests go without a bearer
      header, while a token held in the store stays there. */
  lemma SidebarLogoutSignsOut(a: AuthState, storage: Storage, headers: Obj<string>)
    ensures AdminRoute(SidebarLogout(a, storage).1) == Redirect(SignInPath, true)
    ensures PrepareHeaders(SidebarLogout(a, storage).1, headers) == headers
    ensures SidebarLogout(a, storage).0.token == a.token
  {
  }
}
