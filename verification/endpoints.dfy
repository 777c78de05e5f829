/** The endpoint registry the feature files inject into the one API slice. Each endpoint is
    a query or a mutation with an HTTP method, a URL template filled from the hook's
    argument, a body taken from that argument, and the cache tags it provides (queries) or
    invalidates (mutations). The cache itself is not modelled: only the rule that decides
    which cached queries a successful mutation refreshes, `Affected`. */
module Endpoints {
  import opened Wrappers
  import opened JsObject

  /** The cache tags the endpoints use. */
  datatype Tag = Analytics | Bookings | Workers | Users | Managers | Services | SiteContent
               | States | Privacy | HelpSupport

  datatype Kind = Query | Mutation

  datatype Method = GET | POST | PATCH | DELETE

  /** A URL template: a fixed path, the path followed by `${arg}`, or the path followed
      by one, two or three properties of the destructured argument, each later property
      after its own separator. */
  datatype Template =
    | Fixed(path: string)
    | WithArg(path: string)
    | WithField(path: string, name: string)
    | WithTwo(path: string, first: string, sep2: string, second: string)
    | WithThree(path: string, first: string, sep2: string, second: string, sep3: string, third: string)

  /** Where a request body comes from: none, the whole argument, or a property of the
      destructured argument. */
  datatype Body = NoBody | WholeArg | FieldArg(name: string)

  // The endpoints of each feature file, named after their keys in `injectEndpoints`.
  datatype AnalyticsOp = ServicePopularity | WorkerPopularity | BookingThrends | BookingRevenue
  datatype AuthOp = Login | Register | Logout | ForgotPassword | VerifyOtp | VerifyEmail | ResetPassword
  datatype BookingOp = GetAllBookings | GetAllTransactions | GetBookingsTrends | DeleteBooking | DeleteTransaction
  datatype DashboardOp = GetDashboardStatus | GetIncomeRatio | GetUpcomingBookings | GetSingleManager
  datatype MessageOp = GetAllMessages | DeleteContactUs
  datatype PrivacyOp = GetPrivacyPolicy | UpdatePrivacyPolicy
  datatype ServiceOp = AddService | GetAllServices | GetServiceById | UpdateService | DeleteService
  datatype SiteContentOp = GetAboutUs | UpdateAboutUs | CreateService | GetDynamicBanner
  datatype StatesOp = GetAllState | ActiveState
  datatype SuperAdminOp = GetAllManagers | GetAllAccessibility | CreateManager | UpdateManagerAccess | BlockManager
  datatype ProfileOp = GetMyProfile | UpdateUser | ChangePassword
  datatype WorkerOp = GetAllWorkers | DeleteWorker | CreateWorker

  /** Every endpoint, grouped by the feature file that declares it; the customer-or-worker
      file and the user file declare one endpoint each. */
  datatype Op =
    | AnalyticsApi(analytics: AnalyticsOp)
    | AuthApi(auth: AuthOp)
    | BookingApi(booking: BookingOp)
    | ToggleBlockUnblock
    | DashboardApi(dashboard: DashboardOp)
    | MessageApi(message: MessageOp)
    | PrivacyApi(privacy: PrivacyOp)
    | ServiceApi(service: ServiceOp)
    | SiteContentApi(content: SiteContentOp)
    | StatesApi(states: StatesOp)
    | SuperAdminApi(admin: SuperAdminOp)
    | ProfileApi(profile: ProfileOp)
    | GetAllUsers
    | WorkerApi(worker: WorkerOp)

  /** `builder.query` or `builder.mutation`. */
  function KindOf(op: Op): Kind {
    match op
    case AnalyticsApi(_) => Query
    case AuthApi(_) => Mutation
    case BookingApi(b) => if b == DeleteBooking || b == DeleteTransaction then Mutation else Query
    case ToggleBlockUnblock => Mutation
    case DashboardApi(_) => Query
    case MessageApi(m) => if m == DeleteContactUs then Mutation else Query
    case PrivacyApi(p) => if p == UpdatePrivacyPolicy then Mutation else Query
    case ServiceApi(s) => if s == GetAllServices || s == GetServiceById then Query else Mutation
    case SiteContentApi(c) => if c == GetAboutUs || c == GetDynamicBanner then Query else Mutation
    case StatesApi(s) => if s == ActiveState then Mutation else Query
    case SuperAdminApi(a) => if a == GetAllManagers || a == GetAllAccessibility then Query else Mutation
    case ProfileApi(p) => if p == GetMyProfile then Query else Mutation
    case GetAllUsers => Query
    case WorkerApi(w) => if w == GetAllWorkers then Query else Mutation
  }

  /** The HTTP method of the request. */
  function VerbOf(op: Op): Method {
    match op
    case AnalyticsApi(_) => GET
    case AuthApi(_) => POST
    case BookingApi(b) => if b == DeleteBooking || b == DeleteTransaction then DELETE else GET
    case ToggleBlockUnblock => PATCH
    case DashboardApi(_) => GET
    case MessageApi(m) => if m == DeleteContactUs then DELETE else GET
    case PrivacyApi(p) => if p == UpdatePrivacyPolicy then PATCH else GET
    case ServiceApi(s) =>
      (match s
       case AddService => POST
       case UpdateService => PATCH
       case DeleteService => DELETE
       case _ => GET)
    case SiteContentApi(c) =>
      (match c
       case UpdateAboutUs => PATCH
       case CreateService => POST
       case _ => GET)
    case StatesApi(s) => if s == ActiveState then PATCH else GET
    case SuperAdminApi(a) =>
      (match a
       case CreateManager => POST
       case UpdateManagerAccess | BlockManager => PATCH
       case _ => GET)
    case ProfileApi(p) =>
      (match p
       case UpdateUser => PATCH
       case ChangePassword => POST
       case GetMyProfile => GET)
    case GetAllUsers => GET
    case WorkerApi(w) =>
      (match w
       case DeleteWorker => PATCH
       case CreateWorker => POST
       case GetAllWorkers => GET)
  }

  // Each endpoint's path as its template literal starts.
  const ServicePopularityPath := "/service/popularity?year="
  const WorkerPopularityPath := "/booking/popularity?year="
  const BookingThrendsPath := "/booking/booking-trends?year="
  const BookingRevenuePath := "/booking/get-monthly-revenue"
  const LoginPath := "/manager/login"
  const RegisterPath := "/auth/register"
  const LogoutPath := "/logout"
  const ForgotPasswordPath := "/manager/forgot-password"
  const VerifyOtpPath := "/manager/verify-otp"
  const VerifyEmailPath := "/auth/verify-email"
  const ResetPasswordPath := "/manager/set-new-password"
  const GetAllBookingsPath := "/booking/get-all-bookings?page="
  const GetAllTransactionsPath := "/booking/get-all-transactions"
  const GetBookingsTrendsPath := "/booking/booking-trends?year="
  const DeleteBookingPath := "/booking/delete-booking/"
  const DeleteTransactionPath := "/booking/delete-transaction/"
  const ToggleBlockUnblockPath := "/customer-or-worker/update-block-unblock/"
  const GetDashboardStatusPath := "/admin/getTotalStatus"
  const GetIncomeRatioPath := "/admin/getIncomeRatio?year="
  const GetUpcomingBookingsPath := "/booking/get-all-bookings?page=1&limit=5&status=booked&filterType=upcoming"
  const GetSingleManagerPath := "/manager/me"
  const GetAllMessagesPath := "/public/get-contact-us"
  const DeleteContactUsPath := "/public/delete-contact-us/"
  const GetPrivacyPolicyPath := "/public/get-privacy-policy"
  const UpdatePrivacyPolicyPath := "/public/create-or-update-privacy-policy"
  const AddServicePath := "service/create-service"
  const GetAllServicesPath := "service/get-all-services?page="
  const GetServiceByIdPath := "/service/get-one-service/"
  const UpdateServicePath := "/service/update-service/"
  const DeleteServicePath := "/service/delete-service/"
  const GetAboutUsPath := "/public/get-about-us"
  const UpdateAboutUsPath := "/public/create-or-update-about-us"
  const CreateServicePath := "/photo/create-dynamic-photo-or-video"
  const GetDynamicBannerPath := "/photo/get-all-dynamic-photo"
  const GetAllStatePath := "state/get-all-state"
  const ActiveStatePath := "/state/update-state/"
  const GetAllManagersPath := "/manager/get-all-managers?search="
  const GetAllAccessibilityPath := "/accessibility/get-all-accessibility"
  const CreateManagerPath := "/manager/register"
  const UpdateManagerAccessPath := "/accessibility/update-status-accessibility/"
  const BlockManagerPath := "/manager/block-unblock/"
  const GetMyProfilePath := "/manager/me"
  const UpdateUserPath := "/manager/update-profile"
  const ChangePasswordPath := "/manager/change-password"
  const GetAllUsersPath := "/customer/get-all-customers?page="
  const GetAllWorkersPath := "/worker/get-all-worker"
  const DeleteWorkerPath := "/manager/update-profile"
  const CreateWorkerPath := "/worker/register"

  /** The URL template. */
  /** The argument properties the templates read, and the separators before the later
      ones. */
  const YearField := "year"
  const MonthField := "month"
  const PageField := "page"
  const LimitField := "limit"
  const StatusField := "status"
  const SortByField := "sortBy"
  const IdField := "id"
  const ManagerIdField := "managerId"
  const MonthSep := "&month="
  const LimitSep := "&limit="
  const StatusSep := "&status="
  const SortOrderSep := "&sortOrder="

  /** The URL template. */
  function UrlOf(op: Op): Template {
    match op
    case AnalyticsApi(a) =>
      (match a
       case ServicePopularity => WithTwo(ServicePopularityPath, YearField, MonthSep, MonthField)
       case WorkerPopularity => WithTwo(WorkerPopularityPath, YearField, MonthSep, MonthField)
       case BookingThrends => WithField(BookingThrendsPath, YearField)
       case BookingRevenue => Fixed(BookingRevenuePath))
    case AuthApi(a) =>
      (match a
       case Login => Fixed(LoginPath)
       case Register => Fixed(RegisterPath)
       case Logout => Fixed(LogoutPath)
       case ForgotPassword => Fixed(ForgotPasswordPath)
       case VerifyOtp => Fixed(VerifyOtpPath)
       case VerifyEmail => Fixed(VerifyEmailPath)
       case ResetPassword => Fixed(ResetPasswordPath))
    case BookingApi(b) =>
      (match b
       case GetAllBookings => WithThree(GetAllBookingsPath, PageField, LimitSep, LimitField, StatusSep, StatusField)
       case GetAllTransactions => Fixed(GetAllTransactionsPath)
       case GetBookingsTrends => WithArg(GetBookingsTrendsPath)
       case DeleteBooking => WithArg(DeleteBookingPath)
       case DeleteTransaction => WithArg(DeleteTransactionPath))
    case ToggleBlockUnblock => WithArg(ToggleBlockUnblockPath)
    case DashboardApi(d) =>
      (match d
       case GetDashboardStatus => Fixed(GetDashboardStatusPath)
       case GetIncomeRatio => WithArg(GetIncomeRatioPath)
       case GetUpcomingBookings => Fixed(GetUpcomingBookingsPath)
       case GetSingleManager => Fixed(GetSingleManagerPath))
    case MessageApi(m) =>
      (match m
       case GetAllMessages => Fixed(GetAllMessagesPath)
       case DeleteContactUs => WithArg(DeleteContactUsPath))
    case PrivacyApi(p) =>
      (match p
       case GetPrivacyPolicy => Fixed(GetPrivacyPolicyPath)
       case UpdatePrivacyPolicy => Fixed(UpdatePrivacyPolicyPath))
    case ServiceApi(s) =>
      (match s
       case AddService => Fixed(AddServicePath)
       case GetAllServices => WithThree(GetAllServicesPath, PageField, LimitSep, LimitField, SortOrderSep, SortByField)
       case GetServiceById => WithArg(GetServiceByIdPath)
       case UpdateService => WithField(UpdateServicePath, IdField)
       case DeleteService => WithArg(DeleteServicePath))
    case SiteContentApi(c) =>
      (match c
       case GetAboutUs => Fixed(GetAboutUsPath)
       case UpdateAboutUs => Fixed(UpdateAboutUsPath)
       case CreateService => Fixed(CreateServicePath)
       case GetDynamicBanner => Fixed(GetDynamicBannerPath))
    case StatesApi(s) =>
      (match s
       case GetAllState => Fixed(GetAllStatePath)
       case ActiveState => WithField(ActiveStatePath, IdField))
    case SuperAdminApi(a) =>
      (match a
       case GetAllManagers => WithArg(GetAllManagersPath)
       case GetAllAccessibility => Fixed(GetAllAccessibilityPath)
       case CreateManager => Fixed(CreateManagerPath)
       case UpdateManagerAccess => WithField(UpdateManagerAccessPath, ManagerIdField)
       case BlockManager => WithArg(BlockManagerPath))
    case ProfileApi(p) =>
      (match p
       case GetMyProfile => Fixed(GetMyProfilePath)
       case UpdateUser => Fixed(UpdateUserPath)
       case ChangePassword => Fixed(ChangePasswordPath))
    case GetAllUsers => WithThree(GetAllUsersPath, PageField, LimitSep, LimitField, SortOrderSep, SortByField)
    case WorkerApi(w) =>
      (match w
       case GetAllWorkers => Fixed(GetAllWorkersPath)
       case DeleteWorker => Fixed(DeleteWorkerPath)
       case CreateWorker => Fixed(CreateWorkerPath))
  }

  /** The property the PATCHes with a destructured argument send as their body. */
  const DataField := "data"

  /** Where the request body comes from: every mutation except logout, the deletes and the
      block toggles sends its argument, or its `data` property when it destructures. */
  function BodyOf(op: Op): Body {
    match op
    case ServiceApi(UpdateService) | StatesApi(ActiveState) | SuperAdminApi(UpdateManagerAccess) =>
      FieldArg(DataField)
    case AuthApi(a) => if a == Logout then NoBody else WholeArg
    case PrivacyApi(UpdatePrivacyPolicy) | ServiceApi(AddService) | SiteContentApi(UpdateAboutUs)
       | SiteContentApi(CreateService) | SuperAdminApi(CreateManager) | ProfileApi(UpdateUser)
       | ProfileApi(ChangePassword) | WorkerApi(DeleteWorker) | WorkerApi(CreateWorker) => WholeArg
    case _ => NoBody
  }

  /** `providesTags`; empty when the endpoint declares none. */
  function Provides(op: Op): set<Tag> {
    match op
    case AnalyticsApi(_) => {Analytics}
    case BookingApi(b) => if b == DeleteBooking || b == DeleteTransaction then {} else {Bookings}
    case DashboardApi(d) =>
      (match d
       case GetUpcomingBookings => {Bookings}
       case GetSingleManager => {Managers, Users}
       case _ => {})
    case MessageApi(m) => if m == GetAllMessages then {HelpSupport} else {}
    case PrivacyApi(p) => if p == GetPrivacyPolicy then {Privacy} else {}
    case ServiceApi(s) => if s == GetAllServices || s == GetServiceById then {Services} else {}
    case SiteContentApi(c) => if c == GetAboutUs || c == GetDynamicBanner then {SiteContent} else {}
    case StatesApi(s) => if s == GetAllState then {States} else {}
    case SuperAdminApi(a) => if a == GetAllManagers || a == GetAllAccessibility then {Managers} else {}
    case ProfileApi(p) => if p == GetMyProfile then {Users} else {}
    case GetAllUsers => {Users}
    case WorkerApi(w) => if w == GetAllWorkers then {Workers} else {}
    case _ => {}
  }

  /** `invalidatesTags`; empty when the endpoint declares none. */
  function Invalidates(op: Op): set<Tag> {
    match op
    case BookingApi(b) => if b == DeleteBooking || b == DeleteTransaction then {Bookings} else {}
    case ToggleBlockUnblock => {Workers, Users}
    case MessageApi(m) => if m == DeleteContactUs then {HelpSupport} else {}
    case PrivacyApi(p) => if p == UpdatePrivacyPolicy then {Privacy} else {}
    case ServiceApi(s) => if s == GetAllServices || s == GetServiceById then {} else {Services}
    case SiteContentApi(c) => if c == UpdateAboutUs || c == CreateService then {SiteContent} else {}
    case StatesApi(s) => if s == ActiveState then {States} else {}
    case SuperAdminApi(a) => if a == GetAllManagers || a == GetAllAccessibility then {} else {Managers}
    case ProfileApi(p) => if p == GetMyProfile then {} else {Users}
    case WorkerApi(w) => if w == GetAllWorkers then {} else {Workers}
    case _ => {}
  }

  /** Whether a `transformResponse` keeps only `response?.data?.attributes`. */
  predicate UnwrapsAttributes(op: Op) {
    op == DashboardApi(GetDashboardStatus) || op == DashboardApi(GetIncomeRatio)
  }

  // ---------------------------------------------------------------- building a request

  /** The argument a hook is called with: `undefined`, a scalar (an id, a year, a search
      text) or an object of text properties. */
  datatype Arg = Undefined | Text(s: string) | Record(fields: Obj<string>)

  /** `${arg}` in a template literal. */
  function Render(a: Arg): string {
    match a
    case Undefined => "undefined"
    case Text(s) => s
    case Record(_) => "[object Object]"
  }

  /** `${name}` after destructuring: a missing property shows as "undefined", and a
      scalar has none of the properties the templates name. */
  function FieldText(a: Arg, name: string): string {
    if a.Record? then GetText(a.fields, name) else "undefined"
  }

  /** Whether a template destructures the argument. */
  predicate ReadsFields(t: Template) {
    t.WithField? || t.WithTwo? || t.WithThree?
  }

  /** The properties a template reads. */
  function FieldNames(t: Template): set<string> {
    match t
    case Fixed(_) => {}
    case WithArg(_) => {}
    case WithField(_, n) => {n}
    case WithTwo(_, n1, _, n2) => {n1, n2}
    case WithThree(_, n1, _, n2, _, n3) => {n1, n2, n3}
  }

  /** A filled template with the argument substituted, or `None` when a property is read
      from `undefined` and the query function throws. */
  function Fill(t: Template, a: Arg): (r: Option<string>)
    ensures r.None? <==> a.Undefined? && ReadsFields(t)
    ensures r.Some? ==> t.path <= r.value
  {
    if a.Undefined? && ReadsFields(t) then None
    else
      match t
      case Fixed(p) => Some(p)
      case WithArg(p) => Some(p + Render(a))
      case WithField(p, n) => Some(p + FieldText(a, n))
      case WithTwo(p, n1, s2, n2) => Some(p + FieldText(a, n1) + s2 + FieldText(a, n2))
      case WithThree(p, n1, s2, n2, s3, n3) =>
        Some(p + FieldText(a, n1) + s2 + FieldText(a, n2) + s3 + FieldText(a, n3))
  }

  /** `{ url, method, body }` as the query function returns it. */
  datatype Request = Request(verb: Method, url: string, body: Body)

  /** Whether an endpoint's query function destructures its argument, which throws on
      `undefined`. */
  predicate Destructures(op: Op) {
    BodyOf(op).FieldArg? || ReadsFields(UrlOf(op))
  }

  /** The request an endpoint builds from a hook argument, or `None` when the query
      function throws on destructuring `undefined`. */
  function BuildRequest(op: Op, a: Arg): (r: Option<Request>)
    ensures r.None? <==> a.Undefined? && Destructures(op)
    ensures r.Some? ==> r.value.verb == VerbOf(op) && r.value.body == BodyOf(op)
    ensures r.Some? ==> Some(r.value.url) == Fill(UrlOf(op), a)
  {
    if a.Undefined? && Destructures(op) then None
    else
      var url := Fill(UrlOf(op), a);
      Some(Request(VerbOf(op), url.value, BodyOf(op)))
  }

  /** A template that does not mention the argument gives its path for every argument. */
  lemma FillIgnoresArg(t: Template, a: Arg, b: Arg)
    requires t.Fixed?
    ensures Fill(t, a) == Fill(t, b) == Some(t.path)
  {
  }

  /** A template that reads only named properties gives the same text for two objects
      that agree on those properties, whatever else they carry. */
  lemma FillReadsOnlyNamedFields(t: Template, f: Obj<string>, g: Obj<string>)
    requires !t.WithArg?
    requires forall n :: n in FieldNames(t) ==> GetText(f, n) == GetText(g, n)
    ensures Fill(t, Record(f)) == Fill(t, Record(g))
  {
    match t
    case Fixed(_) =>
    case WithArg(_) =>
    case WithField(_, n) =>
      assert n in FieldNames(t);
    case WithTwo(_, n1, _, n2) =>
      assert n1 in FieldNames(t) && n2 in FieldNames(t);
    case WithThree(_, n1, _, n2, _, n3) =>
      assert n1 in FieldNames(t) && n2 in FieldNames(t) && n3 in FieldNames(t);
  }

  /** A two-property template fills to its path and separator with the properties' text. */
  lemma FillTwo(p: string, n1: string, s2: string, n2: string, f: Obj<string>)
    ensures Fill(WithTwo(p, n1, s2, n2), Record(f)) == Some(p + GetText(f, n1) + s2 + GetText(f, n2))
  {
  }

  /** A three-property template fills to its path and separators with the properties'
      text. */
  lemma FillThree(p: string, n1: string, s2: string, n2: string, s3: string, n3: string, f: Obj<string>)
    ensures Fill(WithThree(p, n1, s2, n2, s3, n3), Record(f)) ==
      Some(p + GetText(f, n1) + s2 + GetText(f, n2) + s3 + GetText(f, n3))
  {
  }

  /** Adding a property the template does not name leaves the URL as it was. */
  lemma FillIgnoresOtherProperty(t: Template, f: Obj<string>, k: string, v: string)
    requires !t.WithArg? && k !in FieldNames(t)
    ensures Fill(t, Record(Set(f, k, v))) == Fill(t, Record(f))
  {
    var g := Set(f, k, v);
    forall n | n in FieldNames(t)
      ensures GetText(g, n) == GetText(f, n)
    {
      assert Get(g, n) == Get(f, n);
    }
    FillReadsOnlyNamedFields(t, g, f);
  }

  /** Two arguments that are both defined and fill the template alike build the same
      request. */
  lemma SameUrlSameRequest(op: Op, a: Arg, b: Arg)
    requires !a.Undefined? && !b.Undefined? && Fill(UrlOf(op), a) == Fill(UrlOf(op), b)
    ensures BuildRequest(op, a) == BuildRequest(op, b)
  {
  }

  // ---------------------------------------------------------------- the tag rule

  /** Whether two tag sets share a tag, checked tag by tag. */
  predicate Shares(a: set<Tag>, b: set<Tag>) {
    (Analytics in a && Analytics in b) || (Bookings in a && Bookings in b) ||
    (Workers in a && Workers in b) || (Users in a && Users in b) ||
    (Managers in a && Managers in b) || (Services in a && Services in b) ||
    (SiteContent in a && SiteContent in b) || (States in a && States in b) ||
    (Privacy in a && Privacy in b) || (HelpSupport in a && HelpSupport in b)
  }

  /** A successful mutation `m` refreshes the cached query `q` when a tag `m` invalidates is
      one that `q` provides. */
  predicate Affected(m: Op, q: Op) {
    KindOf(m) == Mutation && KindOf(q) == Query && Shares(Invalidates(m), Provides(q))
  }

  /** The tag-by-tag check is the library's rule: the two tag sets intersect. */
  lemma SharesIff(a: set<Tag>, b: set<Tag>)
    ensures Shares(a, b) <==> a * b != {}
  {
    forall t | t in a && t in b
      ensures a * b != {}
    {
      assert t in a * b;
    }
    if a * b != {} {
      var t :| t in a * b;
      assert t in a && t in b;
      match t
      case Analytics => case Bookings => case Workers => case Users => case Managers =>
      case Services => case SiteContent => case States => case Privacy => case HelpSupport =>
    }
  }

  /** `Affected` is the intersection rule between a mutation's invalidated tags and a
      query's provided tags. */
  lemma AffectedIsTagRule(m: Op, q: Op)
    ensures Affected(m, q) <==>
      KindOf(m) == Mutation && KindOf(q) == Query && Invalidates(m) * Provides(q) != {}
  {
    SharesIff(Invalidates(m), Provides(q));
  }

  /** Queries only provide tags and never send a body; mutations only invalidate tags and
      never use GET. */
  lemma RegistryShape(op: Op)
    ensures KindOf(op) == Query ==> Invalidates(op) == {} && VerbOf(op) == GET && BodyOf(op) == NoBody
    ensures KindOf(op) == Mutation ==> Provides(op) == {} && VerbOf(op) != GET
  {
  }

  /** The two dashboard queries that unwrap their response provide no tag. */
  lemma UnwrappedQueriesUntagged(op: Op)
    requires UnwrapsAttributes(op)
    ensures KindOf(op) == Query && Provides(op) == {}
  {
  }

  /** Either booking delete refreshes the three booking lists and the dashboard's upcoming
      bookings, and nothing else, not even analytics' booking trends, which requests the
      same URL as the booking trends query. */
  lemma BookingDeletesRefresh(m: Op, q: Op)
    requires m == BookingApi(DeleteBooking) || m == BookingApi(DeleteTransaction)
    ensures Affected(m, q) <==>
      q == BookingApi(GetAllBookings) || q == BookingApi(GetAllTransactions) ||
      q == BookingApi(GetBookingsTrends) || q == DashboardApi(GetUpcomingBookings)
    ensures !Affected(m, AnalyticsApi(BookingThrends))
  {
  }

  /** The auth mutations are POSTs that invalidate nothing, so none of them refreshes any
      query. */
  lemma AuthAffectsNothing(m: Op, q: Op)
    requires m.AuthApi?
    ensures KindOf(m) == Mutation && VerbOf(m) == POST
    ensures !Affected(m, q)
  {
  }

  /** No mutation ever refreshes the dashboard status or the income ratio, and nothing
      refreshes the analytics queries. */
  lemma NeverRefreshed(m: Op, q: Op)
    requires UnwrapsAttributes(q) || q.AnalyticsApi?
    ensures !Affected(m, q)
  {
  }

  /** Blocking or unblocking a customer or worker refreshes the worker list, the customer
      list and both profile queries. */
  lemma BlockUnblockRefresh(q: Op)
    ensures Affected(ToggleBlockUnblock, q) <==>
      q == WorkerApi(GetAllWorkers) || q == GetAllUsers || q == ProfileApi(GetMyProfile) ||
      q == DashboardApi(GetSingleManager)
  {
  }

  /** Every super-admin mutation refreshes the manager list, the accessibility list and the
      signed-in manager. */
  lemma ManagerMutationsRefresh(m: Op, q: Op)
    requires m.SuperAdminApi? && KindOf(m) == Mutation
    ensures Affected(m, q) <==>
      q == SuperAdminApi(GetAllManagers) || q == SuperAdminApi(GetAllAccessibility) ||
      q == DashboardApi(GetSingleManager)
  {
  }

  /** The service mutations refresh exactly the two service queries. */
  lemma ServiceMutationsRefresh(m: Op, q: Op)
    requires m.ServiceApi? && KindOf(m) == Mutation
    ensures Affected(m, q) <==> q == ServiceApi(GetAllServices) || q == ServiceApi(GetServiceById)
  {
  }

  /** The site-content mutations refresh exactly the about-us text and the banner. */
  lemma SiteContentMutationsRefresh(m: Op, q: Op)
    requires m.SiteContentApi? && KindOf(m) == Mutation
    ensures Affected(m, q) <==> q == SiteContentApi(GetAboutUs) || q == SiteContentApi(GetDynamicBanner)
  {
  }

  // The states, privacy and help-and-support files hold one query and one mutation each,
  // and the mutation refreshes exactly that query.

  /** Toggling a state refreshes only the state list. */
  lemma StatesRefresh(q: Op)
    ensures Affected(StatesApi(ActiveState), q) <==> q == StatesApi(GetAllState)
  {
  }

  /** Saving the privacy policy refreshes only the privacy policy. */
  lemma PrivacyRefresh(q: Op)
    ensures Affected(PrivacyApi(UpdatePrivacyPolicy), q) <==> q == PrivacyApi(GetPrivacyPolicy)
  {
  }

  /** Deleting a contact message refreshes only the message list. */
  lemma MessagesRefresh(q: Op)
    ensures Affected(MessageApi(DeleteContactUs), q) <==> q == MessageApi(GetAllMessages)
  {
  }

  /** The profile mutations refresh the customer list and both profile queries. */
  lemma ProfileMutationsRefresh(m: Op, q: Op)
    requires m.ProfileApi? && KindOf(m) == Mutation
    ensures Affected(m, q) <==>
      q == GetAllUsers || q == ProfileApi(GetMyProfile) || q == DashboardApi(GetSingleManager)
  {
  }

  /** The worker mutations refresh only the worker list. */
  lemma WorkerMutationsRefresh(m: Op, q: Op)
    requires m.WorkerApi? && KindOf(m) == Mutation
    ensures Affected(m, q) <==> q == WorkerApi(GetAllWorkers)
  {
  }

  // ---------------------------------------------------------------- requests of each file

  /** The two popularity queries read year and month. */
  lemma PopularityUrls(f: Obj<string>)
    ensures BuildRequest(AnalyticsApi(ServicePopularity), Record(f)) ==
      Some(Request(GET, ServicePopularityPath + GetText(f, "year") + "&month=" + GetText(f, "month"), NoBody))
    ensures BuildRequest(AnalyticsApi(WorkerPopularity), Record(f)) ==
      Some(Request(GET, WorkerPopularityPath + GetText(f, "year") + "&month=" + GetText(f, "month"), NoBody))
  {
    assert UrlOf(AnalyticsApi(ServicePopularity)) == WithTwo(ServicePopularityPath, YearField, MonthSep, MonthField);
    assert UrlOf(AnalyticsApi(WorkerPopularity)) == WithTwo(WorkerPopularityPath, YearField, MonthSep, MonthField);
    FillTwo(ServicePopularityPath, YearField, MonthSep, MonthField, f);
    FillTwo(WorkerPopularityPath, YearField, MonthSep, MonthField, f);
  }

  /** Analytics' trends query reads only the year; the revenue query takes no argument. */
  lemma TrendsAndRevenueUrls(f: Obj<string>, a: Arg)
    ensures BuildRequest(AnalyticsApi(BookingThrends), Record(f)) ==
      Some(Request(GET, BookingThrendsPath + GetText(f, "year"), NoBody))
    ensures BuildRequest(AnalyticsApi(BookingRevenue), a) == Some(Request(GET, BookingRevenuePath, NoBody))
  {
  }

  /** Analytics' trends and the booking trends query send the same URL for a year. */
  lemma TrendsShareUrl(year: string)
    ensures BuildRequest(AnalyticsApi(BookingThrends), Record([Entry("year", year)])) ==
            BuildRequest(BookingApi(GetBookingsTrends), Text(year))
  {
    assert GetText([Entry("year", year)], "year") == year;
  }

  /** The booking list's URL from page, limit and status; called with nothing it throws. */
  lemma BookingListUrl(f: Obj<string>)
    ensures BuildRequest(BookingApi(GetAllBookings), Record(f)) ==
      Some(Request(GET, GetAllBookingsPath + GetText(f, "page") + "&limit=" + GetText(f, "limit") +
                        "&status=" + GetText(f, "status"), NoBody))
    ensures BuildRequest(BookingApi(GetAllBookings), Undefined).None?
  {
    assert UrlOf(BookingApi(GetAllBookings)) ==
      WithThree(GetAllBookingsPath, PageField, LimitSep, LimitField, StatusSep, StatusField);
    assert VerbOf(BookingApi(GetAllBookings)) == GET && BodyOf(BookingApi(GetAllBookings)) == NoBody;
    FillThree(GetAllBookingsPath, PageField, LimitSep, LimitField, StatusSep, StatusField, f);
  }

  /** The four deletes address the record by id at the end of the path. */
  lemma DeleteRequests(id: string)
    ensures BuildRequest(BookingApi(DeleteBooking), Text(id)) ==
      Some(Request(DELETE, DeleteBookingPath + id, NoBody))
    ensures BuildRequest(BookingApi(DeleteTransaction), Text(id)) ==
      Some(Request(DELETE, DeleteTransactionPath + id, NoBody))
    ensures BuildRequest(ServiceApi(DeleteService), Text(id)) ==
      Some(Request(DELETE, DeleteServicePath + id, NoBody))
    ensures BuildRequest(MessageApi(DeleteContactUs), Text(id)) ==
      Some(Request(DELETE, DeleteContactUsPath + id, NoBody))
  {
  }

  /** Both block toggles are PATCHes by id with no body. */
  lemma BlockRequests(id: string)
    ensures BuildRequest(SuperAdminApi(BlockManager), Text(id)) == Some(Request(PATCH, BlockManagerPath + id, NoBody))
    ensures BuildRequest(ToggleBlockUnblock, Text(id)) == Some(Request(PATCH, ToggleBlockUnblockPath + id, NoBody))
  {
  }

  /** `getServiceById` fetches one service by id. */
  lemma ServiceByIdRequest(id: string)
    ensures BuildRequest(ServiceApi(GetServiceById), Text(id)) == Some(Request(GET, GetServiceByIdPath + id, NoBody))
  {
  }

  /** The dashboard's upcoming bookings always ask for the first five booked, upcoming
      bookings. */
  lemma UpcomingBookingsFixed(a: Arg)
    ensures BuildRequest(DashboardApi(GetUpcomingBookings), a) ==
      Some(Request(GET, GetUpcomingBookingsPath, NoBody))
  {
  }

  /** The income ratio appends the year as given; called with nothing it asks for the
      year "undefined" rather than throwing. */
  lemma IncomeRatioUrl(a: Arg)
    ensures BuildRequest(DashboardApi(GetIncomeRatio), a) ==
      Some(Request(GET, GetIncomeRatioPath + Render(a), NoBody))
    ensures BuildRequest(DashboardApi(GetIncomeRatio), Undefined) ==
      Some(Request(GET, GetIncomeRatioPath + "undefined", NoBody))
  {
  }

  /** `updateService` takes the id for the path and sends `data` as the body. */
  lemma UpdateServiceRequest(f: Obj<string>)
    ensures BuildRequest(ServiceApi(UpdateService), Record(f)) ==
      Some(Request(PATCH, UpdateServicePath + GetText(f, "id"), FieldArg("data")))
  {
  }

  /** `activeState` takes the id for the path and sends `data` as the body. */
  lemma ActiveStateRequest(f: Obj<string>)
    ensures BuildRequest(StatesApi(ActiveState), Record(f)) ==
      Some(Request(PATCH, ActiveStatePath + GetText(f, "id"), FieldArg("data")))
  {
  }

  /** `updateManagerAccess` takes `managerId` for the path and sends `data` as the body. */
  lemma ManagerAccessRequest(f: Obj<string>)
    ensures BuildRequest(SuperAdminApi(UpdateManagerAccess), Record(f)) ==
      Some(Request(PATCH, UpdateManagerAccessPath + GetText(f, "managerId"), FieldArg("data")))
  {
  }

  /** The endpoints that throw when their hook is called with nothing are exactly the
      ones that destructure the argument: the PATCHes sending `data` and the queries
      reading properties. */
  lemma ThrowsOnNothingIff(op: Op)
    ensures BuildRequest(op, Undefined).None? <==>
      op == AnalyticsApi(ServicePopularity) || op == AnalyticsApi(WorkerPopularity) ||
      op == AnalyticsApi(BookingThrends) || op == BookingApi(GetAllBookings) ||
      op == ServiceApi(GetAllServices) || op == ServiceApi(UpdateService) ||
      op == StatesApi(ActiveState) || op == SuperAdminApi(UpdateManagerAccess) || op == GetAllUsers
  {
  }

  /** The service list's URL from page, limit and sortBy. */
  lemma ServiceListUrl(f: Obj<string>)
    ensures BuildRequest(ServiceApi(GetAllServices), Record(f)) ==
      Some(Request(GET, GetAllServicesPath + GetText(f, "page") + "&limit=" + GetText(f, "limit") +
                        "&sortOrder=" + GetText(f, "sortBy"), NoBody))
  {
    assert UrlOf(ServiceApi(GetAllServices)) ==
      WithThree(GetAllServicesPath, PageField, LimitSep, LimitField, SortOrderSep, SortByField);
    assert VerbOf(ServiceApi(GetAllServices)) == GET && BodyOf(ServiceApi(GetAllServices)) == NoBody;
    FillThree(GetAllServicesPath, PageField, LimitSep, LimitField, SortOrderSep, SortByField, f);
  }

  /** `useGetAllServicesQuery({})` asks for page, limit and sort order "undefined". */
  lemma ServiceListWithNothing()
    ensures BuildRequest(ServiceApi(GetAllServices), Record([])) ==
      Some(Request(GET, GetAllServicesPath + "undefined" + "&limit=" + "undefined" +
                        "&sortOrder=" + "undefined", NoBody))
  {
    assert UrlOf(ServiceApi(GetAllServices)) ==
      WithThree(GetAllServicesPath, PageField, LimitSep, LimitField, SortOrderSep, SortByField);
    assert VerbOf(ServiceApi(GetAllServices)) == GET && BodyOf(ServiceApi(GetAllServices)) == NoBody;
    FillThree(GetAllServicesPath, PageField, LimitSep, LimitField, SortOrderSep, SortByField, []);
  }

  /** The manager search appends the search text, even an empty one. */
  lemma ManagerSearchUrl(search: string)
    ensures BuildRequest(SuperAdminApi(GetAllManagers), Text(search)) ==
      Some(Request(GET, GetAllManagersPath + search, NoBody))
  {
  }

  /** The signed-in manager and the own-profile query fetch the same URL, under different
      tags (`ManagerMutationsRefresh` refreshes only the first). */
  lemma TwoProfileQueries(a: Arg)
    ensures BuildRequest(DashboardApi(GetSingleManager), a) == BuildRequest(ProfileApi(GetMyProfile), a)
  {
    assert GetSingleManagerPath == GetMyProfilePath;
  }

  /** The customer list's URL from page, limit and sortBy. */
  lemma UserListUrl(f: Obj<string>)
    ensures BuildRequest(GetAllUsers, Record(f)) ==
      Some(Request(GET, GetAllUsersPath + GetText(f, "page") + "&limit=" + GetText(f, "limit") +
                        "&sortOrder=" + GetText(f, "sortBy"), NoBody))
  {
    assert UrlOf(GetAllUsers) == WithThree(GetAllUsersPath, PageField, LimitSep, LimitField, SortOrderSep, SortByField);
    assert VerbOf(GetAllUsers) == GET && BodyOf(GetAllUsers) == NoBody;
    FillThree(GetAllUsersPath, PageField, LimitSep, LimitField, SortOrderSep, SortByField, f);
  }

  /** The customer list reads page, limit and sortBy and nothing else: adding a search text
      to the argument does not change the URL. */
  lemma UsersIgnoreSearch(f: Obj<string>, search: string)
    ensures BuildRequest(GetAllUsers, Record(Set(f, "searchTerm", search))) == BuildRequest(GetAllUsers, Record(f))
  {
    var t := UrlOf(GetAllUsers);
    assert t == WithThree(GetAllUsersPath, PageField, LimitSep, LimitField, SortOrderSep, SortByField);
    FillIgnoresOtherProperty(t, f, "searchTerm", search);
    SameUrlSameRequest(GetAllUsers, Record(Set(f, "searchTerm", search)), Record(f));
  }

  /** "Deleting" a worker sends the same method, URL and body as updating one's own
      profile (`WorkerMutationsRefresh` shows it refreshes the worker list instead). */
  lemma DeleteWorkerIsProfileUpdate(a: Arg)
    ensures BuildRequest(WorkerApi(DeleteWorker), a) == BuildRequest(ProfileApi(UpdateUser), a)
  {
    assert DeleteWorkerPath == UpdateUserPath;
  }

  /** The worker list ignores its argument. */
  lemma WorkersIgnoreArg(a: Arg, b: Arg)
    ensures BuildRequest(WorkerApi(GetAllWorkers), a) == BuildRequest(WorkerApi(GetAllWorkers), b)
    ensures BuildRequest(WorkerApi(GetAllWorkers), a) == Some(Request(GET, GetAllWorkersPath, NoBody))
  {
  }

  // ---------------------------------------------------------------- dashboard responses

  /** A dashboard response: `data` may be missing, and so may its `attributes`. */
  datatype DataPart<A> = DataPart(attributes: Option<A>)
  datatype Payload<A> = Payload(data: Option<DataPart<A>>)

  /** `response?.data?.attributes`: the attributes, or `undefined` when any level is
      missing. */
  function Attributes<A>(response: Option<Payload<A>>): (r: Option<A>)
    ensures r.Some? <==> response.Some? && response.value.data.Some? && response.value.data.value.attributes.Some?
    ensures r.Some? ==> r.value == response.value.data.value.attributes.value
  {
    match response
    case None => None
    case Some(p) =>
      match p.data
      case None => None
      case Some(d) => d.attributes
  }
}
