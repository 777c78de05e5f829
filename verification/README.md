# faberge1-dashboard, modelled in Dafny

This project models the logic of the Faberge admin dashboard, a React single-page app. The app's managers use it to run a nail-salon booking service. The model has three parts.

The first part is the server interface. It is the registry of RTK Query endpoints that the feature files inject into one base API. For each endpoint the model records:

- whether it is a query or a mutation;
- its HTTP verb;
- how its URL template is filled from the hook argument;
- which request body it sends;
- which cache tags it provides or invalidates.

The model also covers the bearer header that every request carries. It proves facts such as "the endpoint builds its URL exactly like this", "this argument makes the query function throw", and "this mutation refreshes exactly these queries".

The second part is the sign-in session: the token kept in browser storage, the auth slice, the route guard and the sidebar log-out. The sidebar's menu filter and the admin's per-manager access toggles belong here too, with the optimistic update and the rollback.

The third part is the pages' pure logic:

- the booking list's date, time and service formatting, and the details total;
- the notification search;
- the chart axis arithmetic and the seeded demo data on the analytics page;
- pagination;
- the states toggle and sort;
- the upcoming-bookings delete dialog;
- the users page;
- the service, worker, manager and password forms: their edits, their validation rules and the requests they send.

JavaScript semantics appear where they matter:

- `undefined` and `null` are `Option`.
- `a || b` falls back on the empty string, `0` and NaN.
- A template literal prints a missing value as "undefined" and an object as "[object Object]".
- Destructuring `undefined` throws.
- `%` truncates toward zero.
- `parseInt` with radix 10, the only radix the source passes, skips white space and reads a sign and the longest run of digits, so a "0x" prefix reads as 0.
- A plain object is an insertion-ordered list of keys and values.

Modules: `Wrappers`, `JsNum`, `JsText`, `JsObject` and `Seqs` are the JavaScript primitives. The others follow the source:

| module | source |
|---|---|
| `Endpoints` | `src/redux` |
| `Session` | `authSlice.js`, `AdminRoutes.jsx`, `baseApi.js`, sidebar log-out |
| `Access` | `Sidebar.jsx`, `AccessibilityList.jsx` |
| `Bookings` | `BookingsPage.jsx`, `BookingDetailsModal.jsx`, `Notification.jsx` |
| `Charts` | `Barchart.jsx`, `IncomeGraphChart.jsx` |
| `Analytics` | `Analytics.jsx` |
| `Pagination` | `UserTable.jsx` |
| `States` | `States.jsx` |
| `Upcoming` | `UpCommingBookings.jsx` |
| `Users` | `Users.jsx` |
| `ServiceForms` | `AddServiceModal.jsx`, `UpdateServiceModal.jsx` |
| `WorkerForms` | `CreateWorkerModal.jsx`, `UpdateWorkerModal.jsx` |
| `AccountForms` | `CreateManager.jsx`, `ChangePassword.jsx` |
| `Passwords` | the password rules those forms share |

## Model

| member | source | states |
|---|---|---|
| Endpoints.Fill | src/redux/features/booking/booking.js:7-8 | A URL template yields no URL exactly when the argument is `undefined` and the template destructures fields from it; otherwise the URL starts with the template's fixed path |
| Endpoints.BuildRequest | src/redux/features/booking/booking.js:6-43 | Calling an endpoint's query function throws exactly when the argument is `undefined` and the endpoint destructures it; otherwise the request carries the endpoint's verb and body and the filled URL |
| Endpoints.FillIgnoresArg | src/redux/features/booking/booking.js:14-20 | A fixed URL ignores the argument entirely |
| Endpoints.FillTwo | src/redux/features/analytics/analytics.js:7-8 | A two-field template prints the path, the first field, the separator and the second field, each missing field as "undefined" |
| Endpoints.FillThree | src/redux/features/booking/booking.js:7-8 | A three-field template prints the path and the three fields with their separators, each missing field as "undefined" |
| Endpoints.FillReadsOnlyNamedFields | src/redux/features/service/service.js:17-23 | A destructuring template reads only the named properties: two arguments agreeing on them give the same URL |
| Endpoints.FillIgnoresOtherProperty | src/redux/features/user/userApi.js:7-12 | Setting a property that the template does not name leaves the URL unchanged |
| Endpoints.SameUrlSameRequest | src/redux/features/booking/booking.js:6-43 | Two defined arguments that give the same URL give the same request |
| Endpoints.SharesIff | src/redux/features/customer-or-worker/customer-worker.js:11 | The tag-by-tag test of two tag lists holds exactly when they have a tag in common |
| Endpoints.AffectedIsTagRule | src/redux/features/booking/booking.js:11-43 | A mutation refreshes a query exactly when one of its invalidated tags is among the query's provided tags |
| Endpoints.RegistryShape | src/redux/features/service/service.js:4-52 | Every query is a body-less GET that invalidates nothing; every mutation provides nothing and is not a GET |
| Endpoints.UnwrappedQueriesUntagged | src/redux/features/dashboard/dashboardApi.js:6-19 | The two queries that unwrap `data.attributes` provide no tag |
| Endpoints.BookingDeletesRefresh | src/redux/features/booking/booking.js:30-43 | Deleting a booking or a transaction refreshes exactly the three booking queries and the upcoming-bookings query, not the analytics trends |
| Endpoints.AuthAffectsNothing | src/redux/features/auth/authApi.js:3-54 | Every auth endpoint is a POST mutation that refreshes no query |
| Endpoints.NeverRefreshed | src/redux/features/analytics/analytics.js:6-36 | No mutation refreshes an analytics query or a dashboard query that unwraps attributes |
| Endpoints.BlockUnblockRefresh | src/redux/features/customer-or-worker/customer-worker.js:6-12 | Blocking a customer or worker refreshes exactly the workers list, the customers list and the two `/manager/me` queries |
| Endpoints.ManagerMutationsRefresh | src/redux/features/superAdmin/super-admin.js:20-42 | Each manager mutation refreshes exactly the managers list, the accessibility list and the single-manager query |
| Endpoints.ServiceMutationsRefresh | src/redux/features/service/service.js:6-50 | Each service mutation refreshes exactly the service list and the single-service query |
| Endpoints.SiteContentMutationsRefresh | src/redux/features/site-content/site-content.js:14-31 | Each site-content mutation refreshes exactly the about-us and banner queries |
| Endpoints.StatesRefresh | src/redux/features/states/states.js:13-22 | Toggling a state refreshes exactly the states list |
| Endpoints.PrivacyRefresh | src/redux/features/privacyPolicy/privacy-policy.js:13-20 | Updating the privacy policy refreshes exactly the privacy-policy query |
| Endpoints.MessagesRefresh | src/redux/features/help-and-support/message.js:13-19 | Deleting a contact message refreshes exactly the messages list |
| Endpoints.ProfileMutationsRefresh | src/redux/features/terms-and-condition/terms.js:13-28 | Updating the profile or changing the password refreshes exactly the customers list and both `/manager/me` queries |
| Endpoints.WorkerMutationsRefresh | src/redux/features/worker/worker.js:13-28 | Each worker mutation refreshes exactly the workers list |
| Endpoints.PopularityUrls | src/redux/features/analytics/analytics.js:6-20 | Both popularity queries send a GET with the argument's year and month after their paths |
| Endpoints.TrendsAndRevenueUrls | src/redux/features/analytics/analytics.js:22-36 | The trends query sends the argument's year; the revenue query ignores its argument |
| Endpoints.TrendsShareUrl | src/redux/features/booking/booking.js:22-28 | The analytics trends query with `{year}` and the booking trends query with a bare year send the same request |
| Endpoints.BookingListUrl | src/redux/features/booking/booking.js:6-12 | The bookings list sends page, limit and status in that order, and throws on `undefined` |
| Endpoints.DeleteRequests | src/redux/features/booking/booking.js:30-43 | The four delete endpoints send a DELETE to their path followed by the id |
| Endpoints.BlockRequests | src/redux/features/superAdmin/super-admin.js:36-42 | Both block endpoints send a body-less PATCH to their path followed by the id |
| Endpoints.ServiceByIdRequest | src/redux/features/service/service.js:25-31 | The single-service query sends a GET to its path followed by the id |
| Endpoints.UpcomingBookingsFixed | src/redux/features/dashboard/dashboardApi.js:21-27 | The upcoming-bookings query always asks for page 1, limit 5, booked and upcoming, whatever its argument |
| Endpoints.IncomeRatioUrl | src/redux/features/dashboard/dashboardApi.js:13-19 | The income-ratio query prints its argument after `year=`, and "undefined" when there is none |
| Endpoints.UpdateServiceRequest | src/redux/features/service/service.js:33-42 | Updating a service sends a PATCH to the path with the argument's `id` and the argument's `data` as body |
| Endpoints.ActiveStateRequest | src/redux/features/states/states.js:13-22 | Toggling a state sends a PATCH to the path with the argument's `id` and the argument's `data` as body |
| Endpoints.ManagerAccessRequest | src/redux/features/superAdmin/super-admin.js:28-35 | Updating access sends a PATCH to the path with the argument's `managerId` and the argument's `data` as body |
| Endpoints.ThrowsOnNothingIff | src/redux/features/user/userApi.js:7 | Exactly nine endpoints throw when called with no argument: those that destructure it |
| Endpoints.ServiceListUrl | src/redux/features/service/service.js:17-23 | The service list sends page, limit and then `sortBy` under the name `sortOrder` |
| Endpoints.ServiceListWithNothing | src/redux/features/service/service.js:18-19 | The service list called with `{}` prints "undefined" for all three parameters |
| Endpoints.ManagerSearchUrl | src/redux/features/superAdmin/super-admin.js:6-12 | The managers list appends the search text to its path, even an empty one |
| Endpoints.TwoProfileQueries | src/redux/features/dashboard/dashboardApi.js:29-35 | The single-manager query and the my-profile query send the same request |
| Endpoints.UserListUrl | src/redux/features/user/userApi.js:6-14 | The users list sends page, limit and then `sortBy` under the name `sortOrder` |
| Endpoints.UsersIgnoreSearch | src/component/Main/Users/UserTable.jsx:31-35 | The `searchTerm` the users table passes never reaches the URL |
| Endpoints.DeleteWorkerIsProfileUpdate | src/redux/features/worker/worker.js:13-20 | "Delete worker" sends the same request as updating the signed-in manager's profile |
| Endpoints.WorkersIgnoreArg | src/redux/features/worker/worker.js:6-12 | The workers list ignores its argument |
| Endpoints.Attributes | src/redux/features/dashboard/dashboardApi.js:11 | The transformed response is present exactly when the response, its `data` and its `attributes` all are, and is then the attributes |
| Session.GetItem | src/redux/features/auth/authSlice.js:6 | Reading a key gives its stored value, and `null` exactly when it is absent |
| Session.TokenFromStorage | src/redux/features/auth/authSlice.js:4-12 | The token is read back exactly when storage is readable and holds a non-empty token |
| Session.InitialAuth | src/redux/features/auth/authSlice.js:26-29 | The slice starts with the stored token and no user |
| Session.LoggedUser | src/redux/features/auth/authSlice.js:35-42 | Logging in puts the token into the slice and into storage, and leaves every other key |
| Session.UpdateUser | src/redux/features/auth/authSlice.js:43-48 | Only the user changes |
| Session.LogoutUser | src/redux/features/auth/authSlice.js:49-56 | Logging out clears the slice's token and removes the stored one, leaving every other key |
| Session.LoginThenLogout | src/redux/features/auth/authSlice.js:35-56 | Logging in and then out leaves no token anywhere and the rest of storage as it was |
| Session.LoginSurvivesReload | src/redux/features/auth/authSlice.js:4-42 | After logging in with a non-empty token, a reload starts with that token |
| Session.AdminRoute | src/routes/AdminRoutes.jsx:4-30 | Every redirect goes to the sign-in page and replaces the history entry |
| Session.AdminRouteIff | src/routes/AdminRoutes.jsx:6-29 | The guard renders exactly when a non-empty token is stored; the constant user never redirects |
| Session.AdminRouteIgnoresTokenValue | src/routes/AdminRoutes.jsx:11 | The decision depends only on whether a token is there |
| Session.PrepareHeaders | src/redux/baseApi/baseApi.js:8-15 | A truthy stored token sets `Authorization` to "Bearer " and the token; no token leaves the headers as they are; other headers never change |
| Session.EmptyTokenNoHeader | src/redux/baseApi/baseApi.js:11 | An empty stored token adds no header |
| Session.HeaderIffRouteRenders | src/redux/baseApi/baseApi.js:10-13 | Requests carry a bearer header exactly when the guard renders the dashboard |
| Session.SidebarLogout | src/component/Main/Sidebar/Sidebar.jsx:115-120 | The sidebar's log-out removes the stored token but leaves the store's slice untouched |
| Session.SidebarLogoutSignsOut | src/component/Main/Sidebar/Sidebar.jsx:115-120 | After that log-out the guard redirects and no bearer header is sent, while the slice keeps its token |
| Access.GrantedItems | src/component/Main/Sidebar/Sidebar.jsx:126-128 | An entry is kept exactly when its flag is `true`, as often as it occurs and in menu order |
| Access.VisibleItems | src/component/Main/Sidebar/Sidebar.jsx:123-128 | An admin sees every entry; anyone else sees exactly the entries whose flag is `true`, in order |
| Access.NoRecordNoItems | src/component/Main/Sidebar/Sidebar.jsx:123-128 | A user with no record or no flags, who is not an admin, sees no entry |
| Access.NotificationsWithHelp | src/component/Main/Sidebar/Sidebar.jsx:76-105 | "Notifications" is visible exactly when "Help & Support" is: they share a flag |
| Access.ManagersEntryNotOffered | src/page/ManagerManagement/AccessibilityList.jsx:24-70 | No access toggle exists for the managers entry, so only an admin sees it |
| Access.ManagerAccess | src/page/ManagerManagement/AccessibilityList.jsx:93-95 | The stored flag is read, or `false` when the manager, the flags or the flag is missing |
| Access.WithFlag | src/page/ManagerManagement/AccessibilityList.jsx:101-107 | The manager gets the flag set, keeps its id, and every other flag is unchanged |
| Access.UpdateFlag | src/page/ManagerManagement/AccessibilityList.jsx:99-109 | Only the manager whose id matches changes, and it gets the flag |
| Access.OptimisticUpdateReads | src/page/ManagerManagement/AccessibilityList.jsx:99-110 | After the optimistic update the manager reads the new value for the toggled module and the old value for every other module |
| Access.TogglePayload | src/page/ManagerManagement/AccessibilityList.jsx:113 | The request body has the single key and the new value |
| Access.Rollback | src/page/ManagerManagement/AccessibilityList.jsx:126-138 | The `.catch` block's list: built from the list as it was before the toggle, the matching manager reads the opposite of the new value and every other manager is as before |
| Access.HandleToggleAsWritten | src/page/ManagerManagement/AccessibilityList.jsx:98-140 | As written: whatever the response, the list after the toggle is the optimistic one, in which the matching manager reads the new value and every other manager is unchanged |
| Access.HandleToggle | src/page/ManagerManagement/AccessibilityList.jsx:98-140 | Corrected: the matching manager reads the new value when the flag was stored and the opposite when the request failed; every other manager is unchanged |
| Access.FailedToggleKeepsOptimistic | src/page/ManagerManagement/AccessibilityList.jsx:117-139 | On a failed request the written handler keeps showing the refused value while the corrected one shows the opposite, so the two lists differ; on a stored flag they agree |
| Access.RollbackRestoresIff | src/page/ManagerManagement/AccessibilityList.jsx:126-138 | The rollback restores the matching manager exactly when it held flags with the opposite value stored |
| Access.RenderedModules | src/page/ManagerManagement/AccessibilityList.jsx:145-151 | A toggle row appears exactly for the modules the server record mentions, as often as listed and in order |
| Access.RenderedModulesNone | src/page/ManagerManagement/AccessibilityList.jsx:150 | An empty server record gets no row |
| Access.RenderedModulesAll | src/page/ManagerManagement/AccessibilityList.jsx:150 | A server record that mentions every module gets every row |
| Bookings.DatePart | src/page/Bookings/BookingsPage.jsx:27 | The date is the part of the text before the first `T`, and missing when the date is missing |
| Bookings.Hour12 | src/page/Bookings/BookingsPage.jsx:33 | For a non-negative hour the clock hour lies in 1..12 and agrees with the hour modulo 12; NaN and negative multiples of 12 show 12; another negative hour shows its truncated remainder, -11..-1 ("-1:00" gives -1) |
| Bookings.Period | src/page/Bookings/BookingsPage.jsx:32 | "PM" exactly when the hour parses to 12 or more |
| Bookings.Hour12IsClockHour | src/page/Bookings/BookingsPage.jsx:31-33 | For hours 0..23, the 12-hour conversion is the usual clock hour and period |
| Bookings.TimePart | src/page/Bookings/BookingsPage.jsx:28-35 | A missing or empty time shows "N/A"; otherwise the text ends in AM or PM, and in PM exactly when the hour is at least 12 |
| Bookings.FormatDateTime | src/page/Bookings/BookingsPage.jsx:26-37 | The text starts with the date and ", ", and ends in "N/A" when there is no time |
| Bookings.DatePartIso | src/page/Bookings/BookingsPage.jsx:27 | An ISO timestamp gives its day |
| Bookings.TimePartWellFormed | src/page/Bookings/BookingsPage.jsx:29-34 | A two-digit hour and minutes print as clock hour, minutes and period |
| Bookings.FormatDateTimeWellFormed | src/page/Bookings/BookingsPage.jsx:26-37 | An ISO date and an `HH:MM` time print as "day, h:MM AM/PM" |
| Bookings.SubNames | src/component/Main/Notification/Notification.jsx:55-57 | The add-on names are missing exactly when that list is missing: the booked add-ons on the bookings page, the catalogue add-ons on the notifications page |
| Bookings.MainName | src/page/Bookings/BookingsPage.jsx:43-44 | The service name, or "Unknown Service" when it is missing or empty |
| Bookings.ItemText | src/page/Bookings/BookingsPage.jsx:45-48 | The name alone when there are no add-on names; otherwise the name with the names in parentheses |
| Bookings.ItemTexts | src/page/Bookings/BookingsPage.jsx:41-49 | One text per item, in order |
| Bookings.FormatServices | src/page/Bookings/BookingsPage.jsx:39-51 | No services show "N/A"; one service shows its text; longer lists start with the first text |
| Bookings.FormatServicesSnoc | src/page/Bookings/BookingsPage.jsx:50 | Adding a service appends " \| " and its text |
| Bookings.AddOnsTotalNonNegative | src/component/ui/Modals/BookingDetailsModal.jsx:17-21 | Non-negative add-on prices give a non-negative sum |
| Bookings.ItemsTotalNonNegative | src/component/ui/Modals/BookingDetailsModal.jsx:8-25 | Non-negative prices give a non-negative total |
| Bookings.CalculateTotal | src/component/ui/Modals/BookingDetailsModal.jsx:8-25 | The loop's total is 0 for no services, and otherwise the sum of each service price and its add-on prices, missing prices counting 0 |
| Bookings.DetailsTotal | src/component/ui/Modals/BookingDetailsModal.jsx:4-27 | The modal shows a total exactly when it is open and has a booking, and that total is the services' sum |
| Bookings.SearchMatch | src/component/Main/Notification/Notification.jsx:28-30 | The test throws exactly when the customer exists without a first name, and passes exactly when the lower-cased name contains the lower-cased search |
| Bookings.SearchList | src/component/Main/Notification/Notification.jsx:28-30 | The filter throws exactly when some booking makes the test throw; otherwise it keeps exactly the matching bookings, each as often as it occurs, in order (it is `filter` with the search test) |
| Bookings.SearchScan | src/component/Main/Notification/Notification.jsx:28-30 | Scanning booking by booking throws exactly when some customer has no first name, and otherwise yields `filter` with the search test |
| Bookings.SearchFilter | src/component/Main/Notification/Notification.jsx:24-30 | No list while loading; otherwise the filter of the list |
| Bookings.EmptySearchKeepsCustomers | src/component/Main/Notification/Notification.jsx:28-30 | An empty search keeps exactly the bookings that have a customer |
| Charts.MaxPlotted | src/component/Main/Dashboard/Barchart.jsx:16 | The largest plotted value is attained and bounds every row |
| Charts.YAxisMax | src/component/Main/Dashboard/Barchart.jsx:14-18 | No data gives 100; otherwise the smallest integer at least 1.3 times the largest value |
| Charts.YAxisMaxCoversData | src/component/Main/Dashboard/Barchart.jsx:14-18 | Every bar fits under the axis, and a positive maximum stays strictly below it |
| Charts.YAxisTicks | src/component/Main/Dashboard/Barchart.jsx:21-24 | Five ticks: 0, the rounded-up quarter, its double and triple, and the maximum |
| Charts.TicksNondecreasingIff | src/component/Main/Dashboard/Barchart.jsx:21-24 | The ticks are in order exactly when the maximum is not 1, 2 or 5 |
| Charts.FormatTick | src/component/Main/Dashboard/Barchart.jsx:84 | A tick shows the glyph exactly when it equals the axis maximum, and its number otherwise |
| Charts.GlyphTicks | src/component/Main/Dashboard/IncomeGraphChart.jsx:88 | The top tick is the glyph; a lower tick is the glyph exactly when it equals the maximum, which for a positive maximum happens only for 1, 2, 3, 6 and 9 |
| Charts.ServiceData | src/component/Main/Dashboard/Barchart.jsx:39-46 | One row per popularity record with its name and bookings; none while loading |
| Charts.RevenueData | src/component/Main/Dashboard/IncomeGraphChart.jsx:32-39 | One row per revenue record with its month and revenue; none when the response or its list is missing |
| Charts.ServiceAxisCoversBookings | src/component/Main/Dashboard/Barchart.jsx:39-52 | The service chart's axis covers every record's bookings |
| Charts.RevenueAxisCoversRevenue | src/component/Main/Dashboard/IncomeGraphChart.jsx:32-45 | The revenue chart's axis covers every record's revenue |
| Analytics.Seeded | src/page/Analytics/Analytics.jsx:88-90 | The seeded value lies in 0..mod-1 and is the mathematical residue, negative seeds included |
| Analytics.SeededPeriodic | src/page/Analytics/Analytics.jsx:88-90 | Shifting the seed by a multiple of mod changes nothing; for a non-negative seed it is the plain remainder |
| Analytics.Rotate | src/page/Analytics/Analytics.jsx:52 | The rotation is a permutation that starts at the offset and wraps around |
| Analytics.Take | src/page/Analytics/Analytics.jsx:55 | `slice(0, n)` keeps the first n elements, or all when there are fewer |
| Analytics.PickFiltered | src/page/Analytics/Analytics.jsx:53-55 | Every picked name is a candidate, and "Other" appears only when the seed keeps it |
| Analytics.PickLength | src/page/Analytics/Analytics.jsx:49-55 | The pick has 2 or 3 names, as the count says, even after "Other" is filtered out |
| Analytics.CandidatesOtherOnce | src/page/Analytics/Analytics.jsx:48 | "Other" is among the candidates exactly once |
| Analytics.Point | src/page/Analytics/Analytics.jsx:57-60 | Each bar keeps its name and has a value in 60..199 |
| Analytics.Bars | src/page/Analytics/Analytics.jsx:57-62 | One bar per name, in order, each with a value in 60..199 |
| Analytics.Generate | src/page/Analytics/Analytics.jsx:44-63 | Two or three bars of candidate services, each valued in 60..199 |
| Analytics.GenerateOther | src/page/Analytics/Analytics.jsx:54 | No bar is named "Other" unless the seed keeps it |
| Analytics.ServiceData | src/page/Analytics/Analytics.jsx:44-63 | The month's demo data has 2 or 3 bars of candidate services with values in 60..199 |
| Analytics.ServiceDataOther | src/page/Analytics/Analytics.jsx:46-54 | The month's data shows "Other" only when its seed keeps it |
| Analytics.MonthNumber | src/page/Analytics/Analytics.jsx:125 | A month name gives its number 1..12; anything else gives 0 |
| Analytics.IndexOf | src/page/Analytics/Analytics.jsx:134 | `indexOf` finds the first occurrence, or -1 |
| Analytics.MonthsDistinct | src/page/Analytics/Analytics.jsx:17-30 | The twelve month names are distinct |
| Analytics.MonthNumberRoundTrip | src/page/Analytics/Analytics.jsx:17-34 | The i-th month name gives back the number i+1 |
| Analytics.DefaultMonth | src/page/Analytics/Analytics.jsx:34 | The default month is a month name whose number is the clock's month plus one |
| Analytics.YearOptions | src/page/Analytics/Analytics.jsx:36-41 | Four consecutive years with the current year third |
| Analytics.BookingTrendsFormatted | src/page/Analytics/Analytics.jsx:143-151 | One point per trend with its month, its bookings as confirmed, and 0 cancelled; none while loading |
| Analytics.ChartWidth | src/page/Analytics/Analytics.jsx:153-154 | The width is at least 300 and at least 120 per service, and is one of the two |
| Analytics.ServiceChartWidth | src/page/Analytics/Analytics.jsx:133-154 | The demo chart is always 300 or 360 pixels wide |
| Pagination.Previous | src/component/Main/Users/UserTable.jsx:54-58 | Previous moves back one page above page 1 and never below it |
| Pagination.Next | src/component/Main/Users/UserTable.jsx:60-64 | Next advances exactly when the page came back full |
| Pagination.GoTo | src/component/Main/Users/UserTable.jsx:39-41 | A page button goes to its page |
| Pagination.PreviousEnabledIff | src/component/Main/Users/UserTable.jsx:54-58 | The previous button is enabled exactly when pressing it moves |
| Pagination.NextEnabledDoesNotAgree | src/component/Main/Users/UserTable.jsx:215 | The next button's enabled state and its effect disagree: disabled but would move on the last full page; enabled but stuck on a short page |
| Pagination.RunStaysPositive | src/component/Main/Users/UserTable.jsx:39-64 | Starting from page 1 or above, no sequence of previous, next and page clicks takes the table below page 1 |
| Pagination.RenderPageButtons | src/component/Main/Users/UserTable.jsx:66-84 | One button per page, numbered 1..totalPages, and the current one marked; none when the count is missing |
| Pagination.ButtonClickInRange | src/component/Main/Users/UserTable.jsx:66-74 | Every page button leads to a page in range |
| Pagination.UserTableQuery | src/component/Main/Users/UserTable.jsx:28-35 | The users table asks for its page, 8 rows and the search text |
| States.InitialActive | src/page/States/States.jsx:29-35 | The active list holds exactly the ids of the active states, in server order |
| States.InitialActiveNoDup | src/page/States/States.jsx:32 | With distinct ids the active list has no duplicates |
| States.Toggle | src/page/States/States.jsx:19-23 | A present id is removed; an absent one is appended |
| States.ToggleMembership | src/page/States/States.jsx:19-23 | After a toggle the id is present exactly when it was absent, and every other id is unchanged |
| States.ToggleTwice | src/page/States/States.jsx:19-23 | Toggling twice restores membership |
| States.ToggleNoDup | src/page/States/States.jsx:19-23 | Toggling keeps the list free of duplicates |
| States.TogglePayload | src/page/States/States.jsx:17-18 | The request names the state and its opposite activity |
| States.NameLeTotal | src/page/States/States.jsx:38 | The name order used for sorting is total |
| States.Insert | src/page/States/States.jsx:37-39 | Inserting into a sorted list keeps it sorted and adds exactly that state |
| States.SortByName | src/page/States/States.jsx:37-39 | The sorted copy is sorted by name and a permutation of the list |
| States.SortedStatesAsWritten | src/page/States/States.jsx:37-39 | As written, the sort throws while the list is loading, and otherwise gives a sorted permutation |
| States.SortedStatesAsWrittenFailsWhileLoading | src/page/States/States.jsx:10-11 | Before the query answers, the spread of `undefined` throws |
| States.SortedStates | src/page/States/States.jsx:37-39 | Corrected: a sorted permutation of the list, and empty while loading |
| States.SortedStatesAgrees | src/page/States/States.jsx:37-39 | Once the list has arrived, the corrected sort agrees with the code as written |
| States.Buttons | src/page/States/States.jsx:64-66 | One button per state in sorted order, shown active exactly when its id is in the active list |
| Upcoming.InitialCard | src/component/Main/Dashboard/UpCommingBookings.jsx:7-40 | The card starts with three bookings, ids 1 to 3, and no pending delete |
| Upcoming.Without | src/component/Main/Dashboard/UpCommingBookings.jsx:55 | Filtering drops exactly the bookings with the pending id, and nothing when none is pending; the rest keep their count and order |
| Upcoming.WithoutCons | src/component/Main/Dashboard/UpCommingBookings.jsx:55 | The filter decides the first booking by the id test and filters the rest |
| Upcoming.WithoutThree | src/component/Main/Dashboard/UpCommingBookings.jsx:55 | A three-row list keeps one row for each row that passes the id test |
| Upcoming.WithoutIdempotent | src/component/Main/Dashboard/UpCommingBookings.jsx:55 | Removing the same id twice removes nothing more |
| Upcoming.HandleDelete | src/component/Main/Dashboard/UpCommingBookings.jsx:50-52 | Asking to delete records the id and keeps the bookings |
| Upcoming.ConfirmDelete | src/component/Main/Dashboard/UpCommingBookings.jsx:54-57 | Confirming leaves the bookings without the pending id, in their order, and clears it |
| Upcoming.CancelDelete | src/component/Main/Dashboard/UpCommingBookings.jsx:162 | Cancelling clears the pending id and keeps the bookings |
| Upcoming.DeleteThenConfirm | src/component/Main/Dashboard/UpCommingBookings.jsx:50-57 | Delete then confirm removes exactly that booking and closes the dialog |
| Upcoming.DeleteThenCancel | src/component/Main/Dashboard/UpCommingBookings.jsx:50-52 | Delete then cancel keeps every booking and closes the dialog |
| Upcoming.DialogOpensIff | src/component/Main/Dashboard/UpCommingBookings.jsx:156 | The dialog opens exactly when the id is truthy, so an id of 0 never opens it |
| Upcoming.InitialRowsDeletable | src/component/Main/Dashboard/UpCommingBookings.jsx:7-57 | Each initial row opens the dialog, and confirming leaves two rows |
| Users.ServiceText | src/component/Main/Users/Users.jsx:75-79 | A service without sub-services shows its name; otherwise its printed name, " (", the sub-service names joined with " + ", and ")" |
| Users.SubServiceNames | src/component/Main/Users/Users.jsx:77 | One name per sub-service, in order, a missing name being empty |
| Users.ServiceTextOneSub | src/component/Main/Users/Users.jsx:75-79 | A service with one named sub-service prints as "name (sub)" |
| Users.ServiceTexts | src/component/Main/Users/Users.jsx:75-79 | One text per selected service, in order |
| Users.GenerateServiceString | src/component/Main/Users/Users.jsx:73-80 | No services give ""; one service gives its text |
| Users.GenerateServiceStringSnoc | src/component/Main/Users/Users.jsx:80 | Adding a service appends " + " and its text |
| Users.WorkersWithout | src/component/Main/Users/Users.jsx:91 | Exactly the workers with another id stay, as often as they occur and in order |
| Users.CustomersWithout | src/component/Main/Users/Users.jsx:93 | Exactly the customers with another id stay, as often as they occur and in order |
| Users.DeleteClick | src/component/Main/Users/Users.jsx:83-86 | The clicked row and the current tab are remembered, and the dialog opens |
| Users.ConfirmDelete | src/component/Main/Users/Users.jsx:88-97 | With no target nothing happens; otherwise the target's list becomes that list filtered by the target's id (in order), the other list is kept, and the dialog closes |
| Users.ConfirmDeleteIdempotent | src/component/Main/Users/Users.jsx:88-97 | Confirming twice is confirming once |
| Users.CancelDelete | src/component/Main/Users/Users.jsx:99 | Cancelling closes the dialog but keeps the target |
| Users.SaveWorker | src/component/Main/Users/Users.jsx:103-107 | Saving appends the worker with the clock's id and status "active", and closes the create dialog |
| Users.WorkerRow | src/component/Main/Users/Users.jsx:112-123 | A worker row prints the first and last name, keeps a non-empty worker id and status and falls back to "N/A" and "active" otherwise, and prints the location and services |
| Users.CustomerRow | src/component/Main/Users/Users.jsx:125-133 | A customer row shows the name and location as given (empty when missing), has no worker id or services, and keeps a non-empty status or falls back to "active" |
| Users.TableData | src/component/Main/Users/Users.jsx:110-133 | The worker tab shows one row per worker; any other tab shows one row per customer |
| Users.SavedWorkerRow | src/component/Main/Users/Users.jsx:103-123 | A saved worker shows as a new last row with the clock's id and "active" |
| Passwords.CheckNewPassword | src/page/CreateManager/CreateManager.jsx:55-65 | Accepted exactly when the two match and have at least 6 characters; a mismatch is reported before length |
| Passwords.MismatchReportedFirst | src/component/ui/Modals/CreateWorkerModal.jsx:90-98 | A short mismatched pair reports the mismatch |
| Passwords.CheckOptionalPassword | src/component/ui/Modals/UpdateWorkerModal.jsx:124-135 | Two empty fields pass; otherwise the full rule applies |
| Passwords.OptionalAcceptedIff | src/component/ui/Modals/UpdateWorkerModal.jsx:124-135 | The edit check passes exactly when both are empty or the full rule passes |
| Passwords.CheckChangePassword | src/component/Main/PersonalInformation/ChangePassword.jsx:33-37 | The change-password check passes exactly when the new password matches its confirmation |
| Passwords.ChangePasswordHasNoLengthRule | src/component/Main/PersonalInformation/ChangePassword.jsx:33-37 | A one-character password passes the change form but not the creation forms |
| Passwords.ErrorAfterEdit | src/page/CreateManager/CreateManager.jsx:35-38 | Typing in a password field clears the error; other fields keep it |
| ServiceForms.ParseFloat | src/component/ui/Modals/AddServiceModal.jsx:18 | The price is a number exactly when the text starts with an optionally signed digit run, and is then that run's integer value; otherwise NaN |
| ServiceForms.ParseFloatIntToString | src/component/ui/Modals/AddServiceModal.jsx:18 | A printed integer typed into a price field reads back as that integer |
| ServiceForms.EmptyForm | src/component/ui/Modals/AddServiceModal.jsx:7-11 | The form starts with no name, price 0 and no add-ons |
| ServiceForms.EditMain | src/component/ui/Modals/AddServiceModal.jsx:15-21 | The price input stores the parsed number; the name input stores the text; add-ons are unchanged |
| ServiceForms.AddAddOn | src/component/ui/Modals/AddServiceModal.jsx:24-33 | Below four add-ons a blank one with a null price is appended; at four nothing changes |
| ServiceForms.SetAddOnField | src/component/ui/Modals/AddServiceModal.jsx:39-42 | Only the edited add-on's named field changes |
| ServiceForms.EditAddOn | src/component/ui/Modals/AddServiceModal.jsx:36-45 | The edited add-on gets the text or the parsed price and keeps its other field; every other row is unchanged |
| ServiceForms.RemoveRow | src/component/ui/Modals/AddServiceModal.jsx:48-52 | `splice(i, 1)` drops row i, and does nothing past the end |
| ServiceForms.RemoveAtSubseq | src/component/ui/Modals/UpdateServiceModal.jsx:65 | Removing a row keeps the others in order |
| ServiceForms.RemoveAddOn | src/component/ui/Modals/AddServiceModal.jsx:48-52 | Removing changes only the add-on list |
| ServiceForms.AddThenRemove | src/component/ui/Modals/AddServiceModal.jsx:24-52 | Adding a row and removing it gives the form back |
| ServiceForms.AddOnCapHolds | src/component/ui/Modals/AddServiceModal.jsx:25 | No sequence of edits takes the create form past four add-ons |
| ServiceForms.SubmittedAddOnsAsWritten | src/component/ui/Modals/AddServiceModal.jsx:61-63 | As written, an add-on is sent when it has a name and `isNaN` of its price is false, which a null price passes; kept rows keep their count and order |
| ServiceForms.UnicodeSpaceNameDropped | src/component/ui/Modals/AddServiceModal.jsx:61-63 | An add-on whose name is only Unicode white space (U+3000, U+2028) is not sent, whatever its price |
| ServiceForms.NullPriceIsSubmitted | src/component/ui/Modals/AddServiceModal.jsx:30-63 | A named add-on whose price was never typed is sent with a null price |
| ServiceForms.UpdateTestIsKeepAddOn | src/component/ui/Modals/UpdateServiceModal.jsx:77-82 | The update dialog's test is the corrected keep rule |
| ServiceForms.SubmittedAddOns | src/component/ui/Modals/UpdateServiceModal.jsx:77-82 | Corrected: exactly the add-ons with a name and a numeric price are sent, each as often as it occurs, in order |
| ServiceForms.SubmittedAddOnsAllKept | src/component/ui/Modals/UpdateServiceModal.jsx:77-82 | A list of valid add-ons is sent whole |
| ServiceForms.SubmittedAddOnsHaveNumericPrices | src/component/ui/Modals/AddServiceModal.jsx:61-63 | Every add-on sent has a numeric price, and the written and corrected tests differ exactly on named add-ons with a null price |
| ServiceForms.SubmittedAddOnsIdempotent | src/component/ui/Modals/UpdateServiceModal.jsx:77-82 | Filtering twice is filtering once |
| ServiceForms.HandleCreate | src/component/ui/Modals/AddServiceModal.jsx:55-78 | As written: nothing is sent when the name is empty or the price is NaN; otherwise the service is sent with exactly the written filter's list: the add-ons that have a name and a price for which `isNaN` is false (a null price included), in count and order, and the form resets whether or not the request succeeds |
| ServiceForms.HandleCreateCorrected | src/component/ui/Modals/AddServiceModal.jsx:55-78 | Corrected: the same, but only add-ons with a name and a numeric price are sent |
| ServiceForms.KeepTestsAgree | src/component/ui/Modals/AddServiceModal.jsx:61-63 | The written and corrected add-on tests agree on every add-on except a named one with a null price, which only the written test keeps |
| ServiceForms.FiltersAgree | src/component/ui/Modals/AddServiceModal.jsx:61-63 | Without a named null-price add-on, the written and corrected filters give the same list |
| ServiceForms.FiltersAgreeIff | src/component/ui/Modals/AddServiceModal.jsx:61-63 | The written and corrected filters agree exactly when no add-on is named with a null price |
| ServiceForms.HandleCreateCorrectionIff | src/component/ui/Modals/AddServiceModal.jsx:55-78 | The written and corrected submit agree exactly when nothing is sent or no add-on is named with a null price; an add-on is sent only as written exactly when it is such an add-on |
| ServiceForms.LoadForm | src/component/ui/Modals/UpdateServiceModal.jsx:17-25 | A loaded service fills the form with its name or "", its price or 0, and its add-ons or none |
| ServiceForms.LoadedPriceIsNumber | src/component/ui/Modals/UpdateServiceModal.jsx:21 | A loaded price is always a number |
| ServiceForms.EditUpdateMain | src/component/ui/Modals/UpdateServiceModal.jsx:28-31 | The update dialog stores the typed text for either field |
| ServiceForms.ParsePriceOrZero | src/component/ui/Modals/UpdateServiceModal.jsx:43 | `parseFloat(value) \|\| 0` is the number typed, or 0 |
| ServiceForms.EditUpdateAddOn | src/component/ui/Modals/UpdateServiceModal.jsx:34-48 | The edited add-on gets the text or a numeric price; every other row is unchanged |
| ServiceForms.AddUpdateAddOn | src/component/ui/Modals/UpdateServiceModal.jsx:51-59 | A blank add-on priced 0 is appended |
| ServiceForms.UpdateDialogHasNoCap | src/component/ui/Modals/UpdateServiceModal.jsx:51-59 | The update dialog grows past four add-ons where the create dialog stops |
| ServiceForms.RemoveUpdateAddOn | src/component/ui/Modals/UpdateServiceModal.jsx:62-67 | Removing changes only the add-on list |
| ServiceForms.SubmitPrice | src/component/ui/Modals/UpdateServiceModal.jsx:76 | A loaded number is sent as it is; typed text is parsed |
| ServiceForms.UpdateSubmit | src/component/ui/Modals/UpdateServiceModal.jsx:70-84 | The request has the service's id, the trimmed name, the parsed price, and exactly the corrected filter's list of valid add-ons |
| ServiceForms.LoadThenSubmit | src/component/ui/Modals/UpdateServiceModal.jsx:17-84 | Submitting an untouched, valid service sends it back unchanged |
| WorkerForms.BlankObject | src/component/ui/Modals/CreateWorkerModal.jsx:22-35 | The form has the given fields in order, all "" |
| WorkerForms.EmptyCreateDialog | src/component/ui/Modals/CreateWorkerModal.jsx:15-41 | The create dialog starts with the twelve fields, nothing selected, no image and no error |
| WorkerForms.HandleChange | src/component/ui/Modals/CreateWorkerModal.jsx:44-52 | The typed field is stored, every other field is kept, and a password edit clears the error |
| WorkerForms.HandleChangeKeepsFields | src/component/ui/Modals/CreateWorkerModal.jsx:212 | Typing into an existing field keeps the field list and its order |
| WorkerForms.HandleImage | src/component/ui/Modals/CreateWorkerModal.jsx:54-61 | A picked file is kept; no file changes nothing |
| WorkerForms.SelectMainService | src/component/ui/Modals/CreateWorkerModal.jsx:63-68 | A service already chosen is ignored; a new one is appended |
| WorkerForms.SelectKeepsNoDup | src/component/ui/Modals/CreateWorkerModal.jsx:63-68 | Choosing keeps the list free of duplicates |
| WorkerForms.SelectSubService | src/component/ui/Modals/CreateWorkerModal.jsx:70-76 | The service's sub-service list is replaced and nothing else changes |
| WorkerForms.DeleteService | src/component/ui/Modals/CreateWorkerModal.jsx:78-84 | Removing a service drops it and its sub-services and keeps everything else |
| WorkerForms.SelectThenDelete | src/component/ui/Modals/CreateWorkerModal.jsx:63-84 | Choosing a new service and removing it gives back the list |
| WorkerForms.FindService | src/component/ui/Modals/CreateWorkerModal.jsx:115 | `find` gives a catalogue service with that name, and nothing exactly when none has it |
| WorkerForms.FindSub | src/component/ui/Modals/CreateWorkerModal.jsx:121-123 | `find` gives a sub-service with that name, and nothing exactly when none has it |
| WorkerForms.SubIds | src/component/ui/Modals/CreateWorkerModal.jsx:120-125 | Mapping names to ids throws exactly when a name is unknown, and otherwise gives each name's id |
| WorkerForms.EntryFor | src/component/ui/Modals/CreateWorkerModal.jsx:114-127 | A chosen service throws while the catalogue is loading, when it is unknown or has no add-on list; otherwise the entry carries its id, with no sub-services when the list is empty, and else succeeds exactly when every chosen add-on is found, carrying their ids in order |
| WorkerForms.ServicesArray | src/component/ui/Modals/CreateWorkerModal.jsx:114-128 | The array throws exactly when an entry throws, and otherwise has one entry per chosen service in order |
| WorkerForms.NoServicesChosen | src/component/ui/Modals/CreateWorkerModal.jsx:114 | With no service chosen the array is empty, even while the catalogue loads |
| WorkerForms.SubmitCreate | src/component/ui/Modals/CreateWorkerModal.jsx:86-163 | A failed password rule sets the error and sends nothing; otherwise the request sends every field, the image and the services array and closes the dialog, which is reset only on success |
| WorkerForms.RequestCarriesAllFields | src/component/ui/Modals/CreateWorkerModal.jsx:103-106 | The request carries all twelve fields, the confirmation included |
| WorkerForms.CopyFields | src/component/ui/Modals/UpdateWorkerModal.jsx:39-50 | Each profile field is copied from the worker, or "" |
| WorkerForms.FilledForm | src/component/ui/Modals/UpdateWorkerModal.jsx:39-52 | The edit form is the copied fields followed by two blank password fields |
| WorkerForms.Populate | src/component/ui/Modals/UpdateWorkerModal.jsx:37-66 | Opening with a worker fills the form and clears the image and the errors; otherwise nothing changes |
| WorkerForms.HandleEditImage | src/component/ui/Modals/UpdateWorkerModal.jsx:79-119 | A file that is not JPG, PNG or GIF, or that exceeds 5 MB, is refused with its error; otherwise it is taken |
| WorkerForms.SizeLimitBoundary | src/component/ui/Modals/UpdateWorkerModal.jsx:101-105 | Exactly 5 MB is accepted, and one byte more is refused |
| WorkerForms.EditFields | src/component/ui/Modals/UpdateWorkerModal.jsx:140-149 | Every field is sent except an empty password or confirmation, in order |
| WorkerForms.SubmitEdit | src/component/ui/Modals/UpdateWorkerModal.jsx:121-167 | A failed optional password rule sets the error and sends nothing; otherwise the fields and the image are sent, and the dialog closes only on success |
| WorkerForms.BlankPasswordsOmitted | src/component/ui/Modals/UpdateWorkerModal.jsx:142-145 | Blank password fields never reach the request |
| WorkerForms.FilledFormOmitsPasswords | src/component/ui/Modals/UpdateWorkerModal.jsx:39-52 | A freshly filled form sends no password field |
| WorkerForms.FilledFormPasswordsBlank | src/component/ui/Modals/UpdateWorkerModal.jsx:50-51 | A freshly filled form has both password fields blank |
| WorkerForms.UntouchedPasswordsAreOmitted | src/component/ui/Modals/UpdateWorkerModal.jsx:37-155 | Opening a worker and saving at once sends a request without any password field |
| WorkerForms.ProfileFieldsAreNotPasswords | src/component/ui/Modals/UpdateWorkerModal.jsx:40-49 | None of the copied fields is a password field |
| AccountForms.EmptyManagerForm | src/page/CreateManager/CreateManager.jsx:10-23 | The manager form starts with its twelve fields, no photo and no error |
| AccountForms.ManagerChange | src/page/CreateManager/CreateManager.jsx:31-39 | The typed field is stored, every other one kept, and only the password inputs clear the error |
| AccountForms.ManagerFile | src/page/CreateManager/CreateManager.jsx:43-50 | A picked file becomes the photo; no file changes nothing |
| AccountForms.PickFields | src/page/CreateManager/CreateManager.jsx:71-80 | The request lists exactly the given fields in order, a missing one as "undefined" |
| AccountForms.ManagerSubmit | src/page/CreateManager/CreateManager.jsx:52-88 | A failed password rule sets its message and sends nothing; otherwise the ten fields and the photo are sent and the form is left as it is |
| AccountForms.ManagerRequestFields | src/page/CreateManager/CreateManager.jsx:70-80 | The request names exactly ten fields, never the confirmation, and carries the typed password |
| AccountForms.EmptyPasswordForm | src/component/Main/PersonalInformation/ChangePassword.jsx:9-13 | The change-password form starts with its three fields |
| AccountForms.ToggleVisibility | src/component/Main/PersonalInformation/ChangePassword.jsx:25-27 | Exactly that field's visibility flips |
| AccountForms.ToggleVisibilityTwice | src/component/Main/PersonalInformation/ChangePassword.jsx:25-27 | Toggling twice shows the field as before |
| AccountForms.PasswordChange | src/component/Main/PersonalInformation/ChangePassword.jsx:21-23 | The typed field is stored and every other one kept |
| AccountForms.PasswordSubmit | src/component/Main/PersonalInformation/ChangePassword.jsx:29-59 | A mismatch sends nothing; otherwise every field except the confirmation is sent, and the form clears only on a response with data |
| AccountForms.PasswordSubmitIsChangeRule | src/component/Main/PersonalInformation/ChangePassword.jsx:33-37 | The submit sends exactly when the change-password rule accepts |
| JsText.Show | src/redux/features/dashboard/dashboardApi.js:15 | A template literal prints a present text as itself and a missing one as "undefined" |
| JsText.Join | src/page/Bookings/BookingsPage.jsx:50 | `join` of nothing is "", of one part is that part, and otherwise starts with the first part |
| JsText.Split | src/page/Bookings/BookingsPage.jsx:27 | `split(c)` gives at least one piece, and no piece contains `c` |
| JsText.SplitAbsent | src/page/Bookings/BookingsPage.jsx:27 | A text without the separator splits into itself alone |
| JsText.BeforeFirst | src/page/Bookings/BookingsPage.jsx:27 | `split(c)[0]` is the longest prefix without `c`, followed by `c` when it is not the whole text |
| JsText.LowerChar | src/component/Main/Notification/Notification.jsx:29 | Lower-casing maps A-Z to a-z and keeps every other character |
| JsText.TrimStart | src/component/ui/Modals/UpdateServiceModal.jsx:75 | Trimming the start drops exactly the leading white space |
| JsText.TrimEnd | src/component/ui/Modals/UpdateServiceModal.jsx:75 | Trimming the end drops exactly the trailing white space |
| JsText.IntToString | src/page/Bookings/BookingsPage.jsx:34-36 | An integer prints as its digits, after a minus sign when negative |
| JsText.DigitsValueNatToString | src/page/Bookings/BookingsPage.jsx:31 | The printed digits of a natural number read back as that number |
| JsText.OrElse | src/component/Main/Users/Users.jsx:115 | `s \|\| fallback` is the text when it is non-empty and the fallback otherwise |
| JsText.JoinSnoc | src/page/Bookings/BookingsPage.jsx:47-50 | `join` of one more part appends the separator and that part |
| JsText.JoinSplit | src/page/Bookings/BookingsPage.jsx:27-30 | Joining the pieces of `split(c)` with `c` gives the text back |
| JsText.SplitAround | src/page/Bookings/BookingsPage.jsx:30 | Splitting at the first separator gives the part before it and the split of the rest |
| JsText.ToLower | src/component/Main/Notification/Notification.jsx:29 | Lower-casing maps each letter A-Z to a-z and keeps the length |
| JsText.ToLowerIdempotent | src/component/Main/Notification/Notification.jsx:29 | Lower-casing twice is lower-casing once |
| JsText.TrimSpec | src/component/ui/Modals/UpdateServiceModal.jsx:75-79 | The trimmed text is empty exactly when the text is all white space, and otherwise a piece of it with no white space at either end |
| JsText.ParseInt | src/page/Bookings/BookingsPage.jsx:31 | A text starting with a digit parses to a non-negative number |
| JsText.ParseIntIntToString | src/page/Bookings/BookingsPage.jsx:31 | `parseInt` reads back every printed integer |
| JsText.ParseIntDigitsThenOther | src/page/Bookings/BookingsPage.jsx:30-31 | `parseInt` reads only the leading digits of a text |
| JsNum.Rem | src/page/Analytics/Analytics.jsx:89 | `%` truncates: the remainder has the dividend's sign and its size is the size's remainder |
| JsNum.CeilDiv | src/component/Main/Dashboard/Barchart.jsx:22 | `Math.ceil(a / d)` is the least integer r with a at most d times r |
| JsObject.Keys | src/component/ui/Modals/UpdateWorkerModal.jsx:141 | `Object.keys` lists the keys in insertion order, which is JavaScript's order for the non-numeric keys the program uses (integer-like keys, which it never uses, would come first) |
| JsObject.GetText | src/redux/features/service/service.js:18-19 | Printing a property gives its text, or "undefined" when it is absent |
| JsObject.Get | src/page/ManagerManagement/AccessibilityList.jsx:94 | A property is present exactly when its key is, and then it is the stored value |
| JsObject.Set | src/page/ManagerManagement/AccessibilityList.jsx:104-106 | Spreading with one key replaced gives that key the value and keeps every other key |
| JsObject.SetKeys | src/component/ui/Modals/CreateWorkerModal.jsx:44-46 | Setting an existing key keeps the key order; a new key goes last |
| JsObject.Delete | src/component/Main/PersonalInformation/ChangePassword.jsx:40 | Removing a key by rest destructuring drops exactly that key |
| JsObject.SetWf | src/component/ui/Modals/CreateWorkerModal.jsx:44-46 | Setting a key keeps the keys distinct |
| JsObject.SetSameValue | src/page/ManagerManagement/AccessibilityList.jsx:104-106 | Setting a key to the value it already holds gives the same object |
| JsObject.SetUnchangedIff | src/page/ManagerManagement/AccessibilityList.jsx:127-136 | Setting a key leaves the object unchanged exactly when the key already holds that value |
| Seqs.Filter | src/component/Main/Sidebar/Sidebar.jsx:126-128 | `filter` keeps exactly the elements that satisfy the test, each as often as it occurs, in order |
| Seqs.FilterAppend | src/component/ui/Modals/AddServiceModal.jsx:61-63 | Filtering distributes over concatenation |
| Seqs.FilterIdempotent | src/component/ui/Modals/UpdateServiceModal.jsx:77-82 | Filtering twice is filtering once |
| Seqs.RemoveAll | src/page/States/States.jsx:21 | Filtering out one value drops exactly its occurrences and keeps every other value as often as it occurs, in order; the worker dialog uses it to unselect a service (CreateWorkerModal.jsx:79) |
| Seqs.RemoveAllAppend | src/component/ui/Modals/CreateWorkerModal.jsx:63-79 | Filtering a value out of the list it was just appended to gives the list back |
| Seqs.RemoveAt | src/component/ui/Modals/UpdateServiceModal.jsx:65 | Removing index i keeps the elements before it and shifts the rest down |
| Seqs.SubseqNoDup | src/page/States/States.jsx:21 | Leaving out elements keeps a list free of duplicates |
| Seqs.SubseqElements | src/component/Main/Sidebar/Sidebar.jsx:126-128 | Every element of a filtered list is in the original |
| Seqs.FilterDropsOnly | src/component/Main/Dashboard/UpCommingBookings.jsx:55 | When only copies of one value fail the test, filtering loses at most those copies |

## Left out

- The cache itself: request de-duplication, refetch on subscribe, polling and loading flags. The model keeps only which mutation refreshes which query. The tag list file `src/redux/tagTypes.js` is not part of this model; the tags are named as the feature files use them.
- The generated hooks and their export lists are not modelled. Four component imports name hooks that the feature file does not export: the notification hooks from `booking.js`, and `useUpdateWorkerMutation` (UpdateWorkerModal.jsx:8), `useGetServicePopularityQuery` (Barchart.jsx:11) and `useGetWorkerPopularityQuery` (Analytics.jsx:15, called at line 124) from `worker.js`, whose export list (worker.js:32-36) names only the three worker hooks. The model takes the data those hooks would give as a parameter. The analytics page reads the worker-popularity result into a variable (Analytics.jsx:129) and never uses it, so that result is not modelled at all.
- HTML constraint validation is not modelled: the `required` and `type="email"` attributes of ChangePassword.jsx:75,101,129, CreateManager.jsx:111-280, CreateWorkerModal.jsx:244, UpdateWorkerModal.jsx:267 and UpdateServiceModal.jsx:121,136 make the browser refuse to submit an empty or malformed field. The submit functions model `handleSubmit` once the browser has let the submit through, so they also accept inputs the browser would have stopped.
- `baseUrl` and `reducerPath`: constants that only the network layer uses.
- Rendering, styling, toasts, console output, navigation and image previews (`URL.createObjectURL`, the upload-photo URL).
- `await` and RTK's `unwrap`: each request outcome is a parameter (a response with data or an error). Where the source calls `.unwrap()`, a failed request rejects and reaches the `catch` block; without it, the request resolves with `{ error }` and the code after it runs. The access toggle is the one place where the source relies on a rejection it never gets (see Findings).
- Browser storage that throws is `None`. The unused `getUserFromStorage` and the commented-out user storage are left out.
- Floating point: prices and `parseFloat` are modelled on integers, so a decimal point ends the number. The analytics worker data and the booking-trend demo curves use `Math.sin`, `Math.cos`, `Math.round` and fractional factors, and are left out. `Math.ceil(max * 1.3)` is exact integer arithmetic here.
- Dates: `toLocaleDateString` and `toLocaleTimeString` on the notifications and transactions pages, and the clock, which is a parameter (`Date.now()`, the current month and year).
- States.NameLe: `localeCompare` is replaced by code-point order, because the locale's collation is not available. Sortedness is proved for that order.
- Strings are sequences of characters. There is no UTF-16 surrogate handling, and `toLowerCase` lower-cases only A-Z.
- Form fields are modelled as text. A file picked into a form is a record with its name, type and size.
- Bookings.FormatServices: the contract states the empty, single and first-item cases. Bookings.FormatServicesSnoc states the rest, item by item.
- Users.GenerateServiceString: the contract states the empty and single cases. Users.GenerateServiceStringSnoc states the rest. A missing list is `undefined` and takes the `= []` default; a `null` list, on which `.map` would throw, is not distinguished from it.
- States.SortByName: the contract states sortedness and permutation but not stability. The insertion places a state before the first one whose name it does not exceed, so states with equal names keep their input order, as the stable `Array.prototype.sort` does; that is not proved.
- ServiceForms.ParseFloat: only the integer part of a price is read. A decimal point ends the number, so ".5" is NaN (JavaScript gives 0.5), "1e3" is 1 (JavaScript gives 1000) and "Infinity" is NaN (JavaScript gives Infinity).
- Access.UpdateFlag: every manager row carries an `_id`. A row without one compares `undefined === managerId`, and that case is not modelled.
- Session.AdminRoute: the contract states only where a redirect goes. Session.AdminRouteIff states when the guard renders.
- Endpoints: the request body is recorded by where it comes from (none, the whole argument, or its `data` field), not by its contents.

## Findings

| source | as written | input that shows it | evidently intended | confidence | as-written member | corrected member |
|---|---|---|---|---|---|---|
| src/page/States/States.jsx:37-39 | `[...states]?.sort(...)` spreads the query's data before the loading check | the first render, while `data` is still `undefined`: spreading `undefined` throws, so the page never reaches its skeleton | sort `states ?? []`, giving an empty list while loading | high (not executed) | States.SortedStatesAsWritten, States.SortedStatesAsWrittenFailsWhileLoading | States.SortedStates, States.SortedStatesAgrees |
| src/page/ManagerManagement/AccessibilityList.jsx:117-139 | the toggle request is called without `.unwrap()` and the rollback sits in `.catch` | a toggle the server refuses: the request's promise resolves with `{ error }`, `.then` runs, and the manager keeps showing the refused value | unwrap the request (as AddServiceModal.jsx:66 does) so that a failure reaches the rollback | medium (not executed) | Access.HandleToggleAsWritten, Access.FailedToggleKeepsOptimistic | Access.HandleToggle, Access.Rollback |
| src/component/ui/Modals/AddServiceModal.jsx:61-63 | add-ons are kept when `!isNaN(s.subcategoryPrice)` | an add-on named "Gel" whose price was never typed keeps its initial `null` price; `isNaN(null)` is false, so it is sent with a null price | also require a non-null price, as the update dialog does (UpdateServiceModal.jsx:79-81) | medium (not executed) | ServiceForms.SubmittedAddOnsAsWritten, ServiceForms.NullPriceIsSubmitted, ServiceForms.HandleCreate | ServiceForms.SubmittedAddOns, ServiceForms.SubmittedAddOnsHaveNumericPrices, ServiceForms.HandleCreateCorrected, ServiceForms.HandleCreateCorrectionIff |
