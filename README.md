# Radius CRM — a Dafny model of its authorisation, storage and list logic

Radius is a student-recruitment CRM for a study-abroad agency. It ships two
near-identical React front ends: `radiusf/` keeps everything in the browser's
`localStorage`, and `client/` talks to a mock Express token server
(`server/routes/auth.js`). A Django back end (`backend/`) holds the same
entities behind role-scoped REST views.

This project models the logic of those parts that decides something:

- the role → permission and route → roles tables, and the one-cell login
  session of each front end (`RadiusfAuth`, `ClientAuth`);
- the `localStorage` entity tables: a class over a key → value map, with
  add (clock-stamped), first-match update, delete-every-match and find
  (`LocalStorage`);
- the mock token server's table of active tokens, with login, 24-hour
  expiry on verify, and logout (`TokenServer`);
- the route guards and redirects of both `App.jsx` files (`RadiusfApp`,
  `ClientApp`, over the page outcomes of `Routing`) and the side menus of
  both layouts (`RadiusfLayout`, `ClientLayout`);
- the list pages of the local front end — role scoping, case-insensitive
  search, status and country filters, status counts, distinct values,
  per-key tallies, top-five lists, and the success rate
  (`RadiusfStudents`, `RadiusfApplications`, `RadiusfUniversities`,
  `RadiusfEmployees`, `RadiusfDashboard`, `RadiusfReports`, over the
  record views of `Entities`);
- the students page and the three-step add-student dialog of the
  server-backed front end (`ClientStudents`, `AddStudentModal`);
- the Django views' scoping rules, the replies of login, token
  verification (`verify_token` only echoes the requesting user with
  "Token valid") and logout, and the user model's `full_name`
  (`BackendAccounts`, `BackendStudents`).

JavaScript values are modelled in `JsValues`: a record is a map from property
name to `Field` (undefined, null, boolean, integer or string), a missing
property reads as `Undefined`, object spread `{...a, ...b}` is the
right-biased map union `a + b`, and truthiness, template-literal string
conversion, ASCII `toLowerCase` and `includes` are written out. `Seqs` holds
the array operations the pages use (`filter`, `findIndex`, `[...new Set()]`,
a descending insertion sort standing for `sort`, `slice`). The clock is a parameter: `millis` for
`Date.now()` and `iso` for `toISOString()`. Timestamps compared by the
dashboard are integer milliseconds.

Where a page reassigns a local list step by step (`let filtered = …; if (…)
filtered = filtered.filter(…)`), the model is a method that does the same,
proved equal to one filter by a reference predicate. Where the source
mutates state (the storage map, the token table, the session cell, the
dialog's step), the model is a class whose methods state the whole new
state.

The universities and employees pages load every stored record with no role
scoping; the model's page functions take the loaded lists as they are.

## Model

| member | source | states |
|---|---|---|
| LocalStorage.ListAt | radiusf/src/utils/localStorage.js:15-23 | a missing key reads as no value, so a list getter reads it as the empty list |
| LocalStorage.LocalStore.constructor | radiusf/src/utils/localStorage.js:14-54 | a fresh store holds no keys |
| LocalStorage.LocalStore.Get | radiusf/src/utils/localStorage.js:15-23 | reading a key yields its stored value, and nothing exactly when the key is absent |
| LocalStorage.LocalStore.Set | radiusf/src/utils/localStorage.js:25-33 | writing a key replaces that key's value only and reports success |
| LocalStorage.LocalStore.Remove | radiusf/src/utils/localStorage.js:35-43 | removing a key drops that key only and reports success |
| LocalStorage.LocalStore.Clear | radiusf/src/utils/localStorage.js:45-53 | clearing empties the store and reports success |
| LocalStorage.FindIndex | radiusf/src/utils/localStorage.js:67 | the index of the first record whose `id` is strictly equal to the given one, or -1 exactly when none has it |
| LocalStorage.Stamp | radiusf/src/utils/localStorage.js:90-92 | a stamped record's `id` is the clock's millisecond count as a decimal string, `createdAt` equals `updatedAt`, and every other property is kept |
| LocalStorage.UpdateFirstSpec | radiusf/src/utils/localStorage.js:67-70 | an update overlays the patch on the first record with the id only: same length, every other record unchanged |
| LocalStorage.UpdateFirstAbsent | radiusf/src/utils/localStorage.js:68-72 | an update of an id no record has changes nothing |
| LocalStorage.UpdateThenFind | radiusf/src/utils/localStorage.js:96-117 | after an update with a patch that does not touch `id`, finding the id yields the found record overlaid with the patch, or still nothing |
| LocalStorage.RemoveAllSpec | radiusf/src/utils/localStorage.js:109-113 | a delete removes every record with the id, keeps every other one in order, and the id is then not found |
| LocalStorage.RemoveAllAbsent | radiusf/src/utils/localStorage.js:109-113 | deleting an id no record has leaves the list equal |
| LocalStorage.RemoveAllIdempotent | radiusf/src/utils/localStorage.js:109-113 | deleting twice equals deleting once |
| LocalStorage.AppendThenFind | radiusf/src/utils/localStorage.js:88-95 | a record appended under a fresh id is the one found by that id |
| LocalStorage.LocalStore.SetUsers | radiusf/src/utils/localStorage.js:59 | the users key then holds exactly the given list |
| LocalStorage.LocalStore.AddUser | radiusf/src/utils/localStorage.js:60-64 | the user list grows by exactly the new user at the end, earlier users unchanged |
| LocalStorage.LocalStore.UpdateUser | radiusf/src/utils/localStorage.js:65-73 | succeeds exactly when the id is stored; then only the first match is overlaid, with no `updatedAt` refresh; otherwise nothing is written |
| LocalStorage.LocalStore.DeleteUser | radiusf/src/utils/localStorage.js:74-78 | every user with the id is removed |
| LocalStorage.LocalStore.CurrentUser | radiusf/src/utils/localStorage.js:79 | no session is read when the current-user key is absent |
| LocalStorage.LocalStore.SetCurrentUser | radiusf/src/utils/localStorage.js:80 | the session then reads as the given user |
| LocalStorage.LocalStore.ClearCurrentUser | radiusf/src/utils/localStorage.js:81 | the session key is removed and nothing else changes |
| LocalStorage.LocalStore.AddStudent | radiusf/src/utils/localStorage.js:88-95 | the stamped student is appended to the stored students |
| LocalStorage.LocalStore.UpdateStudent | radiusf/src/utils/localStorage.js:96-108 | succeeds exactly when the id is stored; then the first match is overlaid with the patch and a fresh `updatedAt`; otherwise nothing is written |
| LocalStorage.LocalStore.DeleteStudent | radiusf/src/utils/localStorage.js:109-113 | every student with the id is removed, the rest kept in order |
| LocalStorage.LocalStore.StudentById | radiusf/src/utils/localStorage.js:114-117 | the result is the first stored student with the id, and nothing exactly when no stored student has it |
| LocalStorage.LocalStore.AddUniversity | radiusf/src/utils/localStorage.js:124-131 | the stamped university is appended |
| LocalStorage.LocalStore.UpdateUniversity | radiusf/src/utils/localStorage.js:132-144 | first-match overlay with a fresh `updatedAt`, or no write when the id is absent |
| LocalStorage.LocalStore.DeleteUniversity | radiusf/src/utils/localStorage.js:145-149 | every university with the id is removed |
| LocalStorage.LocalStore.AddApplication | radiusf/src/utils/localStorage.js:156-163 | the stamped application is appended |
| LocalStorage.LocalStore.UpdateApplication | radiusf/src/utils/localStorage.js:164-176 | first-match overlay with a fresh `updatedAt`, or no write when the id is absent |
| LocalStorage.LocalStore.DeleteApplication | radiusf/src/utils/localStorage.js:177-181 | every application with the id is removed |
| LocalStorage.LocalStore.AddEmployee | radiusf/src/utils/localStorage.js:188-195 | the stamped employee is appended |
| LocalStorage.LocalStore.UpdateEmployee | radiusf/src/utils/localStorage.js:196-208 | first-match overlay with a fresh `updatedAt`, or no write when the id is absent |
| LocalStorage.LocalStore.DeleteEmployee | radiusf/src/utils/localStorage.js:209-213 | every employee with the id is removed |
| LocalStorage.LocalStore.SetInitialized | radiusf/src/utils/localStorage.js:219 | the store then reads as initialized |
| LocalStorage.LocalStore.Reset | radiusf/src/utils/localStorage.js:220-223 | everything is cleared, so the store reads as not initialized and every list as empty |
| LocalStorage.FreshStoreIsEmpty | radiusf/src/utils/localStorage.js:58-86 | in an empty store every entity list reads as empty |
| RadiusfAuth.PermissionList | radiusf/src/contexts/AuthContext.jsx:131-165 | a permission list exists exactly for the roles admin, counselor and employee |
| RadiusfAuth.NoUserNoAccess | radiusf/src/contexts/AuthContext.jsx:128-129 | without a user every permission and every route is refused |
| RadiusfAuth.PermissionsByRole | radiusf/src/contexts/AuthContext.jsx:131-167 | a permission holds exactly when it is in the fixed list of the user's role; any other role holds none |
| RadiusfAuth.UnknownPermissionRefused | radiusf/src/contexts/AuthContext.jsx:167 | a permission in no list is refused to everyone |
| RadiusfAuth.AdminHasNoBypass | radiusf/src/contexts/AuthContext.jsx:132-148 | the administrator lacks `view_students`, `view_applications` and `view_universities`, which an employee holds |
| RadiusfAuth.RouteRoles | radiusf/src/contexts/AuthContext.jsx:184-191 | a route table entry exists exactly for the six named routes |
| RadiusfAuth.RouteAccessByRole | radiusf/src/contexts/AuthContext.jsx:181-193 | `employees` is admin-only, the other five routes admit the three roles, and an unknown route admits nobody |
| RadiusfAuth.RoleDisplayName | radiusf/src/contexts/AuthContext.jsx:171-178 | the three roles get their display names and any other input comes back unchanged |
| RadiusfAuth.RoleKeyIsString | radiusf/src/contexts/AuthContext.jsx:167 | only a string role can select a permission list |
| RadiusfAuth.FirstLogin | radiusf/src/contexts/AuthContext.jsx:50-52 | the first stored user with equal email, equal password and truthy `isActive`, or -1 exactly when none matches |
| RadiusfAuth.SessionUser | radiusf/src/contexts/AuthContext.jsx:56-66 | the session user carries no password, has the new `lastLogin`, and keeps every other property of the stored user |
| RadiusfAuth.LoginTouchesOnlyFoundUser | radiusf/src/contexts/AuthContext.jsx:62 | with unique ids the login's storage update changes the found user's `lastLogin` only |
| RadiusfAuth.AuthProvider.constructor | radiusf/src/contexts/AuthContext.jsx:15-17 | the provider starts with no user and loading |
| RadiusfAuth.AuthProvider.Initialize | radiusf/src/contexts/AuthContext.jsx:20-39 | a stored session becomes the user, and loading ends |
| RadiusfAuth.AuthProvider.Login | radiusf/src/contexts/AuthContext.jsx:41-87 | on a match: stored `lastLogin` updated on the first user with that id, session stored and set, success with the session user; otherwise the fixed "Invalid email or password" failure with no change; loading ends |
| RadiusfAuth.AuthProvider.Logout | radiusf/src/contexts/AuthContext.jsx:89-101 | the user is cleared, the session key removed, nothing else changes, and success is reported |
| RadiusfAuth.AuthProvider.UpdateProfile | radiusf/src/contexts/AuthContext.jsx:103-125 | without a user: "No user logged in" and no change; otherwise the user becomes user + data + `updatedAt`, the stored user is patched with the data only, and the session is stored |
| RadiusfAuth.LoggedOut | radiusf/src/contexts/AuthContext.jsx:91 | logging out removes the current-user key and keeps every other key |
| RadiusfAuth.LogoutIdempotent | radiusf/src/contexts/AuthContext.jsx:89-93 | logging out twice equals logging out once |
| RadiusfAuth.LoginPicksFirstMatch | radiusf/src/contexts/AuthContext.jsx:47-76 | a login picks a record exactly when it carries the email and password, is active and no earlier record does; it fails exactly when no record does |
| ClientAuth.PermissionsByRole | client/contexts/AuthContext.jsx:70-88 | the administrator holds every permission; a counselor exactly four, an employee exactly three; any other role none |
| ClientAuth.NoUserAndEmployeeLimits | client/contexts/AuthContext.jsx:70-88 | without a user nothing is held, and an employee cannot `edit_students` |
| ClientAuth.FailureMessage | client/contexts/AuthContext.jsx:59 | a failed login reports the server's message when truthy, else "Login failed" |
| ClientAuth.ClientSession.constructor | client/contexts/AuthContext.jsx:14-16 | the session starts with no user and loading |
| ClientAuth.ClientSession.CheckAuthStatus | client/contexts/AuthContext.jsx:20-42 | with a stored token: a verified user is adopted, a failed verification drops the token; without one nothing changes; loading ends |
| ClientAuth.ClientSession.Login | client/contexts/AuthContext.jsx:44-62 | an answered login stores the token, sets the user and the bearer header and succeeds; a rejected one fails with the server's message or "Login failed" and changes nothing |
| ClientAuth.ClientSession.Logout | client/contexts/AuthContext.jsx:64-68 | token, bearer header and user are all cleared |
| TokenServer.FindUser | server/routes/auth.js:45 | the first mock user with equal email and password, or -1 exactly when none matches |
| TokenServer.BearerToken | server/routes/auth.js:82-86 | a token exists exactly when the header starts with "Bearer ", and it is the header without that prefix |
| TokenServer.AuthServer.constructor | server/routes/auth.js:32 | the token table starts empty |
| TokenServer.AuthServer.HandleLogin | server/routes/auth.js:34-76 | the reply and the new token table are those of the login step on the old table |
| TokenServer.AuthServer.HandleVerifyToken | server/routes/auth.js:78-111 | the reply and the new token table are those of the verify step on the old table |
| TokenServer.AuthServer.HandleLogout | server/routes/auth.js:113-127 | the reply and the new token table are those of the logout step on the old table |
| TokenServer.LoginNeedsBothFields | server/routes/auth.js:38-42 | a missing email or password gives 400 and adds no token |
| TokenServer.LoginWrongCredentials | server/routes/auth.js:45-51 | credentials matching no mock user give 401 and add no token |
| TokenServer.WrongPasswordLooksLikeUnknownEmail | server/routes/auth.js:47-51 | a wrong password and an unknown email get the same reply |
| TokenServer.LoginSuccessShape | server/routes/auth.js:53-71 | a successful login adds exactly one token entry, and neither the stored nor the returned user carries a password |
| TokenServer.DemoAccountsLogIn | server/routes/auth.js:2-24 | each of the three mock accounts logs in with its own credentials |
| TokenServer.MockEmailsDistinct | server/routes/auth.js:2-24 | no two mock users share an e-mail, so a login finds at most one account |
| TokenServer.TokenTail | server/routes/auth.js:27-29 | after `token_`, a token for a numeric id is the id's digits, an underscore and the time's digits |
| TokenServer.FirstUnderscoreAfterDigits | server/routes/auth.js:27-29 | in "digits_rest" the first underscore follows the digits |
| TokenServer.DigitsUnderscoreSplit | server/routes/auth.js:27-29 | "digits_rest" splits back into its digits and its rest |
| TokenServer.TokenDeterminesUserAndTime | server/routes/auth.js:27-29 | two users with numeric ids get the same token only for the same id and the same millisecond |
| TokenServer.ExpiryBoundary | server/routes/auth.js:93-101 | a token exactly 24 hours old is accepted; one millisecond later it is deleted and refused |
| TokenServer.VerifyNeedsBearer | server/routes/auth.js:82-84 | without a "Bearer " header verification gives 401 and changes nothing |
| TokenServer.LoginThenVerify | server/routes/auth.js:53-106 | the token a login returns verifies within 24 hours to the user stored at login, leaving the table unchanged |
| TokenServer.LogoutThenVerify | server/routes/auth.js:113-122 | after logging out a token, verifying it gives 401 |
| TokenServer.LogoutIdempotent | server/routes/auth.js:113-122 | logout always reports success, and logging out twice equals once |
| Routing.ProtectedRoute | radiusf/src/App.jsx:38-60 | while loading the placeholder shows; then no user is sent to `/login` and a user gets the child; client/App.jsx:27-39 is the same guard |
| Routing.PublicRoute | radiusf/src/App.jsx:63-85 | while loading the placeholder shows; then a user is sent to `/dashboard` and no user gets the login page; client/App.jsx:42-54 is the same guard |
| RadiusfApp.LoadingHoldsEveryGuardedRoute | radiusf/src/App.jsx:87-117 | while loading, every guarded path shows the placeholder, and an unmatched path redirects to `/dashboard` |
| RadiusfApp.GuardsAfterLoading | radiusf/src/App.jsx:87-117 | after loading, a logged-out visitor of `/` or a page goes to `/login`, sees the login page there, and a logged-in one leaves `/login` for `/dashboard` |
| RadiusfApp.EmployeesPageIgnoresRouteTable | radiusf/src/App.jsx:98-113 | an employee, refused the `employees` route by the route table, is still shown the employees page |
| RadiusfApp.PagesNeedOnlyLogin | radiusf/src/App.jsx:107-112 | every child page is shown to any logged-in user |
| RadiusfApp.RedirectsSettle | radiusf/src/App.jsx:87-117 | after loading, any path reaches a screen in at most two redirects |
| ClientApp.Guards | client/App.jsx:56-86 | loading holds every guarded path; logged out goes to `/login`; logged in sees every page and leaves `/` and `/login` for `/dashboard` |
| ClientApp.SameRoutingAsLocalFrontEnd | client/App.jsx:56-86 | both front ends resolve every path the same way |
| RadiusfLayout.GetMenuItems | radiusf/src/components/MainLayout.jsx:80-138 | the menu is the table of six entries kept where the route is accessible, in order |
| RadiusfLayout.MenuMatchesRouteTable | radiusf/src/components/MainLayout.jsx:83-135 | an entry is listed exactly when its route is accessible, and the menu keeps the table's order |
| RadiusfLayout.MenuByRole | radiusf/src/components/MainLayout.jsx:80-138 | no user: empty; admin: all six; counselor and employee: five without employees; any other role: empty |
| RadiusfLayout.AdminMenu | radiusf/src/components/MainLayout.jsx:80-138 | the administrator sees all six entries in table order |
| RadiusfLayout.StaffMenu | radiusf/src/components/MainLayout.jsx:80-138 | counselor and employee see dashboard, students, applications, universities and reports |
| RadiusfLayout.OtherMenu | radiusf/src/components/MainLayout.jsx:80-138 | a user of any other role sees no entry at all |
| RadiusfLayout.HandleLogout | radiusf/src/components/MainLayout.jsx:41-49 | logout clears the session and, as it succeeds, navigation goes to `/login` |
| ClientLayout.GetMenuItems | client/components/MainLayout.jsx:36-86 | the menu is the dashboard followed by the entries whose gate opens, in order |
| ClientLayout.MenuGates | client/components/MainLayout.jsx:36-86 | the dashboard is first for anyone; employees and reports appear exactly for the admin role; the other three exactly with their view permission |
| ClientLayout.AdminMenu | client/components/MainLayout.jsx:36-86 | the administrator sees all six entries |
| ClientLayout.StaffMenu | client/components/MainLayout.jsx:36-86 | counselor and employee see dashboard, students, universities and applications |
| ClientLayout.OtherMenu | client/components/MainLayout.jsx:36-86 | no user or any other role sees the dashboard only |
| ClientLayout.HandleLogout | client/components/MainLayout.jsx:92-95 | logout always clears the session and navigates to `/login` |
| Entities.RoundedPercent | radiusf/src/pages/Dashboard.jsx:133 | the result is the whole percentage nearest to part/whole, halves rounded up |
| Entities.RoundedPercentBounds | radiusf/src/pages/Dashboard.jsx:133 | a part no larger than the whole is at most 100; the whole is exactly 100; nothing is 0 |
| Entities.SuccessRate | radiusf/src/pages/Reports.jsx:59 | 0 without applications, else the nearest whole percentage of enrolled over applications |
| Entities.SuccessRateRange | radiusf/src/pages/Reports.jsx:59 | at most 100 when enrolled do not outnumber applications, 100 when equal, and 300 for three enrolled over one application |
| RadiusfStudents.LoadStudents | radiusf/src/pages/Students.jsx:63-82 | the loaded students are exactly those visible to the role, in stored order |
| RadiusfStudents.LoadStudentsSpec | radiusf/src/pages/Students.jsx:66-73 | counselor and employee keep exactly the students assigned to their id; every other role keeps all |
| RadiusfStudents.FilterStudents | radiusf/src/pages/Students.jsx:84-101 | the two conditional filters together equal one filter by the reference test |
| RadiusfStudents.FilterStudentsSpec | radiusf/src/pages/Students.jsx:84-101 | a student is listed exactly when the search occurs case-insensitively in one of its four texts and the status matches, in loaded order; no search and "all" list everyone |
| Entities.StudentStatusColor | radiusf/src/pages/Students.jsx:193-206 | a status in the nine-entry table gets its colour, any other "default"; the dashboard's `getStatusColor` (radiusf/src/pages/Dashboard.jsx:116-129) has the same table |
| RadiusfStudents.StatusCountsBounded | radiusf/src/pages/Students.jsx:322-328 | the total is the number listed and the four status counts together do not exceed it |
| RadiusfStudents.FindCounselor | radiusf/src/pages/Students.jsx:105-106 | the first user with role counselor and the given name, or nothing exactly when none has both |
| RadiusfStudents.CounselorIdOr | radiusf/src/pages/Students.jsx:110 | the found counselor's id when truthy; the fallback when no counselor was found or its id is falsy |
| RadiusfStudents.StudentData | radiusf/src/pages/Students.jsx:108-118 | the new-student object overrides name, counselor, dates, priority and status and keeps every other form value |
| RadiusfStudents.UpdatedData | radiusf/src/pages/Students.jsx:140-146 | the edit object overrides name, counselor and dates and keeps every other form value |
| RadiusfStudents.NewStudentRecord | radiusf/src/pages/Students.jsx:105-118 | a new student is an inquiry of medium priority named "first last", assigned to the named counselor or else the current user, other form values kept |
| RadiusfStudents.EditedStudentRecord | radiusf/src/pages/Students.jsx:137-146 | an edit renames to "first last" and keeps the student's counselor when no counselor has the chosen name |
| RadiusfStudents.HandleAddStudent | radiusf/src/pages/Students.jsx:103-133 | the stamped new record is appended to the stored students |
| RadiusfStudents.HandleEditStudent | radiusf/src/pages/Students.jsx:135-162 | the edit patches the stored student with the editing id, or writes nothing when it is gone |
| RadiusfStudents.HandleDeleteStudent | radiusf/src/pages/Students.jsx:164-181 | a confirmed delete removes every stored student with the id |
| RadiusfStudents.AddedStudentShape | radiusf/src/pages/Students.jsx:103-120 | a stored new student is an inquiry of medium priority, identified by the clock, with equal creation and update times |
| RadiusfApplications.LoadApplications | radiusf/src/pages/Applications.jsx:27-45 | the loaded applications are exactly those visible to the role, in stored order |
| RadiusfApplications.LoadApplicationsSpec | radiusf/src/pages/Applications.jsx:30-36 | counselor and employee keep exactly their own applications; every other role keeps all |
| RadiusfApplications.FilterApplications | radiusf/src/pages/Applications.jsx:47-64 | the two conditional filters together equal one filter by the reference test |
| RadiusfApplications.FilterApplicationsSpec | radiusf/src/pages/Applications.jsx:47-64 | an application is listed exactly when the search occurs in student name, university, program or id and the status matches, in order |
| RadiusfApplications.StatusColor | radiusf/src/pages/Applications.jsx:66-78 | a stage in the eight-entry table gets its colour, any other "default" |
| RadiusfApplications.StatusCountsPartition | radiusf/src/pages/Applications.jsx:143-147 | in progress, completed and rejected partition the listed applications, so in progress plus completed never exceeds the total |
| RadiusfUniversities.FilterUniversities | radiusf/src/pages/Universities.jsx:38-54 | the two conditional filters together equal one filter by the reference test |
| RadiusfUniversities.FilterUniversitiesSpec | radiusf/src/pages/Universities.jsx:38-54 | a university is listed exactly when the search occurs in its name, city or country and the country matches, in order |
| RadiusfUniversities.CountriesSpec | radiusf/src/pages/Universities.jsx:111 | the country options name every university's country once and nothing else, one per distinct country |
| Seqs.DistinctInFirstOccurrenceOrder | radiusf/src/pages/Universities.jsx:111 | the distinct values come in the order each first occurs |
| RadiusfUniversities.PartnerCountBounded | radiusf/src/pages/Universities.jsx:112 | the partner count is at most the total, and equal to it when all are partners |
| RadiusfEmployees.FilterEmployees | radiusf/src/pages/Employees.jsx:36-46 | the conditional filter equals one filter by the reference test |
| RadiusfEmployees.FilterEmployeesSpec | radiusf/src/pages/Employees.jsx:36-46 | an employee is listed exactly when the search occurs in name, e-mail or role; an empty search lists everyone |
| RadiusfEmployees.ActiveCounselorsSpec | radiusf/src/pages/Employees.jsx:94 | active counselors are among the active employees, and the match is case-sensitive |
| RadiusfEmployees.DepartmentCountSpec | radiusf/src/pages/Employees.jsx:129 | the statistic is the number of distinct departments, at most the employee count and positive when there is one |
| RadiusfDashboard.LoadDashboardData | radiusf/src/pages/Dashboard.jsx:50-111 | the statistics count the role-scoped students and applications and the unscoped universities and employees; the recent lists are the five newest of each |
| RadiusfDashboard.StatsBounded | radiusf/src/pages/Dashboard.jsx:71-82 | new inquiries, enrolled and visa-approved together do not exceed the students; active applications do not exceed the applications; an administrator's totals are the whole store's |
| RadiusfDashboard.RecentStudentsAreNewest | radiusf/src/pages/Dashboard.jsx:89-91 | five students, or all when fewer, newest first, drawn from the scoped ones, none left out newer than one shown |
| RadiusfDashboard.RecentApplicationsAreNewest | radiusf/src/pages/Dashboard.jsx:85-87 | five applications, or all when fewer, newest first, drawn from the scoped ones, none left out newer than one shown |
| RadiusfDashboard.CalculateSuccessRate | radiusf/src/pages/Dashboard.jsx:131-134 | 0 without applications, at most 100 when enrolled students do not outnumber applications |
| RadiusfDashboard.SuccessRateAboveHundred | radiusf/src/pages/Dashboard.jsx:131-134 | three enrolled students over one application give 300 |
| RadiusfDashboard.ApplicationStagesColoured | radiusf/src/pages/Dashboard.jsx:116-129 | every application stage but "Inquiry Received" gets the applications page's colour, and that first stage gets "default" |
| RadiusfReports.Bump | radiusf/src/pages/Reports.jsx:42-43 | incrementing a key keeps the keys' order and adds a new key last |
| RadiusfReports.TallyOfSpec | radiusf/src/pages/Reports.jsx:40-56 | a tally lists each key once in first-occurrence order with its positive number of occurrences, and its counts add up to the number of keys |
| RadiusfReports.CountBy | radiusf/src/pages/Reports.jsx:41-44 | the `forEach` loop builds exactly the tally of the keys |
| RadiusfReports.GenerateReportData | radiusf/src/pages/Reports.jsx:18-88 | totals, status counts, tallies, success rate and partner count are those of the counselor-scoped students and applications |
| RadiusfReports.TalliesAddUp | radiusf/src/pages/Reports.jsx:40-56 | each of the three tallies sums to the number of scoped students and names each value once |
| RadiusfReports.OnlyCounselorsAreScoped | radiusf/src/pages/Reports.jsx:26-32 | only a counselor is restricted to their own records; employee and admin see everything |
| RadiusfReports.TopFiveSpec | radiusf/src/pages/Reports.jsx:90-102 | five entries, or all when fewer, non-increasing counts, drawn from the tally, none left out with a larger count |
| ClientStudents.ScopeStudents | client/pages/Students.jsx:120-123 | the scoped list is the filter by the reference scope |
| ClientStudents.ScopeSpec | client/pages/Students.jsx:120-123 | admin sees all; anyone else exactly the students counselled under their name; nobody without a string name |
| ClientStudents.FilterStudents | client/pages/Students.jsx:133-154 | the two conditional filters together equal one filter by the reference test |
| ClientStudents.FilterStudentsSpec | client/pages/Students.jsx:133-154 | a student is listed exactly when the search occurs in name, e-mail, destination or program and the status matches, in order |
| ClientStudents.StatusColor | client/pages/Students.jsx:156-165 | five statuses have colours; anything else is "default" |
| ClientStudents.StatusCountsBounded | client/pages/Students.jsx:258-265 | the total is the number listed and the four counts together do not exceed it |
| ClientStudents.StudentsPage.HandleAddStudent | client/pages/Students.jsx:267-273 | the dialog closes and the student list is unchanged |
| AddStudentModal.Transition | client/components/AddStudentModal.jsx:38-72 | Next advances by one when valid and stays otherwise; Previous steps back one; Cancel returns to the first step |
| AddStudentModal.TransitionInRange | client/components/AddStudentModal.jsx:391-414 | a button the dialog offers keeps the step among the three |
| AddStudentModal.RunInRange | client/components/AddStudentModal.jsx:391-414 | pressing only offered buttons keeps the step among the three |
| AddStudentModal.Wizard.constructor | client/components/AddStudentModal.jsx:34 | the dialog starts on the first step |
| AddStudentModal.Wizard.HandleNext | client/components/AddStudentModal.jsx:38-45 | offered before the last step; advances by one when valid, else stays |
| AddStudentModal.Wizard.HandlePrevious | client/components/AddStudentModal.jsx:47-49 | offered past the first step; steps back by one |
| AddStudentModal.Wizard.HandleCancel | client/components/AddStudentModal.jsx:68-72 | back to the first step, and the parent's cancel is called once |
| BackendAccounts.NewUser | backend/accounts/models.py:5-15 | a new user has role "employee", one of the three choices, and is active |
| BackendAccounts.Strip | backend/accounts/models.py:23 | the stripped string is a slice of the input with only spaces cut off and no space at either end |
| BackendAccounts.StripIdempotent | backend/accounts/models.py:23 | stripping twice equals stripping once |
| BackendAccounts.FullNameSpec | backend/accounts/models.py:21-23 | the full name is the username exactly when first and last name are blank, and "first last" when both are trimmed and not blank |
| BackendAccounts.UserQueryset | backend/accounts/views.py:55-59 | admin sees all users; anyone else only the users with their own id |
| BackendAccounts.NonAdminSeesSelf | backend/accounts/views.py:66-70 | with unique ids a stored non-admin sees exactly themselves |
| BackendAccounts.LoginView | backend/accounts/views.py:10-24 | a valid login returns the user, both tokens and "Login successful"; an invalid one returns the validation errors |
| BackendAccounts.LogoutView | backend/accounts/views.py:34-44 | logout answers "Logout successful" with or without a refresh token and whether blacklisting raises |
| BackendStudents.StudentQueryset | backend/students/views.py:23-29 | admin sees all students, counselor and employee exactly those assigned to them, any other role none |
| BackendStudents.RemarkQueryset | backend/students/views.py:54-58 | admin sees all remarks, anyone else exactly their own |
| BackendStudents.PerformCreate | backend/students/views.py:60-61 | a created remark's counselor is the requesting user, whatever was sent |
| BackendStudents.CreatedRemarkVisible | backend/students/views.py:54-61 | a remark one creates is among those one can see |
| BackendStudents.SerializerClass | backend/students/views.py:18-21 | the create serializer is used exactly for a list POST or a detail PUT or PATCH |
| BackendStudents.StudentStatsBounded | backend/students/views.py:83-90 | the five status counts together do not exceed the total |
| BackendStudents.StatsScopeMatchesList | backend/students/views.py:78-81 | for the three known roles the statistics cover exactly the listed students; any other role is listed none but counted its assigned ones |

## Left out

- Rendering, Ant Design widgets, styles, toasts and `Modal.confirm`: the delete handlers are modelled as confirmed.
- The real browser storage and JSON serialisation: the store is a map from key to a list, a record or a flag; a value of another shape under a key is not modelled.
- LocalStorage.LocalStore.Set: always reports success; the `catch` of `storage.set` that returns `false` when the browser refuses a write (quota exceeded, a value `JSON.stringify` cannot serialise) is not modelled.
- LocalStorage.LocalStore.Remove: always reports success; the `false` of the `catch` in `storage.remove` is not modelled.
- LocalStorage.LocalStore.Clear: always reports success; the `false` of the `catch` in `storage.clear` is not modelled.
- The entity writers (`AddStudent`, `UpdateUser`, `DeleteApplication` and the others) pass that outcome on, so their `ok` is true whenever the record exists, and the pages' failure branches after a refused write (`'Failed to add student'` and the like) never occur in the model.
- The clock is one reading per operation (`millis`, `iso`), though the source reads it two or three times; the date-only strings and dayjs formatting of the student forms are parameters.
- `initializeData` mock seeding on start-up is not part of this model; `Initialize` starts from whatever the store holds.
- The axios calls of the server-backed front end: their replies are parameters (`LoginResponse`, `VerifyResponse`).
- Express wiring, the `catch` branches that answer 500, and the DRF, ORM and JWT machinery (authentication, serializers, token issuing and blacklisting).
- Property lookups on keys inherited from `Object.prototype` (a role named "constructor", say) behave differently in JavaScript; records here have only their own keys.
- Records missing a field a page reads (the pages would throw): the page views in `Entities` have every field they read.
- `Object.entries` lists integer-like keys first in numeric order; the tallies keep insertion order for every key.
- The random monthly trend of the reports page (`Math.random`).
- Floating-point rounding error in `Math.round(e / t * 100)`: the model computes the exact nearest integer.
- `setTimeout` delays and async sequencing, and `handleFinish` of the add-student dialog, which calls an `message` that is never imported.
- React Router matching details (case, trailing slashes, nested segments): a path matches when it equals one of the listed routes.
- Python's `str.strip` also removes other Unicode spaces; `BackendAccounts.IsSpace` covers ASCII and the two Latin-1 spaces.
- `RadiusfDashboard.LoadDashboardData` sorts with the built-in stable `Array.sort`, in place on the array just read from storage; the model sorts a value (`Seqs.SortDesc`) because no other reference sees that array.
- `Seqs.SortDesc`: stability is by construction of the insertion, not stated as a lemma.
- Unlike `client`'s, the local front end's `hasPermission` has no administrator bypass, and its pages are not gated by `canAccessRoute`; the model follows the code (`RadiusfAuth.AdminHasNoBypass`, `RadiusfApp.EmployeesPageIgnoresRouteTable`).
