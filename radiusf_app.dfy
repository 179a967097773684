/** The route table of the local-storage front end (radiusf/src/App.jsx):
    the login route behind `PublicRoute`, the main layout and its six pages
    behind `ProtectedRoute`, and redirects for the index and unknown paths.
    A path is matched exactly; React Router's case-insensitive and
    trailing-slash matching is not modelled. */
module RadiusfApp {
  import opened JsValues
  import opened Routing
  import RadiusfAuth

  /** The child routes under `/`. */
  function ChildPage(segment: string): Option<Page>
  {
    if segment == "dashboard" then Some(DashboardPage)
    else if segment == "students" then Some(StudentsPage)
    else if segment == "applications" then Some(ApplicationsPage)
    else if segment == "universities" then Some(UniversitiesPage)
    else if segment == "employees" then Some(EmployeesPage)
    else if segment == "reports" then Some(ReportsPage)
    else None
  }

  /** The page a child path names: `/` followed by a known segment. */
  function PageAt(path: string): Option<Page>
  {
    if |path| >= 1 && path[0] == '/' then ChildPage(path[1..]) else None
  }

  /** `AppRoutes`: what a path shows. */
  function Resolve(path: string, loading: bool, user: Option<Record>): Outcome
  {
    if path == "/login" then PublicRoute(loading, user, Show(LoginPage))
    else if path == "/" then ProtectedRoute(loading, user, Redirect("/dashboard"))
    else if PageAt(path).Some? then ProtectedRoute(loading, user, Show(PageAt(path).value))
    else Redirect("/dashboard")
  }

  /** While the session loads, every known route shows the placeholder; only
      the catch-all redirect is not guarded. */
  lemma LoadingHoldsEveryGuardedRoute(path: string, user: Option<Record>)
    ensures path == "/login" || path == "/" || PageAt(path).Some? ==> Resolve(path, true, user) == ShowLoading
    ensures !(path == "/login" || path == "/" || PageAt(path).Some?) ==> Resolve(path, true, user) == Redirect("/dashboard")
  {
  }

  /** Without a user every page under `/` sends to the login screen; with a
      user the login screen sends to the dashboard. */
  lemma GuardsAfterLoading(path: string, user: Option<Record>)
    ensures user.None? && (path == "/" || PageAt(path).Some?) ==> Resolve(path, false, user) == Redirect("/login")
    ensures user.None? ==> Resolve("/login", false, user) == Show(LoginPage)
    ensures user.Some? ==> Resolve("/login", false, user) == Redirect("/dashboard")
  {
  }

  /** The pages are gated by login alone: an employee, whom the route table
      refuses the employees route, still reaches the employees page by URL. */
  lemma EmployeesPageIgnoresRouteTable(u: Record)
    requires RadiusfAuth.RoleOf(u) == Str("employee")
    ensures !RadiusfAuth.CanAccessRoute(Some(u), "employees")
    ensures Resolve("/employees", false, Some(u)) == Show(EmployeesPage)
  {
    RadiusfAuth.RouteAccessByRole(u, "employees");
    assert "/employees"[1..] == "employees";
  }

  /** Every logged-in user reaches every page, whatever the role. */
  lemma PagesNeedOnlyLogin(path: string, u: Record)
    requires PageAt(path).Some?
    ensures Resolve(path, false, Some(u)) == Show(PageAt(path).value)
  {
  }

  /** Redirects settle: from any path, after loading, at most two redirects
      lead to a screen. */
  lemma {:induction false} RedirectsSettle(path: string, user: Option<Record>)
    ensures var o := Resolve(path, false, user);
      o.Show? ||
      (o.Redirect? && (Resolve(o.to, false, user).Show? ||
        (Resolve(o.to, false, user).Redirect? &&
         Resolve(Resolve(o.to, false, user).to, false, user).Show?)))
  {
    assert "/dashboard"[1..] == "dashboard";
    assert "/login"[1..] == "login";
  }
}
