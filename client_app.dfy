/** The route table of the server-backed front end (client/App.jsx). It has
    the same guards and routes as the local-storage front end, with the child
    routes declared in another order. */
module ClientApp {
  import opened JsValues
  import opened Routing
  import RadiusfApp

  /** The child routes under `/`, in this front end's order. */
  function ChildPage(segment: string): Option<Page>
  {
    if segment == "dashboard" then Some(DashboardPage)
    else if segment == "students" then Some(StudentsPage)
    else if segment == "employees" then Some(EmployeesPage)
    else if segment == "universities" then Some(UniversitiesPage)
    else if segment == "applications" then Some(ApplicationsPage)
    else if segment == "reports" then Some(ReportsPage)
    else None
  }

  function PageAt(path: string): Option<Page>
  {
    if |path| >= 1 && path[0] == '/' then ChildPage(path[1..]) else None
  }

  /** `AppRoutes`. */
  function Resolve(path: string, loading: bool, user: Option<Record>): Outcome
  {
    if path == "/login" then PublicRoute(loading, user, Show(LoginPage))
    else if path == "/" then ProtectedRoute(loading, user, Redirect("/dashboard"))
    else if PageAt(path).Some? then ProtectedRoute(loading, user, Show(PageAt(path).value))
    else Redirect("/dashboard")
  }

  /** Both guards hold every known route while loading; after loading the
      pages need a user and the login screen needs its absence. */
  lemma Guards(path: string, user: Option<Record>)
    ensures path == "/login" || path == "/" || PageAt(path).Some? ==> Resolve(path, true, user) == ShowLoading
    ensures user.None? && (path == "/" || PageAt(path).Some?) ==> Resolve(path, false, user) == Redirect("/login")
    ensures user.Some? && PageAt(path).Some? ==> Resolve(path, false, user) == Show(PageAt(path).value)
    ensures user.Some? ==> Resolve("/login", false, user) == Redirect("/dashboard")
    ensures user.Some? ==> Resolve("/", false, user) == Redirect("/dashboard")
  {
  }

  /** The two front ends route every path alike: declaration order does not
      matter because the segments are distinct. */
  lemma SameRoutingAsLocalFrontEnd(path: string, loading: bool, user: Option<Record>)
    ensures Resolve(path, loading, user) == RadiusfApp.Resolve(path, loading, user)
  {
  }
}
