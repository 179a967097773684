/** What a route element of either front end shows: the loading placeholder,
    a redirect, or one of the screens; and the two route guards both front
    ends declare. */
module Routing {
  import opened JsValues

  datatype Page = LoginPage | DashboardPage | StudentsPage | ApplicationsPage
                | UniversitiesPage | EmployeesPage | ReportsPage

  datatype Outcome = ShowLoading | Redirect(to: string) | Show(page: Page)

  /** `ProtectedRoute`, alike in both front ends: loading first, then a
      redirect to the login screen without a user, else the child. */
  function ProtectedRoute(loading: bool, user: Option<Record>, child: Outcome): (o: Outcome)
    ensures loading ==> o == ShowLoading
    ensures !loading && user.None? ==> o == Redirect("/login")
    ensures !loading && user.Some? ==> o == child
  {
    if loading then ShowLoading
    else if user.None? then Redirect("/login")
    else child
  }

  /** `PublicRoute`, alike in both front ends: loading first, then a
      redirect to the dashboard for a logged-in user, else the child. */
  function PublicRoute(loading: bool, user: Option<Record>, child: Outcome): (o: Outcome)
    ensures loading ==> o == ShowLoading
    ensures !loading && user.Some? ==> o == Redirect("/dashboard")
    ensures !loading && user.None? ==> o == child
  {
    if loading then ShowLoading
    else if user.Some? then Redirect("/dashboard")
    else child
  }
}
