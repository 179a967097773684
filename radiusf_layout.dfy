/** The side menu and the logout action of the local-storage front end's
    layout (radiusf/src/components/MainLayout.jsx). */
module RadiusfLayout {
  import opened JsValues
  import opened Seqs
  import opened RadiusfAuth
  import LocalStorage

  /** A menu entry: the route name it is gated by, its key (the path it
      navigates to) and its title. */
  datatype MenuEntry = MenuEntry(route: string, key: string, title: string)

  const DASHBOARD := MenuEntry("dashboard", "/dashboard", "Dashboard")
  const STUDENTS := MenuEntry("students", "/students", "Students")
  const APPLICATIONS := MenuEntry("applications", "/applications", "Applications")
  const UNIVERSITIES := MenuEntry("universities", "/universities", "Universities")
  const EMPLOYEES := MenuEntry("employees", "/employees", "Employees")
  const REPORTS := MenuEntry("reports", "/reports", "Reports")

  /** Every entry the layout can show, in the order it considers them. */
  const ALL_ENTRIES: seq<MenuEntry> := [DASHBOARD, STUDENTS, APPLICATIONS, UNIVERSITIES, EMPLOYEES, REPORTS]

  /** The reference menu: the entries whose route the user may access, in
      table order. */
  function MenuFor(user: Option<Record>): seq<MenuEntry>
  {
    Filter(ALL_ENTRIES, (e: MenuEntry) => CanAccessRoute(user, e.route))
  }

  /** An entry alone when its route is accessible, else nothing. */
  function IfAccessible(user: Option<Record>, e: MenuEntry): seq<MenuEntry>
  {
    if CanAccessRoute(user, e.route) then [e] else []
  }

  /** The reference menu written out entry by entry. */
  lemma MenuForUnrolled(user: Option<Record>)
    ensures MenuFor(user) ==
      IfAccessible(user, DASHBOARD) + IfAccessible(user, STUDENTS) + IfAccessible(user, APPLICATIONS) +
      IfAccessible(user, UNIVERSITIES) + IfAccessible(user, EMPLOYEES) + IfAccessible(user, REPORTS)
  {
    FilterSix(ALL_ENTRIES, (e: MenuEntry) => CanAccessRoute(user, e.route));
  }


  /** `getMenuItems`: one conditional push per entry. */
  method GetMenuItems(user: Option<Record>) returns (items: seq<MenuEntry>)
    ensures items == MenuFor(user)
  {
    ghost var d, s, a := IfAccessible(user, DASHBOARD), IfAccessible(user, STUDENTS), IfAccessible(user, APPLICATIONS);
    ghost var u, e, r := IfAccessible(user, UNIVERSITIES), IfAccessible(user, EMPLOYEES), IfAccessible(user, REPORTS);
    items := [];
    if CanAccessRoute(user, "dashboard") {
      items := items + [DASHBOARD];
    }
    assert items == d;
    if CanAccessRoute(user, "students") {
      items := items + [STUDENTS];
    }
    assert items == d + s;
    if CanAccessRoute(user, "applications") {
      items := items + [APPLICATIONS];
    }
    assert items == d + s + a;
    if CanAccessRoute(user, "universities") {
      items := items + [UNIVERSITIES];
    }
    assert items == d + s + a + u;
    if CanAccessRoute(user, "employees") {
      items := items + [EMPLOYEES];
    }
    assert items == d + s + a + u + e;
    if CanAccessRoute(user, "reports") {
      items := items + [REPORTS];
    }
    assert items == d + s + a + u + e + r;
    MenuForUnrolled(user);
  }

  /** An entry is on the menu exactly when its route is accessible, and the
      menu keeps the table's order. */
  lemma MenuMatchesRouteTable(user: Option<Record>, e: MenuEntry)
    requires e in ALL_ENTRIES
    ensures e in MenuFor(user) <==> CanAccessRoute(user, e.route)
    ensures IsSubsequence(MenuFor(user), ALL_ENTRIES)
  {
    var keep := (e: MenuEntry) => CanAccessRoute(user, e.route);
    FilterIsSubsequence(ALL_ENTRIES, keep);
    var m := MenuFor(user);
    if e in m {
      var i :| 0 <= i < |m| && m[i] == e;
      assert keep(m[i]);
    }
    if keep(e) {
      var i :| 0 <= i < |ALL_ENTRIES| && ALL_ENTRIES[i] == e;
    }
  }

  /** The administrator sees all six entries. */
  lemma AdminMenu(u: Record)
    requires RoleOf(u) == Str("admin")
    ensures MenuFor(Some(u)) == ALL_ENTRIES
  {
    forall e | e in ALL_ENTRIES ensures CanAccessRoute(Some(u), e.route) {
      RouteAccessByRole(u, e.route);
    }
    FilterKeepsAll(ALL_ENTRIES, (e: MenuEntry) => CanAccessRoute(Some(u), e.route));
  }

  /** Counselor and employee see five entries: all but employees. */
  lemma StaffMenu(u: Record)
    requires RoleOf(u) in {Str("counselor"), Str("employee")}
    ensures MenuFor(Some(u)) == [DASHBOARD, STUDENTS, APPLICATIONS, UNIVERSITIES, REPORTS]
  {
    MenuForUnrolled(Some(u));
    RouteAccessByRole(u, "dashboard");
    RouteAccessByRole(u, "students");
    RouteAccessByRole(u, "applications");
    RouteAccessByRole(u, "universities");
    RouteAccessByRole(u, "employees");
    RouteAccessByRole(u, "reports");
  }

  /** Any other role sees nothing. */
  lemma OtherMenu(u: Record)
    requires RoleOf(u) !in {Str("admin"), Str("counselor"), Str("employee")}
    ensures MenuFor(Some(u)) == []
  {
    forall e | e in ALL_ENTRIES ensures !CanAccessRoute(Some(u), e.route) {
      RouteAccessByRole(u, e.route);
    }
    FilterNone(ALL_ENTRIES, (e: MenuEntry) => CanAccessRoute(Some(u), e.route));
  }

  /** The menu per role: all six for the administrator, five without the
      employees entry for counselor and employee, none otherwise. */
  lemma MenuByRole(user: Option<Record>)
    ensures user.None? ==> MenuFor(user) == []
    ensures user.Some? && RoleOf(user.value) == Str("admin") ==> MenuFor(user) == ALL_ENTRIES
    ensures user.Some? && RoleOf(user.value) in {Str("counselor"), Str("employee")} ==>
      MenuFor(user) == [DASHBOARD, STUDENTS, APPLICATIONS, UNIVERSITIES, REPORTS]
    ensures user.Some? && RoleOf(user.value) !in {Str("admin"), Str("counselor"), Str("employee")} ==>
      MenuFor(user) == []
  {
    if user.None? {
      FilterNone(ALL_ENTRIES, (e: MenuEntry) => CanAccessRoute(user, e.route));
    } else if RoleOf(user.value) == Str("admin") {
      AdminMenu(user.value);
    } else if RoleOf(user.value) in {Str("counselor"), Str("employee")} {
      StaffMenu(user.value);
    } else {
      OtherMenu(user.value);
    }
  }

  /** `handleLogout`: navigate to the login screen when `logout` reports
      success, and stay otherwise. */
  method HandleLogout(auth: AuthProvider) returns (navigateTo: Option<string>)
    modifies auth, auth.store
    ensures auth.user == None
    ensures auth.store.entries == LoggedOut(old(auth.store.entries))
    ensures navigateTo == Some("/login")
  {
    var result := auth.Logout();
    if result.Success? {
      navigateTo := Some("/login");
    } else {
      navigateTo := None;
    }
  }
}
