/** The side menu and the logout action of the server-backed front end's
    layout (client/components/MainLayout.jsx). */
module ClientLayout {
  import opened JsValues
  import opened Seqs
  import opened ClientAuth

  /** What decides whether an entry is shown: nothing, a permission, or the
      role being exactly "admin". */
  datatype Gate = Always | Permission(name: string) | AdminRole

  datatype MenuEntry = MenuEntry(key: string, title: string, gate: Gate)

  const DASHBOARD := MenuEntry("/dashboard", "Dashboard", Always)
  const STUDENTS := MenuEntry("/students", "Students", Permission("view_students"))
  const EMPLOYEES := MenuEntry("/employees", "Employees", AdminRole)
  const UNIVERSITIES := MenuEntry("/universities", "Universities", Permission("view_universities"))
  const APPLICATIONS := MenuEntry("/applications", "Applications", Permission("view_applications"))
  const REPORTS := MenuEntry("/reports", "Reports", AdminRole)

  const ALL_ENTRIES: seq<MenuEntry> := [DASHBOARD, STUDENTS, EMPLOYEES, UNIVERSITIES, APPLICATIONS, REPORTS]

  /** `user?.role === "admin"`. */
  predicate IsAdmin(user: Option<Record>)
  {
    user.Some? && Prop(user.value, "role") == Str("admin")
  }

  predicate Opens(user: Option<Record>, gate: Gate)
  {
    match gate
    case Always => true
    case Permission(name) => HasPermission(user, name)
    case AdminRole => IsAdmin(user)
  }

  /** The reference menu: the entries whose gate opens, in table order. */
  function MenuFor(user: Option<Record>): seq<MenuEntry>
  {
    Filter(ALL_ENTRIES, (e: MenuEntry) => Opens(user, e.gate))
  }

  function IfOpen(user: Option<Record>, e: MenuEntry): seq<MenuEntry>
  {
    if Opens(user, e.gate) then [e] else []
  }

  /** The reference menu written out entry by entry. */
  lemma MenuForUnrolled(user: Option<Record>)
    ensures MenuFor(user) ==
      [DASHBOARD] + IfOpen(user, STUDENTS) + IfOpen(user, EMPLOYEES) +
      IfOpen(user, UNIVERSITIES) + IfOpen(user, APPLICATIONS) + IfOpen(user, REPORTS)
  {
    FilterSix(ALL_ENTRIES, (e: MenuEntry) => Opens(user, e.gate));
  }


  /** `getMenuItems`: the dashboard entry, then one conditional push per entry. */
  method GetMenuItems(user: Option<Record>) returns (items: seq<MenuEntry>)
    ensures items == MenuFor(user)
  {
    ghost var s, e, u := IfOpen(user, STUDENTS), IfOpen(user, EMPLOYEES), IfOpen(user, UNIVERSITIES);
    ghost var a, r := IfOpen(user, APPLICATIONS), IfOpen(user, REPORTS);
    items := [DASHBOARD];
    if HasPermission(user, "view_students") {
      items := items + [STUDENTS];
    }
    assert items == [DASHBOARD] + s;
    if user.Some? && Prop(user.value, "role") == Str("admin") {
      items := items + [EMPLOYEES];
    }
    assert items == [DASHBOARD] + s + e;
    if HasPermission(user, "view_universities") {
      items := items + [UNIVERSITIES];
    }
    assert items == [DASHBOARD] + s + e + u;
    if HasPermission(user, "view_applications") {
      items := items + [APPLICATIONS];
    }
    assert items == [DASHBOARD] + s + e + u + a;
    if user.Some? && Prop(user.value, "role") == Str("admin") {
      items := items + [REPORTS];
    }
    assert items == [DASHBOARD] + s + e + u + a + r;
    MenuForUnrolled(user);
  }

  /** The dashboard always comes first; the employees and reports entries
      appear exactly for the administrator role, and the students,
      universities and applications entries exactly with their permission. */
  lemma MenuGates(user: Option<Record>)
    ensures |MenuFor(user)| >= 1 && MenuFor(user)[0] == DASHBOARD
    ensures EMPLOYEES in MenuFor(user) <==> IsAdmin(user)
    ensures REPORTS in MenuFor(user) <==> IsAdmin(user)
    ensures STUDENTS in MenuFor(user) <==> HasPermission(user, "view_students")
    ensures UNIVERSITIES in MenuFor(user) <==> HasPermission(user, "view_universities")
    ensures APPLICATIONS in MenuFor(user) <==> HasPermission(user, "view_applications")
  {
    MenuForUnrolled(user);
  }

  /** The administrator sees all six entries. */
  lemma AdminMenu(user: Option<Record>)
    requires IsAdmin(user)
    ensures MenuFor(user) == ALL_ENTRIES
  {
    FilterKeepsAll(ALL_ENTRIES, (e: MenuEntry) => Opens(user, e.gate));
  }

  /** Counselor and employee see four entries: no employees, no reports. */
  lemma StaffMenu(u: Record)
    requires Prop(u, "role") == Str("counselor") || Prop(u, "role") == Str("employee")
    ensures MenuFor(Some(u)) == [DASHBOARD, STUDENTS, UNIVERSITIES, APPLICATIONS]
  {
    MenuForUnrolled(Some(u));
    PermissionsByRole(u, "view_students");
    PermissionsByRole(u, "view_universities");
    PermissionsByRole(u, "view_applications");
    assert IfOpen(Some(u), STUDENTS) == [STUDENTS];
    assert IfOpen(Some(u), EMPLOYEES) == [];
    assert IfOpen(Some(u), UNIVERSITIES) == [UNIVERSITIES];
    assert IfOpen(Some(u), APPLICATIONS) == [APPLICATIONS];
    assert IfOpen(Some(u), REPORTS) == [];
  }

  /** Without a user, or for any other role, only the dashboard is listed. */
  lemma OtherMenu(user: Option<Record>)
    requires user.None? || Prop(user.value, "role") !in {Str("admin"), Str("counselor"), Str("employee")}
    ensures MenuFor(user) == [DASHBOARD]
  {
    MenuForUnrolled(user);
    if user.Some? {
      PermissionsByRole(user.value, "view_students");
      PermissionsByRole(user.value, "view_universities");
      PermissionsByRole(user.value, "view_applications");
    }
    assert IfOpen(user, STUDENTS) == [];
    assert IfOpen(user, EMPLOYEES) == [];
    assert IfOpen(user, UNIVERSITIES) == [];
    assert IfOpen(user, APPLICATIONS) == [];
    assert IfOpen(user, REPORTS) == [];
  }

  /** `handleLogout`: log out, then go to the login screen. */
  method HandleLogout(session: ClientSession) returns (navigateTo: string)
    modifies session
    ensures session.user == None && session.storedToken == None && session.authorization == None
    ensures navigateTo == "/login"
  {
    session.Logout();
    navigateTo := "/login";
  }
}
