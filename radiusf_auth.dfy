/** The authentication context of the local-storage front end
    (radiusf/src/contexts/AuthContext.jsx): fixed role tables for permissions,
    routes and display names, and a session cell holding the current user with
    login, logout and profile-update transitions written through the store. */
module RadiusfAuth {
  import opened JsValues
  import opened Seqs
  import opened LocalStorage

  const ADMIN_PERMISSIONS: seq<string> := [
    "view_dashboard", "manage_students", "edit_students", "delete_students",
    "manage_employees", "edit_employees", "delete_employees",
    "manage_universities", "edit_universities", "delete_universities",
    "manage_applications", "edit_applications", "delete_applications",
    "view_reports", "manage_system"]

  const COUNSELOR_PERMISSIONS: seq<string> := [
    "view_dashboard", "manage_students", "edit_students",
    "manage_applications", "edit_applications", "view_universities", "view_reports"]

  const EMPLOYEE_PERMISSIONS: seq<string> := [
    "view_dashboard", "view_students", "view_applications", "view_universities", "view_reports"]

  const INVALID_CREDENTIALS := "Invalid email or password. Please check your credentials."
  const NO_USER := "No user logged in"

  /** `user.role` of a record. */
  function RoleOf(u: Record): Field
  {
    Prop(u, "role")
  }

  /** `permissions[key]`: the list filed under a role name, if any. */
  function PermissionList(key: string): (r: Option<seq<string>>)
    ensures r.Some? <==> key in {"admin", "counselor", "employee"}
  {
    if key == "admin" then Some(ADMIN_PERMISSIONS)
    else if key == "counselor" then Some(COUNSELOR_PERMISSIONS)
    else if key == "employee" then Some(EMPLOYEE_PERMISSIONS)
    else None
  }

  /** `hasPermission`: false without a user; otherwise the permission must be
      in the list filed under the user's role (looked up by the role's string
      form), and a role without a list grants nothing. */
  predicate HasPermission(user: Option<Record>, permission: string)
  {
    match user
    case None => false
    case Some(u) =>
      match PermissionList(FieldToString(RoleOf(u)))
      case None => false
      case Some(list) => permission in list
  }

  /** `routePermissions[routeName]`. */
  function RouteRoles(routeName: string): (r: Option<seq<string>>)
    ensures r.Some? <==> routeName in {"dashboard", "students", "applications", "universities", "employees", "reports"}
  {
    if routeName == "employees" then Some(["admin"])
    else if routeName in {"dashboard", "students", "applications", "universities", "reports"} then
      Some(["admin", "counselor", "employee"])
    else None
  }

  /** `canAccessRoute`: `includes` compares the role value itself, so only a
      string role can match. */
  predicate CanAccessRoute(user: Option<Record>, routeName: string)
  {
    match user
    case None => false
    case Some(u) =>
      match RouteRoles(routeName)
      case None => false
      case Some(roles) => RoleOf(u).Str? && RoleOf(u).s in roles
  }

  /** `getRoleDisplayName`: `roleNames[role] || role`. */
  function RoleDisplayName(role: Field): (name: Field)
    ensures role == Str("admin") ==> name == Str("Administrator")
    ensures role == Str("counselor") ==> name == Str("Counselor")
    ensures role == Str("employee") ==> name == Str("Employee")
    ensures FieldToString(role) !in {"admin", "counselor", "employee"} ==> name == role
  {
    var key := FieldToString(role);
    if key == "admin" then Str("Administrator")
    else if key == "counselor" then Str("Counselor")
    else if key == "employee" then Str("Employee")
    else role
  }

  /** The three role names are the only strings with a permission list. */
  lemma RoleKeyIsString(role: Field)
    ensures FieldToString(role) in {"admin", "counselor", "employee"} ==>
      role in {Str("admin"), Str("counselor"), Str("employee")}
  {
    if FieldToString(role) in {"admin", "counselor", "employee"} {
      FieldToStringWord(role);
    }
  }

  /** Without a user nothing is permitted and no route is accessible. */
  lemma NoUserNoAccess(permission: string, routeName: string)
    ensures !HasPermission(None, permission)
    ensures !CanAccessRoute(None, routeName)
  {
  }

  /** What each role holds, stated as sets; a value that is not one of the
      three role strings holds nothing. */
  lemma PermissionsByRole(u: Record, permission: string)
    ensures RoleOf(u) == Str("admin") ==> (HasPermission(Some(u), permission) <==> permission in {
      "view_dashboard", "manage_students", "edit_students", "delete_students",
      "manage_employees", "edit_employees", "delete_employees",
      "manage_universities", "edit_universities", "delete_universities",
      "manage_applications", "edit_applications", "delete_applications",
      "view_reports", "manage_system"})
    ensures RoleOf(u) == Str("counselor") ==> (HasPermission(Some(u), permission) <==> permission in {
      "view_dashboard", "manage_students", "edit_students",
      "manage_applications", "edit_applications", "view_universities", "view_reports"})
    ensures RoleOf(u) == Str("employee") ==> (HasPermission(Some(u), permission) <==> permission in {
      "view_dashboard", "view_students", "view_applications", "view_universities", "view_reports"})
    ensures RoleOf(u) !in {Str("admin"), Str("counselor"), Str("employee")} ==> !HasPermission(Some(u), permission)
  {
    RoleKeyIsString(RoleOf(u));
  }

  /** A permission string no list mentions is refused to everyone. */
  lemma UnknownPermissionRefused(user: Option<Record>, permission: string)
    requires permission !in ADMIN_PERMISSIONS && permission !in COUNSELOR_PERMISSIONS
    requires permission !in EMPLOYEE_PERMISSIONS
    ensures !HasPermission(user, permission)
  {
  }

  /** The administrator has no blanket grant: three permissions an employee
      holds are missing from the administrator's list. */
  lemma AdminHasNoBypass(admin: Record, employee: Record)
    requires RoleOf(admin) == Str("admin") && RoleOf(employee) == Str("employee")
    ensures !HasPermission(Some(admin), "view_students") && HasPermission(Some(employee), "view_students")
    ensures !HasPermission(Some(admin), "view_applications") && HasPermission(Some(employee), "view_applications")
    ensures !HasPermission(Some(admin), "view_universities") && HasPermission(Some(employee), "view_universities")
  {
    PermissionsByRole(admin, "view_students");
    PermissionsByRole(admin, "view_applications");
    PermissionsByRole(admin, "view_universities");
  }

  /** Route access: the employees route is for the administrator alone, the
      other five are for all three roles, and unknown names are refused. */
  lemma RouteAccessByRole(u: Record, routeName: string)
    ensures routeName == "employees" ==> (CanAccessRoute(Some(u), routeName) <==> RoleOf(u) == Str("admin"))
    ensures routeName in {"dashboard", "students", "applications", "universities", "reports"} ==>
      (CanAccessRoute(Some(u), routeName) <==> RoleOf(u) in {Str("admin"), Str("counselor"), Str("employee")})
    ensures routeName !in {"dashboard", "students", "applications", "universities", "employees", "reports"} ==>
      !CanAccessRoute(Some(u), routeName)
  {
  }

  /** `user.email === email && user.password === password && user.isActive`. */
  predicate LoginMatches(u: Record, email: Field, password: Field)
  {
    Prop(u, "email") == email && Prop(u, "password") == password && Truthy(Prop(u, "isActive"))
  }

  /** Position of the record `users.find` picks for the credentials, or -1. */
  function FirstLogin(users: seq<Record>, email: Field, password: Field): (k: int)
    ensures -1 <= k < |users|
    ensures k >= 0 ==> LoginMatches(users[k], email, password)
    ensures k >= 0 ==> forall j :: 0 <= j < k ==> !LoginMatches(users[j], email, password)
    ensures k == -1 <==> forall j :: 0 <= j < |users| ==> !LoginMatches(users[j], email, password)
  {
    FirstWhere(users, (u: Record) => LoginMatches(u, email, password))
  }

  /** The session copy of a logged-in user: the stored record with the new
      `lastLogin` and without `password`. */
  function SessionUser(found: Record, iso: string): (s: Record)
    ensures "password" !in s
    ensures Prop(s, "lastLogin") == Str(iso)
    ensures forall k :: k in found && k !in {"password", "lastLogin"} ==> k in s && s[k] == found[k]
    ensures s.Keys == (found.Keys + {"lastLogin"}) - {"password"}
  {
    found["lastLogin" := Str(iso)] - {"password"}
  }

  /** No two stored records share an id. */
  predicate UniqueIds(xs: seq<Record>)
  {
    forall i, j :: 0 <= i < j < |xs| ==> Prop(xs[i], "id") != Prop(xs[j], "id")
  }

  /** With distinct ids, the `lastLogin` write of a login lands on the record
      that matched and on no other. */
  lemma LoginTouchesOnlyFoundUser(users: seq<Record>, k: nat, iso: string)
    requires k < |users| && UniqueIds(users)
    ensures UpdateFirst(users, Prop(users[k], "id"), map["lastLogin" := Str(iso)]) ==
      users[k := users[k]["lastLogin" := Str(iso)]]
  {
    var id := Prop(users[k], "id");
    assert forall j :: 0 <= j < k ==> !HasId(users[j], id);
    UpdateFirstSpec(users, id, map["lastLogin" := Str(iso)], k);
    var patched := users[k] + map["lastLogin" := Str(iso)];
    assert patched == users[k]["lastLogin" := Str(iso)];
  }

  /** Result of `login`, `logout` and `updateProfile`. */
  datatype Outcome = Success(user: Option<Record>) | Failure(error: string)

  /** The `AuthProvider` state: the current user, the loading flag and the
      store it writes through. */
  class AuthProvider {
    var user: Option<Record>
    var loading: bool
    const store: LocalStore

    constructor(store: LocalStore)
      ensures this.store == store
      ensures user == None && loading
    {
      this.store := store;
      user := None;
      loading := true;
    }

    /** The mount effect: restore a stored session user, then stop loading. */
    method Initialize()
      modifies this
      ensures user == if store.CurrentUser().Some? then store.CurrentUser() else old(user)
      ensures !loading
    {
      var current := store.CurrentUser();
      if current.Some? {
        user := current;
      }
      loading := false;
    }

    /** `login`: the first stored user whose email and password are strictly
        equal to the credentials and who is active is logged in; every other
        case fails with one message and changes nothing but the loading flag. */
    method Login(email: Field, password: Field, iso: string) returns (result: Outcome)
      modifies this, store
      ensures var users := old(store.Users());
        var k := FirstLogin(users, email, password);
        if k == -1 then
          result == Failure(INVALID_CREDENTIALS) && user == old(user) &&
          store.entries == old(store.entries)
        else
          var session := SessionUser(users[k], iso);
          result == Success(Some(session)) && user == Some(session) &&
          store.entries == old(store.entries)
            [USERS_KEY := List(UpdateFirst(users, Prop(users[k], "id"), map["lastLogin" := Str(iso)]))]
            [CURRENT_USER_KEY := Single(session)]
      ensures !loading
    {
      loading := true;
      var users := store.Users();
      var k := FirstLogin(users, email, password);
      if k != -1 {
        var found := users[k];
        var updated := found["lastLogin" := Str(iso)];
        var _ := store.UpdateUser(Prop(found, "id"), map["lastLogin" := Str(iso)]);
        var session := updated - {"password"};
        var _ := store.SetCurrentUser(session);
        user := Some(session);
        result := Success(Some(session));
      } else {
        result := Failure(INVALID_CREDENTIALS);
      }
      loading := false;
    }

    /** `logout`: the session user is gone from memory and from the store. */
    method Logout() returns (result: Outcome)
      modifies this, store
      ensures user == None
      ensures store.entries == LoggedOut(old(store.entries))
      ensures loading == old(loading)
      ensures result == Success(None)
    {
      var _ := store.ClearCurrentUser();
      user := None;
      result := Success(None);
    }

    /** `updateProfile`: without a user nothing changes; otherwise the session
        user becomes `{...user, ...userData, updatedAt}` while the stored
        record receives only `userData`. */
    method UpdateProfile(userData: Record, iso: string) returns (result: Outcome)
      modifies this, store
      ensures old(user).None? ==>
        result == Failure(NO_USER) && user == old(user) && store.entries == old(store.entries)
      ensures old(user).Some? ==>
        var updated := old(user).value + userData + map["updatedAt" := Str(iso)];
        var users := old(store.Users());
        var id := Prop(old(user).value, "id");
        result == Success(Some(updated)) && user == Some(updated) &&
        store.entries == (if FindIndex(users, id) == -1 then old(store.entries)
                          else old(store.entries)[USERS_KEY := List(UpdateFirst(users, id, userData))])
                         [CURRENT_USER_KEY := Single(updated)]
      ensures loading == old(loading)
    {
      if user.None? {
        return Failure(NO_USER);
      }
      var updated := user.value + userData + map["updatedAt" := Str(iso)];
      var _ := store.UpdateUser(Prop(user.value, "id"), userData);
      var _ := store.SetCurrentUser(updated);
      user := Some(updated);
      result := Success(Some(updated));
    }
  }

  /** The store after `logout`. */
  function LoggedOut(entries: map<string, Stored>): (r: map<string, Stored>)
    ensures CURRENT_USER_KEY !in r
    ensures forall k :: k in entries && k != CURRENT_USER_KEY ==> k in r && r[k] == entries[k]
  {
    entries - {CURRENT_USER_KEY}
  }

  /** Logging out twice leaves the store as logging out once. */
  lemma LogoutIdempotent(entries: map<string, Stored>)
    ensures LoggedOut(LoggedOut(entries)) == LoggedOut(entries)
  {
  }

  /** The record a login picks is exactly the one that carries the given
      email and password, is active, and has no earlier record doing the
      same; a login fails exactly when no record does. */
  lemma LoginPicksFirstMatch(users: seq<Record>, email: Field, password: Field, i: nat)
    ensures FirstLogin(users, email, password) == i <==>
      i < |users| && Prop(users[i], "email") == email && Prop(users[i], "password") == password &&
      Truthy(Prop(users[i], "isActive")) &&
      (forall j :: 0 <= j < i ==>
        !(Prop(users[j], "email") == email && Prop(users[j], "password") == password && Truthy(Prop(users[j], "isActive"))))
    ensures FirstLogin(users, email, password) == -1 <==>
      forall j :: 0 <= j < |users| ==>
        !(Prop(users[j], "email") == email && Prop(users[j], "password") == password && Truthy(Prop(users[j], "isActive")))
  {
    var k := FirstLogin(users, email, password);
    if i < |users| && LoginMatches(users[i], email, password) &&
       (forall j :: 0 <= j < i ==> !LoginMatches(users[j], email, password)) {
      assert k != -1;
    }
  }
}
