/** The account rules of the Django back end: the user model's role choices
    and defaults and its `full_name` (backend/accounts/models.py), and the
    outcomes and user scoping of the account views
    (backend/accounts/views.py). */
module BackendAccounts {
  import opened Seqs

  /** The stored role values of `ROLE_CHOICES`, with their display labels. */
  const ROLE_CHOICES: seq<(string, string)> := [("admin", "Admin"), ("counselor", "Counselor"), ("employee", "Employee")]

  const DEFAULT_ROLE := "employee"

  datatype User = User(id: int, username: string, firstName: string, lastName: string, role: string, isActive: bool)

  /** A user created with only the required fields: the role and the active
      flag take their model defaults. */
  function NewUser(id: int, username: string, firstName: string, lastName: string): (u: User)
    ensures u.role == DEFAULT_ROLE && u.isActive
    ensures exists i :: 0 <= i < |ROLE_CHOICES| && ROLE_CHOICES[i].0 == u.role
    ensures u.id == id && u.username == username && u.firstName == firstName && u.lastName == lastName
  {
    assert ROLE_CHOICES[2].0 == DEFAULT_ROLE;
    User(id, username, firstName, lastName, DEFAULT_ROLE, true)
  }

  /** The characters Python's `str.strip()` removes, limited to ASCII and the
      two Latin-1 spaces. */
  predicate IsSpace(c: char)
  {
    c == ' ' || 9 <= c as int <= 13 || 28 <= c as int <= 31 || c as int == 0x85 || c as int == 0xA0
  }

  function TrimStart(s: string): (r: string)
    ensures |r| <= |s| && r == s[|s| - |r|..]
    ensures forall i :: 0 <= i < |s| - |r| ==> IsSpace(s[i])
    ensures r == [] || !IsSpace(r[0])
  {
    if s != [] && IsSpace(s[0]) then TrimStart(s[1..]) else s
  }

  function TrimEnd(s: string): (r: string)
    ensures |r| <= |s| && r == s[..|r|]
    ensures forall i :: |r| <= i < |s| ==> IsSpace(s[i])
    ensures r == [] || !IsSpace(r[|r| - 1])
  {
    if s != [] && IsSpace(s[|s| - 1]) then TrimEnd(s[..|s| - 1]) else s
  }

  /** `r` is `s` with the first `i` characters and some last ones cut off,
      all of them spaces. */
  predicate CutAt(s: string, r: string, i: int)
  {
    0 <= i <= |s| - |r| && r == s[i..i + |r|] &&
    (forall k :: 0 <= k < i ==> IsSpace(s[k])) && (forall k :: i + |r| <= k < |s| ==> IsSpace(s[k]))
  }

  /** A suffix of `s` after leading spaces, then a prefix of that before
      trailing spaces, is `s` with only spaces cut off. */
  lemma CutFromTrims(s: string, t: string, r: string)
    requires |t| <= |s| && t == s[|s| - |t|..] && forall k :: 0 <= k < |s| - |t| ==> IsSpace(s[k])
    requires |r| <= |t| && r == t[..|r|] && forall k :: |r| <= k < |t| ==> IsSpace(t[k])
    ensures CutAt(s, r, |s| - |t|)
  {
    var i := |s| - |t|;
    assert r == s[i..i + |r|];
    assert forall k :: i + |r| <= k < |s| ==> s[k] == t[k - i];
  }

  /** `str.strip()`: a slice of the input with no space at either end, and
      only spaces cut off. */
  function Strip(s: string): (r: string)
    ensures exists i :: CutAt(s, r, i)
    ensures r == [] || (!IsSpace(r[0]) && !IsSpace(r[|r| - 1]))
  {
    var t := TrimStart(s);
    var r := TrimEnd(t);
    CutFromTrims(s, t, r);
    assert r != [] ==> r[0] == t[0];
    r
  }

  /** A string already without a space at either end strips to itself. */
  lemma StripKeepsTrimmed(s: string)
    requires s == [] || (!IsSpace(s[0]) && !IsSpace(s[|s| - 1]))
    ensures Strip(s) == s
  {
  }

  /** Stripping twice is stripping once. */
  lemma StripIdempotent(s: string)
    ensures Strip(Strip(s)) == Strip(s)
  {
    StripKeepsTrimmed(Strip(s));
  }

  /** `full_name`: the stripped "first last", or the username when that is
      empty. */
  function FullName(u: User): string
  {
    var joined := Strip(u.firstName + " " + u.lastName);
    if joined == "" then u.username else joined
  }

  /** The full name is the username exactly when first and last name are
      blank, and "first last" itself when first and last are already trimmed
      and not blank. */
  lemma FullNameSpec(u: User)
    ensures (forall c :: c in u.firstName + u.lastName ==> IsSpace(c)) <==> FullName(u) == u.username && (Strip(u.firstName + " " + u.lastName) == "")
    ensures u.firstName != "" && !IsSpace(u.firstName[0]) && u.lastName != "" && !IsSpace(u.lastName[|u.lastName| - 1]) ==>
      FullName(u) == u.firstName + " " + u.lastName
  {
    var joined := u.firstName + " " + u.lastName;
    if forall c :: c in u.firstName + u.lastName ==> IsSpace(c) {
      assert forall k :: 0 <= k < |joined| ==> IsSpace(joined[k]) by {
        forall k | 0 <= k < |joined| ensures IsSpace(joined[k]) {
          if k < |u.firstName| {
            assert joined[k] == (u.firstName + u.lastName)[k];
          } else if k > |u.firstName| {
            assert joined[k] == (u.firstName + u.lastName)[k - 1];
          }
        }
      }
    }
    if Strip(joined) == "" {
      forall c | c in u.firstName + u.lastName ensures IsSpace(c) {
        var k :| 0 <= k < |u.firstName + u.lastName| && (u.firstName + u.lastName)[k] == c;
        if k < |u.firstName| {
          assert joined[k] == c;
        } else {
          assert joined[k + 1] == c;
        }
      }
    }
    if u.firstName != "" && !IsSpace(u.firstName[0]) && u.lastName != "" && !IsSpace(u.lastName[|u.lastName| - 1]) {
      assert joined[0] == u.firstName[0];
      assert joined[|joined| - 1] == u.lastName[|u.lastName| - 1];
      StripKeepsTrimmed(joined);
    }
  }

  /** `get_queryset` of the user list and detail views: an administrator
      sees every user, anyone else only the users with their own id. */
  function UserQueryset(requester: User, users: seq<User>): (visible: seq<User>)
    ensures requester.role == "admin" ==> visible == users
    ensures requester.role != "admin" ==> forall i :: 0 <= i < |visible| ==> visible[i].id == requester.id
    ensures forall u :: u in users && (requester.role == "admin" || u.id == requester.id) ==> u in visible
    ensures forall u :: u in visible ==> u in users
  {
    if requester.role == "admin" then users else Filter(users, (u: User) => u.id == requester.id)
  }

  /** With unique ids, a non-administrator who is stored sees exactly
      themselves. */
  lemma NonAdminSeesSelf(requester: User, users: seq<User>)
    requires requester.role != "admin" && requester in users
    requires forall i, j :: 0 <= i < j < |users| ==> users[i].id != users[j].id
    ensures UserQueryset(requester, users) == [requester]
  {
    var v := UserQueryset(requester, users);
    var keep := (u: User) => u.id == requester.id;
    var k :| 0 <= k < |users| && users[k] == requester;
    assert users == users[..k] + [users[k]] + users[k + 1..];
    FilterConcat(users[..k] + [users[k]], users[k + 1..], keep);
    FilterConcat(users[..k], [users[k]], keep);
    FilterNone(users[..k], keep);
    FilterNone(users[k + 1..], keep);
  }

  /** The response of `login_view`. */
  datatype LoginResponse =
    | LoggedIn(user: User, token: string, refresh: string, message: string)
    | BadRequest(errors: seq<string>)

  /** The login serializer's verdict: the authenticated user or its errors. */
  datatype Validation = Valid(user: User) | Invalid(errors: seq<string>)

  /** `login_view`: a valid request gets the user, an access and a refresh
      token and "Login successful"; an invalid one gets status 400 with the
      serializer's errors. The tokens come from the JWT library. */
  function LoginView(validation: Validation, access: string, refresh: string): (r: LoginResponse)
    ensures validation.Valid? <==> r.LoggedIn?
    ensures r.LoggedIn? ==> r.user == validation.user && r.token == access && r.refresh == refresh &&
                            r.message == "Login successful"
    ensures r.BadRequest? ==> r.errors == validation.errors
  {
    match validation
    case Valid(user) => LoggedIn(user, access, refresh, "Login successful")
    case Invalid(errors) => BadRequest(errors)
  }

  /** `verify_token`: the authenticated user and "Token valid". */
  function VerifyToken(requester: User): (r: (User, string))
    ensures r.0 == requester && r.1 == "Token valid"
  {
    (requester, "Token valid")
  }

  /** `logout_view`: with or without a refresh token, and whether
      blacklisting it succeeds or raises (the `except` branch answers as the
      `try` branch does), the answer is the same. */
  function LogoutView(refresh: string, blacklistRaises: bool): (message: string)
    ensures message == "Logout successful"
  {
    "Logout successful"
  }
}
