/** The authentication context of the server-backed front end
    (client/contexts/AuthContext.jsx): a role lookup in which the administrator
    holds every permission, and a session made of the current user, the token
    kept in browser storage and the default `Authorization` header. */
module ClientAuth {
  import opened JsValues

  const COUNSELOR_GRANTS: seq<string> := ["view_students", "edit_students", "view_universities", "view_applications"]
  const EMPLOYEE_GRANTS: seq<string> := ["view_students", "view_universities", "view_applications"]
  const LOGIN_FAILED := "Login failed"

  /** `hasPermission`: false without a user, true for every permission when
      the role is exactly the string "admin", otherwise a lookup of the role's
      string form in the counselor and employee lists. */
  predicate HasPermission(user: Option<Record>, permission: string)
  {
    match user
    case None => false
    case Some(u) =>
      if Prop(u, "role") == Str("admin") then true
      else
        var key := FieldToString(Prop(u, "role"));
        if key == "counselor" then permission in COUNSELOR_GRANTS
        else if key == "employee" then permission in EMPLOYEE_GRANTS
        else false
  }

  /** The grants of each role, stated as sets, and nothing for any other
      role value. */
  lemma PermissionsByRole(u: Record, permission: string)
    ensures Prop(u, "role") == Str("admin") ==> HasPermission(Some(u), permission)
    ensures Prop(u, "role") == Str("counselor") ==> (HasPermission(Some(u), permission) <==>
      permission in {"view_students", "edit_students", "view_universities", "view_applications"})
    ensures Prop(u, "role") == Str("employee") ==> (HasPermission(Some(u), permission) <==>
      permission in {"view_students", "view_universities", "view_applications"})
    ensures Prop(u, "role") !in {Str("admin"), Str("counselor"), Str("employee")} ==>
      !HasPermission(Some(u), permission)
  {
    var role := Prop(u, "role");
    if FieldToString(role) in {"counselor", "employee"} {
      FieldToStringWord(role);
    }
  }

  /** Without a user nothing is permitted; an employee may not edit students. */
  lemma NoUserAndEmployeeLimits(u: Record, permission: string)
    requires Prop(u, "role") == Str("employee")
    ensures !HasPermission(None, permission)
    ensures !HasPermission(Some(u), "edit_students")
  {
    PermissionsByRole(u, "edit_students");
  }

  /** What the login request came back with: a response body carrying a token
      and a user, or a failure whose response may carry a message. */
  datatype LoginResponse = Answered(token: Field, user: Option<Record>) | Rejected(message: Field)

  /** What the token verification request came back with. */
  datatype VerifyResponse = Verified(user: Option<Record>) | VerifyFailed

  datatype Outcome = Success | Failure(error: Field)

  /** `error.response?.data?.message || "Login failed"`. */
  function FailureMessage(message: Field): (e: Field)
    ensures Truthy(e)
    ensures Truthy(message) ==> e == message
    ensures !Truthy(message) ==> e == Str(LOGIN_FAILED)
  {
    if Truthy(message) then message else Str(LOGIN_FAILED)
  }

  /** The `AuthProvider` state: the user cell, the loading flag, the
      `auth_token` storage entry and axios's default `Authorization` header. */
  class ClientSession {
    var user: Option<Record>
    var loading: bool
    var storedToken: Option<string>
    var authorization: Option<string>

    constructor(storedToken: Option<string>)
      ensures this.storedToken == storedToken
      ensures user == None && loading && authorization == None
    {
      this.storedToken := storedToken;
      user := None;
      loading := true;
      authorization := None;
    }

    /** Whether the mount effect asks the server: only for a non-empty token. */
    predicate WillVerify()
      reads this
    {
      storedToken.Some? && storedToken.value != ""
    }

    /** `checkAuthStatus`, given the server's answer to the verify request:
        a verified user is restored, a failed verification drops the token. */
    method CheckAuthStatus(response: VerifyResponse)
      modifies this
      ensures !loading && authorization == old(authorization)
      ensures !old(WillVerify()) ==> user == old(user) && storedToken == old(storedToken)
      ensures old(WillVerify()) && response.VerifyFailed? ==> user == old(user) && storedToken == None
      ensures old(WillVerify()) && response.Verified? ==>
        storedToken == old(storedToken) &&
        user == (if response.user.Some? then response.user else old(user))
    {
      if WillVerify() {
        match response
        case VerifyFailed =>
          storedToken := None;
        case Verified(verified) =>
          if verified.Some? {
            user := verified;
          }
      }
      loading := false;
    }

    /** `login`: on an answer the token is stored, the user set and the header
        installed; on a rejection nothing changes. */
    method Login(response: LoginResponse) returns (result: Outcome)
      modifies this
      ensures loading == old(loading)
      ensures response.Answered? ==>
        result == Success && user == response.user &&
        storedToken == Some(FieldToString(response.token)) &&
        authorization == Some("Bearer " + FieldToString(response.token))
      ensures response.Rejected? ==>
        result == Failure(FailureMessage(response.message)) && user == old(user) &&
        storedToken == old(storedToken) && authorization == old(authorization)
    {
      match response
      case Answered(token, userData) =>
        storedToken := Some(FieldToString(token));
        user := userData;
        authorization := Some("Bearer " + FieldToString(token));
        result := Success;
      case Rejected(message) =>
        result := Failure(FailureMessage(message));
    }

    /** `logout`: token, header and user are all gone. */
    method Logout()
      modifies this
      ensures user == None && storedToken == None && authorization == None
      ensures loading == old(loading)
    {
      storedToken := None;
      authorization := None;
      user := None;
    }
  }
}
