/** The mock authentication server (server/routes/auth.js): three fixed
    users, a table of active tokens, and the login, verify and logout handlers
    with their 24-hour expiry. The clock is a parameter: `now` is the
    millisecond count a handler reads. */
module TokenServer {
  import opened JsValues
  import opened Seqs

  const MAX_AGE := 24 * 60 * 60 * 1000

  const MSG_REQUIRED := "Email and password are required"
  const MSG_INVALID := "Invalid email or password"
  const MSG_LOGIN_OK := "Login successful"
  const MSG_NO_TOKEN := "No token provided"
  const MSG_BAD_TOKEN := "Invalid or expired token"
  const MSG_EXPIRED := "Token expired"
  const MSG_VALID := "Token valid"
  const MSG_LOGOUT_OK := "Logout successful"

  function MockUser(id: int, email: string, password: string, name: string, role: string): Record
  {
    map["id" := Num(id), "email" := Str(email), "password" := Str(password),
        "name" := Str(name), "role" := Str(role)]
  }

  const MOCK_USERS: seq<Record> := [
    MockUser(1, "admin@studyabroad.com", "admin123", "Administrator", "admin"),
    MockUser(2, "counselor@studyabroad.com", "counselor123", "Sarah Johnson", "counselor"),
    MockUser(3, "employee@studyabroad.com", "employee123", "Mike Chen", "employee")]

  /** An entry of `activeTokens`. */
  datatype TokenData = TokenData(userId: Field, user: Record, createdAt: int)

  /** A response: its status code, its message and the token and user it
      carries, if any. */
  datatype Reply = Reply(status: int, message: string, token: Option<string>, user: Option<Record>)

  /** The token table after a handler, and the handler's response. */
  datatype Step = Step(tokens: map<string, TokenData>, reply: Reply)

  function Refusal(status: int, message: string): Reply
  {
    Reply(status, message, None, None)
  }

  /** `generateToken`: `token_<id>_<now>`. */
  function GenerateToken(user: Record, now: nat): string
  {
    "token_" + FieldToString(Prop(user, "id")) + "_" + NatToString(now)
  }

  /** `u.email === email && u.password === password`. */
  predicate Matches(u: Record, email: Field, password: Field)
  {
    Prop(u, "email") == email && Prop(u, "password") == password
  }

  /** Position of the user `mockUsers.find` picks, or -1. */
  function FindUser(users: seq<Record>, email: Field, password: Field): (k: int)
    ensures -1 <= k < |users|
    ensures k >= 0 ==> Matches(users[k], email, password)
    ensures k >= 0 ==> forall j :: 0 <= j < k ==> !Matches(users[j], email, password)
    ensures k == -1 <==> forall j :: 0 <= j < |users| ==> !Matches(users[j], email, password)
  {
    FirstWhere(users, (u: Record) => Matches(u, email, password))
  }

  /** What `handleLogin` does to the table and answers. */
  function LoginStep(tokens: map<string, TokenData>, body: Record, now: nat): Step
  {
    var email := Prop(body, "email");
    var password := Prop(body, "password");
    if !Truthy(email) || !Truthy(password) then Step(tokens, Refusal(400, MSG_REQUIRED))
    else
      var k := FindUser(MOCK_USERS, email, password);
      if k == -1 then Step(tokens, Refusal(401, MSG_INVALID))
      else
        var user := MOCK_USERS[k];
        var token := GenerateToken(user, now);
        Step(tokens[token := TokenData(Prop(user, "id"), user["password" := Undefined], now)],
             Reply(200, MSG_LOGIN_OK, Some(token), Some(user - {"password"})))
  }

  /** The token of an `Authorization` header: what follows `Bearer `, when
      the header is present and starts with it. */
  function BearerToken(header: Option<string>): (t: Option<string>)
    ensures t.Some? <==> header.Some? && IsPrefix("Bearer ", header.value)
    ensures t.Some? ==> header.value == "Bearer " + t.value
  {
    if header.Some? && IsPrefix("Bearer ", header.value) then Some(header.value[7..]) else None
  }

  /** What `handleVerifyToken` does to the table and answers. */
  function VerifyStep(tokens: map<string, TokenData>, header: Option<string>, now: int): Step
  {
    match BearerToken(header)
    case None => Step(tokens, Refusal(401, MSG_NO_TOKEN))
    case Some(token) =>
      if token !in tokens then Step(tokens, Refusal(401, MSG_BAD_TOKEN))
      else if now - tokens[token].createdAt > MAX_AGE then Step(tokens - {token}, Refusal(401, MSG_EXPIRED))
      else Step(tokens, Reply(200, MSG_VALID, None, Some(tokens[token].user)))
  }

  /** What `handleLogout` does to the table and answers. */
  function LogoutStep(tokens: map<string, TokenData>, header: Option<string>): Step
  {
    match BearerToken(header)
    case None => Step(tokens, Reply(200, MSG_LOGOUT_OK, None, None))
    case Some(token) => Step(tokens - {token}, Reply(200, MSG_LOGOUT_OK, None, None))
  }

  /** The server module's state: the `activeTokens` map. */
  class AuthServer {
    var activeTokens: map<string, TokenData>

    constructor()
      ensures activeTokens == map[]
    {
      activeTokens := map[];
    }

    method HandleLogin(body: Record, now: nat) returns (reply: Reply)
      modifies this
      ensures Step(activeTokens, reply) == LoginStep(old(activeTokens), body, now)
    {
      var email := Prop(body, "email");
      var password := Prop(body, "password");
      if !Truthy(email) || !Truthy(password) {
        return Refusal(400, MSG_REQUIRED);
      }
      var k := FindUser(MOCK_USERS, email, password);
      if k == -1 {
        return Refusal(401, MSG_INVALID);
      }
      var user := MOCK_USERS[k];
      var token := GenerateToken(user, now);
      activeTokens := activeTokens[token := TokenData(Prop(user, "id"), user["password" := Undefined], now)];
      var userData := user - {"password"};
      reply := Reply(200, MSG_LOGIN_OK, Some(token), Some(userData));
    }

    method HandleVerifyToken(header: Option<string>, now: int) returns (reply: Reply)
      modifies this
      ensures Step(activeTokens, reply) == VerifyStep(old(activeTokens), header, now)
    {
      if header.None? || !IsPrefix("Bearer ", header.value) {
        return Refusal(401, MSG_NO_TOKEN);
      }
      var token := header.value[7..];
      if token !in activeTokens {
        return Refusal(401, MSG_BAD_TOKEN);
      }
      var tokenData := activeTokens[token];
      var tokenAge := now - tokenData.createdAt;
      if tokenAge > MAX_AGE {
        activeTokens := activeTokens - {token};
        return Refusal(401, MSG_EXPIRED);
      }
      reply := Reply(200, MSG_VALID, None, Some(tokenData.user));
    }

    method HandleLogout(header: Option<string>) returns (reply: Reply)
      modifies this
      ensures Step(activeTokens, reply) == LogoutStep(old(activeTokens), header)
    {
      if header.Some? && IsPrefix("Bearer ", header.value) {
        var token := header.value[7..];
        activeTokens := activeTokens - {token};
      }
      reply := Reply(200, MSG_LOGOUT_OK, None, None);
    }
  }

  /** A login without a truthy email and password is a 400 and adds no token. */
  lemma LoginNeedsBothFields(tokens: map<string, TokenData>, body: Record, now: nat)
    requires !Truthy(Prop(body, "email")) || !Truthy(Prop(body, "password"))
    ensures LoginStep(tokens, body, now) == Step(tokens, Reply(400, MSG_REQUIRED, None, None))
  {
  }

  /** Credentials no mock user carries get a 401 with one message, whichever
      of the two was wrong, and add no token. */
  lemma LoginWrongCredentials(tokens: map<string, TokenData>, body: Record, now: nat)
    requires Truthy(Prop(body, "email")) && Truthy(Prop(body, "password"))
    requires forall j :: 0 <= j < |MOCK_USERS| ==>
      Prop(MOCK_USERS[j], "email") != Prop(body, "email") || Prop(MOCK_USERS[j], "password") != Prop(body, "password")
    ensures LoginStep(tokens, body, now) == Step(tokens, Reply(401, MSG_INVALID, None, None))
  {
  }

  /** A wrong password for a known email and an unknown email get the same answer. */
  lemma WrongPasswordLooksLikeUnknownEmail(tokens: map<string, TokenData>, now: nat)
    ensures LoginStep(tokens, map["email" := Str("admin@studyabroad.com"), "password" := Str("guess")], now) ==
            LoginStep(tokens, map["email" := Str("nobody@example.com"), "password" := Str("admin123")], now)
  {
    var wrongPassword := map["email" := Str("admin@studyabroad.com"), "password" := Str("guess")];
    var unknownEmail := map["email" := Str("nobody@example.com"), "password" := Str("admin123")];
    assert !Matches(MOCK_USERS[0], Prop(wrongPassword, "email"), Prop(wrongPassword, "password"));
    assert !Matches(MOCK_USERS[0], Prop(unknownEmail, "email"), Prop(unknownEmail, "password"));
    LoginWrongCredentials(tokens, wrongPassword, now);
    LoginWrongCredentials(tokens, unknownEmail, now);
  }

  /** A successful login adds the one entry for its token, keeps the rest,
      and neither the stored user nor the answered user carries a password. */
  lemma LoginSuccessShape(tokens: map<string, TokenData>, body: Record, now: nat)
    requires LoginStep(tokens, body, now).reply.status == 200
    ensures var s := LoginStep(tokens, body, now);
      s.reply.token.Some? && s.reply.user.Some? &&
      s.tokens.Keys == tokens.Keys + {s.reply.token.value} &&
      (forall t :: t in tokens && t != s.reply.token.value ==> s.tokens[t] == tokens[t]) &&
      Prop(s.tokens[s.reply.token.value].user, "password") == Undefined &&
      "password" !in s.reply.user.value &&
      Prop(s.reply.user.value, "email") == Prop(body, "email")
  {
  }

  /** Each of the three demo accounts logs in with its own password. */
  lemma DemoAccountsLogIn(tokens: map<string, TokenData>, now: nat, k: nat)
    requires k < |MOCK_USERS|
    ensures var body := map["email" := Prop(MOCK_USERS[k], "email"), "password" := Prop(MOCK_USERS[k], "password")];
      var s := LoginStep(tokens, body, now);
      s.reply.status == 200 && s.reply.user == Some(MOCK_USERS[k] - {"password"}) &&
      s.reply.token == Some(GenerateToken(MOCK_USERS[k], now))
  {
    var email, password := Prop(MOCK_USERS[k], "email"), Prop(MOCK_USERS[k], "password");
    var body := map["email" := email, "password" := password];
    assert Prop(body, "email") == email && Prop(body, "password") == password;
    MockEmailsDistinct();
    var f := FindUser(MOCK_USERS, email, password);
    assert Matches(MOCK_USERS[k], email, password);
    assert f == k;
  }

  /** No two mock users share an email. */
  lemma MockEmailsDistinct()
    ensures forall i, j :: 0 <= i < j < |MOCK_USERS| ==> Prop(MOCK_USERS[i], "email") != Prop(MOCK_USERS[j], "email")
  {
    assert Prop(MOCK_USERS[0], "email") == Str("admin@studyabroad.com");
    assert Prop(MOCK_USERS[1], "email") == Str("counselor@studyabroad.com");
    assert Prop(MOCK_USERS[2], "email") == Str("employee@studyabroad.com");
  }

  /** Position of the first underscore, or the length when there is none. */
  function FirstUnderscore(s: string): (i: nat)
    ensures i <= |s|
  {
    if s == [] then 0 else if s[0] == '_' then 0 else 1 + FirstUnderscore(s[1..])
  }

  lemma {:induction false} FirstUnderscoreAfterDigits(a: string, b: string)
    requires AllDigits(a)
    ensures FirstUnderscore(a + "_" + b) == |a|
    decreases |a|
  {
    var s := a + "_" + b;
    if a != [] {
      assert s[0] == a[0] && IsDigit(a[0]);
      assert s[1..] == a[1..] + "_" + b;
      FirstUnderscoreAfterDigits(a[1..], b);
    }
  }

  /** A run of digits followed by an underscore splits a string in one way only. */
  lemma DigitsUnderscoreSplit(a: string, b: string, c: string, d: string)
    requires AllDigits(a) && AllDigits(c)
    requires a + "_" + b == c + "_" + d
    ensures a == c && b == d
  {
    var s := a + "_" + b;
    FirstUnderscoreAfterDigits(a, b);
    FirstUnderscoreAfterDigits(c, d);
    assert a == s[..|a|];
    assert c == s[..|c|];
    assert b == s[|a| + 1..];
    assert d == (c + "_" + d)[|c| + 1..];
  }

  /** Tokens made for users with numeric ids determine the id and the time:
      two logins get the same token only for the same user in the same
      millisecond. */
  lemma TokenDeterminesUserAndTime(u1: Record, t1: nat, u2: Record, t2: nat, id1: nat, id2: nat)
    requires Prop(u1, "id") == Num(id1) && Prop(u2, "id") == Num(id2)
    requires GenerateToken(u1, t1) == GenerateToken(u2, t2)
    ensures id1 == id2 && t1 == t2
  {
    TokenTail(u1, t1, id1);
    TokenTail(u2, t2, id2);
    DigitsUnderscoreSplit(NatToString(id1), NatToString(t1), NatToString(id2), NatToString(t2));
    NatToStringInjective(id1, id2);
    NatToStringInjective(t1, t2);
  }

  /** After `token_`, a token for a numeric id is the id's digits, an
      underscore and the time's digits. */
  lemma TokenTail(u: Record, t: nat, id: nat)
    requires Prop(u, "id") == Num(id)
    ensures GenerateToken(u, t)[6..] == NatToString(id) + "_" + NatToString(t)
  {
    assert FieldToString(Prop(u, "id")) == NatToString(id);
    assert GenerateToken(u, t) == "token_" + (NatToString(id) + "_" + NatToString(t));
  }

  /** The expiry is strict: a token exactly `MAX_AGE` old still verifies, one
      a millisecond older is deleted and refused. */
  lemma ExpiryBoundary(tokens: map<string, TokenData>, token: string)
    requires token in tokens
    ensures var at := tokens[token].createdAt + MAX_AGE;
      VerifyStep(tokens, Some("Bearer " + token), at) ==
        Step(tokens, Reply(200, MSG_VALID, None, Some(tokens[token].user)))
    ensures var late := tokens[token].createdAt + MAX_AGE + 1;
      VerifyStep(tokens, Some("Bearer " + token), late) == Step(tokens - {token}, Refusal(401, MSG_EXPIRED))
  {
    assert IsPrefix("Bearer ", "Bearer " + token);
    assert ("Bearer " + token)[7..] == token;
  }

  /** A header that is missing or not a bearer header gets 401 and changes nothing. */
  lemma VerifyNeedsBearer(tokens: map<string, TokenData>, header: Option<string>, now: int)
    requires header.None? || !IsPrefix("Bearer ", header.value)
    ensures VerifyStep(tokens, header, now) == Step(tokens, Refusal(401, MSG_NO_TOKEN))
  {
  }

  /** A token answered by a login verifies, within the day, to the user it
      stored, and verifying leaves the table as it was. */
  lemma LoginThenVerify(tokens: map<string, TokenData>, body: Record, now: nat, later: int)
    requires LoginStep(tokens, body, now).reply.status == 200
    requires later - now <= MAX_AGE
    ensures var s := LoginStep(tokens, body, now);
      var v := VerifyStep(s.tokens, Some("Bearer " + s.reply.token.value), later);
      v.tokens == s.tokens && v.reply.status == 200 &&
      v.reply.user == Some(s.tokens[s.reply.token.value].user) &&
      Prop(v.reply.user.value, "password") == Undefined
  {
    var s := LoginStep(tokens, body, now);
    var token := s.reply.token.value;
    assert IsPrefix("Bearer ", "Bearer " + token);
    assert ("Bearer " + token)[7..] == token;
  }

  /** After logging out with a header, verifying that header is refused. */
  lemma LogoutThenVerify(tokens: map<string, TokenData>, header: Option<string>, now: int)
    ensures VerifyStep(LogoutStep(tokens, header).tokens, header, now).reply.status == 401
  {
  }

  /** Logout always succeeds and doing it twice is doing it once. */
  lemma LogoutIdempotent(tokens: map<string, TokenData>, header: Option<string>)
    ensures LogoutStep(tokens, header).reply == Reply(200, MSG_LOGOUT_OK, None, None)
    ensures LogoutStep(LogoutStep(tokens, header).tokens, header) == LogoutStep(tokens, header)
  {
  }
}
