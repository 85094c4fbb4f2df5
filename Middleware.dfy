/** The access-control middleware: `authMiddleware` and `roleMiddleware` of
    middleware/auth.js (which looks the user up) and of
    backend/middleware/auth.js (which trusts the token's payload),
    `isSuperAdmin` of middleware/isSuperAdmin.js, and the active
    `verifySuperAdmin` of middleware/verifySuperAdmin.js. JWT verification is
    a function parameter that yields the payload or nothing; environment
    settings are parameters too. Each middleware either calls `next()`,
    possibly after setting `req.user`, or answers with a status code. */
module Middleware {
  import opened Common
  import opened Users

  /** `String.prototype.split` with a one-character separator. */
  function Split(s: string, sep: char): (parts: seq<string>)
    ensures |parts| >= 1
    ensures forall k :: 0 <= k < |parts| ==> sep !in parts[k]
    decreases |s|
  {
    if s == [] then [""]
    else
      var rest := Split(s[1..], sep);
      if s[0] == sep then [""] + rest
      else [[s[0]] + rest[0]] + rest[1..]
  }

  /** `parts.join(sep)`. */
  function Join(parts: seq<string>, sep: char): string
    requires |parts| >= 1
  {
    if |parts| == 1 then parts[0] else parts[0] + [sep] + Join(parts[1..], sep)
  }

  /** Splitting and joining again gives back the header. */
  lemma {:induction false} JoinSplit(s: string, sep: char)
    ensures Join(Split(s, sep), sep) == s
    decreases |s|
  {
    if s != [] {
      JoinSplit(s[1..], sep);
      var rest := Split(s[1..], sep);
      if s[0] == sep {
        assert [""] + rest == [""] + rest && ([""] + rest)[1..] == rest;
      } else {
        var parts := [[s[0]] + rest[0]] + rest[1..];
        if |rest| > 1 {
          assert parts[1..] == rest[1..];
          assert Join(rest, sep) == rest[0] + [sep] + Join(rest[1..], sep);
        }
        assert s == [s[0]] + s[1..];
      }
    }
  }

  /** Joining pieces free of the separator and splitting again gives back
      the pieces. */
  lemma {:induction false} SplitJoin(parts: seq<string>, sep: char)
    requires |parts| >= 1
    requires forall k :: 0 <= k < |parts| ==> sep !in parts[k]
    ensures Split(Join(parts, sep), sep) == parts
    decreases |parts|, |parts[0]|
  {
    var s := Join(parts, sep);
    if parts[0] == [] {
      if |parts| > 1 {
        SplitJoin(parts[1..], sep);
        assert s == [sep] + Join(parts[1..], sep);
        assert s[1..] == Join(parts[1..], sep);
        assert parts == [""] + parts[1..];
      }
    } else {
      var tail := [parts[0][1..]] + parts[1..];
      assert tail[1..] == parts[1..];
      SplitJoin(tail, sep);
      if |parts| > 1 {
        assert Join(tail, sep) == parts[0][1..] + [sep] + Join(parts[1..], sep);
      }
      assert s == [parts[0][0]] + Join(tail, sep);
      assert s[1..] == Join(tail, sep);
      assert parts[0] == [parts[0][0]] + parts[0][1..];
    }
  }

  /** `req.headers['authorization']?.split(' ')[1]`, when truthy. */
  function BearerToken(header: Option<string>): (token: Option<string>)
    ensures token.Some? ==> token.value != "" && ' ' !in token.value
  {
    if header.None? then None
    else
      var parts := Split(header.value, ' ');
      if |parts| < 2 || parts[1] == "" then None else Some(parts[1])
  }

  /** A header of the form `<scheme> <token>` carries that token. */
  lemma BearerTokenOfHeader(scheme: string, token: string)
    requires ' ' !in scheme && ' ' !in token && token != ""
    ensures BearerToken(Some(scheme + " " + token)) == Some(token)
  {
    assert Join([scheme, token], ' ') == scheme + " " + token;
    SplitJoin([scheme, token], ' ');
  }

  /** The claims of a verified token. */
  datatype Payload = Payload(id: Option<string>, email: Option<string>, role: Option<string>)

  /** What `req.user` may hold: a stored user, a token's payload, or the
      object `isSuperAdmin` builds. */
  datatype Principal = StoredUser(user: User) | Claims(payload: Payload) | SuperAdmin(email: Option<string>)

  /** `req.user.role`. */
  function RoleOf(p: Principal): Option<string>
  {
    match p
    case StoredUser(u) => Some(u.role)
    case Claims(c) => c.role
    case SuperAdmin(_) => Some("superadmin")
  }

  /** A middleware's verdict: `next()`, after setting `req.user` when
      `attach` holds one, or an answer with `code`. */
  datatype Decision = Pass(attach: Option<Principal>) | Deny(code: int)

  /** `authMiddleware` of middleware/auth.js. A payload without `id` makes
      `findById(undefined)` yield null (404); a malformed one makes it throw,
      which the catch answers with 401. */
  function AuthDecision(header: Option<string>, verify: string -> Option<Payload>, users: seq<User>): (d: Decision)
    ensures d.Pass? ==> d.attach.Some? && d.attach.value.StoredUser?
    ensures d.Pass? <==> BearerToken(header).Some? && verify(BearerToken(header).value).Some?
                         && var id := verify(BearerToken(header).value).value.id;
                            id.Some? && IsValidObjectId(id.value) && FindUserById(users, id.value).Some?
    ensures d.Pass? ==> var id := verify(BearerToken(header).value).value.id.value;
                        d.attach.value.user == users[FindUserById(users, id).value] && d.attach.value.user.id == id
    ensures d == Deny(404) <==> BearerToken(header).Some? && verify(BearerToken(header).value).Some?
                                && var id := verify(BearerToken(header).value).value.id;
                                   id.None? || (IsValidObjectId(id.value) && FindUserById(users, id.value).None?)
    ensures d.Deny? ==> d.code in {401, 404}
  {
    match BearerToken(header)
    case None => Deny(401)
    case Some(token) =>
      match verify(token)
      case None => Deny(401)
      case Some(decoded) =>
        if decoded.id.None? then Deny(404)
        else if !IsValidObjectId(decoded.id.value) then Deny(401)
        else
          match FindUserById(users, decoded.id.value)
          case None => Deny(404)
          case Some(i) => Pass(Some(StoredUser(users[i])))
  }

  /** `authMiddleware` of backend/middleware/auth.js: any verified token
      passes, and its payload becomes `req.user` as it is. */
  function TokenDecision(header: Option<string>, verify: string -> Option<Payload>): (d: Decision)
    ensures d.Pass? <==> BearerToken(header).Some? && verify(BearerToken(header).value).Some?
    ensures d.Pass? ==> d.attach == Some(Claims(verify(BearerToken(header).value).value))
    ensures d.Deny? ==> d.code == 401
  {
    match BearerToken(header)
    case None => Deny(401)
    case Some(token) =>
      match verify(token)
      case None => Deny(401)
      case Some(decoded) => Pass(Some(Claims(decoded)))
  }

  /** `roleMiddleware(role)`, the same in both files: 403 without a user or
      with any other role. */
  function RoleDecision(user: Option<Principal>, role: string): (d: Decision)
    ensures d.Pass? <==> user.Some? && RoleOf(user.value) == Some(role)
    ensures d.Pass? ==> d.attach.None?
    ensures d.Deny? ==> d.code == 403
  {
    if user.None? then Deny(403)
    else if RoleOf(user.value) != Some(role) then Deny(403)
    else Pass(None)
  }

  /** `isSuperAdmin`: strict equality of the body's e-mail with the configured
      name (two absent values are equal), then of the passwords. Any other
      e-mail passes through untouched. */
  function SuperAdminDecision(email: Option<string>, password: Option<string>,
                              adminName: Option<string>, adminPassword: Option<string>): (d: Decision)
    ensures email != adminName ==> d == Pass(None)
    ensures email == adminName && password == adminPassword ==> d == Pass(Some(SuperAdmin(email)))
    ensures email == adminName && password != adminPassword ==> d == Deny(401)
  {
    if email == adminName then
      if password == adminPassword then Pass(Some(SuperAdmin(email))) else Deny(401)
    else Pass(None)
  }

  /** The active `verifySuperAdmin`: 401 without a token, 400 when it does not
      verify, 403 for any role but "superadmin". */
  function VerifySuperAdminDecision(header: Option<string>, verify: string -> Option<Payload>): (d: Decision)
    ensures BearerToken(header).None? ==> d == Deny(401)
    ensures BearerToken(header).Some? && verify(BearerToken(header).value).None? ==> d == Deny(400)
    ensures (BearerToken(header).Some? && verify(BearerToken(header).value).Some?
             && verify(BearerToken(header).value).value.role != Some("superadmin")) ==> d == Deny(403)
    ensures d.Pass? <==> BearerToken(header).Some? && verify(BearerToken(header).value).Some?
                         && verify(BearerToken(header).value).value.role == Some("superadmin")
    ensures d.Pass? ==> d.attach == Some(Claims(verify(BearerToken(header).value).value))
  {
    match BearerToken(header)
    case None => Deny(401)
    case Some(token) =>
      match verify(token)
      case None => Deny(400)
      case Some(decoded) =>
        if decoded.role != Some("superadmin") then Deny(403) else Pass(Some(Claims(decoded)))
  }

  /** Behind `authMiddleware` of middleware/auth.js, `roleMiddleware(role)`
      lets the request through exactly when the stored user has that role. */
  lemma {:induction false} StoredRoleDecides(header: Option<string>, verify: string -> Option<Payload>,
                                             users: seq<User>, role: string)
    requires AuthDecision(header, verify, users).Pass?
    ensures var u := AuthDecision(header, verify, users).attach.value.user;
            RoleDecision(AuthDecision(header, verify, users).attach, role).Pass? <==> u.role == role
  {
    var d := AuthDecision(header, verify, users);
    assert RoleOf(d.attach.value) == Some(d.attach.value.user.role);
  }

  /** Behind `verifySuperAdmin`, `roleMiddleware("superadmin")` always lets
      the request through. */
  lemma SuperAdminPassesRoleGate(header: Option<string>, verify: string -> Option<Payload>)
    requires VerifySuperAdminDecision(header, verify).Pass?
    ensures RoleDecision(VerifySuperAdminDecision(header, verify).attach, "superadmin") == Pass(None)
  {
  }

  /** A super-admin principal needs the configured password: whenever
      `isSuperAdmin` attaches one, the password matched. */
  lemma SuperAdminNeedsPassword(email: Option<string>, password: Option<string>,
                                adminName: Option<string>, adminPassword: Option<string>)
    ensures SuperAdminDecision(email, password, adminName, adminPassword).Pass?
            && SuperAdminDecision(email, password, adminName, adminPassword).attach.Some?
            <==> email == adminName && password == adminPassword
  {
  }

  /** The request object, of which the middleware writes only `user`. */
  class Request {
    var user: Option<Principal>

    constructor ()
      ensures user.None?
    {
      user := None;
    }
  }

  /** `next()` or a response with a status code. */
  datatype Outcome = Next | Halt(code: int)

  /** `authMiddleware` of middleware/auth.js on `req`. */
  method Authenticate(req: Request, header: Option<string>, verify: string -> Option<Payload>, users: seq<User>)
    returns (o: Outcome)
    modifies req
    ensures var d := AuthDecision(header, verify, users);
            (d.Pass? ==> o == Next && req.user == d.attach)
            && (d.Deny? ==> o == Halt(d.code) && req.user == old(req.user))
  {
    var token := BearerToken(header);
    if token.None? {
      return Halt(401);
    }
    var decoded := verify(token.value);
    if decoded.None? {
      return Halt(401);
    }
    if decoded.value.id.None? {
      return Halt(404);
    }
    if !IsValidObjectId(decoded.value.id.value) {
      return Halt(401);
    }
    var found := FindUserById(users, decoded.value.id.value);
    if found.None? {
      return Halt(404);
    }
    req.user := Some(StoredUser(users[found.value]));
    o := Next;
  }

  /** `authMiddleware` of backend/middleware/auth.js on `req`. */
  method AuthenticateToken(req: Request, header: Option<string>, verify: string -> Option<Payload>)
    returns (o: Outcome)
    modifies req
    ensures var d := TokenDecision(header, verify);
            (d.Pass? ==> o == Next && req.user == d.attach)
            && (d.Deny? ==> o == Halt(d.code) && req.user == old(req.user))
  {
    var token := BearerToken(header);
    if token.None? {
      return Halt(401);
    }
    var decoded := verify(token.value);
    if decoded.None? {
      return Halt(401);
    }
    req.user := Some(Claims(decoded.value));
    o := Next;
  }

  /** `isSuperAdmin` on `req` with the body's e-mail and password. */
  method CheckSuperAdmin(req: Request, email: Option<string>, password: Option<string>,
                         adminName: Option<string>, adminPassword: Option<string>)
    returns (o: Outcome)
    modifies req
    ensures var d := SuperAdminDecision(email, password, adminName, adminPassword);
            (d.Pass? ==> o == Next && req.user == (if d.attach.Some? then d.attach else old(req.user)))
            && (d.Deny? ==> o == Halt(d.code) && req.user == old(req.user))
  {
    if email == adminName {
      if password == adminPassword {
        req.user := Some(SuperAdmin(email));
        return Next;
      } else {
        return Halt(401);
      }
    }
    o := Next;
  }

  /** The active `verifySuperAdmin` on `req`. */
  method VerifySuperAdmin(req: Request, header: Option<string>, verify: string -> Option<Payload>)
    returns (o: Outcome)
    modifies req
    ensures var d := VerifySuperAdminDecision(header, verify);
            (d.Pass? ==> o == Next && req.user == d.attach)
            && (d.Deny? ==> o == Halt(d.code) && req.user == old(req.user))
  {
    var token := BearerToken(header);
    if token.None? {
      return Halt(401);
    }
    var decoded := verify(token.value);
    if decoded.None? {
      return Halt(400);
    }
    if decoded.value.role != Some("superadmin") {
      return Halt(403);
    }
    req.user := Some(Claims(decoded.value));
    o := Next;
  }
}
