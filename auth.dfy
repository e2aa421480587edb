/**
 * The middleware chain: `verifyToken` (401 unless the bearer token verifies),
 * then `verifyAgent` or `verifyAdmin` (403 unless the user stored under the
 * token's email has that role, looked up afresh on every request), and the
 * in-handler check that a path email equals the token's email (403).
 */
module Auth {
  import opened Collection
  import opened Records
  import opened Text

  const UNAUTHORIZED: nat := 401
  const FORBIDDEN: nat := 403

  /** The decoded token payload. Tokens are signed over whatever body was posted, so `email` may be absent. */
  datatype Claim = Claim(email: Option<string>)

  /** The JWT library's signature-and-expiry check, as an oracle: the decoded claim, or None for an error. */
  type Jwt = string -> Option<Claim>

  datatype Decision = Allow | Deny(status: nat)

  /** The checks a route runs before its handler body (registration, which runs none, has no guard). */
  datatype Guard =
    | Token                        // verifyToken
    | SelfOnly(pathEmail: string)  // verifyToken, then the path email must be the token's email
    | AgentOnly                    // verifyToken, verifyAgent
    | AdminOnly                    // verifyToken, verifyAdmin

  /** `authorization.split(" ")[1]`: the second space-separated field of the header, if there is one. */
  function BearerToken(header: string): (r: Option<string>)
    ensures r.Some? <==> ' ' in header
    ensures r.Some? ==> ' ' !in r.value
    ensures r.Some? ==> exists a, b :: SecondField(header, a, r.value, b)
  {
    var fields := Split(header, ' ');
    if |fields| >= 2 then
      SecondFieldOfSplit(header);
      Some(fields[1])
    else None
  }

  /** `header` is `a + " " + token + b`, where `a` holds no space and `b` is empty or starts a further field. */
  predicate SecondField(header: string, a: string, token: string, b: string) {
    ' ' !in a && ' ' !in token && (b == "" || b[0] == ' ') && header == a + " " + token + b
  }

  /** The second field of a header that splits into two or more fields is its second space-separated field. */
  lemma SecondFieldOfSplit(header: string)
    requires |Split(header, ' ')| >= 2
    ensures var fields := Split(header, ' ');
      exists b :: SecondField(header, fields[0], fields[1], b)
  {
    var fields := Split(header, ' ');
    JoinSplit(header, ' ');
    JoinFirstTwo(fields, ' ');
    var b := if |fields| == 2 then [] else [' '] + Join(fields[2..], ' ');
    assert fields[0] in fields && fields[1] in fields;
    assert SecondField(header, fields[0], fields[1], b);
  }

  /** The token is determined: a header has only one way to be cut as its first field, a space, a token and the rest. */
  lemma SecondFieldUnique(header: string, a: string, t: string, b: string, a': string, t': string, b': string)
    requires SecondField(header, a, t, b) && SecondField(header, a', t', b')
    ensures a == a' && t == t' && b == b'
  {
    assert forall k :: 0 <= k < |a| ==> header[k] == a[k] && a[k] in a;
    assert forall k :: 0 <= k < |a'| ==> header[k] == a'[k] && a'[k] in a';
    assert header[|a|] == ' ' && header[|a'|] == ' ';
    assert a == header[..|a|] == a';
    var rest := header[|a| + 1..];
    assert rest == t + b && rest == t' + b';
    assert forall k :: 0 <= k < |t| ==> rest[k] == t[k] && t[k] in t;
    assert forall k :: 0 <= k < |t'| ==> rest[k] == t'[k] && t'[k] in t';
    assert b != "" ==> rest[|t|] == ' ';
    assert b' != "" ==> rest[|t'|] == ' ';
    assert t == rest[..|t|] == t';
  }

  /** verifyToken: the decoded claim, or None where the route answers 401; the verifier refuses an empty token outright. */
  function VerifyToken(authorization: Option<string>, jwt: Jwt): (r: Option<Claim>)
    ensures authorization.None? || authorization == Some("") ==> r.None?
    ensures authorization.Some? && ' ' !in authorization.value ==> r.None?
    ensures authorization.Some? && BearerToken(authorization.value) == Some("") ==> r.None?
    ensures (authorization.Some? && authorization.value != "" && BearerToken(authorization.value).Some? &&
             BearerToken(authorization.value).value != "") ==> r == jwt(BearerToken(authorization.value).value)
  {
    match authorization
    case None => None
    case Some(header) =>
      if header == "" then None
      else match BearerToken(header)
        case None => None
        case Some(token) => if token == "" then None else jwt(token)
  }

  /** `scheme + " " + token` hands `token` to the verifier, whatever the scheme word is. */
  lemma BearerHeader(scheme: string, token: string, jwt: Jwt)
    requires ' ' !in scheme && ' ' !in token
    ensures VerifyToken(Some(scheme + " " + token), jwt) == if token == "" then None else jwt(token)
  {
    var header := scheme + " " + token;
    assert header == Join([scheme, token], ' ');
    SplitJoin([scheme, token], ' ');
  }

  /** The lookup of verifyAgent and verifyAdmin: the first user stored under the email has exactly `role`. */
  predicate HasRole(users: seq<Doc<User>>, email: Option<string>, role: string) {
    email.Some? &&
    match FindOne(users, (u: Doc<User>) => u.body.email == email.value)
    case None => false
    case Some(u) => u.body.role == Str(role)
  }

  /** With unique emails, the role check holds exactly when a user with that email and that role exists. */
  lemma HasRoleIff(users: seq<Doc<User>>, email: Option<string>, role: string)
    requires UniqueEmails(users)
    ensures HasRole(users, email, role) <==>
      email.Some? && exists u :: u in users && u.body.email == email.value && u.body.role == Str(role)
  {
    if email.Some? {
      var f := (u: Doc<User>) => u.body.email == email.value;
      match Find(users, f)
      case None =>
      case Some(i) =>
        forall u | u in users && u.body.email == email.value ensures u == users[i] {
          var j :| 0 <= j < |users| && users[j] == u;
          assert EmailOf(users[j]) == EmailOf(users[i]);
        }
    }
  }

  /** The outcome of a route's checks: 401 precedes 403, and the role is read from the current users. */
  function Authorize(g: Guard, authorization: Option<string>, jwt: Jwt, users: seq<Doc<User>>): (d: Decision)
    ensures VerifyToken(authorization, jwt).None? ==> d == Deny(UNAUTHORIZED)
    ensures VerifyToken(authorization, jwt).Some? ==> d == Allow || d == Deny(FORBIDDEN)
    ensures g.Token? ==> (d == Allow <==> VerifyToken(authorization, jwt).Some?)
    ensures g.SelfOnly? ==> (d == Allow <==> VerifyToken(authorization, jwt) == Some(Claim(Some(g.pathEmail))))
  {
    match VerifyToken(authorization, jwt)
    case None => Deny(UNAUTHORIZED)
    case Some(claim) =>
      match g
      case Token => Allow
      case SelfOnly(pathEmail) => if claim.email == Some(pathEmail) then Allow else Deny(FORBIDDEN)
      case AgentOnly => if HasRole(users, claim.email, AGENT_ROLE) then Allow else Deny(FORBIDDEN)
      case AdminOnly => if HasRole(users, claim.email, ADMIN_ROLE) then Allow else Deny(FORBIDDEN)
  }

  function RoleOf(g: Guard): string
    requires g.AgentOnly? || g.AdminOnly?
  {
    if g.AgentOnly? then AGENT_ROLE else ADMIN_ROLE
  }

  /**
   * verifyAgent / verifyAdmin: a request passes exactly when its token verifies and a user with the
   * token's email holds the role; a valid token without such a user (a missing user included) gets 403.
   */
  lemma RoleGuard(g: Guard, authorization: Option<string>, jwt: Jwt, users: seq<Doc<User>>)
    requires g.AgentOnly? || g.AdminOnly?
    requires UniqueEmails(users)
    ensures var t := VerifyToken(authorization, jwt);
      Authorize(g, authorization, jwt, users) ==
        if t.None? then Deny(UNAUTHORIZED)
        else if t.value.email.Some? && exists u :: u in users && u.body.email == t.value.email.value && u.body.role == Str(RoleOf(g))
        then Allow
        else Deny(FORBIDDEN)
  {
    match VerifyToken(authorization, jwt)
    case None =>
    case Some(claim) => HasRoleIff(users, claim.email, RoleOf(g));
  }

  /** The token verifies to the email of a stored user whose role is exactly `role`. */
  predicate TokenOfRole(authorization: Option<string>, jwt: Jwt, users: seq<Doc<User>>, role: string) {
    exists u :: u in users && VerifyToken(authorization, jwt) == Some(Claim(Some(u.body.email))) && u.body.role == Str(role)
  }

  /** The role guards admit a request exactly when its token belongs to a user holding the role. */
  lemma RoleGuardAllows(g: Guard, authorization: Option<string>, jwt: Jwt, users: seq<Doc<User>>)
    requires g.AgentOnly? || g.AdminOnly?
    requires UniqueEmails(users)
    ensures Authorize(g, authorization, jwt, users) == Allow <==> TokenOfRole(authorization, jwt, users, RoleOf(g))
  {
    RoleGuard(g, authorization, jwt, users);
  }
}
