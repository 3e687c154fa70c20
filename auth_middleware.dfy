/**
 * The two Express middlewares of src/middleware/authMiddleware.js:
 * `requireAuth` turns the Authorization header into `req.user`,
 * `requireAdmin` lets only admins through.
 */
module AuthMiddleware {
  import opened Wrappers
  import opened Http
  import opened Strings
  import opened Crypto

  /** `header.split(" ")[1]`: the second space-separated word, when there is one and it is not empty. */
  function BearerToken(header: string): (r: Option<string>)
    ensures r.Some? ==> r.value != "" && ' ' !in r.value
    ensures r.Some? <==> |Split(header, ' ')| >= 2 && Split(header, ' ')[1] != ""
  {
    var words := Split(header, ' ');
    if |words| >= 2 && words[1] != "" then Some(words[1]) else None
  }

  /** `requireAuth`'s decision: three distinct 401s, or the verified payload. */
  function Authenticate(header: Option<string>, verify: Verifier): Gate<Claims>
  {
    if !Truthy(header) then Deny(Unauthorized, "Missing Authorization header")
    else match BearerToken(header.value)
      case None => Deny(Unauthorized, "Invalid Authorization header")
      case Some(token) =>
        match verify(token)
        case None => Deny(Unauthorized, "Invalid or expired token")
        case Some(claims) => Pass(claims)
  }

  /** An incoming request: its Authorization header, and the `user` the middleware may attach. */
  class Request {
    const authorization: Option<string>
    var user: Option<Claims>

    constructor (authorization: Option<string>)
      ensures this.authorization == authorization && user == None
    {
      this.authorization := authorization;
      user := None;
    }
  }

  /** `requireAuth`: on success `req.user` is the decoded payload; on a denial the request is left as it was. */
  method RequireAuth(req: Request, verify: Verifier) returns (g: Gate<Claims>)
    modifies req
    ensures g == Authenticate(req.authorization, verify)
    ensures req.user == if g.Pass? then Some(g.value) else old(req.user)
  {
    var header := req.authorization;
    if !Truthy(header) {
      return Deny(Unauthorized, "Missing Authorization header");
    }
    var token := BearerToken(header.value);
    if token.None? {
      return Deny(Unauthorized, "Invalid Authorization header");
    }
    var decoded := verify(token.value);
    if decoded.None? {
      return Deny(Unauthorized, "Invalid or expired token");
    }
    req.user := decoded;
    g := Pass(decoded.value);
  }

  /** A missing or empty header is the first 401. */
  lemma MissingHeaderRejected(header: Option<string>, verify: Verifier)
    requires !Truthy(header)
    ensures Authenticate(header, verify) == Deny(401, "Missing Authorization header")
  {
  }

  /** The request passes exactly when the header's second word verifies, and then with the decoded payload. */
  lemma PassIff(header: Option<string>, verify: Verifier, claims: Claims)
    ensures Authenticate(header, verify) == Pass(claims) <==>
      Truthy(header) && BearerToken(header.value).Some? && verify(BearerToken(header.value).value) == Some(claims)
  {
  }

  /**
   * The first word is never checked: whatever precedes the first space
   * (even nothing) is accepted as the scheme, and words after the token are
   * ignored.
   */
  lemma AnySchemeAccepted(scheme: string, token: string, rest: string, verify: Verifier)
    requires ' ' !in scheme && ' ' !in token && token != ""
    requires rest == [] || rest[0] == ' '
    ensures var header := scheme + " " + token + rest;
      BearerToken(header) == Some(token)
      && Authenticate(Some(header), verify) == (if verify(token).Some? then Pass(verify(token).value)
                                               else Deny(401, "Invalid or expired token"))
  {
    FirstTwoWords(scheme, token, rest);
  }

  /** A header with no space, or whose second word is empty ("Bearer ", "Bearer  tok"), is the second 401. */
  lemma EmptyTokenRejected(scheme: string, rest: string, verify: Verifier)
    requires ' ' !in scheme
    requires rest == [] || rest[0] == ' '
    ensures Authenticate(Some(scheme + " " + rest), verify) == Deny(401, "Invalid Authorization header")
    ensures scheme != "" ==> Authenticate(Some(scheme), verify) == Deny(401, "Invalid Authorization header")
  {
    SplitAtFirst(scheme, ' ', rest);
    assert scheme + " " + rest == scheme + [' '] + rest;
    if rest != [] {
      SplitAtFirst([], ' ', rest[1..]);
      assert rest == [] + [' '] + rest[1..];
    }
    SplitSingle(scheme, ' ');
  }

  /** `requireAdmin`: only a user whose role is exactly "admin" passes; everyone else, and no user, gets 403. */
  function RequireAdmin(user: Option<Claims>): (g: Gate<Claims>)
    ensures g.Pass? <==> user.Some? && user.value.role == "admin"
    ensures g.Pass? ==> g.value == user.value
    ensures g.Deny? ==> g == Deny(403, "Admin only")
  {
    if user.None? || user.value.role != "admin" then Deny(Forbidden, "Admin only") else Pass(user.value)
  }

  /** Clients, washers, any other role and anonymous requests are refused. */
  lemma NonAdminsRefused(id: string, role: string)
    requires role != "admin"
    ensures RequireAdmin(Some(Claims(id, role))) == Deny(403, "Admin only")
    ensures RequireAdmin(None) == Deny(403, "Admin only")
  {
  }

  /** `requireAuth` then `requireAdmin`: a header gets through both exactly when its token verifies to an admin payload. */
  lemma AdminRouteIff(header: Option<string>, verify: Verifier)
    ensures var first := Authenticate(header, verify);
      var both := if first.Pass? then RequireAdmin(Some(first.value)) else first;
      both.Pass? <==> Truthy(header) && BearerToken(header.value).Some?
                      && verify(BearerToken(header.value).value).Some?
                      && verify(BearerToken(header.value).value).value.role == "admin"
  {
  }
}
