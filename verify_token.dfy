/**
 * The `verifyToken` middleware (api/middleware/verifyToken.js): Bearer
 * header parsing, and the classification of the verification outcome into
 * the 401 and 500 responses. JWT verification is an opaque function.
 */
module VerifyToken {
  import opened Wrappers
  import opened Http
  import opened JsText
  import opened Seqs
  import opened UserModel

  /** What `jwt.verify` does with a token: decodes an id, or throws one of its errors. */
  datatype TokenCheck = Decoded(id: ObjectId) | Expired | Malformed | Broken

  /** `next()` with the user, or the JSON error response. */
  datatype Outcome = Pass(user: User) | Deny(status: Status, message: string)

  const NoToken: string := "No token provided. Please log in."
  const UserGone: string := "User not found. Token may be invalid."
  const TokenExpired: string := "Token has expired. Please log in again."
  const TokenInvalid: string := "Invalid token. Please log in again."
  const AuthFailed: string := "Authentication failed."

  const Scheme: string := "Bearer "

  lemma SchemeSplit(h: string)
    requires StartsWith(h, Scheme)
    ensures h == "Bearer" + [' '] + h[7..]
    ensures Split(h, ' ') == ["Bearer"] + Split(h[7..], ' ')
  {
    assert h[..7] == "Bearer ";
    assert h == h[..7] + h[7..];
    SplitAfterPiece("Bearer", h[7..], ' ');
  }

  /**
   * `authHeader.split(' ')[1]` once the header is present and starts with
   * `Bearer ` (case-sensitively); `None` is the "no token" response.
   */
  function BearerToken(header: Option<string>): (t: Option<string>)
    ensures t.Some? <==> Truthy(header) && StartsWith(header.value, Scheme)
    ensures t.Some? ==> ' ' !in t.value
  {
    if !Truthy(header) || !StartsWith(header.value, Scheme) then None
    else
      SchemeSplit(header.value);
      Some(Split(header.value, ' ')[1])
  }

  /** Section 2.1 of RFC 6750: for `Bearer <token>` the token is read back exactly. */
  lemma BearerTokenRfc6750(token: string)
    requires ' ' !in token
    ensures BearerToken(Some(Scheme + token)) == Some(token)
  {
    var h := Scheme + token;
    assert StartsWith(h, Scheme);
    assert h[7..] == token;
    SchemeSplit(h);
    SplitPlain(token, ' ');
  }

  /** Anything after a further space is ignored: the token is the second field. */
  lemma BearerTokenSecondField(token: string, rest: string)
    requires ' ' !in token
    ensures BearerToken(Some(Scheme + token + " " + rest)) == Some(token)
  {
    var h := Scheme + token + " " + rest;
    assert StartsWith(h, Scheme);
    assert h[7..] == token + [' '] + rest;
    SchemeSplit(h);
    SplitAfterPiece(token, rest, ' ');
  }

  /** The scheme is matched case-sensitively, so `bearer <token>` is treated as no token. */
  lemma LowerCaseSchemeRefused(token: string)
    ensures BearerToken(Some("bearer " + token)).None?
  {
    assert ("bearer " + token)[0] == 'b';
  }

  /**
   * The middleware's decision: no token is 401; a decoded id whose user is
   * gone is 401; an expired or malformed token is 401 with its own message;
   * any other failure is 500; otherwise the stored user passes.
   */
  function Authenticate(header: Option<string>, verify: string -> TokenCheck, users: seq<User>): (r: Outcome)
    ensures r.Pass? ==> && BearerToken(header).Some? && verify(BearerToken(header).value) == Decoded(r.user.id)
                        && r.user in users
    ensures r.Deny? && r.status == ServerError <==>
              BearerToken(header).Some? && verify(BearerToken(header).value) == Broken
    ensures r.Deny? ==> r.status == Unauthorized || r.status == ServerError
  {
    match BearerToken(header)
    case None => Deny(Unauthorized, NoToken)
    case Some(token) =>
      match verify(token)
      case Decoded(id) =>
        var i := FindFirst(users, (u: User) => u.id == id);
        if i < 0 then Deny(Unauthorized, UserGone) else Pass(users[i])
      case Expired => Deny(Unauthorized, TokenExpired)
      case Malformed => Deny(Unauthorized, TokenInvalid)
      case Broken => Deny(ServerError, AuthFailed)
  }

  /** Each outcome of `jwt.verify` and of the user lookup gets its own status and message. */
  lemma Classification(header: Option<string>, verify: string -> TokenCheck, users: seq<User>)
    ensures BearerToken(header).None? ==> Authenticate(header, verify, users) == Deny(Unauthorized, NoToken)
    ensures BearerToken(header).Some? ==>
              var r := Authenticate(header, verify, users);
              match verify(BearerToken(header).value)
              case Decoded(id) =>
                (forall u :: u in users ==> u.id != id) <==> r == Deny(Unauthorized, UserGone)
              case Expired => r == Deny(Unauthorized, TokenExpired)
              case Malformed => r == Deny(Unauthorized, TokenInvalid)
              case Broken => r == Deny(ServerError, AuthFailed)
  {
  }

  /** The request as the middleware sees it: the header, the fields it sets, and how often `next` ran. */
  class Request {
    const authorization: Option<string>
    var user: Option<User>
    var userId: Option<ObjectId>
    var nextCalls: nat
    var sent: Option<(Status, string)>

    constructor (authorization: Option<string>)
      ensures this.authorization == authorization
      ensures user.None? && userId.None? && nextCalls == 0 && sent.None?
    {
      this.authorization := authorization;
      user := None;
      userId := None;
      nextCalls := 0;
      sent := None;
    }
  }

  /**
   * On success `req.user` and `req.userId` are set and `next` runs exactly
   * once; on failure the error is sent and the request is otherwise untouched.
   */
  method Middleware(req: Request, verify: string -> TokenCheck, users: seq<User>)
    modifies req
    ensures var o := Authenticate(req.authorization, verify, users);
            if o.Pass? then
              && req.user == Some(o.user) && req.userId == Some(o.user.id)
              && req.nextCalls == old(req.nextCalls) + 1 && req.sent == old(req.sent)
            else
              && req.sent == Some((o.status, o.message))
              && req.user == old(req.user) && req.userId == old(req.userId) && req.nextCalls == old(req.nextCalls)
  {
    var o := Authenticate(req.authorization, verify, users);
    match o
    case Pass(u) =>
      req.user := Some(u);
      req.userId := Some(u.id);
      req.nextCalls := req.nextCalls + 1;
    case Deny(status, message) =>
      req.sent := Some((status, message));
  }
}
