/** The request authenticator and the token helper of the server
    (services/auth.ts): `authMiddleware` turns an incoming request into a
    GraphQL context, `signToken` issues a token for an identity. The
    jsonwebtoken library, together with the configured secret and the
    clock, is an oracle `Jwt`. */
module Auth {
  import opened Wrappers
  import opened JsString

  /** The claims a token carries (`JwtPayload`): `_id`, `username`, `email`. */
  datatype JwtPayload = JwtPayload(id: string, username: string, email: string)

  /** The per-request context (`GraphQLContext`): `user` is present only
      when the request carried a token that verified. */
  datatype GraphQLContext = GraphQLContext(user: Option<JwtPayload>)

  /** The parts of an incoming request the authenticator reads: the
      `authorization` header, the body's `token` field and the query
      string's `token` parameter, each possibly absent. */
  datatype Request = Request(authorization: Option<string>, bodyToken: Option<string>, queryToken: Option<string>)

  /** jsonwebtoken with the server's secret: `sign(payload, expiresIn)`
      and `verify(token)`, which yields the decoded payload or fails
      (bad signature, malformed or expired token alike). */
  datatype Jwt = Jwt(sign: (JwtPayload, string) -> string, verify: string -> Option<JwtPayload>)

  /** What `authMiddleware` does with a request: return a context, or
      throw an `AuthenticationError` with a message. */
  datatype AuthResult = Context(ctx: GraphQLContext) | AuthenticationError(message: string)

  const BearerPrefix: string := "Bearer "
  const InvalidTokenMessage: string := "Invalid or expired token"
  /** The default `expires` argument of `signToken`. */
  const DefaultLifetime: string := "1h"

  /** The context of a request that carries no identity (`{}`). */
  const Anonymous: GraphQLContext := GraphQLContext(None)

  /** A token `sign` has just produced verifies to the payload it was
      signed over (verification before the token expires). */
  ghost predicate SignedTokensVerify(jwt: Jwt) {
    forall p, e :: jwt.verify(jwt.sign(p, e)) == Some(p)
  }

  /** Signed tokens are in the compact serialization: non-empty and free
      of whitespace. */
  ghost predicate CompactTokens(jwt: Jwt) {
    forall p, e :: jwt.sign(p, e) != "" && NoWhitespace(jwt.sign(p, e))
  }

  /** The first field of a split is the text before the first separator. */
  lemma SplitHead(s: string, sep: char)
    ensures Split(s, sep)[0] == FirstField(s, sep)
  {
    if sep in s {
      SplitCons(s, sep);
    }
  }

  /** `authHeader.split(' ')[1].trim()` for a header that starts with
      `"Bearer "`: the trimmed text between the prefix and the next space
      (or the end of the header). */
  function HeaderToken(header: string): (token: string)
    requires StartsWith(header, BearerPrefix)
    ensures token == Trim(FirstField(header[|BearerPrefix|..], ' '))
  {
    assert header[..6] == "Bearer" && header[6] == ' ';
    IndexOfUnique(header, ' ', 6);
    SplitCons(header, ' ');
    SplitHead(header[7..], ' ');
    Trim(Split(header, ' ')[1])
  }

  /** `"Bearer "` carries the empty token. */
  lemma BearerAloneIsEmpty()
    ensures HeaderToken("Bearer ") == ""
  {
    assert "Bearer "[7..] == "";
  }

  /** `"Bearer  x"` (two spaces) carries the empty token: the second field
      is the empty text between the two spaces. */
  lemma DoubleSpaceIsEmpty()
    ensures HeaderToken("Bearer  x") == ""
  {
    var rest := "Bearer  x"[7..];
    assert rest == " x" && rest[0] == ' ';
    IndexOfUnique(rest, ' ', 0);
  }

  /** `"Bearer a b"` carries `"a"`: only the second field is kept. */
  lemma ExtraFieldsDropped()
    ensures HeaderToken("Bearer a b") == "a"
  {
    var rest := "Bearer a b"[7..];
    assert rest == "a b" && rest[1] == ' ' && rest[..1] == "a";
    IndexOfUnique(rest, ' ', 1);
    assert FirstField(rest, ' ') == "a";
    assert Trimmed("a");
    assert Trim("a") == "a";
  }

  /** The `token` variable of `authMiddleware` after the `if`/`else if`
      chain: a missing header reads as `""`; a `"Bearer "` header decides
      alone, even when its token is empty; otherwise a truthy body token,
      then a truthy query token; otherwise `undefined`. */
  function ExtractToken(req: Request): (token: Option<string>)
    ensures StartsWith(req.authorization.GetOr(""), BearerPrefix) ==>
              token == Some(Trim(FirstField(req.authorization.GetOr("")[|BearerPrefix|..], ' ')))
    ensures token.None? <==>
              !StartsWith(req.authorization.GetOr(""), BearerPrefix) && !Truthy(req.bodyToken) && !Truthy(req.queryToken)
    ensures token.Some? && !StartsWith(req.authorization.GetOr(""), BearerPrefix) ==>
              Truthy(token) && (token == req.bodyToken || (token == req.queryToken && !Truthy(req.bodyToken)))
    ensures !StartsWith(req.authorization.GetOr(""), BearerPrefix) && Truthy(req.bodyToken) ==> token == req.bodyToken
  {
    var header := req.authorization.GetOr("");
    if StartsWith(header, BearerPrefix) then Some(HeaderToken(header))
    else if Truthy(req.bodyToken) then req.bodyToken
    else if Truthy(req.queryToken) then req.queryToken
    else None
  }

  /** `authMiddleware`: no token or an empty one gives the empty context
      without consulting `verify`; a non-empty token that `verify` rejects
      always throws, and one it accepts gives a context whose `user` is
      exactly the decoded payload. */
  function AuthMiddleware(req: Request, jwt: Jwt): (r: AuthResult)
    ensures r == Context(Anonymous) <==> !Truthy(ExtractToken(req))
    ensures r.AuthenticationError? <==> Truthy(ExtractToken(req)) && jwt.verify(ExtractToken(req).value).None?
    ensures r.AuthenticationError? ==> r.message == InvalidTokenMessage
    ensures r.Context? && r.ctx.user.Some? ==>
              Truthy(ExtractToken(req)) && jwt.verify(ExtractToken(req).value) == r.ctx.user
  {
    var token := ExtractToken(req);
    if !Truthy(token) then Context(Anonymous)
    else
      match jwt.verify(token.value)
      case Some(decoded) => Context(GraphQLContext(Some(decoded)))
      case None => AuthenticationError(InvalidTokenMessage)
  }

  /** `signToken`: signs a payload made of exactly the `_id`, `username`
      and `email` of its argument, with lifetime `expires` (default
      `"1h"`); such a token verifies back to that identity. */
  function SignToken(jwt: Jwt, user: JwtPayload, expires: string := DefaultLifetime): (token: string)
    ensures SignedTokensVerify(jwt) ==> jwt.verify(token) == Some(user)
    ensures CompactTokens(jwt) ==> token != "" && NoWhitespace(token)
  {
    jwt.sign(JwtPayload(user.id, user.username, user.email), expires)
  }

  /** Without an explicit lifetime, `signToken` signs the three claims
      of its argument with lifetime `"1h"`. */
  lemma SignTokenDefaultLifetime(jwt: Jwt, user: JwtPayload)
    ensures SignToken(jwt, user) == jwt.sign(JwtPayload(user.id, user.username, user.email), "1h")
  {
  }

  /** The oracle receives exactly the three claims of the argument and the
      lifetime the caller gave, so an explicit `expires` reaches `sign`
      unchanged. */
  lemma SignTokenForwardsClaims(jwt: Jwt, user: JwtPayload, expires: string)
    ensures SignToken(jwt, user, expires) == jwt.sign(user, expires)
  {
  }

  /** A `"Bearer "` header decides the token alone: the body and query
      tokens are never consulted, whatever they hold. */
  lemma BearerHeaderShadowsFallbacks(header: string, body1: Option<string>, query1: Option<string>,
                                     body2: Option<string>, query2: Option<string>)
    requires StartsWith(header, BearerPrefix)
    ensures ExtractToken(Request(Some(header), body1, query1)) == ExtractToken(Request(Some(header), body2, query2))
  {
  }

  /** A `"Bearer "` header with an empty token makes the request
      anonymous even when the body carries a token. */
  lemma EmptyBearerIsAnonymous(header: string, body: Option<string>, query: Option<string>, jwt: Jwt)
    requires StartsWith(header, BearerPrefix)
    requires Blank(FirstField(header[|BearerPrefix|..], ' '))
    ensures AuthMiddleware(Request(Some(header), body, query), jwt) == Context(Anonymous)
  {
  }

  /** A missing `authorization` header behaves as the empty header. */
  lemma MissingHeaderIsEmptyHeader(body: Option<string>, query: Option<string>, jwt: Jwt)
    ensures AuthMiddleware(Request(None, body, query), jwt) == AuthMiddleware(Request(Some(""), body, query), jwt)
  {
  }

  /** A token with no whitespace comes back unchanged from a
      `"Bearer "` header. */
  lemma BearerRoundTrip(token: string)
    requires NoWhitespace(token)
    ensures HeaderToken(BearerPrefix + token) == token
  {
    var header := BearerPrefix + token;
    assert header[|BearerPrefix|..] == token;
  }

  /** A token issued by `signToken` and presented as a bearer header
      authenticates the request as exactly the signed identity. */
  lemma SignedTokenAuthenticates(jwt: Jwt, user: JwtPayload, expires: string, body: Option<string>, query: Option<string>)
    requires SignedTokensVerify(jwt) && CompactTokens(jwt)
    ensures AuthMiddleware(Request(Some(BearerPrefix + SignToken(jwt, user, expires)), body, query), jwt)
            == Context(GraphQLContext(Some(user)))
  {
    var token := SignToken(jwt, user, expires);
    BearerRoundTrip(token);
    var req := Request(Some(BearerPrefix + token), body, query);
    assert ExtractToken(req) == Some(token);
  }
}
