/** A whole round of the authentication boundary: a user logs in, the
    client stores the token and attaches it with `authLink`, the server's
    `authMiddleware` rebuilds the context, and `me` answers with the user. */
module Session {
  import opened Wrappers
  import opened UserDirectory
  import opened Auth
  import opened Resolvers
  import opened Client

  /** After a successful `login`, the next request carrying the stored
      token authenticates as exactly the logged-in user, and `me` returns
      that user's document. */
  lemma LoginThenMe(dir: Directory, name: string, password: string, jwt: Jwt,
                    isCorrectPassword: (string, string) -> bool,
                    headers: Headers, bodyToken: Option<string>, queryToken: Option<string>)
    requires WellFormed(dir)
    requires SignedTokensVerify(jwt) && CompactTokens(jwt)
    requires Login(dir, name, password, jwt, isCorrectPassword).Success?
    ensures var auth := Login(dir, name, password, jwt, isCorrectPassword).value;
            var req := Received(AuthLink(headers, Some(auth.token)), bodyToken, queryToken);
            && AuthMiddleware(req, jwt) == Context(GraphQLContext(Some(Claims(auth.user))))
            && Me(GraphQLContext(Some(Claims(auth.user))), dir) == Success(Some(auth.user))
  {
    var auth := Login(dir, name, password, jwt, isCorrectPassword).value;
    StoredTokenRoundTrip(headers, auth.token, bodyToken, queryToken);
    var i :| 0 <= i < |dir| && dir[i] == auth.user;
    FindUnique(dir, ById(auth.user.id), i);
  }
}
