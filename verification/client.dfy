/** The client's `authLink` (client/src/App.tsx): before every request it
    sets the `authorization` header from the token kept in local storage. */
module Client {
  import opened Wrappers
  import opened JsString
  import opened Auth

  /** Outgoing request headers; absent headers are the empty map. */
  type Headers = map<string, string>

  const AuthorizationKey: string := "authorization"

  /** `authLink`: all incoming headers are kept and only `authorization`
      is set or overwritten, to `"Bearer " + token` when a non-empty token
      is stored and to `""` otherwise. */
  function AuthLink(headers: Headers, stored: Option<string>): (out: Headers)
    ensures out.Keys == headers.Keys + {AuthorizationKey}
    ensures forall k :: k in headers && k != AuthorizationKey ==> out[k] == headers[k]
    ensures Truthy(stored) ==> out[AuthorizationKey] == BearerPrefix + stored.value
    ensures !Truthy(stored) ==> out[AuthorizationKey] == ""
  {
    headers[AuthorizationKey := if Truthy(stored) then BearerPrefix + stored.value else ""]
  }

  /** The request the server's authenticator sees for outgoing headers
      and the body and query tokens sent along with them. */
  function Received(headers: Headers, bodyToken: Option<string>, queryToken: Option<string>): Request {
    Request(if AuthorizationKey in headers then Some(headers[AuthorizationKey]) else None, bodyToken, queryToken)
  }

  /** A stored token without whitespace reaches the server unchanged,
      whatever the body and query carry. */
  lemma StoredTokenRoundTrip(headers: Headers, token: string, bodyToken: Option<string>, queryToken: Option<string>)
    requires token != "" && NoWhitespace(token)
    ensures ExtractToken(Received(AuthLink(headers, Some(token)), bodyToken, queryToken)) == Some(token)
  {
    BearerRoundTrip(token);
  }

  /** With no stored token the `""` header is not a bearer header, so the
      server falls through to the body and query tokens exactly as if no
      header had been sent. */
  lemma NoStoredTokenFallsThrough(headers: Headers, stored: Option<string>, bodyToken: Option<string>, queryToken: Option<string>)
    requires !Truthy(stored)
    ensures ExtractToken(Received(AuthLink(headers, stored), bodyToken, queryToken))
            == ExtractToken(Request(None, bodyToken, queryToken))
  {
  }
}
