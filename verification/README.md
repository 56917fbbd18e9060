# Book search: authentication boundary and saved-book contract

A Dafny model of the decision logic of a "search and save books" web
application: the server's request authenticator and token helper
(`authMiddleware`, `signToken`), the GraphQL resolvers over the users
collection (`me`, `addUser`, `login`, `saveBook`, `removeBook`, with the
`unauth()` error), the client's `authLink` header builder and the server's
`formatError` hook.

Every library call is an oracle passed in as a function value:

- jsonwebtoken, with the configured secret and the clock, is `Auth.Jwt`
  (`sign(payload, expiresIn)`, `verify(token)`). Two properties of it are
  predicates, and only the round-trip lemmas require them:
  `SignedTokensVerify` (a freshly signed token verifies to its payload) and
  `CompactTokens` (tokens are non-empty and have no whitespace).
- The password hashing of the user model's save hook is `hash`.
  `isCorrectPassword` is a function of the stored hash and the candidate.
- The id MongoDB assigns on `create` is a parameter `newId`.
- `NODE_ENV` is a parameter `nodeEnv`.
- The client's `localStorage.getItem('id_token')` is the parameter `stored`.

Modules, one per component:

- `Wrappers`: `Option` (`undefined`/`null`) and `Result` (a value or a thrown error).
- `JsString`: `startsWith`, `split` on one character (with its inverse `join`), `trim`, and truthiness.
- `Auth`: `JwtPayload`, `GraphQLContext`, token extraction, `authMiddleware` and `signToken`.
- `SavedBooks`: `Book`/`BookInput` and the array updates `$addToSet` and `$pull { bookId }`.
- `UserDirectory`: the users collection in natural order.
  - `findOne`/`findById` return the first match.
  - `findByIdAndUpdate` is one atomic step.
  - `create` rejects a duplicate `_id`, `username` or `email`; these unique
    indexes are assumed of the user model (see "Left out").
- `Resolvers`: the five resolvers.
  - A mutation returns a `Reply`: the collection afterwards and the result or thrown error.
- `Client`: `authLink`, plus the request the server receives from it.
- `Server`: `formatError` over JavaScript objects (`map<string, JsValue>`).
- `Session`: login, header, authentication and `me`, composed.

Behaviour of the code that a reader might not expect, modelled as written:

- `saveBook` deduplicates by whole-value equality (`$addToSet`), not by
  catalog id. Two descriptors with the same `bookId` and different
  titles are both stored (`SavedBooks.SameIdDifferentTitleBothStored`).
- A header starting with `"Bearer "` decides the token on its own. When
  its token is empty (`"Bearer "`, `"Bearer  x"`), the request is
  anonymous and the body and query tokens are not consulted.
- The schema comment on `me` says it returns null when unauthenticated.
  The resolver instead throws the `UNAUTHENTICATED` error.
- `formatError` removes top-level fields only. Anything nested inside
  `extensions` is kept (`Server.ProductionDropsOtherFields`).

## Model

| member | source | states |
|---|---|---|
| JsString.Split | Search-Engine/Develop/server/src/services/auth.ts:43 | `split(' ')` gives at least one field. It gives two or more exactly when the separator occurs. No field contains the separator, and joining the fields with it gives back the string. |
| JsString.SplitJoin | Search-Engine/Develop/server/src/services/auth.ts:43 | Split inverts join on separator-free fields, so the fields of a string are uniquely determined. |
| JsString.TrimStart | Search-Engine/Develop/server/src/services/auth.ts:43 | Only a blank prefix is removed. The result is a suffix of the input and does not start with whitespace. |
| JsString.TrimEnd | Search-Engine/Develop/server/src/services/auth.ts:43 | Only a blank suffix is removed. The result is a prefix of the input and does not end with whitespace. |
| JsString.FirstField | Search-Engine/Develop/server/src/services/auth.ts:43 | The first field of a split is a prefix of the string without the separator, and the separator follows it unless it is the whole string. |
| JsString.Trim | Search-Engine/Develop/server/src/services/auth.ts:43 | `trim()` returns the input with a blank prefix and a blank suffix removed (`BlankEndsOf`), and the result does not start or end with whitespace. The result is empty exactly when the input is blank, and an already trimmed string is unchanged. |
| JsString.TrimIdempotent | Search-Engine/Develop/server/src/services/auth.ts:43 | Trimming twice is trimming once. |
| Auth.HeaderToken | Search-Engine/Develop/server/src/services/auth.ts:42-43 | For a Bearer header, the token is the trimmed text between `"Bearer "` and the next space, or the end of the header. |
| Auth.BearerAloneIsEmpty | Search-Engine/Develop/server/src/services/auth.ts:43 | `"Bearer "` yields the empty token. |
| Auth.DoubleSpaceIsEmpty | Search-Engine/Develop/server/src/services/auth.ts:43 | `"Bearer  x"` yields the empty token. |
| Auth.ExtraFieldsDropped | Search-Engine/Develop/server/src/services/auth.ts:43 | `"Bearer a b"` yields `"a"`. |
| Auth.ExtractToken | Search-Engine/Develop/server/src/services/auth.ts:39-48 | A missing header is `""`. A Bearer header gives the trimmed text after `"Bearer "` up to the next space, even when that is empty. There is no token exactly when there is no Bearer header and neither the body nor the query token is truthy. Without a Bearer header, any token is truthy and comes from the body, or from the query only when the body token is not truthy; a truthy body token always wins. |
| Auth.BearerHeaderShadowsFallbacks | Search-Engine/Develop/server/src/services/auth.ts:42-48 | With a Bearer header, body and query tokens never affect the extracted token. |
| Auth.EmptyBearerIsAnonymous | Search-Engine/Develop/server/src/services/auth.ts:42-50 | A Bearer header whose token is blank gives the empty context, even when the body carries a token. |
| Auth.MissingHeaderIsEmptyHeader | Search-Engine/Develop/server/src/services/auth.ts:39 | An absent `authorization` header behaves as `""`. |
| Auth.AuthMiddleware | Search-Engine/Develop/server/src/services/auth.ts:50-58 | The context is empty exactly when no truthy token was extracted. It throws `Invalid or expired token` exactly when a non-empty token fails verification, so a bad token is never downgraded to anonymous. An accepted token gives `user` equal to the decoded payload. |
| Auth.SignToken | Search-Engine/Develop/server/src/services/auth.ts:65-75 | With an oracle whose signed tokens verify, the token verifies back to exactly the given identity. With an oracle producing compact tokens, it is non-empty and free of whitespace. |
| Auth.SignTokenForwardsClaims | Search-Engine/Develop/server/src/services/auth.ts:65-75 | `sign` receives exactly the three claims of the argument and the lifetime the caller gave, so an explicit `expires` reaches it unchanged. |
| Auth.SignTokenDefaultLifetime | Search-Engine/Develop/server/src/services/auth.ts:65-75 | Without an explicit lifetime, `signToken` hands the oracle the three claims of its argument and the lifetime `"1h"`. |
| Auth.BearerRoundTrip | Search-Engine/Develop/server/src/services/auth.ts:43 | A whitespace-free token placed after `"Bearer "` is extracted unchanged. |
| Auth.SignedTokenAuthenticates | Search-Engine/Develop/server/src/services/auth.ts:37-75 | A token from `signToken` sent as a Bearer header authenticates as exactly the signed identity. |
| SavedBooks.AddToSet | Search-Engine/Develop/server/src/schemas/resolvers.ts:91 | `$addToSet`: the book is present afterwards and existing elements keep their places. The array is unchanged exactly when a whole-value-equal book was present; otherwise the book is appended. |
| SavedBooks.AddToSetIdempotent | Search-Engine/Develop/server/src/schemas/resolvers.ts:91 | Adding the same descriptor twice equals adding it once. |
| SavedBooks.AddToSetKeepsNoDuplicates | Search-Engine/Develop/server/src/schemas/resolvers.ts:91 | An array without whole-value duplicates stays without them. |
| SavedBooks.SameIdDifferentTitleBothStored | Search-Engine/Develop/server/src/schemas/resolvers.ts:91 | Deduplication is not keyed on `bookId`: two descriptors with the same id and different titles are both stored. |
| SavedBooks.Pull | Search-Engine/Develop/server/src/schemas/resolvers.ts:112 | `$pull { bookId }`: an element survives exactly when it was present and has another `bookId`. |
| SavedBooks.PullConcat | Search-Engine/Develop/server/src/schemas/resolvers.ts:112 | Removal acts on each part of a concatenation separately, so surviving entries keep their relative order. |
| SavedBooks.PullAbsent | Search-Engine/Develop/server/src/schemas/resolvers.ts:112 | Removal leaves the array unchanged exactly when no entry has that `bookId`. |
| SavedBooks.PullIdempotent | Search-Engine/Develop/server/src/schemas/resolvers.ts:112 | Removing twice equals removing once. |
| SavedBooks.PullAfterAddToSet | Search-Engine/Develop/server/src/schemas/resolvers.ts:88-117 | Removing the id of a book just saved gives the same array as removing it without the save. |
| UserDirectory.Find | Search-Engine/Develop/server/src/schemas/resolvers.ts:60-62 | The position found is the first document matching the filter. None is found exactly when no document matches. |
| UserDirectory.FindUnique | Search-Engine/Develop/server/src/schemas/resolvers.ts:27 | Under the unique indexes, the document matching an `_id`, `email` or `username` filter is the one found. |
| UserDirectory.FindOne | Search-Engine/Develop/server/src/schemas/resolvers.ts:27 | `findOne`/`findById` returns a matching stored document, or null exactly when none matches. |
| UserDirectory.FindByIdAndUpdate | Search-Engine/Develop/server/src/schemas/resolvers.ts:88-97 | Only the `savedBooks` of the document with that `_id` change; every other document and field is untouched. The returned record is the post-update one. Null is returned, with nothing changed, exactly when no document has the id. |
| UserDirectory.Create | Search-Engine/Develop/server/src/schemas/resolvers.ts:41-45 | `create` fails with a duplicate-key error exactly when the `_id`, `username` or `email` is taken. Otherwise it appends a new user with no saved books. |
| UserDirectory.CreatePreservesWellFormed | Search-Engine/Develop/server/src/schemas/resolvers.ts:41-45 | A successful `create` keeps `_id`, `username` and `email` unique. |
| UserDirectory.UpdatePreservesWellFormed | Search-Engine/Develop/server/src/schemas/resolvers.ts:88-117 | Array updates keep `_id`, `username` and `email` unique. |
| Resolvers.Me | Search-Engine/Develop/server/src/schemas/resolvers.ts:24-28 | Throws the `UNAUTHENTICATED` error exactly when `context.user` is absent. Otherwise returns the stored document with the context's `_id`, or null when there is none. |
| Resolvers.AddUser | Search-Engine/Develop/server/src/schemas/resolvers.ts:41-53 | A duplicate is thrown and changes nothing. On success the new user, with hashed password and no books, is appended. The returned token is `signToken` over that user's `_id`, `username` and `email`, returned with that same record. |
| Resolvers.LoginLookup | Search-Engine/Develop/server/src/schemas/resolvers.ts:60-62 | The user found has the given email. A username match is used only when no document has that email. Nothing is found exactly when neither field matches. |
| Resolvers.Login | Search-Engine/Develop/server/src/schemas/resolvers.ts:60-76 | Succeeds exactly when the lookup finds a user whose stored password matches. It then returns a token signed over that user's claims, with the user. Every failure is `Incorrect credentials` with code `UNAUTHENTICATED`. |
| Resolvers.SaveBook | Search-Engine/Develop/server/src/schemas/resolvers.ts:84-97 | Without identity it throws `UNAUTHENTICATED` and the collection is unchanged. Otherwise only the acting user's `savedBooks` becomes `$addToSet` of the input. The result is null exactly when no document has the context's `_id`; otherwise it is that document after the update, as stored, and contains the input. |
| Resolvers.RemoveBook | Search-Engine/Develop/server/src/schemas/resolvers.ts:105-117 | Without identity it throws `UNAUTHENTICATED` and the collection is unchanged. Otherwise only the acting user's `savedBooks` loses every entry with that `bookId`. The result is null exactly when no document has the context's `_id`; otherwise it is that document after `$pull`, as stored, and has no such entry. |
| Resolvers.LoginFailuresIdentical | Search-Engine/Develop/server/src/schemas/resolvers.ts:64-68 | Any two failed logins produce the identical error, so an unknown user and a wrong password look the same. |
| Resolvers.EmailMatchShadowsUsername | Search-Engine/Develop/server/src/schemas/resolvers.ts:60-68 | An email match with a wrong password fails, even when another user has that name as username and the password is right for them. |
| Resolvers.RegisterThenLogin | Search-Engine/Develop/server/src/schemas/resolvers.ts:41-76 | Right after `addUser`, `login` with the same email and password succeeds as the new user, given that the password check accepts the hash of the password. |
| Resolvers.MutationsPreserveWellFormed | Search-Engine/Develop/server/src/schemas/resolvers.ts:84-117 | `saveBook` and `removeBook` keep the unique indexes. |
| Resolvers.SaveBookIdempotent | Search-Engine/Develop/server/src/schemas/resolvers.ts:88-97 | Saving the same descriptor twice leaves the collection as saving it once did, with the same reply. |
| Resolvers.RemoveBookIdempotent | Search-Engine/Develop/server/src/schemas/resolvers.ts:109-117 | Removing twice leaves the collection as removing once did, with the same reply. |
| Resolvers.SaveBookAlone | Search-Engine/Develop/server/src/schemas/resolvers.ts:84-97 | For the only user of a collection, `saveBook` returns that user with `$addToSet` applied, and that is the new collection. |
| Resolvers.RemoveBookAlone | Search-Engine/Develop/server/src/schemas/resolvers.ts:105-117 | For the only user of a collection, `removeBook` returns that user with `$pull` applied, and that is the new collection. |
| Resolvers.SaveTwiceRemoveTwice | Search-Engine/Develop/server/src/schemas/resolvers.ts:84-117 | For a single user with no saved books, saving a book twice and removing it twice gives saved lists of 1, 1, 0 and 0 entries, each step returning the stored user. |
| Resolvers.SignUpSaveRemoveScenario | Search-Engine/Develop/server/src/schemas/resolvers.ts:33-118 | Sign up alice, then save `OL1M` twice and remove it twice. The saved list has 1, 1, 0 and 0 entries, and no step fails. |
| Client.AuthLink | Search-Engine/Develop/client/src/App.tsx:24-33 | Every incoming header is kept and only `authorization` is set. It is `"Bearer " + t` for a stored non-empty `t`, and `""` otherwise. |
| Client.StoredTokenRoundTrip | Search-Engine/Develop/client/src/App.tsx:30 | The server extracts exactly the stored non-empty, whitespace-free token, whatever the body and query carry. |
| Client.NoStoredTokenFallsThrough | Search-Engine/Develop/client/src/App.tsx:30 | Without a stored token, the `""` header is not Bearer-prefixed. The server then extracts from the body and query as if no header were sent. |
| Server.FormatError | Search-Engine/Develop/server/src/server.ts:34-41 | In production the result has exactly `message`, `locations`, `path` and `extensions`, each equal to the input's. Otherwise it is the input unchanged. |
| Server.FormatErrorIdempotent | Search-Engine/Develop/server/src/server.ts:34-41 | Formatting a formatted error changes nothing. |
| Server.ErrorCodeSurvives | Search-Engine/Develop/server/src/server.ts:37-38 | `extensions`, and so `extensions.code` such as `UNAUTHENTICATED`, survives formatting. |
| Server.ProductionDropsOtherFields | Search-Engine/Develop/server/src/server.ts:36-38 | In production every other top-level field is dropped, while `extensions` is passed on whole. |
| Session.LoginThenMe | Search-Engine/Develop/server/src/services/auth.ts:37-59 | After a successful login, a request carrying the stored token authenticates as exactly the logged-in user, and `me` returns that user's document. |

## Left out

- JWT cryptography, signatures and expiry: `sign`/`verify` are an oracle. The clock and the `"1h"` lifetime are opaque strings passed to the oracle.
- The registered claims (`iat`, `exp`) that jsonwebtoken adds to a decoded payload. The context's `user` is modelled as the three identity claims only.
- The signing secret, including a missing `JWT_SECRET_KEY`: it lives inside the oracle.
- Non-string body tokens (numbers, objects) and array-valued query parameters: body and query tokens are modelled as optional strings.
- Repeated `authorization` headers, which the HTTP layer joins with commas.
- Header-name case folding: the client and server headers are one map keyed by the exact name.
- The user model file is not part of this model. Its password hashing is the `hash` oracle, `isCorrectPassword` is an oracle, and any field validation beyond the unique indexes is not modelled.
- SavedBooks.AddToSet: compares `Book` values in which an explicit JSON `null` and an omitted field are the same `None`. `$addToSet` tells them apart, so `{bookId: "x"}` and `{bookId: "x", title: null}` are two elements in the database but one in the model. The `authors` list also cannot hold the `null` items the schema's `[String]` type allows.
- The unique indexes on `username` and `email`, and the duplicate-key rejection of `create`, are an assumption about the user model, which is not part of this model. The resolvers rely on them only through `findOne` returning the first match.
- Whether the persistence layer adds its own per-element `_id` to saved books: stored elements are the input values as given.
- Mongoose casting errors, such as a malformed `_id` passed to `findById`.
- Connection failures and every other database error except duplicate keys.
- The GraphQL layer around the resolvers, including the error raised when `saveBook`/`removeBook` return null for the non-null `User!` type.
- The `bookCount` field of the schema's `User` type, which the user model computes (not shown).
- `async`/`await` and concurrency: each `findByIdAndUpdate` is one atomic step.
- Server bootstrap: Express middleware, static assets, the catch-all route, `app.listen`, the database `open` event.
- The client's React components and Apollo cache updates.
- Floating-point numbers in error objects: `JsValue` numbers are integers.
