/** The GraphQL resolvers (schemas/resolvers.ts) over the users
    collection: the `me` query and the `addUser`, `login`, `saveBook` and
    `removeBook` mutations. Password hashing and checking are oracles. */
module Resolvers {
  import opened Wrappers
  import opened SavedBooks
  import opened UserDirectory
  import opened Auth

  /** What a resolver throws: a `GraphQLError` with a message and an
      `extensions.code`, or an error of the collection passed through. */
  datatype ApiError = GraphQLError(message: string, code: string) | DirectoryError(cause: DbError)

  /** The `Auth` object `addUser` and `login` return. */
  datatype AuthPayload = AuthPayload(token: string, user: User)

  /** A resolver call: the collection afterwards, and what it returns or throws. */
  datatype Reply<+T> = Reply(dir: Directory, result: Result<T, ApiError>)

  const UnauthenticatedCode: string := "UNAUTHENTICATED"

  /** The error `unauth()` builds for a protected operation without an identity. */
  const Unauthenticated: ApiError := GraphQLError("You must be logged in", UnauthenticatedCode)

  /** The one error `login` throws, whatever went wrong. */
  const IncorrectCredentials: ApiError := GraphQLError("Incorrect credentials", UnauthenticatedCode)

  /** The claims `signToken` is called with for a stored user. */
  function Claims(u: User): JwtPayload {
    JwtPayload(u.id, u.username, u.email)
  }

  /** Query `me`: needs an identity; returns the stored document with the
      identity's `_id`, or `null` when there is none. */
  function Me(ctx: GraphQLContext, dir: Directory): (r: Result<Option<User>, ApiError>)
    ensures ctx.user.None? <==> r == Failure(Unauthenticated)
    ensures ctx.user.Some? ==> r.Success?
    ensures ctx.user.Some? && r.value.Some? ==> r.value.value in dir && r.value.value.id == ctx.user.value.id
    ensures ctx.user.Some? && r.value.None? ==> forall u :: u in dir ==> u.id != ctx.user.value.id
  {
    if ctx.user.None? then Failure(Unauthenticated)
    else Success(FindOne(dir, ById(ctx.user.value.id)))
  }

  /** Mutation `addUser`: creates the document (with the hashed password
      and the `_id` the collection assigns) and returns a token signed
      over the new user's claims together with that user. A rejected
      `create` is thrown as is and changes nothing. */
  function AddUser(dir: Directory, newId: string, username: string, email: string, password: string,
                   jwt: Jwt, hash: string -> string): (r: Reply<AuthPayload>)
    ensures r.result.Failure? <==> Clashes(dir, newId, username, email)
    ensures r.result.Failure? ==> r.dir == dir && r.result.error == DirectoryError(DuplicateKey)
    ensures r.result.Success? ==>
              var user := r.result.value.user;
              && user == User(newId, username, email, hash(password), [])
              && r.dir == dir + [user]
              && r.result.value.token == SignToken(jwt, Claims(user))
  {
    match Create(dir, newId, username, email, hash(password))
    case Failure(e) => Reply(dir, Failure(DirectoryError(e)))
    case Success((dir', user)) =>
      Reply(dir', Success(AuthPayload(SignToken(jwt, Claims(user)), user)))
  }

  /** The lookup of `login`: the document whose `email` is the given name
      and, only when no document has that email, the one whose `username`
      is the name. */
  function LoginLookup(dir: Directory, name: string): (r: Option<User>)
    ensures r.None? <==> forall u :: u in dir ==> u.email != name && u.username != name
    ensures r.Some? ==> r.value in dir
    ensures r.Some? ==> r.value.email == name || (r.value.username == name && forall u :: u in dir ==> u.email != name)
  {
    match FindOne(dir, ByEmail(name))
    case Some(u) => Some(u)
    case None => FindOne(dir, ByUsername(name))
  }

  /** Mutation `login`: succeeds exactly when the lookup finds a document
      whose stored password matches, and then returns a token signed over
      that user's claims with the user; every failure is the same
      `IncorrectCredentials` error. */
  function Login(dir: Directory, email: string, password: string, jwt: Jwt,
                 isCorrectPassword: (string, string) -> bool): (r: Result<AuthPayload, ApiError>)
    ensures r.Failure? ==> r.error == IncorrectCredentials
    ensures r.Success? <==> LoginLookup(dir, email).Some? && isCorrectPassword(LoginLookup(dir, email).value.password, password)
    ensures r.Success? ==> r.value.user == LoginLookup(dir, email).value
    ensures r.Success? ==> r.value.token == SignToken(jwt, Claims(r.value.user))
  {
    match LoginLookup(dir, email)
    case None => Failure(IncorrectCredentials)
    case Some(user) =>
      if !isCorrectPassword(user.password, password) then Failure(IncorrectCredentials)
      else Success(AuthPayload(SignToken(jwt, Claims(user)), user))
  }

  /** Mutation `saveBook`: needs an identity, otherwise throws and changes
      nothing. With one, only the acting user's `savedBooks` changes: the
      input is added unless a whole-value-equal book is already there, and
      the updated document is returned (`null` if the user is gone). */
  function SaveBook(ctx: GraphQLContext, dir: Directory, input: BookInput): (r: Reply<Option<User>>)
    ensures ctx.user.None? <==> r == Reply(dir, Failure(Unauthenticated))
    ensures ctx.user.Some? ==> r.result.Success?
    ensures |r.dir| == |dir|
    ensures ctx.user.Some? ==> forall i :: 0 <= i < |dir| ==>
              r.dir[i] == dir[i]
              || (dir[i].id == ctx.user.value.id && r.dir[i] == dir[i].(savedBooks := AddToSet(dir[i].savedBooks, input)))
    ensures ctx.user.Some? ==> (r.result.value.None? <==> forall u :: u in dir ==> u.id != ctx.user.value.id)
    ensures ctx.user.Some? && r.result.value.Some? ==>
              r.result.value.value in r.dir && r.result.value.value.id == ctx.user.value.id && input in r.result.value.value.savedBooks
    ensures ctx.user.Some? && r.result.value.Some? ==>
              exists i :: 0 <= i < |dir| && dir[i].id == ctx.user.value.id && r.dir[i] == r.result.value.value
                          && r.result.value.value == dir[i].(savedBooks := AddToSet(dir[i].savedBooks, input))
    ensures ctx.user.Some? && r.result.value.None? ==> r.dir == dir
  {
    if ctx.user.None? then Reply(dir, Failure(Unauthenticated))
    else
      var (dir', user) := FindByIdAndUpdate(dir, ctx.user.value.id, AddToSetBook(input));
      Reply(dir', Success(user))
  }

  /** Mutation `removeBook`: needs an identity, otherwise throws and
      changes nothing. With one, only the acting user's `savedBooks`
      changes: every entry with that `bookId` is dropped, and the updated
      document is returned (`null` if the user is gone). */
  function RemoveBook(ctx: GraphQLContext, dir: Directory, bookId: string): (r: Reply<Option<User>>)
    ensures ctx.user.None? <==> r == Reply(dir, Failure(Unauthenticated))
    ensures ctx.user.Some? ==> r.result.Success?
    ensures |r.dir| == |dir|
    ensures ctx.user.Some? ==> forall i :: 0 <= i < |dir| ==>
              r.dir[i] == dir[i]
              || (dir[i].id == ctx.user.value.id && r.dir[i] == dir[i].(savedBooks := Pull(dir[i].savedBooks, bookId)))
    ensures ctx.user.Some? ==> (r.result.value.None? <==> forall u :: u in dir ==> u.id != ctx.user.value.id)
    ensures ctx.user.Some? && r.result.value.Some? ==>
              && r.result.value.value in r.dir && r.result.value.value.id == ctx.user.value.id
              && forall b :: b in r.result.value.value.savedBooks ==> b.bookId != bookId
    ensures ctx.user.Some? && r.result.value.Some? ==>
              exists i :: 0 <= i < |dir| && dir[i].id == ctx.user.value.id && r.dir[i] == r.result.value.value
                          && r.result.value.value == dir[i].(savedBooks := Pull(dir[i].savedBooks, bookId))
    ensures ctx.user.Some? && r.result.value.None? ==> r.dir == dir
  {
    if ctx.user.None? then Reply(dir, Failure(Unauthenticated))
    else
      var (dir', user) := FindByIdAndUpdate(dir, ctx.user.value.id, PullBook(bookId));
      Reply(dir', Success(user))
  }

  /** `login` leaks nothing about why it failed: an unknown name and a
      wrong password give the identical error. */
  lemma LoginFailuresIdentical(dir1: Directory, name1: string, password1: string,
                               dir2: Directory, name2: string, password2: string,
                               jwt: Jwt, isCorrectPassword: (string, string) -> bool)
    requires Login(dir1, name1, password1, jwt, isCorrectPassword).Failure?
    requires Login(dir2, name2, password2, jwt, isCorrectPassword).Failure?
    ensures Login(dir1, name1, password1, jwt, isCorrectPassword) == Login(dir2, name2, password2, jwt, isCorrectPassword)
  {
  }

  /** An email match is final: when the password is wrong for the user
      with that email, `login` fails even though another user has that
      name as username and the password is right for them. */
  lemma EmailMatchShadowsUsername(dir: Directory, name: string, password: string, jwt: Jwt,
                                  isCorrectPassword: (string, string) -> bool, i: nat, j: nat)
    requires WellFormed(dir)
    requires i < |dir| && dir[i].email == name && !isCorrectPassword(dir[i].password, password)
    requires j < |dir| && dir[j].username == name && isCorrectPassword(dir[j].password, password)
    ensures Login(dir, name, password, jwt, isCorrectPassword) == Failure(IncorrectCredentials)
  {
    FindUnique(dir, ByEmail(name), i);
  }

  /** Right after `addUser`, `login` with the same email and password
      succeeds as the new user, provided the password check accepts what
      the hash produced from that password. */
  lemma RegisterThenLogin(dir: Directory, newId: string, username: string, email: string, password: string,
                          jwt: Jwt, hash: string -> string, isCorrectPassword: (string, string) -> bool)
    requires WellFormed(dir)
    requires isCorrectPassword(hash(password), password)
    requires AddUser(dir, newId, username, email, password, jwt, hash).result.Success?
    ensures var r := AddUser(dir, newId, username, email, password, jwt, hash);
            var l := Login(r.dir, email, password, jwt, isCorrectPassword);
            l.Success? && l.value.user == r.result.value.user
  {
    var r := AddUser(dir, newId, username, email, password, jwt, hash);
    CreatePreservesWellFormed(dir, newId, username, email, hash(password));
    FindUnique(r.dir, ByEmail(email), |dir|);
  }

  /** Every mutation keeps the unique indexes intact. */
  lemma MutationsPreserveWellFormed(ctx: GraphQLContext, dir: Directory, input: BookInput, bookId: string)
    requires WellFormed(dir)
    ensures WellFormed(SaveBook(ctx, dir, input).dir)
    ensures WellFormed(RemoveBook(ctx, dir, bookId).dir)
  {
    if ctx.user.Some? {
      UpdatePreservesWellFormed(dir, ctx.user.value.id, AddToSetBook(input));
      UpdatePreservesWellFormed(dir, ctx.user.value.id, PullBook(bookId));
    }
  }

  /** Saving twice is saving once, for the whole collection. */
  lemma SaveBookIdempotent(ctx: GraphQLContext, dir: Directory, input: BookInput)
    requires WellFormed(dir)
    ensures var once := SaveBook(ctx, dir, input);
            SaveBook(ctx, once.dir, input) == once
  {
    if ctx.user.Some? {
      var id := ctx.user.value.id;
      match Find(dir, ById(id))
      case None =>
      case Some(k) =>
        var once := SaveBook(ctx, dir, input);
        UpdatePreservesWellFormed(dir, id, AddToSetBook(input));
        FindUnique(once.dir, ById(id), k);
        AddToSetIdempotent(dir[k].savedBooks, input);
        assert once.dir[k := once.dir[k]] == once.dir;
    }
  }

  /** Removing twice is removing once, for the whole collection. */
  lemma RemoveBookIdempotent(ctx: GraphQLContext, dir: Directory, bookId: string)
    requires WellFormed(dir)
    ensures var once := RemoveBook(ctx, dir, bookId);
            RemoveBook(ctx, once.dir, bookId) == once
  {
    if ctx.user.Some? {
      var id := ctx.user.value.id;
      match Find(dir, ById(id))
      case None =>
      case Some(k) =>
        var once := RemoveBook(ctx, dir, bookId);
        UpdatePreservesWellFormed(dir, id, PullBook(bookId));
        FindUnique(once.dir, ById(id), k);
        PullIdempotent(dir[k].savedBooks, bookId);
        assert once.dir[k := once.dir[k]] == once.dir;
    }
  }

  /** `saveBook` by the only user of a collection updates that user. */
  lemma SaveBookAlone(u: User, input: BookInput)
    ensures var u' := u.(savedBooks := AddToSet(u.savedBooks, input));
            SaveBook(GraphQLContext(Some(Claims(u))), [u], input) == Reply([u'], Success(Some(u')))
  {
    assert Find([u], ById(u.id)) == Some(0);
  }

  /** `removeBook` by the only user of a collection updates that user. */
  lemma RemoveBookAlone(u: User, bookId: string)
    ensures var u' := u.(savedBooks := Pull(u.savedBooks, bookId));
            RemoveBook(GraphQLContext(Some(Claims(u))), [u], bookId) == Reply([u'], Success(Some(u')))
  {
    assert Find([u], ById(u.id)) == Some(0);
  }

  /** Starting from a single user with no saved books: save a book, save
      it again, remove it, remove it again. The saved list has one entry
      after each save and none after each removal, and no step fails. */
  lemma SaveTwiceRemoveTwice(user: User, book: Book)
    requires user.savedBooks == []
    ensures var ctx := GraphQLContext(Some(Claims(user)));
            var saved1 := SaveBook(ctx, [user], book);
            var saved2 := SaveBook(ctx, saved1.dir, book);
            var removed1 := RemoveBook(ctx, saved2.dir, book.bookId);
            var removed2 := RemoveBook(ctx, removed1.dir, book.bookId);
            && saved1.result == Success(Some(saved1.dir[0])) && |saved1.dir[0].savedBooks| == 1
            && saved2.result == Success(Some(saved2.dir[0])) && |saved2.dir[0].savedBooks| == 1
            && removed1.result == Success(Some(removed1.dir[0])) && |removed1.dir[0].savedBooks| == 0
            && removed2.result == Success(Some(removed2.dir[0])) && |removed2.dir[0].savedBooks| == 0
  {
    var withBook := user.(savedBooks := [book]);
    assert Claims(withBook) == Claims(user);
    SaveBookAlone(user, book);
    SaveBookAlone(withBook, book);
    assert Pull([book], book.bookId) == [];
    RemoveBookAlone(withBook, book.bookId);
    RemoveBookAlone(user, book.bookId);
  }

  /** Register a user, save a book, save it again, remove it, remove it
      again: the saved list has one entry after each save and none after
      each removal, and no step fails. */
  lemma SignUpSaveRemoveScenario(jwt: Jwt, hash: string -> string, book: Book)
    requires book.bookId == "OL1M" && book.title == Some("Foo")
    ensures var signedUp := AddUser([], "u1", "alice", "alice@example.com", "secret123", jwt, hash);
            && signedUp.result.Success?
            && signedUp.result.value.user.savedBooks == []
            && var ctx := GraphQLContext(Some(Claims(signedUp.result.value.user)));
            var saved1 := SaveBook(ctx, signedUp.dir, book);
            var saved2 := SaveBook(ctx, saved1.dir, book);
            var removed1 := RemoveBook(ctx, saved2.dir, "OL1M");
            var removed2 := RemoveBook(ctx, removed1.dir, "OL1M");
            && saved1.result == Success(Some(saved1.dir[0])) && |saved1.dir[0].savedBooks| == 1
            && saved2.result == Success(Some(saved2.dir[0])) && |saved2.dir[0].savedBooks| == 1
            && removed1.result == Success(Some(removed1.dir[0])) && |removed1.dir[0].savedBooks| == 0
            && removed2.result == Success(Some(removed2.dir[0])) && |removed2.dir[0].savedBooks| == 0
  {
    var signedUp := AddUser([], "u1", "alice", "alice@example.com", "secret123", jwt, hash);
    assert !Clashes([], "u1", "alice", "alice@example.com");
    var user := signedUp.result.value.user;
    assert signedUp.dir == [user] && user.savedBooks == [];
    SaveTwiceRemoveTwice(user, book);
  }
}
