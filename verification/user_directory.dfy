/** The users collection as the resolvers see it through Mongoose:
    `create`, `findOne`, `findById` and `findByIdAndUpdate` with an
    array update on `savedBooks`. Documents are kept in natural order, so
    `findOne` returns the first match. */
module UserDirectory {
  import opened Wrappers
  import opened SavedBooks

  /** A stored user document. `password` holds what the model's save hook
      stored (a hash), never the plaintext given at sign-up. */
  datatype User = User(id: string, username: string, email: string, password: string, savedBooks: seq<Book>)

  /** The users collection, in natural order. */
  type Directory = seq<User>

  /** The query filters the resolvers use: `{ _id }`, `{ email }`, `{ username }`. */
  datatype Filter = ById(id: string) | ByEmail(email: string) | ByUsername(username: string)

  /** The array updates the resolvers send: `$addToSet` and `$pull { bookId }`. */
  datatype Update = AddToSetBook(book: Book) | PullBook(bookId: string)

  /** Errors the collection raises on `create`: a unique index is violated. */
  datatype DbError = DuplicateKey

  predicate Matches(u: User, f: Filter) {
    match f
    case ById(id) => u.id == id
    case ByEmail(email) => u.email == email
    case ByUsername(username) => u.username == username
  }

  /** The unique indexes: no two documents share an `_id`, a `username`
      or an `email`. */
  predicate WellFormed(dir: Directory) {
    forall i, j :: 0 <= i < j < |dir| ==>
      && dir[i].id != dir[j].id
      && dir[i].username != dir[j].username
      && dir[i].email != dir[j].email
  }

  /** Position of the first document matching `f`, if any. */
  function Find(dir: Directory, f: Filter): (r: Option<nat>)
    ensures r.Some? ==> r.value < |dir| && Matches(dir[r.value], f)
    ensures r.Some? ==> forall j :: 0 <= j < r.value ==> !Matches(dir[j], f)
    ensures r.None? <==> forall j :: 0 <= j < |dir| ==> !Matches(dir[j], f)
  {
    if |dir| == 0 then None
    else if Matches(dir[0], f) then Some(0)
    else
      match Find(dir[1..], f)
      case None => None
      case Some(i) => Some(i + 1)
  }

  /** In a well-formed collection every filter the resolvers use matches
      at most one document, so `Find` locates exactly that one. */
  lemma FindUnique(dir: Directory, f: Filter, i: nat)
    requires WellFormed(dir)
    requires i < |dir| && Matches(dir[i], f)
    ensures Find(dir, f) == Some(i)
  {
  }

  /** `findOne(filter)` and `findById(id)`: the first matching document,
      or `null` when none matches. */
  function FindOne(dir: Directory, f: Filter): (r: Option<User>)
    ensures r.Some? ==> r.value in dir && Matches(r.value, f)
    ensures r.None? <==> forall u :: u in dir ==> !Matches(u, f)
  {
    match Find(dir, f)
    case None => None
    case Some(i) => Some(dir[i])
  }

  /** The saved-book array after an update. */
  function ApplyUpdate(books: seq<Book>, upd: Update): seq<Book> {
    match upd
    case AddToSetBook(b) => AddToSet(books, b)
    case PullBook(id) => Pull(books, id)
  }

  /** `findByIdAndUpdate(id, update, { new: true })` as one atomic step:
      the first document with that `_id` gets its `savedBooks` updated and
      is returned as it is after the update; every other document, and
      every other field, is left alone. With no such document nothing
      changes and the result is `null`. */
  function FindByIdAndUpdate(dir: Directory, id: string, upd: Update): (r: (Directory, Option<User>))
    ensures |r.0| == |dir|
    ensures forall i :: 0 <= i < |dir| ==>
              r.0[i] == dir[i] || (dir[i].id == id && r.0[i] == dir[i].(savedBooks := ApplyUpdate(dir[i].savedBooks, upd)))
    ensures r.1.None? <==> forall u :: u in dir ==> u.id != id
    ensures r.1.None? ==> r.0 == dir
    ensures r.1.Some? ==> r.1.value in r.0 && r.1.value.id == id
    ensures r.1.Some? ==> exists i :: 0 <= i < |dir| && dir[i].id == id && r.0[i] == r.1.value
                                      && r.1.value == dir[i].(savedBooks := ApplyUpdate(dir[i].savedBooks, upd))
  {
    match Find(dir, ById(id))
    case None => (dir, None)
    case Some(k) =>
      var u := dir[k].(savedBooks := ApplyUpdate(dir[k].savedBooks, upd));
      (dir[k := u], Some(u))
  }

  /** Some document already holds this `_id`, `username` or `email`. */
  predicate Clashes(dir: Directory, id: string, username: string, email: string) {
    exists u :: u in dir && (u.id == id || u.username == username || u.email == email)
  }

  /** `User.create({ username, email, password })` with a fresh `_id` and
      the stored form of the password: rejected with a duplicate-key error
      when a unique index would be violated, otherwise the new document,
      with no saved books, is appended. */
  function Create(dir: Directory, id: string, username: string, email: string, password: string)
    : (r: Result<(Directory, User), DbError>)
    ensures r.Failure? <==> Clashes(dir, id, username, email)
    ensures r.Success? ==> r.value.1 == User(id, username, email, password, []) && r.value.0 == dir + [r.value.1]
  {
    if Clashes(dir, id, username, email) then Failure(DuplicateKey)
    else
      var u := User(id, username, email, password, []);
      Success((dir + [u], u))
  }

  /** `create` keeps the unique indexes intact. */
  lemma CreatePreservesWellFormed(dir: Directory, id: string, username: string, email: string, password: string)
    requires WellFormed(dir)
    requires Create(dir, id, username, email, password).Success?
    ensures WellFormed(Create(dir, id, username, email, password).value.0)
  {
    var d := Create(dir, id, username, email, password).value.0;
    forall i, j | 0 <= i < j < |d|
      ensures d[i].id != d[j].id && d[i].username != d[j].username && d[i].email != d[j].email
    {
      if j == |dir| {
        assert d[i] in dir;
      }
    }
  }

  /** An array update touches no indexed field, so it keeps the unique
      indexes intact. */
  lemma UpdatePreservesWellFormed(dir: Directory, id: string, upd: Update)
    requires WellFormed(dir)
    ensures WellFormed(FindByIdAndUpdate(dir, id, upd).0)
  {
    var d := FindByIdAndUpdate(dir, id, upd).0;
    assert forall i :: 0 <= i < |dir| ==>
      d[i].id == dir[i].id && d[i].username == dir[i].username && d[i].email == dir[i].email;
  }
}
