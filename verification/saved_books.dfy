/** A user's saved books and the two array updates the resolvers issue:
    MongoDB's `$addToSet` (append unless a whole-value-equal element is
    present) and `$pull` with a `{ bookId }` condition (drop every element
    with that catalog id). */
module SavedBooks {
  import opened Wrappers

  /** A saved book (`Book` / `BookInput`): the catalog id is required,
      everything else is optional. */
  datatype Book = Book(
    bookId: string,
    authors: Option<seq<string>>,
    description: Option<string>,
    title: Option<string>,
    image: Option<string>,
    link: Option<string>)

  /** `saveBook` stores its input as given, so the input type is the
      stored type. */
  type BookInput = Book

  /** No two elements are whole-value equal. */
  predicate NoDuplicates(books: seq<Book>) {
    forall i, j :: 0 <= i < j < |books| ==> books[i] != books[j]
  }

  /** `$addToSet: { savedBooks: b }`: `b` is present afterwards; the
      existing elements keep their places; the array grows by `b` exactly
      when no element equals `b`, and is otherwise untouched. */
  function AddToSet(books: seq<Book>, b: Book): (r: seq<Book>)
    ensures b in r
    ensures books <= r
    ensures forall x :: x in r <==> x in books || x == b
    ensures r == books <==> b in books
    ensures r != books ==> r == books + [b]
  {
    if b in books then books else books + [b]
  }

  /** `$pull: { savedBooks: { bookId: id } }`: every element whose
      `bookId` is `id` is removed and every other element is kept. */
  function Pull(books: seq<Book>, id: string): (r: seq<Book>)
    ensures forall x :: x in r <==> x in books && x.bookId != id
    ensures |r| <= |books|
  {
    if |books| == 0 then []
    else if books[0].bookId == id then Pull(books[1..], id)
    else [books[0]] + Pull(books[1..], id)
  }

  /** Saving a value-equal descriptor again changes nothing. */
  lemma AddToSetIdempotent(books: seq<Book>, b: Book)
    ensures AddToSet(AddToSet(books, b), b) == AddToSet(books, b)
  {
  }

  /** Whole-value deduplication keeps an array free of duplicates. */
  lemma AddToSetKeepsNoDuplicates(books: seq<Book>, b: Book)
    requires NoDuplicates(books)
    ensures NoDuplicates(AddToSet(books, b))
  {
  }

  /** Deduplication is by whole value, not by `bookId`: two descriptors
      with the same catalog id and different titles are both stored. */
  lemma SameIdDifferentTitleBothStored(b: Book, title: string)
    requires b.title != Some(title)
    ensures var c := b.(title := Some(title));
            AddToSet(AddToSet([], b), c) == [b, c]
  {
  }

  /** `$pull` preserves relative order: it acts on each part of a
      concatenation separately. */
  lemma {:induction false} PullConcat(a: seq<Book>, b: seq<Book>, id: string)
    ensures Pull(a + b, id) == Pull(a, id) + Pull(b, id)
    decreases |a|
  {
    if |a| == 0 {
      assert a + b == b;
    } else {
      assert (a + b)[1..] == a[1..] + b;
      PullConcat(a[1..], b, id);
    }
  }

  /** Removing an id no element carries leaves the array as it was, and
      only then. */
  lemma {:induction false} PullAbsent(books: seq<Book>, id: string)
    ensures Pull(books, id) == books <==> forall i :: 0 <= i < |books| ==> books[i].bookId != id
    decreases |books|
  {
    if |books| > 0 {
      PullAbsent(books[1..], id);
      if books[0].bookId != id {
        assert books == [books[0]] + books[1..];
      } else {
        assert |Pull(books, id)| < |books| by {
          assert |Pull(books[1..], id)| <= |books[1..]|;
        }
      }
    }
  }

  /** Removing twice is removing once. */
  lemma PullIdempotent(books: seq<Book>, id: string)
    ensures Pull(Pull(books, id), id) == Pull(books, id)
  {
    var r := Pull(books, id);
    assert forall i :: 0 <= i < |r| ==> r[i] in r;
    PullAbsent(r, id);
  }

  /** Removing a catalog id just saved undoes the save, and also removes
      any other entries carrying that id. */
  lemma PullAfterAddToSet(books: seq<Book>, b: Book)
    ensures Pull(AddToSet(books, b), b.bookId) == Pull(books, b.bookId)
  {
    if b !in books {
      PullConcat(books, [b], b.bookId);
      assert Pull([b], b.bookId) == [];
    }
  }
}
