/**
 * The first version of the API's request handlers, over an in-memory copy
 * of the `books`, `checkout_logs` and `users` tables. A request whose
 * handler raises (a missing `Authorization` header, an identity-provider
 * error, a foreign-key violation) answers HTTP 500 and changes nothing:
 * that is `ServerError`. The forwarded bearer token is otherwise only
 * passed on to the row store, so the model keeps just whether the header
 * is there.
 */
module Server {
  import opened Wrappers
  import opened Catalog

  const NotAvailable := "This Book is not currently available for checkout"
  const CheckedOut := "Book successfully checked out"
  const NotYours := "This book isn't currently checked out by you"
  const Returned := "Book successfully returned"
  const NoBooks := "You haven't checked out any books"
  const UserCreated := "User created successfully"

  /** What a handler answers: a plain string, the my-books rows, the inserted book, or HTTP 500. */
  datatype Reply = Text(text: string) | Rows(rows: seq<Listing>) | Inserted(book: Book) | ServerError

  /** The identity provider's answer to `get_user(token)`: the user id, or `None` when it raises. */
  function GetUser(auth: Option<string>, resolved: Option<Id>): (r: Reply)
    ensures r.Text? <==> auth.Some? && resolved.Some?
    ensures r.Text? ==> r.text == resolved.value
    ensures !r.Text? ==> r == ServerError
  {
    if auth.None? || resolved.None? then ServerError else Text(resolved.value)
  }

  class Library {
    var books: map<Id, Book>
    var logs: seq<Log>
    /** The `supabase_id` column of the `users` table, in insertion order. */
    var users: seq<Id>

    ghost predicate Valid()
      reads this
    {
      Consistent(books, logs)
    }

    constructor ()
      ensures Valid() && books == map[] && logs == [] && users == []
    {
      books, logs, users := map[], [], [];
    }

    /**
     * GET /my-books: the id, title, author and isbn of every book with an
     * open log for `user`, each once; the "haven't checked out" text when
     * there is none.
     */
    method MyBooks(auth: Option<string>, user: Id) returns (r: Reply)
      requires Valid()
      ensures auth.None? ==> r == ServerError
      ensures auth.Some? && Borrowed(books, logs, user) == {} ==> r == Text(NoBooks)
      ensures auth.Some? && Borrowed(books, logs, user) != {} ==>
        && r.Rows?
        && ListedIds(r.rows) == Borrowed(books, logs, user)
        && (forall k :: 0 <= k < |r.rows| ==> r.rows[k].id in books && r.rows[k] == ListingOf(books[r.rows[k].id]))
        && (forall k, m :: 0 <= k < m < |r.rows| ==> r.rows[k].id != r.rows[m].id)
    {
      if auth.None? {
        return ServerError;
      }
      var rows := CollectBorrowed(books, logs, user);
      if rows == [] {
        r := Text(NoBooks);
      } else {
        assert rows[0].id in ListedIds(rows);
        r := Rows(rows);
      }
    }

    /**
     * PUT /book: inserts a row with the given title, author and isbn under
     * the id the database generates, not checked out and with no due date.
     */
    method CreateBook(auth: Option<string>, title: string, author: string, isbn: string, freshId: Id) returns (r: Reply)
      requires Valid()
      requires freshId !in books
      modifies this
      ensures Valid()
      ensures auth.None? ==> r == ServerError && books == old(books)
      ensures auth.Some? ==>
        && r == Inserted(Book(freshId, title, author, isbn, false, None))
        && books == old(books)[freshId := r.book]
      ensures logs == old(logs) && users == old(users)
    {
      if auth.None? {
        return ServerError;
      }
      var row := Book(freshId, title, author, isbn, false, None);
      InsertKeepsConsistent(books, logs, row);
      books := books[freshId := row];
      r := Inserted(row);
    }

    /**
     * PUT /checkout: refused when the book is flagged checked out; otherwise
     * one open log for the pair is appended and only that book's flag is set.
     * An id with no book row passes the flag test, and the log insert then
     * violates the foreign key.
     */
    method Checkout(auth: Option<string>, book: Id, user: Id, today: int) returns (r: Reply)
      requires Valid()
      modifies this
      ensures Valid() && users == old(users)
      ensures auth.None? ==> r == ServerError && books == old(books) && logs == old(logs)
      ensures auth.Some? && book in old(books) && old(books)[book].checkedOut ==>
        r == Text(NotAvailable) && books == old(books) && logs == old(logs)
      ensures auth.Some? && book !in old(books) ==>
        r == ServerError && books == old(books) && logs == old(logs)
      ensures auth.Some? && book in old(books) && !old(books)[book].checkedOut ==>
        && r == Text(CheckedOut)
        && logs == old(logs) + [OpenLog(book, user, today)]
        && books == old(books)[book := old(books)[book].(checkedOut := true)]
    {
      if auth.None? {
        return ServerError;
      }
      if book in books && books[book].checkedOut {
        return Text(NotAvailable);
      }
      if book !in books {
        return ServerError;
      }
      CheckoutKeepsConsistent(books, logs, book, user, today, books[book].dueDate);
      logs := logs + [OpenLog(book, user, today)];
      books := Mark(books, book, true, books[book].dueDate);
      r := Text(CheckedOut);
    }

    /**
     * PUT /return: refused unless the pair has an open log (whoever else
     * holds the book); otherwise the book's flag is cleared and every open
     * log of the pair gets today's check-in day.
     */
    method ReturnBook(auth: Option<string>, book: Id, user: Id, today: int) returns (r: Reply)
      requires Valid()
      modifies this
      ensures Valid() && users == old(users)
      ensures auth.None? ==> r == ServerError && books == old(books) && logs == old(logs)
      ensures auth.Some? && OpenRows(old(logs), book, user) == 0 ==>
        r == Text(NotYours) && books == old(books) && logs == old(logs)
      ensures auth.Some? && OpenRows(old(logs), book, user) > 0 ==>
        && r == Text(Returned)
        && book in old(books)
        && books == old(books)[book := old(books)[book].(checkedOut := false)]
        && logs == CloseOpen(old(logs), book, user, today)
    {
      if auth.None? {
        return ServerError;
      }
      if OpenRows(logs, book, user) == 0 {
        return Text(NotYours);
      }
      HeldBookExists(books, logs, book, user);
      ReturnKeepsConsistent(books, logs, book, user, today, books[book].dueDate);
      books := Mark(books, book, false, books[book].dueDate);
      logs := CloseOpen(logs, book, user, today);
      r := Text(Returned);
    }

    /**
     * POST /signup: `created` is the identity provider's new user id, `None`
     * when its sign-up raises. On success exactly one `users` row is added.
     */
    method Signup(created: Option<Id>) returns (r: Reply)
      modifies this
      ensures books == old(books) && logs == old(logs)
      ensures created.None? ==> r == ServerError && users == old(users)
      ensures created.Some? ==> r == Text(UserCreated) && users == old(users) + [created.value]
    {
      if created.None? {
        return ServerError;
      }
      users := users + [created.value];
      r := Text(UserCreated);
    }
  }

  /**
   * A session against an empty library: user A checks out a new book, user
   * B is refused it, A returns it, and A's second return is refused.
   */
  method BorrowAndReturnTwice(token: string) returns (first: Reply, second: Reply, third: Reply, fourth: Reply, listed: Reply)
    ensures first == Text(CheckedOut) && second == Text(NotAvailable)
    ensures third == Text(Returned) && fourth == Text(NotYours)
    ensures listed == Text(NoBooks)
  {
    var lib := new Library();
    var created := lib.CreateBook(Some(token), "Dune", "Frank Herbert", "111-111", "dune");
    first := lib.Checkout(Some(token), "dune", "A", 1);
    assert lib.logs == [OpenLog("dune", "A", 1)];
    second := lib.Checkout(Some(token), "dune", "B", 2);
    AppendCounts([], OpenLog("dune", "A", 1), "dune", "A");
    third := lib.ReturnBook(Some(token), "dune", "A", 3);
    assert lib.logs == [Log("dune", "A", 1, Some(3))];
    AppendCounts([], Log("dune", "A", 1, Some(3)), "dune", "A");
    fourth := lib.ReturnBook(Some(token), "dune", "A", 4);
    listed := lib.MyBooks(Some(token), "A");
  }
}
