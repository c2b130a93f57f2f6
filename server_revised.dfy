/**
 * The revised request handlers. Against the first version they refuse a
 * request with HTTP 401 when the `Authorization` header is missing or
 * empty, record a due date fourteen days after the checkout day and clear
 * it on return, and answer sign-up failures with a status-coded body
 * instead of raising.
 */
module ServerRevised {
  import opened Wrappers
  import opened Catalog

  const NotAvailable := "This book is not currently available for checkout"
  const NotYours := "This book isn't currently checked out by you"
  const Returned := "Book successfully returned"
  const NoBooks := "You haven't checked out any books"
  const UserCreated := "User created successfully"

  /** Days between a checkout and its due date. */
  const LoanDays := 14

  /**
   * What a handler answers: `{"message": ...}`; the checkout confirmation
   * "Book successfully checked out! Due date: <due_date>" for the day
   * `due`; `{"data": rows}`; the inserted rows; `{"user_id": ...}`;
   * sign-up's `{"message": ..., "status": ...}`; HTTP 401; HTTP 500.
   */
  datatype Reply =
    | Message(text: string)
    | DueOn(due: int)
    | Data(rows: seq<Listing>)
    | InsertedRows(inserted: seq<Book>)
    | UserId(id: Id)
    | Status(message: string, status: int)
    | Unauthorized
    | ServerError

  /** The identity provider's `sign_up`: the new user's id, or the text of the exception it raised. */
  datatype SignUpResult = SignedUp(id: Id) | SignUpFailed(reason: string)

  /** `request.headers.get("Authorization")` is a value the guard `if not auth_token` lets through. */
  predicate Present(auth: Option<string>)
  {
    auth.Some? && auth.value != ""
  }

  /** A book carries a due date exactly while it is checked out. */
  ghost predicate DueWhileOut(books: map<Id, Book>)
  {
    forall id :: id in books ==> (books[id].checkedOut <==> books[id].dueDate.Some?)
  }

  /**
   * GET /user: 401 without a usable header, 500 when the identity provider
   * rejects the token, the user's id otherwise.
   */
  function GetUser(auth: Option<string>, resolved: Option<Id>): (r: Reply)
    ensures r == Unauthorized <==> !Present(auth)
    ensures r.UserId? <==> Present(auth) && resolved.Some?
    ensures r.UserId? ==> r.id == resolved.value
    ensures Present(auth) && resolved.None? ==> r == ServerError
  {
    if !Present(auth) then Unauthorized
    else if resolved.None? then ServerError
    else UserId(resolved.value)
  }

  /**
   * A checkout followed by a return restores the book's row exactly: the
   * flag is cleared and the due date is null again.
   */
  lemma CheckoutThenReturnRestoresBook(books: map<Id, Book>, book: Id, today: int)
    requires DueWhileOut(books)
    requires book in books && !books[book].checkedOut
    ensures Mark(Mark(books, book, true, Some(today + LoanDays)), book, false, None) == books
  {
    assert books[book].dueDate == None;
    assert books[book].(checkedOut := false, dueDate := None) == books[book];
  }

  class Library {
    var books: map<Id, Book>
    var logs: seq<Log>
    /** The `supabase_id` column of the `users` table, in insertion order. */
    var users: seq<Id>

    ghost predicate Valid()
      reads this
    {
      Consistent(books, logs) && DueWhileOut(books)
    }

    constructor ()
      ensures Valid() && books == map[] && logs == [] && users == []
    {
      books, logs, users := map[], [], [];
    }

    /**
     * POST /my-books: 401 without a usable header; the "haven't checked
     * out" message when the user holds nothing; otherwise the id, title,
     * author and isbn of every book the user holds, each once.
     */
    method MyBooks(auth: Option<string>, user: Id) returns (r: Reply)
      requires Valid()
      ensures !Present(auth) ==> r == Unauthorized
      ensures Present(auth) && Borrowed(books, logs, user) == {} ==> r == Message(NoBooks)
      ensures Present(auth) && Borrowed(books, logs, user) != {} ==>
        && r.Data?
        && ListedIds(r.rows) == Borrowed(books, logs, user)
        && (forall k :: 0 <= k < |r.rows| ==> r.rows[k].id in books && r.rows[k] == ListingOf(books[r.rows[k].id]))
        && (forall k, m :: 0 <= k < m < |r.rows| ==> r.rows[k].id != r.rows[m].id)
    {
      if !Present(auth) {
        return Unauthorized;
      }
      var rows := CollectBorrowed(books, logs, user);
      if rows == [] {
        r := Message(NoBooks);
      } else {
        assert rows[0].id in ListedIds(rows);
        r := Data(rows);
      }
    }

    /**
     * POST /signup: a failed sign-up answers status 400 with the
     * exception's text and adds no `users` row; a successful one adds
     * exactly the new user's row and answers status 200.
     */
    method Signup(result: SignUpResult) returns (r: Reply)
      modifies this
      ensures books == old(books) && logs == old(logs)
      ensures result.SignUpFailed? ==> r == Status(result.reason, 400) && users == old(users)
      ensures result.SignedUp? ==> r == Status(UserCreated, 200) && users == old(users) + [result.id]
    {
      match result
      case SignUpFailed(reason) =>
        r := Status(reason, 400);
      case SignedUp(id) =>
        users := users + [id];
        r := Status(UserCreated, 200);
    }

    /**
     * PUT /book: 401 without a usable header; otherwise the row is inserted
     * under the id the database generates, not checked out and with no due
     * date, and returned.
     */
    method CreateBook(auth: Option<string>, title: string, author: string, isbn: string, freshId: Id) returns (r: Reply)
      requires Valid()
      requires freshId !in books
      modifies this
      ensures Valid()
      ensures !Present(auth) ==> r == Unauthorized && books == old(books)
      ensures Present(auth) ==>
        && r == InsertedRows([Book(freshId, title, author, isbn, false, None)])
        && books == old(books)[freshId := r.inserted[0]]
      ensures logs == old(logs) && users == old(users)
    {
      if !Present(auth) {
        return Unauthorized;
      }
      var row := Book(freshId, title, author, isbn, false, None);
      InsertKeepsConsistent(books, logs, row);
      books := books[freshId := row];
      r := InsertedRows([row]);
    }

    /**
     * PUT /checkout: 401 without a usable header; refused when the book is
     * flagged checked out; otherwise one open log for the pair is appended,
     * the book is flagged and due `LoanDays` after today, and the reply
     * names that due date. An id with no book row passes the flag test and
     * the log insert then violates the foreign key.
     */
    method Checkout(auth: Option<string>, book: Id, user: Id, today: int) returns (r: Reply)
      requires Valid()
      modifies this
      ensures Valid() && users == old(users)
      ensures !Present(auth) ==> r == Unauthorized && books == old(books) && logs == old(logs)
      ensures Present(auth) && book in old(books) && old(books)[book].checkedOut ==>
        r == Message(NotAvailable) && books == old(books) && logs == old(logs)
      ensures Present(auth) && book !in old(books) ==>
        r == ServerError && books == old(books) && logs == old(logs)
      ensures Present(auth) && book in old(books) && !old(books)[book].checkedOut ==>
        && r == DueOn(today + LoanDays)
        && logs == old(logs) + [OpenLog(book, user, today)]
        && books == old(books)[book := old(books)[book].(checkedOut := true, dueDate := Some(today + LoanDays))]
    {
      if !Present(auth) {
        return Unauthorized;
      }
      if book in books && books[book].checkedOut {
        return Message(NotAvailable);
      }
      if book !in books {
        return ServerError;
      }
      var due := today + LoanDays;
      CheckoutKeepsConsistent(books, logs, book, user, today, Some(due));
      logs := logs + [OpenLog(book, user, today)];
      books := Mark(books, book, true, Some(due));
      r := DueOn(due);
    }

    /**
     * PUT /return: 401 without a usable header; refused unless the pair has
     * an open log; otherwise the book's flag and due date are cleared and
     * every open log of the pair gets today's check-in day.
     */
    method ReturnBook(auth: Option<string>, book: Id, user: Id, today: int) returns (r: Reply)
      requires Valid()
      modifies this
      ensures Valid() && users == old(users)
      ensures !Present(auth) ==> r == Unauthorized && books == old(books) && logs == old(logs)
      ensures Present(auth) && OpenRows(old(logs), book, user) == 0 ==>
        r == Message(NotYours) && books == old(books) && logs == old(logs)
      ensures Present(auth) && OpenRows(old(logs), book, user) > 0 ==>
        && r == Message(Returned)
        && book in old(books)
        && books == old(books)[book := old(books)[book].(checkedOut := false, dueDate := None)]
        && logs == CloseOpen(old(logs), book, user, today)
    {
      if !Present(auth) {
        return Unauthorized;
      }
      if OpenRows(logs, book, user) == 0 {
        return Message(NotYours);
      }
      HeldBookExists(books, logs, book, user);
      ReturnKeepsConsistent(books, logs, book, user, today, None);
      books := Mark(books, book, false, None);
      logs := CloseOpen(logs, book, user, today);
      r := Message(Returned);
    }
  }

  /**
   * Requests without a usable `Authorization` header: every guarded
   * handler answers 401 and the tables stay as they were.
   */
  method RefusedWithoutHeader(auth: Option<string>) returns (listed: Reply, added: Reply, out: Reply, back: Reply, same: bool)
    requires !Present(auth)
    ensures listed == Unauthorized && added == Unauthorized && out == Unauthorized && back == Unauthorized
    ensures same
  {
    var lib := new Library();
    added := lib.CreateBook(auth, "Dune", "Frank Herbert", "111-111", "dune");
    out := lib.Checkout(auth, "dune", "A", 1);
    back := lib.ReturnBook(auth, "dune", "A", 2);
    listed := lib.MyBooks(auth, "A");
    same := lib.books == map[] && lib.logs == [];
  }

  /**
   * A session against an empty library: user A checks out a new book on day
   * 100 and is told it is due on day 114, user B is refused it, A returns it
   * and the row is as it was, and A's second return is refused.
   */
  method BorrowAndReturnTwice(token: string) returns (first: Reply, second: Reply, third: Reply, fourth: Reply, restored: bool)
    requires token != ""
    ensures first == DueOn(114) && second == Message(NotAvailable)
    ensures third == Message(Returned) && fourth == Message(NotYours)
    ensures restored
  {
    var lib := new Library();
    var created := lib.CreateBook(Some(token), "Dune", "Frank Herbert", "111-111", "dune");
    var before := lib.books;
    first := lib.Checkout(Some(token), "dune", "A", 100);
    assert lib.logs == [OpenLog("dune", "A", 100)];
    second := lib.Checkout(Some(token), "dune", "B", 101);
    AppendCounts([], OpenLog("dune", "A", 100), "dune", "A");
    third := lib.ReturnBook(Some(token), "dune", "A", 110);
    assert lib.logs == [Log("dune", "A", 100, Some(110))];
    AppendCounts([], Log("dune", "A", 100, Some(110)), "dune", "A");
    fourth := lib.ReturnBook(Some(token), "dune", "A", 111);
    restored := lib.books == before;
  }
}
