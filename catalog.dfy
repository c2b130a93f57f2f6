/**
 * The two tables the checkout/return handlers work on: `books`
 * (id -> row, with the `is_checked_out` flag and the `due_date` column)
 * and `checkout_logs` (an append-mostly sequence of rows whose
 * `checkin_date` is null while the checkout is open). Dates are day
 * numbers. The functions here are the SQL statements the handlers issue,
 * and the lemmas are what those statements do to the invariant
 * "a book is flagged checked out iff it has exactly one open log, and it
 * never has more than one".
 */
module Catalog {
  import opened Wrappers

  /** The UUID columns (`books.id`, `checkout_logs.book_id`, `user_id`, `users.supabase_id`) as text. */
  type Id = string

  /** A `books` row; `dueDate` is the `due_date` column, `None` when it is null. */
  datatype Book = Book(id: Id, title: string, author: string, isbn: string, checkedOut: bool, dueDate: Option<int>)

  /** A `checkout_logs` row; `checkinDay` is `checkin_date`, `None` (null) while the checkout is open. */
  datatype Log = Log(book: Id, user: Id, checkoutDay: int, checkinDay: Option<int>)

  /** The columns the my-books query selects: id, title, author, isbn. */
  datatype Listing = Listing(id: Id, title: string, author: string, isbn: string)

  function ListingOf(b: Book): Listing
  {
    Listing(b.id, b.title, b.author, b.isbn)
  }

  /** A row added by a successful checkout: the pair, `checkout_date` = now, `checkin_date` null. */
  function OpenLog(book: Id, user: Id, day: int): Log
  {
    Log(book, user, day, None)
  }

  predicate IsOpenFor(l: Log, book: Id)
  {
    l.book == book && l.checkinDay.None?
  }

  predicate IsOpenForPair(l: Log, book: Id, user: Id)
  {
    IsOpenFor(l, book) && l.user == user
  }

  /** The number of open logs of a book. */
  function OpenCount(logs: seq<Log>, book: Id): nat
  {
    if logs == [] then 0
    else OpenCount(logs[..|logs| - 1], book) + (if IsOpenFor(logs[|logs| - 1], book) then 1 else 0)
  }

  /**
   * The number of rows the return handler's query
   * `SELECT * FROM checkout_logs WHERE checkin_date IS NULL AND book_id = :book_id AND user_id = :user_id`
   * yields.
   */
  function OpenRows(logs: seq<Log>, book: Id, user: Id): nat
  {
    if logs == [] then 0
    else OpenRows(logs[..|logs| - 1], book, user) + (if IsOpenForPair(logs[|logs| - 1], book, user) then 1 else 0)
  }

  /**
   * `UPDATE checkout_logs SET checkin_date = :current_date WHERE checkin_date IS NULL
   *  AND book_id = :book_id AND user_id = :user_id`: every open row of the pair gets
   * its check-in day, every other row is left as it is.
   */
  function CloseOpen(logs: seq<Log>, book: Id, user: Id, day: int): (r: seq<Log>)
    ensures |r| == |logs|
    ensures forall i :: 0 <= i < |logs| ==>
      r[i] == if IsOpenForPair(logs[i], book, user) then logs[i].(checkinDay := Some(day)) else logs[i]
  {
    if logs == [] then []
    else
      var last := logs[|logs| - 1];
      CloseOpen(logs[..|logs| - 1], book, user, day)
        + [if IsOpenForPair(last, book, user) then last.(checkinDay := Some(day)) else last]
  }

  /** `books` with row `id`'s flag and due date rewritten (`UPDATE books SET ... WHERE id = :id`). */
  function Mark(books: map<Id, Book>, id: Id, checkedOut: bool, due: Option<int>): map<Id, Book>
    requires id in books
  {
    books[id := books[id].(checkedOut := checkedOut, dueDate := due)]
  }

  /** Each row is filed under its own `id` column. */
  predicate KeyedById(books: map<Id, Book>)
  {
    forall id :: id in books ==> books[id].id == id
  }

  /**
   * The invariant of the two tables: every log refers to an existing book
   * (the foreign key on `checkout_logs.book_id`), each row is filed under its
   * own id, and each book has at most one open log, which exists exactly when
   * the book is flagged checked out.
   */
  ghost predicate Consistent(books: map<Id, Book>, logs: seq<Log>)
  {
    && (forall i :: 0 <= i < |logs| ==> logs[i].book in books)
    && KeyedById(books)
    && (forall id :: id in books ==> OpenCount(logs, id) <= 1)
    && (forall id :: id in books ==> (books[id].checkedOut <==> OpenCount(logs, id) == 1))
  }

  /** The ids of the books a user holds: those the my-books query returns. */
  function Borrowed(books: map<Id, Book>, logs: seq<Log>, user: Id): set<Id>
  {
    set id | id in books && OpenRows(logs, id, user) > 0
  }

  /** A user's open rows for a book are among the book's open logs. */
  lemma {:induction false} OpenRowsWithinCount(logs: seq<Log>, book: Id, user: Id)
    ensures OpenRows(logs, book, user) <= OpenCount(logs, book)
  {
    if logs != [] {
      OpenRowsWithinCount(logs[..|logs| - 1], book, user);
    }
  }

  /** Two different users' open rows for one book are disjoint parts of its open logs. */
  lemma {:induction false} TwoHoldersWithinCount(logs: seq<Log>, book: Id, u: Id, v: Id)
    requires u != v
    ensures OpenRows(logs, book, u) + OpenRows(logs, book, v) <= OpenCount(logs, book)
  {
    if logs != [] {
      TwoHoldersWithinCount(logs[..|logs| - 1], book, u, v);
    }
  }

  /** An open row for a pair is a log of that book. */
  lemma {:induction false} OpenRowWitness(logs: seq<Log>, book: Id, user: Id) returns (i: nat)
    requires OpenRows(logs, book, user) > 0
    ensures i < |logs| && IsOpenForPair(logs[i], book, user)
  {
    var n := |logs| - 1;
    if IsOpenForPair(logs[n], book, user) {
      i := n;
    } else {
      i := OpenRowWitness(logs[..n], book, user);
    }
  }

  /** A book with an open row for some user has a row in `books` (the foreign key). */
  lemma HeldBookExists(books: map<Id, Book>, logs: seq<Log>, book: Id, user: Id)
    requires Consistent(books, logs)
    requires OpenRows(logs, book, user) > 0
    ensures book in books
  {
    var i := OpenRowWitness(logs, book, user);
  }

  /** A book no log refers to has no open log. */
  lemma {:induction false} UnloggedBookHasNoOpenLog(logs: seq<Log>, book: Id)
    requires forall i :: 0 <= i < |logs| ==> logs[i].book != book
    ensures OpenCount(logs, book) == 0
  {
    if logs != [] {
      UnloggedBookHasNoOpenLog(logs[..|logs| - 1], book);
    }
  }

  /**
   * Inserting a new, unflagged book under an unused id keeps the store
   * consistent.
   */
  lemma InsertKeepsConsistent(books: map<Id, Book>, logs: seq<Log>, row: Book)
    requires Consistent(books, logs)
    requires row.id !in books && !row.checkedOut
    ensures Consistent(books[row.id := row], logs)
  {
    UnloggedBookHasNoOpenLog(logs, row.id);
  }

  /** Appending a log adds one to the counts it is open for and nothing to the others. */
  lemma AppendCounts(logs: seq<Log>, l: Log, book: Id, user: Id)
    ensures OpenCount(logs + [l], book) == OpenCount(logs, book) + (if IsOpenFor(l, book) then 1 else 0)
    ensures OpenRows(logs + [l], book, user) == OpenRows(logs, book, user) + (if IsOpenForPair(l, book, user) then 1 else 0)
  {
    assert (logs + [l])[..|logs|] == logs;
  }

  /**
   * Closing a pair's open rows removes exactly those rows from the book's
   * open logs, leaves the pair with none, and leaves every other book's
   * count alone.
   */
  lemma {:induction false} CloseOpenCounts(logs: seq<Log>, book: Id, user: Id, day: int, other: Id)
    ensures OpenCount(CloseOpen(logs, book, user, day), other)
         == if other == book then OpenCount(logs, book) - OpenRows(logs, book, user) else OpenCount(logs, other)
    ensures OpenRows(CloseOpen(logs, book, user, day), book, user) == 0
  {
    OpenRowsWithinCount(logs, book, user);
    if logs != [] {
      var init := logs[..|logs| - 1];
      var last := logs[|logs| - 1];
      CloseOpenCounts(init, book, user, day, other);
      OpenRowsWithinCount(init, book, user);
      var closed := CloseOpen(logs, book, user, day);
      var closedLast := if IsOpenForPair(last, book, user) then last.(checkinDay := Some(day)) else last;
      assert closed == CloseOpen(init, book, user, day) + [closedLast];
      AppendCounts(CloseOpen(init, book, user, day), closedLast, other, user);
      AppendCounts(CloseOpen(init, book, user, day), closedLast, book, user);
    }
  }

  /** When the pair has no open row, the return statement changes no row. */
  lemma {:induction false} CloseOpenUnchanged(logs: seq<Log>, book: Id, user: Id, day: int)
    requires OpenRows(logs, book, user) == 0
    ensures CloseOpen(logs, book, user, day) == logs
  {
    if logs != [] {
      CloseOpenUnchanged(logs[..|logs| - 1], book, user, day);
    }
  }

  /**
   * Checkout keeps the invariant: on a consistent store, appending one open
   * log for an unflagged book and flagging it (whatever its due date becomes)
   * leaves the store consistent.
   */
  lemma CheckoutKeepsConsistent(books: map<Id, Book>, logs: seq<Log>, book: Id, user: Id, day: int, due: Option<int>)
    requires Consistent(books, logs)
    requires book in books && !books[book].checkedOut
    ensures Consistent(Mark(books, book, true, due), logs + [OpenLog(book, user, day)])
  {
    var books' := Mark(books, book, true, due);
    var logs' := logs + [OpenLog(book, user, day)];
    forall id | id in books'
      ensures OpenCount(logs', id) <= 1 && (books'[id].checkedOut <==> OpenCount(logs', id) == 1)
    {
      AppendCounts(logs, OpenLog(book, user, day), id, user);
    }
  }

  /**
   * Return keeps the invariant: on a consistent store, when the pair has an
   * open row, the book exists, and closing the pair's rows while clearing the
   * flag (whatever its due date becomes) leaves the store consistent.
   */
  lemma ReturnKeepsConsistent(books: map<Id, Book>, logs: seq<Log>, book: Id, user: Id, day: int, due: Option<int>)
    requires Consistent(books, logs)
    requires OpenRows(logs, book, user) > 0
    ensures book in books
    ensures Consistent(Mark(books, book, false, due), CloseOpen(logs, book, user, day))
  {
    HeldBookExists(books, logs, book, user);
    var books' := Mark(books, book, false, due);
    var logs' := CloseOpen(logs, book, user, day);
    OpenRowsWithinCount(logs, book, user);
    assert OpenCount(logs, book) == 1 && OpenRows(logs, book, user) == 1;
    forall i | 0 <= i < |logs'| ensures logs'[i].book in books' {
      assert logs'[i].book == logs[i].book;
    }
    forall id | id in books'
      ensures OpenCount(logs', id) <= 1 && (books'[id].checkedOut <==> OpenCount(logs', id) == 1)
    {
      CloseOpenCounts(logs, book, user, day, id);
    }
  }

  /**
   * While one user holds a book, nobody else has an open row for it, so the
   * return handler refuses everyone else.
   */
  lemma OtherHolderBlocksReturn(books: map<Id, Book>, logs: seq<Log>, book: Id, holder: Id, user: Id)
    requires Consistent(books, logs)
    requires OpenRows(logs, book, holder) > 0 && user != holder
    ensures OpenRows(logs, book, user) == 0
  {
    var i := OpenRowWitness(logs, book, holder);
    TwoHoldersWithinCount(logs, book, holder, user);
  }

  /**
   * A checkout followed by a return of the same pair: after the checkout the
   * pair has exactly one open row (so the return succeeds and the book is
   * listed as borrowed); the return closes exactly that row, the book has no
   * open log left, and a second return finds nothing to close.
   */
  lemma CheckoutThenReturn(books: map<Id, Book>, logs: seq<Log>, book: Id, user: Id, out: int, back: int)
    requires Consistent(books, logs)
    requires book in books && !books[book].checkedOut
    ensures OpenRows(logs + [OpenLog(book, user, out)], book, user) == 1
    ensures book in Borrowed(books, logs + [OpenLog(book, user, out)], user)
    ensures CloseOpen(logs + [OpenLog(book, user, out)], book, user, back) == logs + [Log(book, user, out, Some(back))]
    ensures OpenCount(logs + [Log(book, user, out, Some(back))], book) == 0
    ensures OpenRows(logs + [Log(book, user, out, Some(back))], book, user) == 0
    ensures book !in Borrowed(books, logs + [Log(book, user, out, Some(back))], user)
  {
    var started := OpenLog(book, user, out);
    var closed := Log(book, user, out, Some(back));
    OpenRowsWithinCount(logs, book, user);
    AppendCounts(logs, started, book, user);
    AppendCounts(logs, closed, book, user);
    CloseOpenUnchanged(logs, book, user, back);
    assert (logs + [started])[..|logs|] == logs;
    assert CloseOpen(logs + [started], book, user, back) == CloseOpen(logs, book, user, back) + [closed];
  }

  /** The ids of a list of my-books rows. */
  function ListedIds(rows: seq<Listing>): set<Id>
  {
    set k | 0 <= k < |rows| :: rows[k].id
  }

  lemma ListedIdsAppend(rows: seq<Listing>, row: Listing)
    ensures ListedIds(rows + [row]) == ListedIds(rows) + {row.id}
  {
    var longer := rows + [row];
    assert longer[|rows|] == row;
    forall id | id in ListedIds(rows) ensures id in ListedIds(longer) {
      var k :| 0 <= k < |rows| && rows[k].id == id;
      assert longer[k] == rows[k];
    }
  }

  /**
   * The rows of the my-books query, built one book at a time: the listing
   * of every book with an open log for `user`, each once.
   */
  method CollectBorrowed(books: map<Id, Book>, logs: seq<Log>, user: Id) returns (rows: seq<Listing>)
    requires KeyedById(books)
    ensures ListedIds(rows) == Borrowed(books, logs, user)
    ensures forall k :: 0 <= k < |rows| ==> rows[k].id in books && rows[k] == ListingOf(books[rows[k].id])
    ensures forall k, m :: 0 <= k < m < |rows| ==> rows[k].id != rows[m].id
  {
    rows := [];
    var remaining := books.Keys;
    while remaining != {}
      invariant remaining <= books.Keys
      invariant forall k :: 0 <= k < |rows| ==>
        && rows[k].id in books && rows[k].id !in remaining
        && rows[k] == ListingOf(books[rows[k].id])
        && OpenRows(logs, rows[k].id, user) > 0
      invariant forall k, m :: 0 <= k < m < |rows| ==> rows[k].id != rows[m].id
      invariant forall id :: id in books && id !in remaining && OpenRows(logs, id, user) > 0 ==> id in ListedIds(rows)
      decreases remaining
    {
      var id :| id in remaining;
      if OpenRows(logs, id, user) > 0 {
        ListedIdsAppend(rows, ListingOf(books[id]));
        rows := rows + [ListingOf(books[id])];
      }
      remaining := remaining - {id};
    }
  }
}
