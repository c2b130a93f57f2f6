# Library management system: checkout engine and client sessions

This project models two parts of a small library management system, in Dafny:

- **The checkout/return engine** of the HTTP API, in both of its versions (`backend/server.py` and `backend/server_AI_Revised.py`).
  - It works on two tables. `books` has an `is_checked_out` flag and, in the revision, a `due_date`. `checkout_logs` is a log of checkouts whose `checkin_date` is null while the checkout is open.
  - The handlers check out a book, return it, list the books a user holds, insert books and register users.
  - The tables are an in-memory store (module `Catalog`). Each version's handlers are methods of a `Library` class whose fields are those tables (modules `Server` and `ServerRevised`).
  - Each method keeps the store's invariant. Every book row is filed under its own id, and every log refers to an existing book. A book has at most one open log, and it has one exactly when its flag is set.
- **The terminal client's session**, in both versions (`backend/main.py` and `backend/main_AI_revised.py`; modules `Cli` and `CliRevised`).
  - The session is the token the client holds and the file `token.txt`.
  - Its transitions are start-up revalidation of the saved token, the login retry loop, logout, the menu text and the dispatch of menu choices.
  - The first version keeps its token as a module-level name that exists or not. That gives it quirks the model reproduces:
    - an empty token file counts as logged in;
    - a login that got the token "null" and is not retried leaves the client "logged in";
    - logout leaves `token.txt` in place, so the next "Login" in the same run resumes the saved token without prompting;
    - "7. Sign Up" runs even while logged in.

External services are inputs to the model:
- Identity-provider calls (sign-up, sign-in, token lookup) are parameters. For example, the user id a token resolves to is `Option<Id>`, and a sign-up result is either the new id or the failure text.
- The day of a checkout or return is an integer day number.
- An HTTP exchange seen by a client is the response's status code and body, or the fact that the request raised.
- Console input is a script: a menu choice per turn, with the login attempts and "try again" answers that choice consumes.

Python's `str.strip` (with its whitespace set) and the `.lower() == "y"` test are modelled in `Strings`.

## Where the code and its design description differ

This model follows the code:
- **Checkout is not atomic.** The design asks for one atomic check-and-set. The handlers do a separate read, an insert and an update. The model treats each handler as one sequential step and proves the invariant under that assumption.
- **401 covers only a missing or empty header.** The design answers 401 to a bad token. The revised server refuses only a missing or empty `Authorization` header. A token the identity provider rejects makes `/user` fail with 500.
- **A refusal is a normal reply.** The design describes refusals as errors (`AlreadyCheckedOut`, `NotCheckedOutByUser`). The code answers them with a normal message.
- **/my-books uses different verbs.** It is a GET in the first server and a POST in the revision.
- **The first server has no due date.** The first server never writes `due_date`, and the migration has no such column. The model carries the column for both versions; the first server leaves it as it was.
- **The first client crashes on network errors.** The design wants a bounded timeout and a `NetworkError`. In the first client, a request that cannot reach the server raises, and the program ends.

## Model

| member | source | states |
|---|---|---|
| Catalog.Consistent | backend/migrations/versions/de6f1d131835_init.py:42-49 | the invariant: every log names an existing book, each row is filed under its own id, and a book has at most one open log, which it has exactly when its flag is set |
| Catalog.OpenRows | backend/server.py:151 | the number of rows the return handler's query yields: logs of the book and user with no check-in day |
| Catalog.Mark | backend/server.py:159 | the `books` table with one row's flag and due date rewritten, as the update statements of checkout and return do |
| Catalog.Borrowed | backend/server.py:61 | the ids the my-books subquery selects: the books with an open log for the user |
| Catalog.CloseOpen | backend/server.py:152-162 | every open log of the (book, user) pair gets the check-in day; every other row, and the number of rows, is unchanged |
| Catalog.CloseOpenCounts | backend/server.py:151-163 | closing a pair's open logs takes exactly those rows from the book's open count, leaves the pair with no open log, and changes no other book's count |
| Catalog.CloseOpenUnchanged | backend/server.py:155-157 | when the pair has no open log the return statement changes no row |
| Catalog.OpenRowsWithinCount | backend/server.py:151 | a user's open logs for a book are among the book's open logs |
| Catalog.TwoHoldersWithinCount | backend/server.py:151 | two different users' open logs for a book together do not exceed the book's open logs |
| Catalog.OpenRowWitness | backend/server.py:151 | an open log for a pair is a row of the log of that book |
| Catalog.HeldBookExists | backend/migrations/versions/de6f1d131835_init.py:47 | on a consistent store (foreign key on `checkout_logs.book_id`), a book somebody holds has a `books` row |
| Catalog.UnloggedBookHasNoOpenLog | backend/migrations/versions/de6f1d131835_init.py:42-49 | a book that no log refers to has no open log |
| Catalog.InsertKeepsConsistent | backend/server.py:116-120 | inserting a new, unflagged book under an unused id keeps the invariant |
| Catalog.AppendCounts | backend/server.py:136 | appending a log adds one to the open counts it is open for and nothing to the others |
| Catalog.CheckoutKeepsConsistent | backend/server.py:132-138 | appending one open log for an unflagged book and flagging it keeps the invariant |
| Catalog.ReturnKeepsConsistent | backend/server.py:151-163 | when the pair has an open log, the book exists, and clearing its flag while closing the pair's logs keeps the invariant |
| Catalog.OtherHolderBlocksReturn | backend/server.py:151-157 | while one user holds a book nobody else has an open log for it, so every other user's return is refused |
| Catalog.CheckoutThenReturn | backend/server.py:132-163 | after a checkout the pair has exactly one open log and the book is borrowed; the return closes exactly that log, the book has no open log, a second return finds nothing and the book is no longer borrowed |
| Catalog.ListedIdsAppend | backend/server.py:69-70 | appending a row adds exactly its id to the listed ids |
| Catalog.CollectBorrowed | backend/server.py:61-71 | the rows are exactly the books with an open log for the user, each once, each with its id, title, author and isbn |
| Server.GetUser | backend/server.py:88-94 | the user's id when the header is there and the identity provider resolves the token; HTTP 500 otherwise |
| Server.Library.MyBooks | backend/server.py:54-73 | 500 without the header; the "haven't checked out" text when the user holds nothing; otherwise exactly the user's books, each once |
| Server.Library.CreateBook | backend/server.py:110-122 | 500 without the header; otherwise the new unflagged row is inserted and returned, and nothing else changes |
| Server.Library.Checkout | backend/server.py:125-140 | a flagged book is refused with no change; an unknown id violates the foreign key (500, no change); otherwise exactly one open log is appended and only that book's flag is set |
| Server.Library.ReturnBook | backend/server.py:143-165 | refused with no change unless the pair has an open log, whoever else holds the book; otherwise the flag is cleared and every open log of the pair is closed |
| Server.Library.Signup | backend/server.py:76-85 | a failed sign-up is a 500 with no row; a successful one adds exactly the new user's row |
| Server.BorrowAndReturnTwice | backend/server.py:125-165 | A checks out a book, B is refused, A returns it, A's second return is refused, and A then holds nothing |
| ServerRevised.GetUser | backend/server_AI_Revised.py:102-110 | 401 exactly when the header is missing or empty; 500 when the token does not resolve; the user id otherwise |
| ServerRevised.CheckoutThenReturnRestoresBook | backend/server_AI_Revised.py:153-155 | a checkout and then a return leave the book's row exactly as it was: not checked out, due date null |
| ServerRevised.Library.MyBooks | backend/server_AI_Revised.py:54-79 | 401 without a usable header; the message when the user holds nothing; otherwise `data` with exactly the user's books, each once |
| ServerRevised.Library.Signup | backend/server_AI_Revised.py:82-92 | a failing sign-up answers status 400 with its text and adds no row; otherwise exactly one row and status 200 |
| ServerRevised.Library.CreateBook | backend/server_AI_Revised.py:121-136 | 401 without a usable header; otherwise the inserted rows (the one new unflagged book) |
| ServerRevised.Library.Checkout | backend/server_AI_Revised.py:139-157 | 401 or refusal with no change; an unknown id is a 500 with no change; otherwise one open log, the flag set, the due date today + 14, and the reply names that day |
| ServerRevised.Library.ReturnBook | backend/server_AI_Revised.py:160-194 | 401 or refusal with no change; otherwise the flag is cleared, the due date set to null, and the pair's open logs are closed |
| ServerRevised.RefusedWithoutHeader | backend/server_AI_Revised.py:121-194 | without a usable header the book, checkout, return and my-books handlers all answer 401 and the tables stay empty |
| ServerRevised.BorrowAndReturnTwice | backend/server_AI_Revised.py:139-194 | A checks out on day 100 and is told day 114; B is refused; A returns it and the row is as before; A's second return is refused |
| Strings.Strip | backend/main_AI_revised.py:62 | the result is a slice `s[i..j]` of the input with only stripped characters before `i` and after `j` and none at its own ends; it is empty exactly when every character is stripped |
| Strings.StripKeepsTrimmed | backend/main_AI_revised.py:62 | a string with no strippable character at its ends is its own strip |
| Strings.YesAnswers | backend/main_AI_revised.py:84-85 | the retry prompt accepts exactly "y" and "Y" |
| CliRevised.Headers | backend/main_AI_revised.py:44-49 | Content-Type is always application/json; Authorization is present exactly when the token is non-empty, and is the token |
| CliRevised.RequestHeaders | backend/main_AI_revised.py:30-32 | the caller's headers, plus Authorization set to the token exactly when it is truthy |
| CliRevised.ApiRequest | backend/main_AI_revised.py:33-41 | a status comes back exactly for a response with a JSON body; otherwise the exception's text or the non-JSON body text |
| CliRevised.Judge | backend/main_AI_revised.py:82-88 | an attempt is accepted exactly for status 200 with a string other than "null" and "", and the token is that string without quotes; a 200 with a non-string raises |
| CliRevised.LoginRun | backend/main_AI_revised.py:77-95 | the outcome of `login` on a script of attempts: the first accepted attempt gives the token, a refusal retries only on "y", a 200 answer whose data is not a string or an exhausted script aborts |
| CliRevised.LoginRunExplained | backend/main_AI_revised.py:77-95 | login yields a token only from an accepted attempt after refusals that were all retried; it yields none only after a refusal answered with anything but "y" |
| CliRevised.Revalidated | backend/main_AI_revised.py:56-72 | no token when the file is missing or blank or `/user` is not 200; otherwise the stored token stripped of whitespace |
| CliRevised.SavedTokenResumes | backend/main_AI_revised.py:62-70 | a saved token without surrounding whitespace is the token the next start-up resumes with while `/user` accepts it |
| CliRevised.Menu | backend/main_AI_revised.py:224-237 | "5. Logout" exactly with a truthy token; "5. Login" and "7. Sign Up" exactly without one; "6. Exit" last |
| CliRevised.Dispatch | backend/main_AI_revised.py:252-292 | "2", "3", "4" run with the token held and are refused locally without one; "5" logs out or in; "7" signs up only without a token; "6" exits |
| CliRevised.Next | backend/main_AI_revised.py:275-281 | logout clears the token and the file; login sets the token exactly when `login` returns one, and changes the file only to that token, only when writable; every other choice leaves the session as it was |
| CliRevised.Client.IsLoggedIn | backend/main_AI_revised.py:56-72 | returns the `Revalidated` token and deletes the file exactly when it holds a non-blank token that `/user` rejects |
| CliRevised.Client.Login | backend/main_AI_revised.py:75-95 | ends as `LoginRun` says and writes the file only on success, and only when writable |
| CliRevised.Client.Logout | backend/main_AI_revised.py:98-103 | the token file no longer exists |
| CliRevised.Client.Turn | backend/main_AI_revised.py:252-292 | one turn dispatches on the token held and moves the token and the file as the session transition says |
| CliRevised.Client.RunMenu | backend/main_AI_revised.py:248-292 | every turn dispatches on the token of that turn; the run stops at the first "6", at a raising login, or at the end of input |
| CliRevised.Client.Start | backend/main_AI_revised.py:244-300 | the menu loop starts from the revalidated token and runs as `RunMenu` states |
| Cli.Revalidate | backend/main.py:36-55 | no file: no, nothing changes; a blank file: yes, with an empty token; a rejected token: no, with the global and the file deleted; an unreachable server raises |
| Cli.LoopRun | backend/main.py:63-93 | the loop never ends as "already logged in", and a successful loop leaves the global defined |
| Cli.LeftBy | backend/main.py:73-92 | a refusal that is not retried deletes the global exactly when the status was not 200; otherwise it leaves the "null" or empty token |
| Cli.LoopRunSucceeds | backend/main.py:63-93 | a successful login took the global from some attempt `k`, a 200 response whose quote-stripped body is neither "null" nor empty, and every attempt before `k` was refused and retried |
| Cli.LoopRunGivesUp | backend/main.py:63-93 | giving up happens at a refused attempt `k` not answered "y", after every earlier attempt was refused and retried; the global is then deleted if `k` was refused by status and holds `k`'s "null" or empty token otherwise |
| Cli.LoginRun | backend/main.py:57-99 | nothing is prompted when already logged in; on success the file holds the token if writable and is otherwise unchanged; without success the file is as revalidation left it |
| Cli.DeclinedNullAttempt | backend/main.py:71-92 | a first attempt answered "null" and not retried ends the loop with "null" left as the global |
| Cli.DeclinedNullLoginStaysLoggedIn | backend/main.py:57-92 | a login whose first attempt gets "null" and is not retried gives up with the global set to "null" and the token file untouched, so the client counts as logged in |
| Cli.LoginAfterLogoutResumes | backend/main.py:57-60 | after logout, with the file still there and `/user` answering 200 with any body, "Login" returns at once with the saved token |
| Cli.SavedTokenResumes | backend/main.py:36-53 | a saved token without surrounding whitespace is taken back as the session token at the next start |
| Cli.EmptyFileCountsAsLoggedIn | backend/main.py:38-53 | a blank token file starts a session that the menu treats as logged in and that sends an empty token |
| Cli.Menu | backend/main.py:13-28 | "5. Logout" exactly while the global exists; otherwise "5. Login" and, after "6. Exit", "7. Sign Up" |
| Cli.Next | backend/main.py:271-282 | logout keeps `token.txt` and, once the request got an answer, deletes the global; login when already logged in resumes the revalidated session; every other choice leaves the session as it was |
| Cli.Dispatch | backend/main.py:246-291 | "2", "3", "4" run exactly while the global exists (even when empty) and are refused locally otherwise; "5" logs out or in; "7" always signs up; "6" exits |
| Cli.Client.IsLoggedIn | backend/main.py:36-55 | changes the global and the file as `Revalidate` says |
| Cli.Client.Login | backend/main.py:57-99 | ends with the outcome, global and file `LoginRun` gives, after the loop ran as `LoopRun` says |
| Cli.Client.Logout | backend/main.py:101-108 | deletes the global unless the request raises, and leaves the token file as it was |
| Cli.Client.Turn | backend/main.py:243-291 | one turn dispatches on the global and moves the session as the transition says; it reports whether the program ends |
| Cli.Client.Start | backend/main.py:235-300 | a raising start-up ends the program at once; otherwise the menu loop runs from the revalidated session |

## Left out

- **Identity provider and data clients.** The identity provider's sign-up, sign-in, token lookup and sign-out are parameters; the row stores and query engines are the in-memory tables.
- **Row-level security.** The effect of forwarding the bearer token to the row store is not modelled.
- **Concurrency and atomicity.** Each handler is one sequential step, so races between concurrent checkouts are outside the model.
- **Pass-through handlers.** `/auth`, `/logout`, `/books` and `/` only pass data through or return a constant.
- **Malformed requests.** A missing JSON field, a malformed body, or an id that is not a UUID are not modelled.
- **The users foreign key.** `checkout_logs.user_id` references `users.id`, but the clients send the identity provider's id; the model keeps only the `book_id` foreign key.
- **Dates.** Wall-clock time, date formatting and the `created_at`/`updated_at` columns are not modelled. A day number stands for a date.
- **Row ids and ordering.** Ids generated by the database are a `freshId` parameter. Row order in the my-books result is not specified.
- **Client library actions.** The internals of these are not modelled: listing books, adding a book, checking out, returning, sign-up and the user-id lookup (`print_books`, `add_book`, `checkout_book`, `return_book`, `signup`, `print_my_books`, `get_user_id`). The session model records which action a turn runs and with which token. Failures inside these actions are not modelled either.
- **Terminal effects.** Printing, clearing the screen, masked password input and sleeping are not modelled.
- **File-system failures.** A failing `os.remove` and a read error on `token.txt` are not modelled; only a failing write is.
- **Lower-casing.** The retry answer is lower-cased for ASCII letters only; other Unicode case mappings are not modelled.
- **The graphical frontend.** It is not part of this model.
