/**
 * The revised terminal client: a two-state session (no token, or a token)
 * held in a local variable of the menu loop and persisted in `token.txt`.
 * HTTP exchanges are inputs: what the transport produced for a request.
 * Console input is a script of menu choices, each carrying the login
 * attempts that choice would consume. An exception that escapes (an
 * `EOFError` once the script is exhausted, a `.strip` on a JSON value that
 * is not a string) ends the program.
 */
module CliRevised {
  import opened Wrappers
  import opened Strings

  /** A JSON value as `response.json()` decodes it: a string, or any other value (object, list, number, null). */
  datatype Json = JString(s: string) | JOther

  /** The body of a response: valid JSON, or text that is not. */
  datatype Body = Parsed(json: Json) | Unparsed(text: string)

  /** What `requests.request` did: raised a `RequestException` (with its text), or produced a response. */
  datatype Transport = Raised(error: string) | Answered(code: int, body: Body)

  /** The pair `api_request` returns: `(False, text)`, or `(status_code, data)`. */
  datatype ApiResult = NoStatus(text: string) | Status(code: int, data: Json)

  const ContentType := "Content-Type"
  const Authorization := "Authorization"
  const JsonMime := "application/json"
  const Quote: set<char> := {'"'}

  /** Python truthiness of an optional token: present and not empty. */
  predicate Truthy(token: Option<string>)
  {
    token.Some? && token.value != ""
  }

  /** `status != 200` is false exactly for a response with status 200 (`False` is never 200). */
  predicate IsOk(r: ApiResult)
  {
    r.Status? && r.code == 200
  }

  /** `headers(token)`: JSON content type always, the token as `Authorization` exactly when it is truthy. */
  function Headers(token: Option<string>): (h: map<string, string>)
    ensures ContentType in h && h[ContentType] == JsonMime
    ensures Authorization in h <==> Truthy(token)
    ensures Truthy(token) ==> h[Authorization] == token.value
    ensures h.Keys <= {ContentType, Authorization}
  {
    var base := map[ContentType := JsonMime];
    if Truthy(token) then base[Authorization := token.value] else base
  }

  /**
   * The headers `api_request` sends: the caller's headers, with the token
   * as `Authorization` when it is truthy; every other header is passed on.
   */
  function RequestHeaders(given: map<string, string>, token: Option<string>): (h: map<string, string>)
    ensures h.Keys == given.Keys + (if Truthy(token) then {Authorization} else {})
    ensures Truthy(token) ==> h[Authorization] == token.value
    ensures forall k :: k in given && (k != Authorization || !Truthy(token)) ==> h[k] == given[k]
  {
    if Truthy(token) then given[Authorization := token.value] else given
  }

  /**
   * How `api_request` shapes what the transport produced: a status code
   * comes back exactly when a response with a JSON body came back, and it
   * is that response's; otherwise the exception's or the body's text.
   */
  function ApiRequest(t: Transport): (r: ApiResult)
    ensures r.Status? <==> t.Answered? && t.body.Parsed?
    ensures r.Status? ==> r.code == t.code && r.data == t.body.json
    ensures t.Raised? ==> r == NoStatus(t.error)
    ensures t.Answered? && t.body.Unparsed? ==> r == NoStatus(t.body.text)
  {
    match t
    case Raised(e) => NoStatus(e)
    case Answered(code, Unparsed(text)) => NoStatus(text)
    case Answered(code, Parsed(data)) => Status(code, data)
  }

  /** One pass of the login loop: the credentials typed, the `/auth` result, and the answer to "Try again?". */
  datatype Attempt = Attempt(email: string, password: string, reply: ApiResult, again: string)

  /** How `login` reads an `/auth` result: refused, a token, or `.strip` raising on a non-string. */
  datatype Verdict = Rejected | Accepted(token: string) | Raises

  /**
   * `status != 200 or data in ("null", "")` refuses; otherwise
   * `data.strip('"')` is the token, which raises unless `data` is a string.
   */
  function Judge(reply: ApiResult): (v: Verdict)
    ensures v.Accepted? <==> IsOk(reply) && reply.data.JString? && reply.data.s != "null" && reply.data.s != ""
    ensures v.Accepted? ==> v.token == Strip(reply.data.s, Quote)
    ensures v == Raises <==> IsOk(reply) && reply.data.JOther?
  {
    if !IsOk(reply) then Rejected
    else match reply.data
      case JString(s) => if s == "null" || s == "" then Rejected else Accepted(Strip(s, Quote))
      case JOther => Raises
  }

  /** How a call to `login` ends: with a token, with `None` after a declined retry, or by an exception. */
  datatype LoginOutcome = LoggedIn(token: string) | GaveUp | Aborted

  /**
   * The outcome of `login` on a script of attempts: the first accepted
   * attempt gives the token; a refusal retries only on a "y" answer; an
   * exhausted script is an `EOFError` at the email prompt.
   */
  function LoginRun(attempts: seq<Attempt>): LoginOutcome
  {
    if attempts == [] then Aborted
    else match Judge(attempts[0].reply)
      case Accepted(t) => LoggedIn(t)
      case Raises => Aborted
      case Rejected => if IsYes(attempts[0].again) then LoginRun(attempts[1..]) else GaveUp
  }

  /** The attempts before `k` were all refused and retried. */
  predicate RetriedUpTo(attempts: seq<Attempt>, k: int)
    requires 0 <= k <= |attempts|
  {
    forall j :: 0 <= j < k ==> Judge(attempts[j].reply) == Rejected && IsYes(attempts[j].again)
  }

  /**
   * `login` returns a token only when some attempt was accepted after every
   * earlier one was refused and retried, and the token is that attempt's
   * quote-stripped data; it returns `None` only after a refusal answered
   * with anything but "y".
   */
  lemma {:induction false} LoginRunExplained(attempts: seq<Attempt>)
    ensures LoginRun(attempts).LoggedIn? ==>
      exists k :: 0 <= k < |attempts| && RetriedUpTo(attempts, k) && Judge(attempts[k].reply) == Accepted(LoginRun(attempts).token)
    ensures LoginRun(attempts) == GaveUp ==>
      exists k :: 0 <= k < |attempts| && RetriedUpTo(attempts, k) && Judge(attempts[k].reply) == Rejected && !IsYes(attempts[k].again)
  {
    if attempts != [] && Judge(attempts[0].reply) == Rejected && IsYes(attempts[0].again) {
      var rest := attempts[1..];
      LoginRunExplained(rest);
      if LoginRun(rest).LoggedIn? {
        var k :| 0 <= k < |rest| && RetriedUpTo(rest, k) && Judge(rest[k].reply) == Accepted(LoginRun(rest).token);
        assert RetriedUpTo(attempts, k + 1) by {
          forall j | 0 < j < k + 1 ensures Judge(attempts[j].reply) == Rejected && IsYes(attempts[j].again) {
            assert attempts[j] == rest[j - 1];
          }
        }
        assert attempts[k + 1] == rest[k];
      }
      if LoginRun(rest) == GaveUp {
        var k :| 0 <= k < |rest| && RetriedUpTo(rest, k) && Judge(rest[k].reply) == Rejected && !IsYes(rest[k].again);
        assert RetriedUpTo(attempts, k + 1) by {
          forall j | 0 < j < k + 1 ensures Judge(attempts[j].reply) == Rejected && IsYes(attempts[j].again) {
            assert attempts[j] == rest[j - 1];
          }
        }
        assert attempts[k + 1] == rest[k];
      }
    } else if attempts != [] {
      assert RetriedUpTo(attempts, 0);
    }
  }

  const Header := ["Library Management System Menu", "0. Show Menu", "1. View Books", "2. Add Book", "3. Checkout Book", "4. Return Book"]

  /**
   * `print_menu(token)`: the fixed entries, then "5. Logout" with a token or
   * "5. Login" and "7. Sign Up" without one, and "6. Exit" last.
   */
  function Menu(token: Option<string>): (lines: seq<string>)
    ensures |lines| >= 8 && lines[..6] == Header && lines[|lines| - 1] == "6. Exit"
    ensures "5. Logout" in lines <==> Truthy(token)
    ensures "5. Login" in lines <==> !Truthy(token)
    ensures "7. Sign Up" in lines <==> !Truthy(token)
  {
    if Truthy(token) then Header + ["5. Logout", "6. Exit"]
    else Header + ["5. Login", "7. Sign Up", "6. Exit"]
  }

  /** What one menu choice does. The operations that carry a token send it with their requests. */
  datatype Action =
    | ShowMenu
    | ViewBooks
    | AddBook(token: string)
    | CheckoutBook(token: string)
    | ReturnBook(token: string)
    | LoginRequired(message: string)
    | Logout(token: string)
    | Login
    | Exit
    | SignUp
    | Nothing
    | Invalid

  predicate SendsToken(a: Action)
  {
    a.AddBook? || a.CheckoutBook? || a.ReturnBook? || a.Logout?
  }

  /**
   * The `match choice` of the menu loop. Adding, checking out and returning
   * need a token and are refused locally without one; "5" logs out with a
   * token and logs in without; "7" signs up only without a token; "6" exits.
   */
  function Dispatch(token: Option<string>, choice: string): (a: Action)
    ensures SendsToken(a) ==> Truthy(token) && a.token == token.value
    ensures choice == "2" ==> a == if Truthy(token) then AddBook(token.value) else LoginRequired("Login required to add a book.")
    ensures choice == "3" ==> a == if Truthy(token) then CheckoutBook(token.value) else LoginRequired("Login required to checkout a book.")
    ensures choice == "4" ==> a == if Truthy(token) then ReturnBook(token.value) else LoginRequired("Login required to return a book.")
    ensures a.LoginRequired? <==> !Truthy(token) && choice in {"2", "3", "4"}
    ensures a.Logout? <==> choice == "5" && Truthy(token)
    ensures a == Login <==> choice == "5" && !Truthy(token)
    ensures a == SignUp <==> choice == "7" && !Truthy(token)
    ensures a == Exit <==> choice == "6"
    ensures a == Invalid <==> choice !in {"0", "1", "2", "3", "4", "5", "6", "7"}
  {
    match choice
    case "0" => ShowMenu
    case "1" => ViewBooks
    case "2" => if Truthy(token) then AddBook(token.value) else LoginRequired("Login required to add a book.")
    case "3" => if Truthy(token) then CheckoutBook(token.value) else LoginRequired("Login required to checkout a book.")
    case "4" => if Truthy(token) then ReturnBook(token.value) else LoginRequired("Login required to return a book.")
    case "5" => if Truthy(token) then Logout(token.value) else Login
    case "6" => Exit
    case "7" => if Truthy(token) then Nothing else SignUp
    case _ => Invalid
  }

  /** One turn of the menu loop: the choice typed and the login attempts that choice would use. */
  datatype Input = Input(choice: string, attempts: seq<Attempt>)

  /** The token and the contents of `token.txt` between turns. */
  datatype Snapshot = Snapshot(token: Option<string>, file: Option<string>)

  /** How the program stops: "6", the end of the input, or an exception out of `login`. */
  datatype End = Exited | InputClosed | Crashed

  /** The state after a turn that did not end the program. */
  function Next(s: Snapshot, a: Action, attempts: seq<Attempt>, writable: bool): (r: Snapshot)
    ensures a.Logout? ==> r == Snapshot(None, None)
    ensures a == Login ==> (r.token.Some? <==> LoginRun(attempts).LoggedIn?)
    ensures a == Login && r.token.Some? ==> r.token.value == LoginRun(attempts).token
    ensures a == Login ==> r.file == s.file || (writable && r.token.Some? && r.file == r.token)
    ensures !a.Logout? && a != Login ==> r == s
  {
    match a
    case Logout(_) => Snapshot(None, None)
    case Login =>
      (match LoginRun(attempts)
       case LoggedIn(t) => Snapshot(Some(t), if writable then Some(t) else s.file)
       case _ => Snapshot(None, s.file))
    case _ => s
  }

  predicate EndsProgram(a: Action, attempts: seq<Attempt>)
  {
    a == Exit || (a == Login && LoginRun(attempts) == Aborted)
  }

  /** The saved file holds a non-blank token that the `/user` check does not accept. */
  predicate Rejects(file: Option<string>, check: ApiResult)
  {
    file.Some? && Strip(file.value, Whitespace) != "" && !IsOk(check)
  }

  /**
   * The token `is_logged_in` starts the session with: the saved token
   * stripped of whitespace, when the file exists, the token is not blank
   * and `/user` answers 200; no token otherwise.
   */
  function Revalidated(file: Option<string>, check: ApiResult): (token: Option<string>)
    ensures token.None? || Truthy(token)
    ensures token.Some? <==> file.Some? && Strip(file.value, Whitespace) != "" && IsOk(check)
    ensures token.Some? ==> token.value == Strip(file.value, Whitespace)
    ensures Rejects(file, check) ==> token.None?
  {
    if file.None? || Strip(file.value, Whitespace) == "" || !IsOk(check) then None
    else Some(Strip(file.value, Whitespace))
  }

  /**
   * The token `login` saves is the one the next start-up resumes with,
   * provided it has no surrounding whitespace and `/user` still accepts it.
   */
  lemma SavedTokenResumes(token: string, check: ApiResult)
    requires token != "" && token[0] !in Whitespace && token[|token| - 1] !in Whitespace
    requires IsOk(check)
    ensures Revalidated(Some(token), check) == Some(token)
  {
    StripKeepsTrimmed(token, Whitespace);
  }

  /** One turn: `a` is what the choice does on the token of `s`, and `t` is the state after it. */
  predicate Turned(s: Snapshot, input: Input, writable: bool, a: Action, t: Snapshot)
  {
    && a == Dispatch(s.token, input.choice)
    && t == if EndsProgram(a, input.attempts) then s else Next(s, a, input.attempts, writable)
  }

  /** The first `|actions|` turns of a run that has not stopped yet. */
  predicate Continues(inputs: seq<Input>, writable: bool, actions: seq<Action>, states: seq<Snapshot>)
  {
    && |states| == |actions| + 1 && |actions| <= |inputs|
    && (forall i :: 0 <= i < |actions| ==> Turned(states[i], inputs[i], writable, actions[i], states[i + 1]))
    && (forall i :: 0 <= i < |actions| ==> !EndsProgram(actions[i], inputs[i].attempts))
  }

  /**
   * A whole run of the menu loop: every turn as `Turned` says, none but the
   * last ending the program, and the loop stops at the first "6", at the end
   * of the input, or when `login` raises.
   */
  predicate MenuRun(inputs: seq<Input>, writable: bool, actions: seq<Action>, states: seq<Snapshot>, end: End)
  {
    && |states| == |actions| + 1 && |actions| <= |inputs|
    && (forall i :: 0 <= i < |actions| ==> Turned(states[i], inputs[i], writable, actions[i], states[i + 1]))
    && (forall i :: 0 <= i < |actions| - 1 ==> !EndsProgram(actions[i], inputs[i].attempts))
    && (end == Exited <==> actions != [] && actions[|actions| - 1] == Exit)
    && (end == Crashed <==> actions != [] && actions[|actions| - 1] == Login
                            && LoginRun(inputs[|actions| - 1].attempts) == Aborted)
    && (end == InputClosed ==> |actions| == |inputs|)
  }

  /** The turns of a run that has not stopped, followed by one more turn, are the turns of the longer run. */
  lemma TurnsExtend(inputs: seq<Input>, writable: bool, actions: seq<Action>, states: seq<Snapshot>, a: Action, t: Snapshot)
    requires Continues(inputs, writable, actions, states) && |actions| < |inputs|
    requires Turned(states[|actions|], inputs[|actions|], writable, a, t)
    ensures forall i :: 0 <= i <= |actions| ==>
      Turned((states + [t])[i], inputs[i], writable, (actions + [a])[i], (states + [t])[i + 1])
    ensures forall i :: 0 <= i < |actions| ==> !EndsProgram((actions + [a])[i], inputs[i].attempts)
  {
    var n, longer, after := |actions|, actions + [a], states + [t];
    forall i | 0 <= i <= n
      ensures Turned(after[i], inputs[i], writable, longer[i], after[i + 1])
    {
      if i < n {
        assert longer[i] == actions[i] && after[i] == states[i] && after[i + 1] == states[i + 1];
      } else {
        assert longer[i] == a && after[i] == states[n] && after[i + 1] == t;
      }
    }
    forall i | 0 <= i < n
      ensures !EndsProgram(longer[i], inputs[i].attempts)
    {
      assert longer[i] == actions[i];
    }
  }

  /** One more turn either extends an unfinished run or completes it as exited or crashed. */
  lemma ExtendRun(inputs: seq<Input>, writable: bool, actions: seq<Action>, states: seq<Snapshot>, a: Action, t: Snapshot)
    requires Continues(inputs, writable, actions, states) && |actions| < |inputs|
    requires Turned(states[|actions|], inputs[|actions|], writable, a, t)
    ensures !EndsProgram(a, inputs[|actions|].attempts) ==> Continues(inputs, writable, actions + [a], states + [t])
    ensures EndsProgram(a, inputs[|actions|].attempts) ==>
      MenuRun(inputs, writable, actions + [a], states + [t], if a == Exit then Exited else Crashed)
  {
    TurnsExtend(inputs, writable, actions, states, a, t);
    assert (actions + [a])[|actions|] == a;
  }

  /** A run that consumed every input without stopping ends with the input closed. */
  lemma CloseRun(inputs: seq<Input>, writable: bool, actions: seq<Action>, states: seq<Snapshot>)
    requires Continues(inputs, writable, actions, states) && |actions| == |inputs|
    ensures MenuRun(inputs, writable, actions, states, InputClosed)
  {
  }

  class Client {
    /** `token.txt`: `None` when the file does not exist. */
    var tokenFile: Option<string>
    /** Whether writing `token.txt` succeeds. */
    const writable: bool

    constructor (file: Option<string>, writable: bool)
      ensures tokenFile == file && this.writable == writable
    {
      tokenFile := file;
      this.writable := writable;
    }

    /**
     * `is_logged_in`: returns the token `Revalidated` describes; the file is
     * deleted exactly when it holds a non-blank token that `/user` does not
     * answer with 200.
     */
    method IsLoggedIn(check: ApiResult) returns (token: Option<string>)
      modifies this
      ensures token == Revalidated(old(tokenFile), check)
      ensures tokenFile == if Rejects(old(tokenFile), check) then None else old(tokenFile)
    {
      if tokenFile.None? {
        return None;
      }
      var stored := Strip(tokenFile.value, Whitespace);
      if stored == "" {
        return None;
      }
      if !IsOk(check) {
        tokenFile := None;
        return None;
      }
      token := Some(stored);
    }

    /**
     * `login`: the retry loop. It ends as `LoginRun` says, and writes the
     * token to `token.txt` only when it logs in.
     */
    method Login(attempts: seq<Attempt>) returns (outcome: LoginOutcome)
      modifies this
      ensures outcome == LoginRun(attempts)
      ensures tokenFile == if outcome.LoggedIn? && writable then Some(outcome.token) else old(tokenFile)
    {
      var i := 0;
      while true
        invariant 0 <= i <= |attempts|
        invariant LoginRun(attempts[i..]) == LoginRun(attempts)
        invariant tokenFile == old(tokenFile)
        decreases |attempts| - i
      {
        if i == |attempts| {
          return Aborted;
        }
        var attempt := attempts[i];
        assert attempts[i..][1..] == attempts[i + 1..];
        match Judge(attempt.reply)
        case Raises =>
          return Aborted;
        case Accepted(token) =>
          if writable {
            tokenFile := Some(token);
          }
          return LoggedIn(token);
        case Rejected =>
          if !IsYes(attempt.again) {
            return GaveUp;
          }
          i := i + 1;
      }
    }

    /** `logout`: `token.txt` is deleted if it exists, whatever `/logout` answers. */
    method Logout()
      modifies this
      ensures tokenFile.None?
    {
      tokenFile := None;
    }

    /**
     * One pass of the menu loop: the choice is dispatched on the token held,
     * and the token and `token.txt` move as `Next` says unless the choice
     * ends the program.
     */
    method Turn(s: Snapshot, input: Input) returns (action: Action, t: Snapshot)
      requires tokenFile == s.file
      modifies this
      ensures Turned(s, input, writable, action, t)
      ensures tokenFile == t.file
    {
      action := Dispatch(s.token, input.choice);
      t := s;
      match action {
        case Login =>
          var outcome := Login(input.attempts);
          if outcome != Aborted {
            t := Snapshot(if outcome.LoggedIn? then Some(outcome.token) else None, tokenFile);
          }
        case Logout(_) =>
          Logout();
          t := Snapshot(None, tokenFile);
        case _ =>
      }
    }

    /**
     * The menu loop of `main`, from the state `start`, over the inputs.
     */
    method RunMenu(start: Snapshot, inputs: seq<Input>) returns (actions: seq<Action>, states: seq<Snapshot>, end: End)
      requires tokenFile == start.file
      modifies this
      ensures states != [] && states[0] == start
      ensures MenuRun(inputs, writable, actions, states, end)
      ensures tokenFile == states[|states| - 1].file
    {
      actions, states := [], [start];
      var i := 0;
      while i < |inputs|
        invariant i == |actions| && Continues(inputs, writable, actions, states) && states[0] == start
        invariant tokenFile == states[i].file
      {
        var action, next := Turn(states[i], inputs[i]);
        ExtendRun(inputs, writable, actions, states, action, next);
        actions := actions + [action];
        states := states + [next];
        if EndsProgram(action, inputs[i].attempts) {
          return actions, states, if action == Exit then Exited else Crashed;
        }
        i := i + 1;
      }
      CloseRun(inputs, writable, actions, states);
      end := InputClosed;
    }

    /**
     * `main`: revalidate the saved token, then run the menu loop over the
     * inputs from the token `Revalidated` gives.
     */
    method Start(check: ApiResult, inputs: seq<Input>) returns (actions: seq<Action>, states: seq<Snapshot>, end: End)
      modifies this
      ensures states != [] && states[0].token == Revalidated(old(tokenFile), check)
      ensures states[0].file == if Rejects(old(tokenFile), check) then None else old(tokenFile)
      ensures MenuRun(inputs, writable, actions, states, end)
      ensures tokenFile == states[|states| - 1].file
    {
      var token := IsLoggedIn(check);
      actions, states, end := RunMenu(Snapshot(token, tokenFile), inputs);
    }
  }
}
