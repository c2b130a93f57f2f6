/**
 * The first terminal client. Its session is the module-level name `token`,
 * which exists or not (`"token" in globals()`), and the file `token.txt`.
 * Requests are inputs: `Unreachable` when `requests` raises, otherwise the
 * status and body text. An exception that escapes (a request that raises,
 * an `EOFError` once the input script is exhausted) ends the program.
 */
module Cli {
  import opened Wrappers
  import opened Strings

  /** What a request produced: `requests` raised, or a response with a status code and a body text. */
  datatype Http = Unreachable | Response(code: int, text: string)

  const Quote: set<char> := {'"'}

  /** The `token` global (`None` while the name is not defined) and the contents of `token.txt` (`None` when absent). */
  datatype Session = Session(token: Option<string>, file: Option<string>)

  /** What `is_logged_in` does: returns `True`, returns `False`, or lets the `/user` request's exception escape. */
  datatype Check = Yes | No | Raised

  datatype Checked = Checked(verdict: Check, after: Session)

  /**
   * `is_logged_in`. Without `token.txt` the answer is no and nothing
   * changes. Otherwise the global becomes the file's contents stripped of
   * whitespace; an empty token is taken as logged in without asking the
   * server; a non-empty one that `/user` does not answer with 200 is
   * deleted together with the file.
   */
  function Revalidate(s: Session, check: Http): (c: Checked)
    ensures s.file.None? ==> c == Checked(No, s)
    ensures c.verdict == Yes <==>
      s.file.Some? && (Strip(s.file.value, Whitespace) == "" || (check.Response? && check.code == 200))
    ensures c.verdict == Raised <==> s.file.Some? && Strip(s.file.value, Whitespace) != "" && check.Unreachable?
    ensures c.verdict != No ==> c.after == Session(Some(Strip(s.file.value, Whitespace)), s.file)
    ensures c.verdict == No && s.file.Some? ==> c.after == Session(None, None)
  {
    if s.file.None? then Checked(No, s)
    else
      var t := Strip(s.file.value, Whitespace);
      if t == "" then Checked(Yes, Session(Some(t), s.file))
      else match check
        case Unreachable => Checked(Raised, Session(Some(t), s.file))
        case Response(code, _) =>
          if code != 200 then Checked(No, Session(None, None))
          else Checked(Yes, Session(Some(t), s.file))
  }

  /** One pass of the login loop: what `/auth` produced, and the answer to "Do you want to try again?". */
  datatype Attempt = Attempt(reply: Http, again: string)

  /** How `login` ends: already logged in, logged in, back to the menu, or by an escaping exception. */
  datatype LoginEnd = AlreadyIn | Succeeded | GaveUp | Threw

  datatype Looped = Looped(end: LoginEnd, token: Option<string>)

  /**
   * The `while True` loop of `login`, from the global `token`. Each attempt
   * sets the global to the body stripped of quotes. A refusal by status
   * deletes the global unless retried; a "null" or empty token keeps it
   * unless retried; anything else succeeds. An unreachable server or an
   * exhausted input raises.
   */
  function LoopRun(token: Option<string>, attempts: seq<Attempt>): (r: Looped)
    ensures r.end != AlreadyIn
    ensures r.end == Succeeded ==> r.token.Some?
    decreases |attempts|
  {
    if attempts == [] then Looped(Threw, token)
    else match attempts[0].reply
      case Unreachable => Looped(Threw, token)
      case Response(code, text) =>
        var t := Strip(text, Quote);
        if code != 200 then
          if IsYes(attempts[0].again) then LoopRun(Some(t), attempts[1..]) else Looped(GaveUp, None)
        else if t == "null" || t == "" then
          if IsYes(attempts[0].again) then LoopRun(Some(t), attempts[1..]) else Looped(GaveUp, Some(t))
        else Looped(Succeeded, Some(t))
  }

  /** An attempt the loop refuses: a response whose status is not 200, or whose body stripped of quotes is "null" or empty. */
  predicate Refused(a: Attempt)
  {
    a.reply.Response? && (a.reply.code != 200 || Strip(a.reply.text, Quote) == "null" || Strip(a.reply.text, Quote) == "")
  }

  /** The global a refused attempt leaves when it is not retried: deleted after a refusal by status, the token otherwise. */
  function LeftBy(a: Attempt): (token: Option<string>)
    requires Refused(a)
    ensures token.Some? <==> a.reply.code == 200
    ensures token.Some? ==> token.value == "null" || token.value == ""
  {
    if a.reply.code != 200 then None else Some(Strip(a.reply.text, Quote))
  }

  /** The attempts before `k` were all refused and retried. */
  predicate RetriedUpTo(attempts: seq<Attempt>, k: int)
    requires 0 <= k <= |attempts|
  {
    forall j :: 0 <= j < k ==> Refused(attempts[j]) && IsYes(attempts[j].again)
  }

  /** A refused attempt answered "y" hands the loop on to the next attempt, with its quote-stripped body as the global. */
  lemma RetryStep(token: Option<string>, attempts: seq<Attempt>)
    requires attempts != [] && Refused(attempts[0]) && IsYes(attempts[0].again)
    ensures LoopRun(token, attempts) == LoopRun(Some(Strip(attempts[0].reply.text, Quote)), attempts[1..])
  {
  }

  /** The attempts before `k + 1` were refused and retried, given that the first was and those after it up to `k + 1` were. */
  lemma RetriedShift(attempts: seq<Attempt>, k: int)
    requires attempts != [] && Refused(attempts[0]) && IsYes(attempts[0].again)
    requires 0 <= k < |attempts| - 1 && RetriedUpTo(attempts[1..], k)
    ensures RetriedUpTo(attempts, k + 1) && attempts[k + 1] == attempts[1..][k]
  {
    forall j | 0 < j < k + 1 ensures Refused(attempts[j]) && IsYes(attempts[j].again) {
      assert attempts[j] == attempts[1..][j - 1];
    }
  }

  /**
   * A successful login took the token from attempt `k`, a 200 response
   * whose body is neither "null" nor empty once stripped of quotes, after
   * every earlier attempt was refused and retried.
   */
  lemma {:induction false} LoopRunSucceeds(token: Option<string>, attempts: seq<Attempt>)
    requires LoopRun(token, attempts).end == Succeeded
    ensures exists k :: 0 <= k < |attempts| && RetriedUpTo(attempts, k)
                  && attempts[k].reply.Response? && attempts[k].reply.code == 200 && !Refused(attempts[k])
                  && LoopRun(token, attempts).token == Some(Strip(attempts[k].reply.text, Quote))
    decreases |attempts|
  {
    if Refused(attempts[0]) && IsYes(attempts[0].again) {
      var t := Strip(attempts[0].reply.text, Quote);
      var rest := attempts[1..];
      RetryStep(token, attempts);
      LoopRunSucceeds(Some(t), rest);
      var k :| 0 <= k < |rest| && RetriedUpTo(rest, k)
               && rest[k].reply.Response? && rest[k].reply.code == 200 && !Refused(rest[k])
               && LoopRun(Some(t), rest).token == Some(Strip(rest[k].reply.text, Quote));
      RetriedShift(attempts, k);
    } else {
      assert RetriedUpTo(attempts, 0);
    }
  }

  /**
   * Giving up happens at a refused attempt `k` answered with anything but
   * "y", after every earlier one was refused and retried. The global is
   * then deleted if `k` was refused by status, and holds `k`'s "null" or
   * empty token otherwise.
   */
  lemma {:induction false} LoopRunGivesUp(token: Option<string>, attempts: seq<Attempt>)
    requires LoopRun(token, attempts).end == GaveUp
    ensures exists k :: 0 <= k < |attempts| && RetriedUpTo(attempts, k)
                  && Refused(attempts[k]) && !IsYes(attempts[k].again)
                  && LoopRun(token, attempts).token == LeftBy(attempts[k])
    decreases |attempts|
  {
    if Refused(attempts[0]) && IsYes(attempts[0].again) {
      var t := Strip(attempts[0].reply.text, Quote);
      var rest := attempts[1..];
      RetryStep(token, attempts);
      LoopRunGivesUp(Some(t), rest);
      var k :| 0 <= k < |rest| && RetriedUpTo(rest, k)
               && Refused(rest[k]) && !IsYes(rest[k].again)
               && LoopRun(Some(t), rest).token == LeftBy(rest[k]);
      RetriedShift(attempts, k);
    } else {
      assert RetriedUpTo(attempts, 0);
    }
  }

  datatype LoginResult = LoginResult(end: LoginEnd, after: Session)

  /**
   * `login`: nothing is prompted when `is_logged_in` says yes (or raises);
   * otherwise the loop runs, and on success the token is written to
   * `token.txt` when the write succeeds. A failed write only prints a
   * warning, and login still succeeds.
   */
  function LoginRun(s: Session, check: Http, attempts: seq<Attempt>, writable: bool): (r: LoginResult)
    ensures Revalidate(s, check).verdict == Yes ==> r == LoginResult(AlreadyIn, Revalidate(s, check).after)
    ensures r.end == Succeeded ==> r.after.token.Some? && r.after.file == if writable then r.after.token else Revalidate(s, check).after.file
    ensures r.end != Succeeded ==> r.after.file == Revalidate(s, check).after.file
  {
    var c := Revalidate(s, check);
    match c.verdict
    case Yes => LoginResult(AlreadyIn, c.after)
    case Raised => LoginResult(Threw, c.after)
    case No =>
      var l := LoopRun(c.after.token, attempts);
      LoginResult(l.end, Session(l.token, if l.end == Succeeded && writable then l.token else c.after.file))
  }

  /** A first attempt that gets the token "null" and is not retried ends the loop with "null" as the global. */
  lemma DeclinedNullAttempt(token: Option<string>, attempts: seq<Attempt>)
    requires attempts != [] && attempts[0].reply == Response(200, "null") && !IsYes(attempts[0].again)
    ensures LoopRun(token, attempts) == Looped(GaveUp, Some("null"))
  {
    StripKeepsTrimmed("null", Quote);
  }

  /**
   * A login whose first attempt gets a "null" token, not retried, leaves the
   * global defined as "null" and `token.txt` untouched. By `Menu` and
   * `Dispatch`, the client then offers "5. Logout" and runs "2", "3" and "4"
   * with the token "null".
   */
  lemma DeclinedNullLoginStaysLoggedIn(s: Session, check: Http, attempts: seq<Attempt>, writable: bool)
    requires Revalidate(s, check).verdict == No
    requires attempts != [] && attempts[0].reply == Response(200, "null") && !IsYes(attempts[0].again)
    ensures LoginRun(s, check, attempts, writable) == LoginResult(GaveUp, Session(Some("null"), Revalidate(s, check).after.file))
  {
    DeclinedNullAttempt(Revalidate(s, check).after.token, attempts);
  }

  /**
   * Logging out keeps `token.txt`, so the next "5" in the same run logs
   * back in with the saved token without prompting, whenever `/user` still
   * accepts it.
   */
  lemma LoginAfterLogoutResumes(s: Session, check: Http, attempts: seq<Attempt>, writable: bool)
    requires s.file.Some? && check.Response? && check.code == 200
    ensures var r := LoginRun(Session(None, s.file), check, attempts, writable);
      r == LoginResult(AlreadyIn, Session(Some(Strip(s.file.value, Whitespace)), s.file))
  {
  }

  /**
   * The token a successful login saves is the one the next start-up
   * resumes with, provided it has no surrounding whitespace and `/user`
   * still answers 200.
   */
  lemma SavedTokenResumes(token: string, anyToken: Option<string>, text: string)
    requires token != "" && token[0] !in Whitespace && token[|token| - 1] !in Whitespace
    ensures Revalidate(Session(anyToken, Some(token)), Response(200, text)) == Checked(Yes, Session(Some(token), Some(token)))
  {
    StripKeepsTrimmed(token, Whitespace);
  }

  /**
   * `print_menu`: the fixed entries, "5. Login" or "5. Logout" by whether
   * the global exists, "6. Exit", and "7. Sign Up" last only without it.
   */
  function Menu(hasToken: bool): (lines: seq<string>)
    ensures |lines| >= 8 && lines[..6] == ["Library Management System Menu", "0. Show Menu", "1. View Books", "2. Add Book", "3. Checkout Book", "4. Return Book"]
    ensures "5. Logout" in lines <==> hasToken
    ensures "5. Login" in lines <==> !hasToken
    ensures "7. Sign Up" in lines <==> !hasToken
    ensures lines[6] == if hasToken then "5. Logout" else "5. Login"
    ensures lines[7] == "6. Exit"
  {
    ["Library Management System Menu", "0. Show Menu", "1. View Books", "2. Add Book", "3. Checkout Book", "4. Return Book"]
    + (if hasToken then ["5. Logout", "6. Exit"] else ["5. Login", "6. Exit", "7. Sign Up"])
  }

  /** What one menu choice does. Adding, checking out and returning send the global token. */
  datatype Action =
    | ShowMenu
    | ViewBooks
    | AddBook(token: string)
    | CheckoutBook(token: string)
    | ReturnBook(token: string)
    | LoginRequired(message: string)
    | Logout
    | Login
    | Exit
    | SignUp
    | Invalid

  predicate SendsToken(a: Action)
  {
    a.AddBook? || a.CheckoutBook? || a.ReturnBook?
  }

  /**
   * The `match number` of `main`, gated on whether the global exists (an
   * empty token counts): "2", "3" and "4" need it and are refused locally
   * without it; "5" logs out with it and logs in without; "7" signs up
   * whether or not there is a token; "6" exits.
   */
  function Dispatch(token: Option<string>, choice: string): (a: Action)
    ensures SendsToken(a) ==> token.Some? && a.token == token.value
    ensures choice == "2" ==> a == if token.Some? then AddBook(token.value) else LoginRequired("You must be logged in to add a book.")
    ensures choice == "3" ==> a == if token.Some? then CheckoutBook(token.value) else LoginRequired("You must be logged in to checkout a book.")
    ensures choice == "4" ==> a == if token.Some? then ReturnBook(token.value) else LoginRequired("You must be logged in to return a book.")
    ensures a.LoginRequired? <==> token.None? && choice in {"2", "3", "4"}
    ensures a == Logout <==> choice == "5" && token.Some?
    ensures a == Login <==> choice == "5" && token.None?
    ensures a == SignUp <==> choice == "7"
    ensures a == Exit <==> choice == "6"
    ensures a == Invalid <==> choice !in {"0", "1", "2", "3", "4", "5", "6", "7"}
  {
    match choice
    case "0" => ShowMenu
    case "1" => ViewBooks
    case "2" => if token.Some? then AddBook(token.value) else LoginRequired("You must be logged in to add a book.")
    case "3" => if token.Some? then CheckoutBook(token.value) else LoginRequired("You must be logged in to checkout a book.")
    case "4" => if token.Some? then ReturnBook(token.value) else LoginRequired("You must be logged in to return a book.")
    case "5" => if token.Some? then Logout else Login
    case "6" => Exit
    case "7" => SignUp
    case _ => Invalid
  }

  /**
   * An empty `token.txt` starts a session that the menu treats as logged in
   * and whose book operations send an empty token.
   */
  lemma EmptyFileCountsAsLoggedIn(token: Option<string>, blank: string, check: Http)
    requires forall i :: 0 <= i < |blank| ==> blank[i] in Whitespace
    ensures var c := Revalidate(Session(token, Some(blank)), check);
      && c == Checked(Yes, Session(Some(""), Some(blank)))
      && "5. Logout" in Menu(c.after.token.Some?)
      && Dispatch(c.after.token, "3") == CheckoutBook("")
  {
  }

  /** One turn of the menu loop: the choice, and the requests and answers that choice would use. */
  datatype Input = Input(choice: string, check: Http, attempts: seq<Attempt>, logoutReply: Http)

  /** How the program stops: "6", the end of the input, or an escaping exception. */
  datatype End = Exited | InputClosed | Crashed

  /** The choice ends the program: "6", a logout whose request raises, or a login that raises. */
  predicate EndsProgram(s: Session, a: Action, input: Input, writable: bool)
  {
    || a == Exit
    || (a == Logout && input.logoutReply.Unreachable?)
    || (a == Login && LoginRun(s, input.check, input.attempts, writable).end == Threw)
  }

  /**
   * The session after a turn. Logging out deletes the global unless the
   * `/logout` request raises, and leaves `token.txt` as it was.
   */
  function Next(s: Session, a: Action, input: Input, writable: bool): (r: Session)
    ensures a == Logout ==> r.file == s.file
    ensures a == Logout && input.logoutReply.Response? ==> r.token.None?
    ensures a == Login && Revalidate(s, input.check).verdict == Yes ==> r == Revalidate(s, input.check).after
    ensures a != Logout && a != Login ==> r == s
  {
    match a
    case Logout => if input.logoutReply.Unreachable? then s else Session(None, s.file)
    case Login => LoginRun(s, input.check, input.attempts, writable).after
    case _ => s
  }

  /** One turn: `a` is what the choice does in session `s`, and `t` is the session after it. */
  predicate Turned(s: Session, input: Input, writable: bool, a: Action, t: Session)
  {
    && a == Dispatch(s.token, input.choice)
    && t == Next(s, a, input, writable)
  }

  /** The first `|actions|` turns of a run that has not stopped yet. */
  predicate Continues(inputs: seq<Input>, writable: bool, actions: seq<Action>, states: seq<Session>)
  {
    && |states| == |actions| + 1 && |actions| <= |inputs|
    && (forall i :: 0 <= i < |actions| ==> Turned(states[i], inputs[i], writable, actions[i], states[i + 1]))
    && (forall i :: 0 <= i < |actions| ==> !EndsProgram(states[i], actions[i], inputs[i], writable))
  }

  /**
   * A whole run of the menu loop: every turn as `Turned` says, none but the
   * last ending the program, and the loop stops at the first "6", at the end
   * of the input, or when an exception escapes.
   */
  predicate MenuRun(inputs: seq<Input>, writable: bool, actions: seq<Action>, states: seq<Session>, end: End)
  {
    && |states| == |actions| + 1 && |actions| <= |inputs|
    && (forall i :: 0 <= i < |actions| ==> Turned(states[i], inputs[i], writable, actions[i], states[i + 1]))
    && (forall i :: 0 <= i < |actions| - 1 ==> !EndsProgram(states[i], actions[i], inputs[i], writable))
    && (end == Exited <==> actions != [] && actions[|actions| - 1] == Exit)
    && (end == Crashed <==> actions != [] && actions[|actions| - 1] != Exit
                            && EndsProgram(states[|actions| - 1], actions[|actions| - 1], inputs[|actions| - 1], writable))
    && (end == InputClosed ==> |actions| == |inputs|)
  }

  /** One more turn either extends an unfinished run or completes it as exited or crashed. */
  lemma ExtendRun(inputs: seq<Input>, writable: bool, actions: seq<Action>, states: seq<Session>, a: Action, t: Session)
    requires Continues(inputs, writable, actions, states) && |actions| < |inputs|
    requires Turned(states[|actions|], inputs[|actions|], writable, a, t)
    ensures !EndsProgram(states[|actions|], a, inputs[|actions|], writable) ==>
      Continues(inputs, writable, actions + [a], states + [t])
    ensures EndsProgram(states[|actions|], a, inputs[|actions|], writable) ==>
      MenuRun(inputs, writable, actions + [a], states + [t], if a == Exit then Exited else Crashed)
  {
    var n, longer, after := |actions|, actions + [a], states + [t];
    forall i | 0 <= i <= n
      ensures Turned(after[i], inputs[i], writable, longer[i], after[i + 1])
    {
      if i < n {
        assert longer[i] == actions[i] && after[i] == states[i] && after[i + 1] == states[i + 1];
      } else {
        assert longer[i] == a && after[i] == states[n] && after[i + 1] == t;
      }
    }
    forall i | 0 <= i < n
      ensures !EndsProgram(after[i], longer[i], inputs[i], writable)
    {
      assert longer[i] == actions[i] && after[i] == states[i];
    }
    assert longer[n] == a && after[n] == states[n];
  }

  /** A run that consumed every input without stopping ends with the input closed. */
  lemma CloseRun(inputs: seq<Input>, writable: bool, actions: seq<Action>, states: seq<Session>)
    requires Continues(inputs, writable, actions, states) && |actions| == |inputs|
    ensures MenuRun(inputs, writable, actions, states, InputClosed)
  {
  }

  class Client {
    /** The `token` global: `None` while the name is not defined. */
    var token: Option<string>
    /** `token.txt`: `None` when the file does not exist. */
    var tokenFile: Option<string>
    /** Whether writing `token.txt` succeeds. */
    const writable: bool

    constructor (file: Option<string>, writable: bool)
      ensures token.None? && tokenFile == file && this.writable == writable
    {
      token, tokenFile := None, file;
      this.writable := writable;
    }

    /** `is_logged_in`, as `Revalidate` describes it. */
    method IsLoggedIn(check: Http) returns (verdict: Check)
      modifies this
      ensures Checked(verdict, Session(token, tokenFile)) == Revalidate(old(Session(token, tokenFile)), check)
    {
      if tokenFile.None? {
        return No;
      }
      token := Some(Strip(tokenFile.value, Whitespace));
      if token.value != "" {
        match check
        case Unreachable =>
          return Raised;
        case Response(code, _) =>
          if code != 200 {
            tokenFile := None;
            token := None;
            return No;
          }
      }
      verdict := Yes;
    }

    /** `login`: revalidation, then the retry loop, which ends as `LoginRun` says. */
    method Login(check: Http, attempts: seq<Attempt>) returns (end: LoginEnd)
      modifies this
      ensures LoginResult(end, Session(token, tokenFile)) == LoginRun(old(Session(token, tokenFile)), check, attempts, writable)
    {
      var verdict := IsLoggedIn(check);
      if verdict == Yes {
        return AlreadyIn;
      }
      if verdict == Raised {
        return Threw;
      }
      ghost var goal, file := LoopRun(token, attempts), tokenFile;
      var i := 0;
      while true
        invariant 0 <= i <= |attempts|
        invariant LoopRun(token, attempts[i..]) == goal
        invariant tokenFile == file
        decreases |attempts| - i
      {
        if i == |attempts| {
          return Threw;
        }
        var attempt := attempts[i];
        assert attempts[i..][1..] == attempts[i + 1..];
        if attempt.reply.Unreachable? {
          return Threw;
        }
        token := Some(Strip(attempt.reply.text, Quote));
        if attempt.reply.code != 200 {
          if !IsYes(attempt.again) {
            token := None;
            return GaveUp;
          }
        } else if token.value == "null" || token.value == "" {
          if !IsYes(attempt.again) {
            return GaveUp;
          }
        } else {
          if writable {
            tokenFile := token;
          }
          return Succeeded;
        }
        i := i + 1;
      }
    }

    /**
     * `logout`: called only while the global exists. The `/logout` request
     * raising leaves everything as it was; otherwise the global is deleted
     * and `token.txt` is left in place.
     */
    method Logout(reply: Http) returns (raised: bool)
      requires token.Some?
      modifies this
      ensures raised <==> reply.Unreachable?
      ensures tokenFile == old(tokenFile)
      ensures token == if raised then old(token) else None
    {
      if reply.Unreachable? {
        return true;
      }
      token := None;
      raised := false;
    }

    /** One pass of the menu loop, as `Turned` says; `stop` tells whether it ends the program. */
    method Turn(input: Input) returns (action: Action, t: Session, stop: bool)
      modifies this
      ensures t == Session(token, tokenFile)
      ensures Turned(old(Session(token, tokenFile)), input, writable, action, t)
      ensures stop == EndsProgram(old(Session(token, tokenFile)), action, input, writable)
    {
      action := Dispatch(token, input.choice);
      stop := action == Exit;
      match action {
        case Login =>
          var end := Login(input.check, input.attempts);
          stop := end == Threw;
        case Logout =>
          stop := Logout(input.logoutReply);
        case _ =>
      }
      t := Session(token, tokenFile);
    }

    /**
     * `main`: `is_logged_in` outside the loop's exception handler, then the
     * menu loop from the session it leaves.
     */
    method Start(check: Http, inputs: seq<Input>) returns (actions: seq<Action>, states: seq<Session>, end: End)
      modifies this
      ensures states != [] && states[0] == Revalidate(old(Session(token, tokenFile)), check).after
      ensures Revalidate(old(Session(token, tokenFile)), check).verdict == Raised ==> actions == [] && end == Crashed
      ensures Revalidate(old(Session(token, tokenFile)), check).verdict != Raised ==> MenuRun(inputs, writable, actions, states, end)
    {
      var verdict := IsLoggedIn(check);
      actions, states := [], [Session(token, tokenFile)];
      if verdict == Raised {
        return actions, states, Crashed;
      }
      var i := 0;
      while i < |inputs|
        invariant i == |actions| && Continues(inputs, writable, actions, states)
        invariant states[0] == Revalidate(old(Session(token, tokenFile)), check).after
        invariant states[i] == Session(token, tokenFile)
      {
        var action, t, stop := Turn(inputs[i]);
        ExtendRun(inputs, writable, actions, states, action, t);
        actions := actions + [action];
        states := states + [t];
        if stop {
          return actions, states, if action == Exit then Exited else Crashed;
        }
        i := i + 1;
      }
      CloseRun(inputs, writable, actions, states);
      end := InputClosed;
    }
  }
}
