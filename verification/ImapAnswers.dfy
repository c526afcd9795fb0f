/** When each IMAP command completes, and what every session does with every line it reads. */
module ImapAnswers {
  import opened Text
  import opened Storage
  import opened FetchFormat
  import opened FetchItems
  import opened Imap
  import opened ImapCommands
  import Sessions = ImapRuns
  import Wire = DataTransfer

  // ---- Completion ----

  predicate Opens(req: Request, ans: Answers) {
    req.args.Name? && ans.mailbox.Some? && ans.listing.Some?
  }

  predicate Lists(req: Request, ans: Answers) {
    req.args.Pattern? && ans.names.Some?
  }

  predicate LogsIn(req: Request, ans: Answers) {
    req.args.Credentials? && req.args.address.Some? && ans.domain.Some? && ans.user.Some? && ans.passwordOk
  }

  /** When a command is answered OK. */
  predicate Completes(cfg: Config, core: Core, req: Request, ans: Answers) {
    match req.verb
    case CAPABILITY => true
    case LOGOUT => true
    case NOOP => !core.state.NotAuthenticated?
    case LOGIN => core.state.NotAuthenticated? && LogsIn(req, ans)
    case STARTTLS => core.state.NotAuthenticated? && !core.isTLS && cfg.tlsAvailable
    case SELECT => !core.state.NotAuthenticated? && Opens(req, ans)
    case EXAMINE => !core.state.NotAuthenticated? && Opens(req, ans)
    case LIST => !core.state.NotAuthenticated? && Lists(req, ans)
    case LSUB => core.state.Authenticated? && Lists(req, ans)
    case FETCH => core.state.Selected? && req.args.Items? && ans.listing.Some?
    case SEARCH => core.state.Selected? && ans.listing.Some?
    case STORE => core.state.Selected? && core.selected.Some? && !core.selected.value.readOnly
    case EXPUNGE => core.state.Selected? && core.selected.Some? && !core.selected.value.readOnly
    case CLOSE => core.state.Selected?
    case OTHER => false
    case MISSING => false
  }

  /** When a command is answered BAD: the line has no command, the arguments are malformed, or the selected state does
      not know the command. */
  predicate Faulty(core: Core, req: Request) {
    match req.verb
    case MISSING => true
    case LOGIN => if core.state.NotAuthenticated? then !req.args.Credentials? else core.state.Selected?
    case SELECT => !core.state.NotAuthenticated? && !req.args.Name?
    case EXAMINE => !core.state.NotAuthenticated? && !req.args.Name?
    case LIST => !core.state.NotAuthenticated? && !req.args.Pattern?
    case LSUB => core.state.Selected? || (core.state.Authenticated? && !req.args.Pattern?)
    case FETCH => core.state.Selected? && !req.args.Items?
    case STARTTLS => core.state.Selected?
    case OTHER => core.state.Selected?
    case _ => false
  }

  /** The status of a completion. */
  ghost predicate Concludes(cfg: Config, core: Core, req: Request, ans: Answers, step: Step) {
    && step.lines != [] && step.lines[|step.lines| - 1].Tagged?
    && var status := step.lines[|step.lines| - 1].status;
       && (status == OK <==> Completes(cfg, core, req, ans))
       && (status == BAD <==> Faulty(core, req))
       && (status == OK ==> Says(cfg, core, req, step))
       && (step.core.state.Logout? <==> req.verb == LOGOUT)
       && (step.core.isTLS <==> core.isTLS || (req.verb == STARTTLS && status == OK && ans.handshake))
  }

  /** What a completed command says: that it was completed, or how the mailbox was opened, or to begin with TLS. */
  ghost predicate Says(cfg: Config, core: Core, req: Request, step: Step)
    requires step.lines != [] && step.lines[|step.lines| - 1].Tagged?
  {
    && step.lines[|step.lines| - 1].saying ==
       (match req.verb
        case SELECT => OpenDone(false)
        case EXAMINE => OpenDone(true)
        case STARTTLS => Tls(BeginTls)
        case LSUB => Done(LIST)
        case _ => Done(req.verb))
    && (req.verb == CAPABILITY ==> step.lines[0] == Untagged(Capabilities(cfg.tlsAvailable && !core.isTLS)))
    && (req.verb == LOGOUT ==> step.lines[0] == Untagged(Bye))
  }

  lemma BeforeLoginConcludes(cfg: Config, core: Core, req: Request, ans: Answers)
    requires core.state.NotAuthenticated? && req.verb != MISSING
    ensures Concludes(cfg, core, req, ans, BeforeLogin(cfg, core, req, ans))
  {
  }

  lemma SelectConcludes(cfg: Config, core: Core, req: Request, ans: Answers)
    requires !core.state.NotAuthenticated? && !core.state.Logout? && (req.verb == SELECT || req.verb == EXAMINE)
    ensures Concludes(cfg, core, req, ans, SelectMailbox(core, req.tag, req.args, req.verb == EXAMINE, ans))
  {
  }

  lemma ListConcludes(cfg: Config, core: Core, req: Request, ans: Answers)
    requires (core.state.Authenticated? && (req.verb == LIST || req.verb == LSUB))
             || (core.state.Selected? && req.verb == LIST)
    ensures Concludes(cfg, core, req, ans, ListMailboxes(core, req.tag, req.args, ans))
  {
  }

  lemma AfterLoginConcludes(cfg: Config, core: Core, req: Request, ans: Answers)
    requires core.state.Authenticated? && req.verb != MISSING
    ensures Concludes(cfg, core, req, ans, AfterLogin(cfg, core, req, ans))
  {
    match req.verb
    case SELECT => SelectConcludes(cfg, core, req, ans);
    case EXAMINE => SelectConcludes(cfg, core, req, ans);
    case LIST => ListConcludes(cfg, core, req, ans);
    case LSUB => ListConcludes(cfg, core, req, ans);
    case _ =>
  }

  lemma WhileSelectedConcludes(cfg: Config, core: Core, req: Request, ans: Answers)
    requires core.state.Selected? && core.selected.Some? && req.verb != MISSING
    ensures Concludes(cfg, core, req, ans, WhileSelected(cfg, core, req, ans))
  {
    match req.verb
    case SELECT => SelectConcludes(cfg, core, req, ans);
    case EXAMINE => SelectConcludes(cfg, core, req, ans);
    case LIST => ListConcludes(cfg, core, req, ans);
    case _ =>
  }

  /** Every command is answered OK, BAD or NO exactly when it should be; LOGOUT alone ends the session, and STARTTLS
      alone encrypts it. */
  lemma EveryCommandConcludes(cfg: Config, core: Core, req: Request, ans: Answers)
    requires !core.state.Logout? && (core.state.Selected? ==> core.selected.Some?)
    ensures Concludes(cfg, core, req, ans, Dispatch(cfg, core, req, ans))
  {
    if req.verb != MISSING {
      match core.state {
        case NotAuthenticated => BeforeLoginConcludes(cfg, core, req, ans);
        case Authenticated => AfterLoginConcludes(cfg, core, req, ans);
        case Selected => WhileSelectedConcludes(cfg, core, req, ans);
      }
    }
  }

  // ---- Line by line ----

  /** The command lines a session reads: trimmed, the empty ones left out, up to the first failed read. */
  function LinesRead(input: seq<Wire.Read>): seq<string> {
    if |input| == 0 || input[0].Failed? then [] else
      var text := TrimRight(input[0].line, NEWLINES);
      if text == "" then LinesRead(input[1..]) else [text] + LinesRead(input[1..])
  }

  /** A line is read without its line ending, be it CRLF or LF; an empty one is passed over. */
  lemma LineRead(text: string, ending: string, rest: seq<Wire.Read>)
    requires Lacks(text, '\n') && (text != "" ==> text[|text| - 1] != '\r') && (ending == "\r\n" || ending == "\n")
    ensures Wire.IsLine(text + ending)
    ensures LinesRead([Wire.Got(text + ending)] + rest) == (if text == "" then [] else [text]) + LinesRead(rest)
  {
    var line := text + ending;
    EndingCut(text, ending);
    assert ([Wire.Got(line)] + rest)[1..] == rest;
  }

  lemma EndingCut(text: string, ending: string)
    requires Lacks(text, '\n') && (text != "" ==> text[|text| - 1] != '\r') && (ending == "\r\n" || ending == "\n")
    ensures Wire.IsLine(text + ending) && TrimRight(text + ending, NEWLINES) == text
  {
    var line := text + ending;
    assert forall i | 0 <= i < |ending| :: ending[i] in NEWLINES;
    assert line[|line| - 1] == '\n';
    assert forall i | |text| <= i < |line| - 1 :: line[i] == ending[i - |text|];
    if text == "" {
      KeptNone(line);
    } else {
      KeptIs(line, |line|, NEWLINES, |text|);
      assert line[..|text|] == text;
    }
  }

  lemma KeptNone(line: string)
    requires AllIn(line, NEWLINES)
    ensures TrimRight(line, NEWLINES) == ""
  {
  }

  /** Exchange `e` is what the server does on line `text` in state `core`. */
  ghost predicate Handles(cfg: Config, core: Core, text: string, ans: Answers, e: Exchange) {
    var step := Dispatch(cfg, core, Parse(text), ans);
    e == Exchange(Parse(text), step.calls, step.lines)
  }

  /** Where exchange `n` of a session comes from. */
  ghost predicate From(cfg: Config, past: seq<Exchange>, texts: seq<string>, e: Exchange, n: nat, core: Core,
      ans: Answers) {
    n < |texts| && Handles(cfg, core, texts[n], ans, e) && Sessions.Inv(Sessions.Scan(past), core)
  }

  lemma {:induction false} LineByLine(cfg: Config, core: Core, net: Net, past: seq<Exchange>, n: nat)
    returns (at: Core, ans: Answers)
    requires Sessions.Inv(Sessions.Scan(past), core) && n < |Serve(cfg, core, net).log|
    ensures From(cfg, past + Serve(cfg, core, net).log[..n], LinesRead(net.input), Serve(cfg, core, net).log[n], n,
            at, ans)
    decreases |net.input|
  {
    var text := TrimRight(net.input[0].line, NEWLINES);
    if text == "" {
      at, ans := LineByLine(cfg, core, net.(input := net.input[1..]), past, n);
    } else {
      var req := Parse(text);
      var step := Dispatch(cfg, core, req, NextAnswers(net));
      var e := Exchange(req, step.calls, step.lines);
      ServeTurn(cfg, core, net, text);
      if n == 0 {
        at, ans := core, NextAnswers(net);
        FirstFrom(cfg, past, Serve(cfg, core, net).log, LinesRead(net.input), text, at, ans);
      } else {
        Sessions.StepKeeps(cfg, Sessions.Scan(past), core, req, NextAnswers(net));
        Sessions.ScanMore(past, e);
        at, ans := LineByLine(cfg, step.core, Taken(net), past + [e], n - 1);
        LaterFrom(cfg, past, e, Serve(cfg, step.core, Taken(net)).log, Serve(cfg, core, net).log,
                  text, LinesRead(net.input[1..]), n, at, ans);
      }
    }
  }

  lemma FirstFrom(
    cfg: Config, past: seq<Exchange>, log: seq<Exchange>, texts: seq<string>, text: string, core: Core, ans: Answers)
    requires |log| > 0 && |texts| > 0 && texts[0] == text && Handles(cfg, core, text, ans, log[0])
    requires Sessions.Inv(Sessions.Scan(past), core)
    ensures From(cfg, past + log[..0], texts, log[0], 0, core, ans)
  {
    assert past + log[..0] == past;
  }

  lemma LaterFrom(
    cfg: Config, past: seq<Exchange>, e: Exchange, later: seq<Exchange>, log: seq<Exchange>, text: string,
        texts: seq<string>,
    n: nat, core: Core, ans: Answers)
    requires 0 < n < |log| && log == [e] + later
    requires From(cfg, past + [e] + later[..n - 1], texts, later[n - 1], n - 1, core, ans)
    ensures From(cfg, past + log[..n], [text] + texts, log[n], n, core, ans)
  {
    TakeMore(past, e, later, n);
    Shifted(e, later, text, texts, n);
  }

  lemma Shifted(e: Exchange, later: seq<Exchange>, text: string, texts: seq<string>, n: nat)
    requires 0 < n <= |later| && n <= |texts|
    ensures ([text] + texts)[n] == texts[n - 1] && ([e] + later)[n] == later[n - 1]
  {
  }

  lemma TakeMore(past: seq<Exchange>, e: Exchange, later: seq<Exchange>, n: nat)
    requires 0 < n <= |later| + 1
    ensures past + ([e] + later)[..n] == past + [e] + later[..n - 1]
  {
  }

  /** In every session, exchange `n` is the server's answer to the n-th line read, in a state that keeps the
      invariant; and it concludes as it should. */
  lemma EveryLineAnswered(cfg: Config, isTLS: bool, net: Net, n: nat) returns (core: Core, ans: Answers)
    requires n < |Sessions.Run(cfg, isTLS, net).log|
    ensures var log, texts := Sessions.Run(cfg, isTLS, net).log, LinesRead(net.input);
            && n < |texts| && Sessions.Inv(Sessions.Scan(log[..n]), core)
            && Handles(cfg, core, texts[n], ans, log[n])
            && Concludes(cfg, core, Parse(texts[n]), ans, Dispatch(cfg, core, Parse(texts[n]), ans))
  {
    core, ans := LineByLine(cfg, Start(isTLS), net, [], n);
    var log := Sessions.Run(cfg, isTLS, net).log;
    assert [] + log[..n] == log[..n];
    EveryCommandConcludes(cfg, core, Parse(LinesRead(net.input)[n]), ans);
  }

  /** No line is passed over: a session that does not end by LOGOUT has answered every line it read. */
  lemma {:induction false} NoLineSkipped(cfg: Config, core: Core, net: Net)
    requires !core.state.Logout?
    ensures Serve(cfg, core, net).core.state.Logout? || |Serve(cfg, core, net).log| == |LinesRead(net.input)|
    decreases |net.input|
  {
    if |net.input| > 0 && net.input[0].Got? {
      var text := TrimRight(net.input[0].line, NEWLINES);
      if text == "" {
        NoLineSkipped(cfg, core, net.(input := net.input[1..]));
      } else {
        ServeTurn(cfg, core, net, text);
        var step := Dispatch(cfg, core, Parse(text), NextAnswers(net));
        if !step.core.state.Logout? {
          NoLineSkipped(cfg, step.core, Taken(net));
        }
      }
    }
  }

  // ---- What the text of a line does ----

  /** LOGIN looked up and checked what the line names: the account of "user@domain", and its password. */
  ghost predicate LoginTold(args: string, e: Exchange) {
    && |e.calls| == 3 && e.calls[0].DomainCall? && e.calls[1].UserCall? && e.calls[2].PasswordCall?
    && exists first, second, username ::
         && Pair(args, first, second) && Unquotes(first, username) && Unquotes(second, e.calls[2].password)
         && username == e.calls[1].user + "@" + e.calls[0].name && Lacks(e.calls[1].user, '@')
         && Sessions.AccountOf(e).Some? && Sessions.AccountOf(e).value.username == username
  }

  /** SELECT and EXAMINE looked up the mailbox the line names. */
  ghost predicate OpenTold(args: string, e: Exchange) {
    |e.calls| > 0 && e.calls[0].MailboxCall? && e.calls[0].mailboxName != ""
        && NamesMailbox(args, e.calls[0].mailboxName)
  }

  ghost predicate FetchTold(args: string, e: Exchange) {
    e.req.args.Items? && exists first, second :: Pair(args, first, second) && AsksFor(second, e.req.args.wants)
  }

  ghost predicate ListTold(args: string, e: Exchange) {
    e.req.args.Pattern? && exists first, second :: Pair(args, first, second) && Unquotes(second, e.req.args.pattern)
  }

  ghost predicate ArgsTold(args: string, e: Exchange) {
    && (Sessions.LoggedIn(e) ==> LoginTold(args, e))
    && (Sessions.OpenedBox(e) ==> OpenTold(args, e))
    && (e.req.verb == FETCH && Sessions.Completed(e) ==> FetchTold(args, e))
    && ((e.req.verb == LIST || e.req.verb == LSUB) && Sessions.Completed(e) ==> ListTold(args, e))
  }

  lemma LoginTells(r: Sessions.Reading, e: Exchange, args: string)
    requires Sessions.LoginSound(r, e) && Sessions.LoggedIn(e) && e.req.args == ParseArgs(LOGIN, args)
    ensures LoginTold(args, e)
  {
    var username, password := e.req.args.username, e.req.args.password;
    assert e.req.args.address == ParseAddress(username);
    LoginArgs(args, username, password);
    var first, second :| Pair(args, first, second) && Unquotes(first, username) && Unquotes(second, password);
    ParseAddressExact(username, e.calls[1].user, e.calls[0].name);
  }

  lemma OpenTells(r: Sessions.Reading, e: Exchange, args: string)
    requires Sessions.OpenSound(r, e) && Sessions.OpenedBox(e) && e.req.args == ParseArgs(e.req.verb, args)
    ensures OpenTold(args, e)
  {
    SelectArgs(e.req.verb, args, e.req.args.name);
  }

  lemma ArgsTell(r: Sessions.Reading, e: Exchange, args: string)
    requires Sessions.Good(r, e) && e.req.args == ParseArgs(e.req.verb, args)
    ensures ArgsTold(args, e)
  {
    if Sessions.LoggedIn(e) {
      LoginTells(r, e, args);
    }
    if Sessions.OpenedBox(e) {
      OpenTells(r, e, args);
    }
    if e.req.verb == FETCH && Sessions.Completed(e) {
      FetchArgs(args, e.req.args.wants);
    }
    if (e.req.verb == LIST || e.req.verb == LSUB) && Sessions.Completed(e) {
      ListArgs(e.req.verb, args, e.req.args.pattern);
    }
  }

  /** What a completed command did is what its line says: the tag, the command in any case, the account and password
      of LOGIN, the mailbox of SELECT and EXAMINE, the items of FETCH, the pattern of LIST. */
  lemma EveryLineTold(cfg: Config, isTLS: bool, net: Net, n: nat) returns (tag: string, word: string, args: string)
    requires n < |Sessions.Run(cfg, isTLS, net).log| && Sessions.Completed(Sessions.Run(cfg, isTLS, net).log[n])
    ensures var e := Sessions.Run(cfg, isTLS, net).log[n];
            && n < |LinesRead(net.input)| && Reads(LinesRead(net.input)[n], tag, word, args)
            && e.req.tag == tag && Spells(word, e.req.verb) && ArgsTold(args, e)
  {
    var log := Sessions.Run(cfg, isTLS, net).log;
    var core, ans := EveryLineAnswered(cfg, isTLS, net, n);
    Sessions.EveryExchangeGood(cfg, isTLS, net, n);
    tag, word, args := Decompose(LinesRead(net.input)[n]);
    ArgsTell(Sessions.Scan(log[..n]), log[n], args);
  }

  // ---- Statuses on the wire ----

  /** The word after the tag. */
  function StatusWord(wire: string): string {
    Cut(Cut(wire, ' ').1, ' ').0
  }

  /** A client reads from a tagged response the tag and whether the command completed, failed or was not understood. */
  lemma StatusRead(tag: string, status: Status, saying: Saying)
    requires Lacks(tag, ' ')
    ensures var wire := Tagged(tag, status, saying).Wire();
            && Sessions.FirstWord(wire) == tag
            && (StatusWord(wire) == "OK" <==> status == OK)
            && (StatusWord(wire) == "NO" <==> status == NO)
            && (StatusWord(wire) == "BAD" <==> status == BAD)
  {
    Sessions.WireWord(Tagged(tag, status, saying));
    WordsRead(tag, StatusText(status), Wording(saying));
    assert "OK"[0] == 'O' && "NO"[0] == 'N' && "BAD"[0] == 'B';
  }

  lemma WordsRead(tag: string, status: string, words: string)
    requires Lacks(tag, ' ') && Lacks(status, ' ')
    ensures StatusWord(tag + " " + status + " " + words + CRLF) == status
  {
    Regroup(tag + " ", status, " ");
    Regroup(tag + " ", status + " ", words);
    Regroup(tag + " ", status + " " + words, CRLF);
    Regroup(status + " ", words, CRLF);
    CutAt(tag, ' ', status + " " + words + CRLF);
    CutAt(status, ' ', words + CRLF);
  }

  /** The completion of SELECT and EXAMINE begins with the code for how the mailbox was opened. */
  lemma OpenCode(readOnly: bool)
    ensures var words := Wording(OpenDone(readOnly));
            && ("[READ-ONLY]" <= words <==> readOnly)
            && ("[READ-WRITE]" <= words <==> !readOnly)
  {
    assert "[READ-ONLY] EXAMINE completed"[6] == 'O' && "[READ-WRITE] SELECT completed"[6] == 'W';
    assert "[READ-ONLY]"[6] == 'O' && "[READ-WRITE]"[6] == 'W';
  }
}
