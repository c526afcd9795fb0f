/** One IMAP session: the state machine, the logged-in user, the selected mailbox and the command handlers, first as
    functions on values and then as the object that carries them out. Every call of a storage port is recorded with its
    arguments and its result. */
module Imap {
  import opened Text
  import opened Storage
  import opened FetchFormat
  import Wire = DataTransfer

  datatype State = NotAuthenticated | Authenticated | Selected | Logout

  datatype Event = LoginEvent | SelectEvent | CloseEvent | LogoutEvent

  /** The transition table; it has no entry that stays in the same state. */
  function Fire(s: State, e: Event): Option<State> {
    match e
    case LoginEvent => if s.NotAuthenticated? then Some(Authenticated) else None
    case SelectEvent => if s.Authenticated? then Some(Selected) else None
    case CloseEvent => if s.Selected? then Some(Authenticated) else None
    case LogoutEvent => if s.Logout? then None else Some(Logout)
  }

  datatype Config = Config(domain: string, tlsAvailable: bool)

  datatype Opened = Opened(id: nat, name: string, uidValidity: nat, uidNext: nat, readOnly: bool)

  datatype Core = Core(state: State, userId: nat, username: string, selected: Option<Opened>, isTLS: bool)

  function Start(isTLS: bool): Core {
    Core(NotAuthenticated, 0, "", None, isTLS)
  }

  // ---- The outside ----

  /** A mailbox row with its id. */
  datatype Found = Found(id: nat, row: Mailbox)

  /** What the ports will answer to the calls of one command; `None` is an error. */
  datatype Answers = Answers(
    domain: Option<nat>,
    user: Option<nat>,
    passwordOk: bool,
    mailbox: Option<Found>,
    names: Option<seq<string>>,
    listing: Option<seq<Message>>,
    bodies: seq<Option<string>>,   // in the order of the calls; None is an error or a miss
    handshake: bool)

  const SILENCE := Answers(None, None, false, None, None, None, [], false)

  /** A call of a port: its arguments and its result. */
  datatype Call =
    | DomainCall(name: string, domain: Option<nat>)
    | UserCall(user: string, domainId: nat, userId: Option<nat>)
    | PasswordCall(password: string, account: nat, ok: bool)
    | MailboxCall(owner: nat, mailboxName: string, found: Option<Found>)
    | MailboxesCall(owner: nat, names: Option<seq<string>>)
    | ListCall(mailbox: nat, listing: Option<seq<Message>>)
    | BodyCall(id: nat, body: Option<string>)

  datatype Status = OK | NO | BAD

  function StatusText(s: Status): string {
    match s
    case OK => "OK"
    case NO => "NO"
    case BAD => "BAD"
  }

  datatype Why = BadUsername | BadCredentials | LoginFailed | CannotSelect | NoMailboxSelected

  datatype TlsNews = AlreadyTls | NoTls | BeginTls

  datatype Misplaced = BeforeAuthentication | WithoutMailbox | UnknownCommand | InvalidCommand

  /** What a tagged response says. */
  datatype Saying =
    | Done(verb: Verb)
    | OpenDone(readOnly: bool)
    | Usage(verb: Verb)
    | ErrorIn(verb: Verb)
    | ReadOnly(verb: Verb)
    | Failure(why: Why)
    | NoSuchMailbox(name: string)
    | Tls(news: TlsNews)
    | OutOfPlace(misplaced: Misplaced)

  function Wording(saying: Saying): string {
    match saying
    case Done(verb) => VerbName(verb) + " completed"
    case OpenDone(readOnly) => if readOnly then "[READ-ONLY] EXAMINE completed" else "[READ-WRITE] SELECT completed"
    case Usage(verb) => "Syntax: " + UsageOf(verb)
    case ErrorIn(verb) => "Error " + Activity(verb)
    case ReadOnly(verb) => "[READ-ONLY] Cannot " + Change(verb)
    case Failure(why) => WhyText(why)
    case NoSuchMailbox(name) => "Mailbox " + Quoted(name) + " does not exist"
    case Tls(news) => TlsText(news)
    case OutOfPlace(misplaced) => MisplacedText(misplaced)
  }

  function VerbName(verb: Verb): string {
    match verb
    case LOGIN => "LOGIN"
    case STARTTLS => "STARTTLS"
    case CAPABILITY => "CAPABILITY"
    case LOGOUT => "LOGOUT"
    case SELECT => "SELECT"
    case EXAMINE => "EXAMINE"
    case LIST => "LIST"
    case LSUB => "LSUB"
    case NOOP => "NOOP"
    case FETCH => "FETCH"
    case STORE => "STORE"
    case SEARCH => "SEARCH"
    case EXPUNGE => "EXPUNGE"
    case CLOSE => "CLOSE"
    case OTHER => ""
    case MISSING => ""
  }

  function UsageOf(verb: Verb): string {
    match verb
    case LOGIN => "LOGIN " + "username password"
    case LIST => "LIST " + "reference pattern"
    case FETCH => "FETCH " + "sequence data-items"
    case _ => "SELECT " + "mailbox"
  }

  function Activity(verb: Verb): string {
    match verb
    case LIST => "listing mailboxes"
    case FETCH => "fetching messages"
    case SEARCH => "searching messages"
    case _ => "reading mailbox"
  }

  function Change(verb: Verb): string {
    if verb == STORE then "store flags in read-only mailbox" else "expunge read-only mailbox"
  }

  function WhyText(why: Why): string {
    match why
    case BadUsername => "Invalid username format, " + "expected user@domain"
    case BadCredentials => "Invalid credentials"
    case LoginFailed => "Login failed"
    case CannotSelect => "Cannot select mailbox"
    case NoMailboxSelected => "No mailbox selected"
  }

  function TlsText(news: TlsNews): string {
    match news
    case AlreadyTls => "Already using TLS"
    case NoTls => "TLS not available"
    case BeginTls => "Begin TLS negotiation now"
  }

  function MisplacedText(misplaced: Misplaced): string {
    match misplaced
    case BeforeAuthentication => "Command not allowed " + "before authentication"
    case WithoutMailbox => "Command not allowed " + "without selected mailbox"
    case UnknownCommand => "Unknown command"
    case InvalidCommand => "Invalid command"
  }

  /** What an untagged response tells. */
  datatype Note =
    | Greeting(domain: string) | Bye | Capabilities(startTls: bool)
    | Exists(count: nat) | Recent | Unseen | UidValidity(number: nat) | UidNext(number: nat) | Flags | PermanentFlags
    | Listed(name: string)
    | Data(text: string) // of FETCH and SEARCH

  function NoteText(note: Note): string {
    match note
    case Greeting(domain) => "OK " + domain + " IMAP4rev1 gomail-core ready"
    case Bye => "BYE gomail-core logging out"
    case Capabilities(startTls) =>
      "CAPABILITY IMAP4rev1 LITERAL+ " + "SASL-IR LOGIN IDLE STARTTLS" + if startTls then " STARTTLS" else ""
    case Exists(count) => Dec(count) + " EXISTS"
    case Recent => "0 RECENT"
    case Unseen => "OK [UNSEEN 0] No unseen messages"
    case UidValidity(number) => CodeText("UIDVALIDITY", number, " UIDs valid")
    case UidNext(number) => CodeText("UIDNEXT", number, " Predicted next UID")
    case Flags => "FLAGS (" + FlagNames() + ")"
    case PermanentFlags => "OK [PERMANENTFLAGS (" + FlagNames() + " \\*)] Permanent flags"
    case Listed(name) => "LIST (\\HasNoChildren) \"/\" " + Quoted(name)
    case Data(text) => text
  }

  function FlagNames(): string {
    "\\Seen \\Answered \\Flagged " + "\\Deleted \\Draft"
  }

  /** A response code with a number. */
  function CodeText(key: string, n: nat, comment: string): string {
    "OK [" + key + " " + Dec(n) + ("]" + comment)
  }

  /** `%q` of ASCII text. */
  function Quoted(s: string): string {
    "\"" + Escaped(s, 0) + "\""
  }

  function Escaped(s: string, i: nat): string
    requires i <= |s|
    decreases |s| - i
  {
    if i == |s| then "" else EscapedChar(s[i]) + Escaped(s, i + 1)
  }

  function EscapedChar(c: char): string {
    if c == '"' || c == '\\' then ['\\', c]
    else if c == 7 as char then "\\a"
    else if c == 8 as char then "\\b"
    else if c == '\t' then "\\t"
    else if c == '\n' then "\\n"
    else if c == 11 as char then "\\v"
    else if c == 12 as char then "\\f"
    else if c == '\r' then "\\r"
    else if c < ' ' || c == 127 as char then "\\x" + [HexDigit(c as int / 16), HexDigit(c as int % 16)]
    else [c]
  }

  function HexDigit(d: nat): (c: char)
    requires d < 16
    ensures IsDigit(c) || 'a' <= c <= 'f'
  {
    if d < 10 then Digit(d) else ('a' as int + (d - 10)) as char
  }

  /** A response: the tagged completion of a command, or an untagged one. */
  datatype Line = Tagged(tag: string, status: Status, saying: Saying) | Untagged(note: Note) {
    function Text(): string {
      match this
      case Tagged(tag, status, saying) => tag + " " + StatusText(status) + " " + Wording(saying)
      case Untagged(note) => "* " + NoteText(note)
    }

    /** The bytes on the wire. */
    function Wire(): string {
      Text() + CRLF
    }
  }

  /** What handling one command does. */
  datatype Step = Step(core: Core, calls: seq<Call>, lines: seq<Line>)

  // ---- Commands ----

  datatype Verb =
    | LOGIN | STARTTLS | CAPABILITY | LOGOUT | SELECT | EXAMINE | LIST | LSUB | NOOP
    | FETCH | STORE | SEARCH | EXPUNGE | CLOSE | OTHER
    | MISSING // the line has no blank, so it is all tag

  function VerbOf(cmd: string): Verb {
    if cmd == "LOGIN" then LOGIN
    else if cmd == "STARTTLS" then STARTTLS
    else if cmd == "CAPABILITY" then CAPABILITY
    else if cmd == "LOGOUT" then LOGOUT
    else if cmd == "SELECT" then SELECT
    else if cmd == "EXAMINE" then EXAMINE
    else if cmd == "LIST" then LIST
    else if cmd == "LSUB" then LSUB
    else if cmd == "NOOP" then NOOP
    else if cmd == "FETCH" then FETCH
    else if cmd == "STORE" then STORE
    else if cmd == "SEARCH" then SEARCH
    else if cmd == "EXPUNGE" then EXPUNGE
    else if cmd == "CLOSE" then CLOSE
    else OTHER
  }

  /** The arguments as far as the command looks at them. */
  datatype Args =
    | Malformed
    | Credentials(username: string, password: string, address: Option<(string, string)>)
    | Name(name: string)
    | Pattern(pattern: string)
    | Items(wants: Wants)
    | Unread

  datatype Request = Request(tag: string, verb: Verb, args: Args)

  const QUOTES: set<char> := {'"'}

  function ParseArgs(verb: Verb, args: string): Args {
    var (first, second, two) := Cut(args, ' ');
    match verb
    case LOGIN =>
      if !two then Malformed else
        var username := Trim(first, QUOTES);
        Credentials(username, Trim(second, QUOTES), ParseAddress(username))
    case SELECT => NameIn(args)
    case EXAMINE => NameIn(args)
    case LIST => if two then Pattern(Trim(second, QUOTES)) else Malformed
    case LSUB => if two then Pattern(Trim(second, QUOTES)) else Malformed
    case FETCH => if two then Items(WantsOf(ToUpper(second))) else Malformed
    case _ => Unread
  }

  function NameIn(args: string): Args {
    var name := Trim(TrimSpace(args), QUOTES);
    if name == "" then Malformed else Name(name)
  }

  function Parse(line: string): Request {
    var (tag, rest, found) := Cut(line, ' ');
    if !found then Request(line, MISSING, Unread) else
      var (word, args, _) := Cut(rest, ' ');
      var verb := VerbOf(ToUpper(word));
      Request(tag, verb, ParseArgs(verb, args))
  }

  // ---- Handlers ----

  function Say(core: Core, lines: seq<Line>): Step {
    Step(core, [], lines)
  }

  function Capability(cfg: Config, core: Core, tag: string): Step {
    Say(core, [Untagged(Capabilities(cfg.tlsAvailable && !core.isTLS)), Tagged(tag, OK, Done(CAPABILITY))])
  }

  function Login(core: Core, tag: string, args: Args, ans: Answers): Step {
    if !args.Credentials? then Say(core, [Tagged(tag, BAD, Usage(LOGIN))])
    else if args.address.None? then Say(core, [Tagged(tag, NO, Failure(BadUsername))])
    else
      var (local, domain) := args.address.value;
      var asked := [DomainCall(domain, ans.domain)];
      var refused := [Tagged(tag, NO, Failure(BadCredentials))];
      if ans.domain.None? then Step(core, asked, refused)
      else
        var asked := asked + [UserCall(local, ans.domain.value, ans.user)];
        if ans.user.None? then Step(core, asked, refused)
        else
          var asked := asked + [PasswordCall(args.password, ans.user.value, ans.passwordOk)];
          if !ans.passwordOk then Step(core, asked, refused)
          else
            match Fire(core.state, LoginEvent)
            case None => Step(core, asked, [Tagged(tag, NO, Failure(LoginFailed))])
            case Some(s) =>
              Step(core.(state := s, userId := ans.user.value, username := args.username), asked,
                  [Tagged(tag, OK, Done(LOGIN))])
  }

  /** The untagged responses to SELECT and EXAMINE. */
  function Summary(count: nat, row: Mailbox): seq<Line> {
    [Untagged(Exists(count)), Untagged(Recent), Untagged(Unseen), Untagged(UidValidity(row.uidValidity)),
     Untagged(UidNext(row.uidNext)), Untagged(Flags), Untagged(PermanentFlags)]
  }

  function SelectMailbox(core: Core, tag: string, args: Args, readOnly: bool, ans: Answers): Step {
    if !args.Name? then Say(core, [Tagged(tag, BAD, Usage(SELECT))])
    else
      var asked := [MailboxCall(core.userId, args.name, ans.mailbox)];
      if ans.mailbox.None? then Step(core, asked, [Tagged(tag, NO, NoSuchMailbox(args.name))])
      else
        var Found(id, row) := ans.mailbox.value;
        var asked := asked + [ListCall(id, ans.listing)];
        if ans.listing.None? then Step(core, asked, [Tagged(tag, NO, ErrorIn(SELECT))])
        else Open(core, tag, id, row, readOnly, |ans.listing.value|).(calls := asked)
  }

  function Open(core: Core, tag: string, id: nat, row: Mailbox, readOnly: bool, count: nat): Step {
    if !core.state.Selected? && Fire(core.state, SelectEvent).None? then
      Say(core, [Tagged(tag, NO, Failure(CannotSelect))])
    else
      Say(core.(state := Selected, selected := Some(Opened(id, row.name, row.uidValidity, row.uidNext, readOnly))),
          Summary(count, row) + [Tagged(tag, OK, OpenDone(readOnly))])
  }

  predicate Matches(name: string, pattern: string) {
    pattern == "*" || pattern == "%" || ToUpper(name) == ToUpper(pattern)
  }

  /** The response for a mailbox, if it matches. */
  function ListLine(name: string, pattern: string): (lines: seq<Line>)
    ensures forall i | 0 <= i < |lines| :: lines[i].Untagged?
  {
    if Matches(name, pattern) then [Untagged(Listed(name))] else []
  }

  /** The responses for the first `n` mailboxes. */
  function ListLines(names: seq<string>, pattern: string, n: nat): (lines: seq<Line>)
    requires n <= |names|
    ensures forall i | 0 <= i < |lines| :: lines[i].Untagged?
  {
    if n == 0 then [] else ListLines(names, pattern, n - 1) + ListLine(names[n - 1], pattern)
  }

  function ListMailboxes(core: Core, tag: string, args: Args, ans: Answers): Step {
    if !args.Pattern? then Say(core, [Tagged(tag, BAD, Usage(LIST))])
    else
      var asked := [MailboxesCall(core.userId, ans.names)];
      if ans.names.None? then Step(core, asked, [Tagged(tag, NO, ErrorIn(LIST))])
      else
        var lines := ListLines(ans.names.value, args.pattern, |ans.names.value|);
        Step(core, asked, lines + [Tagged(tag, OK, Done(LIST))])
  }

  function BodyAt(bodies: seq<Option<string>>, i: nat): Option<string> {
    if i < |bodies| then bodies[i] else None
  }

  /** The responses for the first `n` messages. */
  function FetchLines(listing: seq<Message>, wants: Wants, bodies: seq<Option<string>>, n: nat): seq<Line>
    requires n <= |listing|
  {
    seq(n, i requires 0 <= i < n => Untagged(Data(FetchText(i + 1, listing[i], wants, BodyAt(bodies, i)))))
  }

  /** The calls for the bodies of the first `n` messages. */
  function BodyCalls(listing: seq<Message>, wants: Wants, bodies: seq<Option<string>>, n: nat): seq<Call>
    requires n <= |listing|
  {
    if wants.body then seq(n, i requires 0 <= i < n => BodyCall(listing[i].id, BodyAt(bodies, i))) else []
  }

  /** One more element behind a sequence that itself stands behind another. */
  lemma {:induction false} Extends<T>(sent: seq<T>, some: seq<T>, more: seq<T>, x: T)
    requires |more| == |some| + 1 && more[|some|] == x && forall i | 0 <= i < |some| :: more[i] == some[i]
    ensures sent + more == sent + some + [x]
  {
  }

  function NoneSelected(core: Core, tag: string): Step {
    Say(core, [Tagged(tag, BAD, Failure(NoMailboxSelected))])
  }

  function Fetch(core: Core, tag: string, args: Args, ans: Answers): Step {
    if core.selected.None? then NoneSelected(core, tag)
    else if !args.Items? then Say(core, [Tagged(tag, BAD, Usage(FETCH))])
    else
      var asked := [ListCall(core.selected.value.id, ans.listing)];
      match ans.listing
      case None => Step(core, asked, [Tagged(tag, NO, ErrorIn(FETCH))])
      case Some(listing) =>
        Step(core, asked + BodyCalls(listing, args.wants, ans.bodies, |listing|),
             FetchLines(listing, args.wants, ans.bodies, |listing|) + [Tagged(tag, OK, Done(FETCH))])
  }

  function StoreFlags(core: Core, tag: string): Step {
    if core.selected.None? then NoneSelected(core, tag)
    else if core.selected.value.readOnly then Say(core, [Tagged(tag, NO, ReadOnly(STORE))])
    else Say(core, [Tagged(tag, OK, Done(STORE))])
  }

  function Search(core: Core, tag: string, ans: Answers): Step {
    if core.selected.None? then NoneSelected(core, tag)
    else
      var asked := [ListCall(core.selected.value.id, ans.listing)];
      match ans.listing
      case None => Step(core, asked, [Tagged(tag, NO, ErrorIn(SEARCH))])
      case Some(listing) => Step(core, asked, [Untagged(Data(SearchText(|listing|))), Tagged(tag, OK, Done(SEARCH))])
  }

  function Expunge(core: Core, tag: string): Step {
    if core.selected.None? then NoneSelected(core, tag)
    else if core.selected.value.readOnly then Say(core, [Tagged(tag, NO, ReadOnly(EXPUNGE))])
    else Say(core, [Tagged(tag, OK, Done(EXPUNGE))])
  }

  /** The state after an event; the handlers of CLOSE and LOGOUT do not look at its success. */
  function Fired(s: State, e: Event): State {
    if Fire(s, e).Some? then Fire(s, e).value else s
  }

  function Close(core: Core, tag: string): Step {
    Say(core.(selected := None, state := Fired(core.state, CloseEvent)), [Tagged(tag, OK, Done(CLOSE))])
  }

  function LogoutCommand(core: Core, tag: string): Step {
    Say(core.(state := Fired(core.state, LogoutEvent)), [Untagged(Bye), Tagged(tag, OK, Done(LOGOUT))])
  }

  function StartTls(cfg: Config, core: Core, tag: string, ans: Answers): Step {
    if core.isTLS then Say(core, [Tagged(tag, NO, Tls(AlreadyTls))])
    else if !cfg.tlsAvailable then Say(core, [Tagged(tag, NO, Tls(NoTls))])
    else Say(core.(isTLS := ans.handshake), [Tagged(tag, OK, Tls(BeginTls))])
  }

  function BeforeLogin(cfg: Config, core: Core, req: Request, ans: Answers): Step {
    match req.verb
    case LOGIN => Login(core, req.tag, req.args, ans)
    case STARTTLS => StartTls(cfg, core, req.tag, ans)
    case CAPABILITY => Capability(cfg, core, req.tag)
    case LOGOUT => LogoutCommand(core, req.tag)
    case _ => Say(core, [Tagged(req.tag, NO, OutOfPlace(BeforeAuthentication))])
  }

  function AfterLogin(cfg: Config, core: Core, req: Request, ans: Answers): Step {
    match req.verb
    case SELECT => SelectMailbox(core, req.tag, req.args, false, ans)
    case EXAMINE => SelectMailbox(core, req.tag, req.args, true, ans)
    case LIST => ListMailboxes(core, req.tag, req.args, ans)
    case LSUB => ListMailboxes(core, req.tag, req.args, ans)
    case CAPABILITY => Capability(cfg, core, req.tag)
    case NOOP => Say(core, [Tagged(req.tag, OK, Done(NOOP))])
    case LOGOUT => LogoutCommand(core, req.tag)
    case _ => Say(core, [Tagged(req.tag, NO, OutOfPlace(WithoutMailbox))])
  }

  function WhileSelected(cfg: Config, core: Core, req: Request, ans: Answers): Step {
    match req.verb
    case FETCH => Fetch(core, req.tag, req.args, ans)
    case STORE => StoreFlags(core, req.tag)
    case SEARCH => Search(core, req.tag, ans)
    case EXPUNGE => Expunge(core, req.tag)
    case CLOSE => Close(core, req.tag)
    case SELECT => SelectMailbox(core, req.tag, req.args, false, ans)
    case EXAMINE => SelectMailbox(core, req.tag, req.args, true, ans)
    case LIST => ListMailboxes(core, req.tag, req.args, ans)
    case CAPABILITY => Capability(cfg, core, req.tag)
    case NOOP => Say(core, [Tagged(req.tag, OK, Done(NOOP))])
    case LOGOUT => LogoutCommand(core, req.tag)
    case _ => Say(core, [Tagged(req.tag, BAD, OutOfPlace(UnknownCommand))])
  }

  /** The commands each state allows. */
  function Dispatch(cfg: Config, core: Core, req: Request, ans: Answers): Step {
    if req.verb == MISSING then Say(core, [Tagged(req.tag, BAD, OutOfPlace(InvalidCommand))]) else
      match core.state
      case NotAuthenticated => BeforeLogin(cfg, core, req, ans)
      case Authenticated => AfterLogin(cfg, core, req, ans)
      case Selected => WhileSelected(cfg, core, req, ans)
      case Logout => Say(core, [])
  }

  // ---- The session ----

  /** What the outside world still has in store: reads, and answers for each command line. */
  datatype Net = Net(input: seq<Wire.Read>, answers: seq<Answers>)

  function NextAnswers(net: Net): Answers {
    if net.answers == [] then SILENCE else net.answers[0]
  }

  /** One command line is read, its answers are taken. */
  function Taken(net: Net): Net
    requires |net.input| > 0
  {
    Net(net.input[1..], if net.answers == [] then [] else net.answers[1..])
  }

  /** One command of the client with everything it caused. */
  datatype Exchange = Exchange(req: Request, calls: seq<Call>, lines: seq<Line>)

  datatype Session = Session(core: Core, net: Net, log: seq<Exchange>)

  const NEWLINES: set<char> := {'\r', '\n'}

  /** The read loop, from any point of a session until it ends. */
  function Serve(cfg: Config, core: Core, net: Net): Session
    decreases |net.input|
  {
    if |net.input| == 0 then Session(core, net, [])
    else if net.input[0].Failed? then Session(core, net.(input := net.input[1..]), [])
    else
      var text := TrimRight(net.input[0].line, NEWLINES);
      if text == "" then Serve(cfg, core, net.(input := net.input[1..]))
      else
        var req := Parse(text);
        var step := Dispatch(cfg, core, req, NextAnswers(net));
        var exchange := Exchange(req, step.calls, step.lines);
        if step.core.state.Logout? then Session(step.core, Taken(net), [exchange])
        else
          var later := Serve(cfg, step.core, Taken(net));
          later.(log := [exchange] + later.log)
  }

  function Lines(log: seq<Exchange>): seq<Line> {
    if log == [] then [] else log[0].lines + Lines(log[1..])
  }

  function Calls(log: seq<Exchange>): seq<Call> {
    if log == [] then [] else log[0].calls + Calls(log[1..])
  }

  /** Doing one exchange and then a log is doing the longer log. */
  lemma {:induction false} LogCons(exchange: Exchange, log: seq<Exchange>, sent: seq<Line>, asked: seq<Call>)
    ensures sent + Lines([exchange] + log) == sent + exchange.lines + Lines(log)
    ensures asked + Calls([exchange] + log) == asked + exchange.calls + Calls(log)
  {
    assert ([exchange] + log)[1..] == log;
    Regroup(sent, exchange.lines, Lines(log));
    Regroup(asked, exchange.calls, Calls(log));
  }

  /** One turn of the read loop on a non-empty line. */
  lemma ServeTurn(cfg: Config, core: Core, net: Net, text: string)
    requires |net.input| > 0 && net.input[0].Got?
    requires text == TrimRight(net.input[0].line, NEWLINES) && text != ""
    ensures var req := Parse(text);
            var step := Dispatch(cfg, core, req, NextAnswers(net));
            var rest := if step.core.state.Logout? then Session(step.core, Taken(net), [])
                else Serve(cfg, step.core, Taken(net));
            Serve(cfg, core, net) == rest.(log := [Exchange(req, step.calls, step.lines)] + rest.log)
  {
  }

  // ---- The object ----

  class Connection {
    const cfg: Config
    var fsm: State
    var userId: nat
    var username: string
    var selected: Option<Opened>
    var isTLS: bool
    var net: Net
    var sent: seq<Line>
    var asked: seq<Call>

    ghost function View(): Core
      reads this
    {
      Core(fsm, userId, username, selected, isTLS)
    }

    /** The object has done what `step` says since the state given by the other arguments. */
    ghost predicate Did(step: Step, sentBefore: seq<Line>, askedBefore: seq<Call>)
      reads this
    {
      && View() == step.core
      && sent == sentBefore + step.lines
      && asked == askedBefore + step.calls
    }

    constructor (cfg: Config, isTLS: bool, net: Net)
      ensures this.cfg == cfg && this.net == net && sent == [] && asked == []
      ensures View() == Start(isTLS)
    {
      this.cfg := cfg;
      this.isTLS := isTLS;
      this.net := net;
      fsm, userId, username, selected, sent, asked := NotAuthenticated, 0, "", None, [], [];
    }

    method Write(line: Line)
      modifies this`sent
      ensures sent == old(sent) + [line]
    {
      sent := sent + [line];
    }

    method Ask(call: Call)
      modifies this`asked
      ensures asked == old(asked) + [call]
    {
      asked := asked + [call];
    }

    method Transition(event: Event) returns (ok: bool)
      modifies this`fsm
      ensures ok == Fire(old(fsm), event).Some?
      ensures fsm == Fired(old(fsm), event)
    {
      match Fire(fsm, event)
      case None => ok := false;
      case Some(s) =>
        fsm := s;
        ok := true;
    }

    method TransitionSelect() returns (ok: bool)
      modifies this`fsm
      ensures ok == (old(fsm).Selected? || Fire(old(fsm), SelectEvent).Some?)
      ensures fsm == if ok then Selected else old(fsm)
    {
      if fsm.Selected? {
        return true;
      }
      ok := Transition(SelectEvent);
    }

    method HandleLogin(tag: string, args: Args, ans: Answers)
      modifies this`fsm, this`userId, this`username, this`sent, this`asked
      ensures Did(Login(old(View()), tag, args, ans), old(sent), old(asked))
    {
      if !args.Credentials? {
        Write(Tagged(tag, BAD, Usage(LOGIN)));
        return;
      }
      if args.address.None? {
        Write(Tagged(tag, NO, Failure(BadUsername)));
        return;
      }
      var (local, domain) := args.address.value;
      Ask(DomainCall(domain, ans.domain));
      if ans.domain.None? {
        Write(Tagged(tag, NO, Failure(BadCredentials)));
        return;
      }
      Ask(UserCall(local, ans.domain.value, ans.user));
      if ans.user.None? {
        Write(Tagged(tag, NO, Failure(BadCredentials)));
        return;
      }
      Ask(PasswordCall(args.password, ans.user.value, ans.passwordOk));
      if !ans.passwordOk {
        Write(Tagged(tag, NO, Failure(BadCredentials)));
        return;
      }
      var ok := Transition(LoginEvent);
      if !ok {
        Write(Tagged(tag, NO, Failure(LoginFailed)));
        return;
      }
      userId := ans.user.value;
      username := args.username;
      Write(Tagged(tag, OK, Done(LOGIN)));
    }

    method HandleSelect(tag: string, args: Args, readOnly: bool, ans: Answers)
      modifies this`fsm, this`selected, this`sent, this`asked
      ensures Did(SelectMailbox(old(View()), tag, args, readOnly, ans), old(sent), old(asked))
    {
      if !args.Name? {
        Write(Tagged(tag, BAD, Usage(SELECT)));
        return;
      }
      Ask(MailboxCall(userId, args.name, ans.mailbox));
      if ans.mailbox.None? {
        Write(Tagged(tag, NO, NoSuchMailbox(args.name)));
        return;
      }
      var Found(id, row) := ans.mailbox.value;
      Ask(ListCall(id, ans.listing));
      if ans.listing.None? {
        Write(Tagged(tag, NO, ErrorIn(SELECT)));
        return;
      }
      OpenMailbox(tag, id, row, readOnly, |ans.listing.value|);
    }

    method OpenMailbox(tag: string, id: nat, row: Mailbox, readOnly: bool, count: nat)
      modifies this`fsm, this`selected, this`sent
      ensures Did(Open(old(View()), tag, id, row, readOnly, count), old(sent), old(asked))
    {
      var ok := TransitionSelect();
      if !ok {
        Write(Tagged(tag, NO, Failure(CannotSelect)));
        return;
      }
      selected := Some(Opened(id, row.name, row.uidValidity, row.uidNext, readOnly));
      WriteSummary(count, row);
      Write(Tagged(tag, OK, OpenDone(readOnly)));
    }

    method WriteSummary(count: nat, row: Mailbox)
      modifies this`sent
      ensures sent == old(sent) + Summary(count, row)
    {
      Write(Untagged(Exists(count)));
      Write(Untagged(Recent));
      Write(Untagged(Unseen));
      Write(Untagged(UidValidity(row.uidValidity)));
      Write(Untagged(UidNext(row.uidNext)));
      Write(Untagged(Flags));
      Write(Untagged(PermanentFlags));
    }

    method HandleList(tag: string, args: Args, ans: Answers)
      modifies this`sent, this`asked
      ensures Did(ListMailboxes(old(View()), tag, args, ans), old(sent), old(asked))
    {
      if !args.Pattern? {
        Write(Tagged(tag, BAD, Usage(LIST)));
        return;
      }
      Ask(MailboxesCall(userId, ans.names));
      if ans.names.None? {
        Write(Tagged(tag, NO, ErrorIn(LIST)));
        return;
      }
      ListAll(ans.names.value, args.pattern);
      Write(Tagged(tag, OK, Done(LIST)));
    }

    /** The loop over the mailboxes. */
    method ListAll(names: seq<string>, pattern: string)
      modifies this`sent
      ensures sent == old(sent) + ListLines(names, pattern, |names|)
    {
      for i := 0 to |names|
        invariant sent == old(sent) + ListLines(names, pattern, i)
      {
        Regroup(old(sent), ListLines(names, pattern, i), ListLine(names[i], pattern));
        if Matches(names[i], pattern) {
          Write(Untagged(Listed(names[i])));
        }
      }
    }

    /** Builds one FETCH response item by item. */
    method Render(number: nat, msg: Message, wants: Wants, body: Option<string>) returns (result: string)
      ensures result == FetchText(number, msg, wants, body)
    {
      var items := "";
      if wants.flags {
        items := items + ("FLAGS (" + msg.flags + ")" + " ");
      }
      if wants.uid {
        items := items + ("UID " + Dec(msg.uid) + " ");
      }
      if wants.size {
        items := items + ("RFC822.SIZE " + Dec(msg.sizeBytes) + " ");
      }
      assert items == FetchFormat.Items(msg, wants);
      var response := Dec(number) + " FETCH (" + items;
      ghost var attributes := response;
      if wants.body {
        response := response + (Announce(|Shown(body)|) + CRLF + Shown(body) + " ");
      }
      assert response == attributes + if wants.body then BodyItem(Shown(body)) else "";
      result := TrimRight(response, BLANKS) + ")";
    }

    method HandleFetch(tag: string, args: Args, ans: Answers)
      modifies this`sent, this`asked
      ensures Did(Fetch(old(View()), tag, args, ans), old(sent), old(asked))
    {
      if selected.None? {
        Write(Tagged(tag, BAD, Failure(NoMailboxSelected)));
        return;
      }
      if !args.Items? {
        Write(Tagged(tag, BAD, Usage(FETCH)));
        return;
      }
      Ask(ListCall(selected.value.id, ans.listing));
      if ans.listing.None? {
        Write(Tagged(tag, NO, ErrorIn(FETCH)));
        return;
      }
      FetchAll(ans.listing.value, args.wants, ans.bodies);
      Write(Tagged(tag, OK, Done(FETCH)));
    }

    /** The loop over the listing. */
    method FetchAll(messages: seq<Message>, wants: Wants, bodies: seq<Option<string>>)
      modifies this`sent, this`asked
      ensures sent == old(sent) + FetchLines(messages, wants, bodies, |messages|)
      ensures asked == old(asked) + BodyCalls(messages, wants, bodies, |messages|)
    {
      for i := 0 to |messages|
        invariant sent == old(sent) + FetchLines(messages, wants, bodies, i)
        invariant asked == old(asked) + BodyCalls(messages, wants, bodies, i)
      {
        if wants.body {
          Extends(old(asked), BodyCalls(messages, wants, bodies, i), BodyCalls(messages, wants, bodies, i + 1),
                  BodyCall(messages[i].id, BodyAt(bodies, i)));
          Ask(BodyCall(messages[i].id, BodyAt(bodies, i)));
        }
        var result := Render(i + 1, messages[i], wants, BodyAt(bodies, i));
        Extends(old(sent), FetchLines(messages, wants, bodies, i), FetchLines(messages, wants, bodies, i + 1),
            Untagged(Data(result)));
        Write(Untagged(Data(result)));
      }
    }

    method HandleStore(tag: string)
      modifies this`sent
      ensures Did(StoreFlags(old(View()), tag), old(sent), old(asked))
    {
      if selected.None? {
        Write(Tagged(tag, BAD, Failure(NoMailboxSelected)));
      } else if selected.value.readOnly {
        Write(Tagged(tag, NO, ReadOnly(STORE)));
      } else {
        Write(Tagged(tag, OK, Done(STORE)));
      }
    }

    method HandleSearch(tag: string, ans: Answers)
      modifies this`sent, this`asked
      ensures Did(Search(old(View()), tag, ans), old(sent), old(asked))
    {
      if selected.None? {
        Write(Tagged(tag, BAD, Failure(NoMailboxSelected)));
        return;
      }
      Ask(ListCall(selected.value.id, ans.listing));
      if ans.listing.None? {
        Write(Tagged(tag, NO, ErrorIn(SEARCH)));
        return;
      }
      var seqNums: seq<string> := [];
      for i := 0 to |ans.listing.value|
        invariant seqNums == Numbers(i)
      {
        seqNums := seqNums + [Dec(i + 1)];
      }
      Write(Untagged(Data("SEARCH " + Join(seqNums, ' '))));
      Write(Tagged(tag, OK, Done(SEARCH)));
    }

    method HandleExpunge(tag: string)
      modifies this`sent
      ensures Did(Expunge(old(View()), tag), old(sent), old(asked))
    {
      if selected.None? {
        Write(Tagged(tag, BAD, Failure(NoMailboxSelected)));
      } else if selected.value.readOnly {
        Write(Tagged(tag, NO, ReadOnly(EXPUNGE)));
      } else {
        Write(Tagged(tag, OK, Done(EXPUNGE)));
      }
    }

    method HandleClose(tag: string)
      modifies this`selected, this`fsm, this`sent
      ensures Did(Close(old(View()), tag), old(sent), old(asked))
    {
      selected := None;
      var ok := Transition(CloseEvent);
      Write(Tagged(tag, OK, Done(CLOSE)));
    }

    method HandleLogout(tag: string)
      modifies this`fsm, this`sent
      ensures Did(LogoutCommand(old(View()), tag), old(sent), old(asked))
    {
      var ok := Transition(LogoutEvent);
      Write(Untagged(Bye));
      Write(Tagged(tag, OK, Done(LOGOUT)));
    }

    method HandleCapability(tag: string)
      modifies this`sent
      ensures Did(Capability(cfg, old(View()), tag), old(sent), old(asked))
    {
      Write(Untagged(Capabilities(cfg.tlsAvailable && !isTLS)));
      Write(Tagged(tag, OK, Done(CAPABILITY)));
    }

    method HandleStartTls(tag: string, ans: Answers)
      modifies this`isTLS, this`sent
      ensures Did(StartTls(cfg, old(View()), tag, ans), old(sent), old(asked))
    {
      if isTLS {
        Write(Tagged(tag, NO, Tls(AlreadyTls)));
        return;
      }
      if !cfg.tlsAvailable {
        Write(Tagged(tag, NO, Tls(NoTls)));
        return;
      }
      Write(Tagged(tag, OK, Tls(BeginTls)));
      if ans.handshake {
        isTLS := true;
      }
    }

    method DispatchBeforeLogin(req: Request, ans: Answers)
      modifies this`fsm, this`userId, this`username, this`isTLS, this`sent, this`asked
      ensures Did(BeforeLogin(cfg, old(View()), req, ans), old(sent), old(asked))
    {
      match req.verb
      case LOGIN => HandleLogin(req.tag, req.args, ans);
      case STARTTLS => HandleStartTls(req.tag, ans);
      case CAPABILITY => HandleCapability(req.tag);
      case LOGOUT => HandleLogout(req.tag);
      case _ => Write(Tagged(req.tag, NO, OutOfPlace(BeforeAuthentication)));
    }

    method DispatchAfterLogin(req: Request, ans: Answers)
      modifies this`fsm, this`selected, this`sent, this`asked
      ensures Did(AfterLogin(cfg, old(View()), req, ans), old(sent), old(asked))
    {
      match req.verb
      case SELECT => HandleSelect(req.tag, req.args, false, ans);
      case EXAMINE => HandleSelect(req.tag, req.args, true, ans);
      case LIST => HandleList(req.tag, req.args, ans);
      case LSUB => HandleList(req.tag, req.args, ans);
      case CAPABILITY => HandleCapability(req.tag);
      case NOOP => Write(Tagged(req.tag, OK, Done(NOOP)));
      case LOGOUT => HandleLogout(req.tag);
      case _ => Write(Tagged(req.tag, NO, OutOfPlace(WithoutMailbox)));
    }

    method DispatchWhileSelected(req: Request, ans: Answers)
      modifies this`fsm, this`selected, this`sent, this`asked
      ensures Did(WhileSelected(cfg, old(View()), req, ans), old(sent), old(asked))
    {
      match req.verb
      case FETCH => HandleFetch(req.tag, req.args, ans);
      case STORE => HandleStore(req.tag);
      case SEARCH => HandleSearch(req.tag, ans);
      case EXPUNGE => HandleExpunge(req.tag);
      case CLOSE => HandleClose(req.tag);
      case SELECT => HandleSelect(req.tag, req.args, false, ans);
      case EXAMINE => HandleSelect(req.tag, req.args, true, ans);
      case LIST => HandleList(req.tag, req.args, ans);
      case CAPABILITY => HandleCapability(req.tag);
      case NOOP => Write(Tagged(req.tag, OK, Done(NOOP)));
      case LOGOUT => HandleLogout(req.tag);
      case _ => Write(Tagged(req.tag, BAD, OutOfPlace(UnknownCommand)));
    }

    method DispatchCommand(req: Request, ans: Answers)
      modifies this`fsm, this`userId, this`username, this`selected, this`isTLS, this`sent, this`asked
      ensures Did(Dispatch(cfg, old(View()), req, ans), old(sent), old(asked))
    {
      if req.verb == MISSING {
        Write(Tagged(req.tag, BAD, OutOfPlace(InvalidCommand)));
        return;
      }
      match fsm
      case NotAuthenticated => DispatchBeforeLogin(req, ans);
      case Authenticated => DispatchAfterLogin(req, ans);
      case Selected => DispatchWhileSelected(req, ans);
      case Logout =>
    }

    /** What `run` still has to do is done, or is what `rest` will do. */
    ghost predicate Owes(run: Session, rest: Session, sentBefore: seq<Line>, askedBefore: seq<Call>)
      reads this
    {
      && run.core == rest.core
      && run.net == rest.net
      && sentBefore + Lines(run.log) == sent + Lines(rest.log)
      && askedBefore + Calls(run.log) == asked + Calls(rest.log)
    }

    /** One turn of the read loop. */
    method HandleRead() returns (done: bool)
      requires |net.input| > 0
      modifies this
      ensures done ==> Owes(Serve(cfg, old(View()), old(net)), Session(View(), net, []), old(sent), old(asked))
      ensures !done ==> Owes(Serve(cfg, old(View()), old(net)), Serve(cfg, View(), net), old(sent), old(asked))
      ensures |net.input| < |old(net).input|
    {
      var next := net.input[0];
      if next.Failed? {
        net := net.(input := net.input[1..]);
        return true;
      }
      var text := TrimRight(next.line, NEWLINES);
      if text == "" {
        net := net.(input := net.input[1..]);
        return false;
      }
      ghost var run := Serve(cfg, View(), net);
      ServeTurn(cfg, View(), net, text);
      var ans := NextAnswers(net);
      net := Taken(net);
      DispatchCommand(Parse(text), ans);
      done := fsm.Logout?;
      ghost var rest := if done then Session(View(), net, []) else Serve(cfg, View(), net);
      assert run == rest.(log := [run.log[0]] + rest.log);
      LogCons(run.log[0], rest.log, old(sent), old(asked));
    }

    /** The whole session: greeting, then commands until LOGOUT or a failed read. */
    method Handle()
      modifies this
      ensures var run := Serve(cfg, old(View()), old(net));
              && View() == run.core
              && net == run.net
              && sent == old(sent) + [Untagged(Greeting(cfg.domain))] + Lines(run.log)
              && asked == old(asked) + Calls(run.log)
    {
      Write(Untagged(Greeting(cfg.domain)));
      ghost var run := Serve(cfg, View(), net);
      ghost var greeted := sent;
      while |net.input| > 0
        invariant Owes(run, Serve(cfg, View(), net), greeted, old(asked))
        decreases |net.input|
      {
        var done := HandleRead();
        if done {
          return;
        }
      }
    }
  }
}
