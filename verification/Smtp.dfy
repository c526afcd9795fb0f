/** One SMTP session: the state machine, the envelope and the command handlers, first as functions
    on values and then as the objects that carry them out. */
module Smtp {
  import opened Text
  import opened DataTransfer

  datatype State = Init | Greeted | MailFrom | RcptTo | Data | Quit

  datatype Event = EhloEvent | MailFromEvent | RcptToEvent | DataEvent | DoneEvent | RsetEvent | QuitEvent

  /** The transition table. */
  function Destination(s: State, e: Event): Option<State> {
    match e
    case EhloEvent => if s.Init? || s.Greeted? then Some(Greeted) else None
    case MailFromEvent => if s.Greeted? then Some(MailFrom) else None
    case RcptToEvent => if s.MailFrom? then Some(RcptTo) else None
    case DataEvent => if s.RcptTo? then Some(Data) else None
    case DoneEvent => if s.Data? then Some(Greeted) else None
    case RsetEvent => if s.Init? || s.Quit? then None else Some(Greeted)
    case QuitEvent => if s.Quit? then None else Some(Quit)
  }

  /** Firing an event fails when the table has no entry, and when the entry stays in the same state. */
  function Fire(s: State, e: Event): Option<State> {
    if Destination(s, e) == Some(s) then None else Destination(s, e)
  }

  datatype Config = Config(domain: string, maxSize: int, tlsAvailable: bool)

  /** The fields of an envelope; its time stamp is not modelled. */
  datatype Contents = Contents(from: string, to: seq<string>, data: string, size: nat)

  const BLANK := Contents("", [], "", 0)

  datatype MessageReceived = MessageReceived(from: string, to: seq<string>, body: string, size: nat)

  datatype Core = Core(state: State, envelope: Contents, isTLS: bool)

  /** What the outside world still has in store: reads, TLS handshakes and answers of the delivery pipeline. */
  datatype Net = Net(input: seq<Read>, handshakes: seq<bool>, deliveries: seq<bool>)

  /** The next outcome of an external call; a call nothing was foreseen for fails. */
  function Next(outcomes: seq<bool>): (bool, seq<bool>) {
    if outcomes == [] then (false, []) else (outcomes[0], outcomes[1..])
  }

  /** A reply line: code, whether more lines of the same reply follow, text. */
  datatype Reply = Reply(code: nat, more: bool, text: string) {
    /** The bytes on the wire. */
    function Wire(): string {
      Dec(code) + (if more then "-" else " ") + text + "\r\n"
    }
  }

  /** Reads a reply line from its bytes. */
  function ReadReply(wire: string): Option<Reply> {
    var n := DigitsEnd(wire, 0);
    if n + 3 <= |wire| && (wire[n] == '-' || wire[n] == ' ') && wire[|wire| - 2..] == "\r\n"
    then Some(Reply(ParseDec(wire[0..n]), wire[n] == '-', wire[n + 1..|wire| - 2]))
    else None
  }

  /** A client reads the code, whether more lines follow, and the text. */
  lemma ReplyReads(r: Reply)
    ensures ReadReply(r.Wire()) == Some(r)
  {
    var sep := if r.more then "-" else " ";
    var wire, digits := r.Wire(), Dec(r.code);
    var rest := sep + r.text + "\r\n";
    assert wire == "" + digits + rest;
    NumberRead("", r.code, rest);
    assert wire[|digits|] == sep[0];
    assert wire[|digits| + 1..|wire| - 2] == r.text;
    assert wire[|wire| - 2..] == "\r\n";
  }

  /** What handling one command does. */
  datatype Step = Step(core: Core, net: Net, replies: seq<Reply>, handoff: Option<MessageReceived>, upgraded: bool)

  const BAD_SEQUENCE := Reply(503, false, "Bad sequence of commands")

  const RECIPIENT_LIMIT := 100

  type Address = s: string | s != "" witness "postmaster"

  function ExtractAddress(args: string, prefix: string): Option<Address> {
    if !(prefix <= ToUpper(args)) then None else
      var rest := TrimSpace(args[|prefix|..]);
      if "<" <= rest && HasSuffix(rest, ">") then
        var inner := rest[1..|rest| - 1];
        if inner == "" then None else Some(inner)
      else if rest != "" then Some(rest)
      else None
  }

  lemma PrefixFound(prefix: string, rest: string)
    requires ToUpper(prefix) == prefix
    ensures prefix <= ToUpper(prefix + rest)
  {
    forall i | 0 <= i < |prefix| ensures ToUpper(prefix + rest)[i] == prefix[i] {
      assert ToUpper(prefix)[i] == prefix[i];
    }
  }

  predicate Bracketed(s: string) {
    "<" <= s && HasSuffix(s, ">")
  }

  /** `args` is the keyword in any case, then blanks, the word `core`, and blanks. */
  ghost predicate Framed(args: string, prefix: string, key: string, left: string, core: string, right: string) {
    && args == key + (left + core + right) && ToUpper(key) == prefix
    && AllIn(left, SPACES) && AllIn(right, SPACES)
    && core != "" && core[0] !in SPACES && core[|core| - 1] !in SPACES
  }

  /** The word names the address: in angle brackets, or as it stands when it has none. */
  predicate NamesAddress(core: string, addr: string) {
    core == "<" + addr + ">" || (core == addr && !Bracketed(core))
  }

  lemma PrefixSplits(args: string, prefix: string)
    requires prefix <= ToUpper(args)
    ensures |prefix| <= |args| && ToUpper(args[..|prefix|]) == prefix && args == args[..|prefix|] + args[|prefix|..]
  {
    assert forall i | 0 <= i < |prefix| :: ToUpper(args[..|prefix|])[i] == ToUpper(args)[i];
  }

  lemma NamedOnly(core: string, addr: string)
    requires core != ""
    ensures (if Bracketed(core) then |core| > 2 && core[1..|core| - 1] == addr else core == addr)
            <==> addr != "" && NamesAddress(core, addr)
  {
    if core == "<" + addr + ">" {
      assert core[1..|core| - 1] == addr;
    }
    if Bracketed(core) {
      assert core[0] == '<' && core[|core| - 1] == '>';
      assert core == "<" + core[1..|core| - 1] + ">";
    }
  }

  /** An argument yields an address exactly when it is the keyword in any case, then blanks, the non-empty address in
      angle brackets or, without them, as it stands, and blanks; everything else is refused. */
  lemma ExtractAddressExact(args: string, prefix: string, addr: Address)
    ensures ExtractAddress(args, prefix) == Some(addr)
            <==> exists key, left, core, right ::
                   Framed(args, prefix, key, left, core, right) && NamesAddress(core, addr)
  {
    if prefix <= ToUpper(args) {
      PrefixSplits(args, prefix);
      var rest := args[|prefix|..];
      var core := TrimSpace(rest);
      if core != "" {
        NamedOnly(core, addr);
        var left, right := TrimSplits(rest, SPACES);
        assert Framed(args, prefix, args[..|prefix|], left, core, right);
      }
    }
    forall key, left, core, right | Framed(args, prefix, key, left, core, right) && NamesAddress(core, addr)
      ensures ExtractAddress(args, prefix) == Some(addr)
    {
      FramedFound(args, prefix, key, left, core, right);
      NamedOnly(core, addr);
    }
  }

  lemma FramedFound(args: string, prefix: string, key: string, left: string, core: string, right: string)
    requires Framed(args, prefix, key, left, core, right)
    ensures prefix <= ToUpper(args) && TrimSpace(args[|prefix|..]) == core
  {
    assert forall i | 0 <= i < |prefix| :: ToUpper(args)[i] == ToUpper(key)[i];
    assert args[|prefix|..] == left + core + right;
    TrimAround(left + core + right, SPACES, left, core, right);
  }

  /** An address in angle brackets comes back whole, whatever its characters. */
  lemma BracketedAddress(prefix: string, addr: Address)
    requires ToUpper(prefix) == prefix
    ensures ExtractAddress(prefix + ("<" + addr + ">"), prefix) == Some(addr)
  {
    var inner := "<" + addr + ">";
    PrefixFound(prefix, inner);
    assert (prefix + inner)[|prefix|..] == inner;
    TrimNothing(inner, SPACES);
    assert inner[1..|inner| - 1] == addr;
  }

  function Say(core: Core, net: Net, replies: seq<Reply>): Step {
    Step(core, net, replies, None, false)
  }

  function EhloLines(cfg: Config, isTLS: bool, args: string): seq<Reply> {
    var greeting, size := Reply(250, true, cfg.domain + " greets " + args),
        Reply(250, true, "SIZE " + DecInt(cfg.maxSize));
    if cfg.tlsAvailable && !isTLS
    then [greeting, size, Reply(250, true, "8BITMIME"), Reply(250, true, "STARTTLS"),
        Reply(250, false, "ENHANCEDSTATUSCODES")]
    else [greeting, size, Reply(250, true, "8BITMIME"), Reply(250, false, "ENHANCEDSTATUSCODES")]
  }

  function Ehlo(cfg: Config, core: Core, net: Net, args: string): Step {
    if args == "" then Say(core, net, [Reply(501, false, "Syntax: EHLO hostname")]) else
      match Fire(core.state, EhloEvent)
      case None => Say(core, net, [BAD_SEQUENCE])
      case Some(s) => Say(Core(s, BLANK, core.isTLS), net, EhloLines(cfg, core.isTLS, args))
  }

  function Mail(core: Core, net: Net, addr: Option<Address>): Step {
    match addr
    case None => Say(core, net, [Reply(501, false, "Syntax: MAIL FROM:<address>")])
    case Some(a) =>
      match Fire(core.state, MailFromEvent)
      case None => Say(core, net, [BAD_SEQUENCE])
      case Some(s) => Say(core.(state := s, envelope := core.envelope.(from := a)), net, [Reply(250, false, "OK")])
  }

  function Rcpt(core: Core, net: Net, addr: Option<Address>): Step {
    match addr
    case None => Say(core, net, [Reply(501, false, "Syntax: RCPT TO:<address>")])
    case Some(a) => AddRecipient(core, net, a)
  }

  function AddRecipient(core: Core, net: Net, addr: string): Step {
    if |core.envelope.to| >= RECIPIENT_LIMIT then Say(core, net, [Reply(452, false, "Too many recipients")])
    else if !core.state.RcptTo? && Fire(core.state, RcptToEvent).None? then Say(core, net, [BAD_SEQUENCE])
    else
      var filled := core.envelope.(to := core.envelope.to + [addr]);
      Say(core.(state := RcptTo, envelope := filled), net, [Reply(250, false, "OK")])
  }

  const START_INPUT := Reply(354, false, "Start mail input; end with <CRLF>.<CRLF>")
  const OVERSIZE := Reply(552, false, "Message size exceeds maximum permitted")
  const ABORTED := Reply(451, false, "Requested action aborted: error in processing")
  const TAKEN := Reply(250, false, "OK: message accepted for delivery")

  function DataCommand(cfg: Config, core: Core, net: Net): Step {
    match Fire(core.state, DataEvent)
    case None => Say(core, net, [BAD_SEQUENCE])
    case Some(s) =>
      var outcome := Receive(net.input, cfg.maxSize, "");
      var left := net.(input := outcome.rest);
      match outcome
      case Broken(_) => Say(core.(state := s), left, [START_INPUT])
      case TooLarge(_) =>
        Say(Core(Fire(s, RsetEvent).value, BLANK, core.isTLS), left, [START_INPUT, OVERSIZE])
      case Accepted(body, _) =>
        var step := Handover(core.(state := s), left, body);
        step.(replies := [START_INPUT] + step.replies)
  }

  /** A complete body goes to the delivery pipeline. */
  function Handover(core: Core, net: Net, body: string): Step
    requires core.state.Data?
  {
    var filled := core.envelope.(data := body, size := |body|);
    var (ok, deliveries) := Next(net.deliveries);
    Step(
      Core(if ok then Fire(core.state, DoneEvent).value else core.state, filled, core.isTLS),
      net.(deliveries := deliveries),
      [if ok then TAKEN else ABORTED],
      Some(MessageReceived(filled.from, filled.to, filled.data, filled.size)),
      false)
  }

  function Rset(core: Core, net: Net): Step {
    match Fire(core.state, RsetEvent)
    case None => Say(core, net, [BAD_SEQUENCE])
    case Some(s) => Say(Core(s, BLANK, core.isTLS), net, [Reply(250, false, "OK")])
  }

  function QuitCommand(cfg: Config, core: Core, net: Net): Step {
    var bye := Reply(221, false, cfg.domain + " Service closing transmission channel");
    match Fire(core.state, QuitEvent)
    case None => Say(core, net, [BAD_SEQUENCE, bye])
    case Some(s) => Say(core.(state := s), net, [bye])
  }

  function StartTls(cfg: Config, core: Core, net: Net): Step {
    if core.isTLS then Say(core, net, [Reply(503, false, "Already using TLS")])
    else if !cfg.tlsAvailable then Say(core, net, [Reply(454, false, "TLS not available")])
    else if core.state.MailFrom? || core.state.RcptTo? then Say(core, net, [BAD_SEQUENCE])
    else
      var (ok, handshakes) := Next(net.handshakes);
      Step(if ok then Core(Init, BLANK, true) else core, net.(handshakes := handshakes),
           [Reply(220, false, "Ready to start TLS")], None, ok)
  }

  datatype Verb = EHLO | STARTTLS | MAIL | RCPT | DATA | RSET | QUIT | NOOP | OTHER

  function VerbOf(cmd: string): Verb {
    if cmd == "EHLO" || cmd == "HELO" then EHLO
    else if cmd == "STARTTLS" then STARTTLS
    else if cmd == "MAIL" then MAIL
    else if cmd == "RCPT" then RCPT
    else if cmd == "DATA" then DATA
    else if cmd == "RSET" then RSET
    else if cmd == "QUIT" then QUIT
    else if cmd == "NOOP" then NOOP
    else OTHER
  }

  /** A command line as verb, arguments and the address a MAIL or RCPT names. */
  datatype Command = Command(verb: Verb, args: string, addr: Option<Address>)

  function Addressed(verb: Verb, args: string): Option<Address> {
    if verb == MAIL then ExtractAddress(args, "FROM:") else if verb == RCPT then ExtractAddress(args, "TO:") else None
  }

  function Parse(text: string): Command {
    var (word, args, _) := Cut(text, ' ');
    var verb := VerbOf(ToUpper(TrimSpace(word)));
    Command(verb, args, Addressed(verb, args))
  }

  /** The words of the commands, in any case. */
  predicate Spells(word: string, verb: Verb) {
    match verb
    case EHLO => SameWord(word, "EHLO") || SameWord(word, "HELO")
    case STARTTLS => SameWord(word, "STARTTLS")
    case MAIL => SameWord(word, "MAIL")
    case RCPT => SameWord(word, "RCPT")
    case DATA => SameWord(word, "DATA")
    case RSET => SameWord(word, "RSET")
    case QUIT => SameWord(word, "QUIT")
    case NOOP => SameWord(word, "NOOP")
    case OTHER =>
      && !SameWord(word, "EHLO") && !SameWord(word, "HELO") && !SameWord(word, "STARTTLS") && !SameWord(word, "MAIL")
      && !SameWord(word, "RCPT") && !SameWord(word, "DATA") && !SameWord(word, "RSET") && !SameWord(word, "QUIT")
      && !SameWord(word, "NOOP")
  }

  lemma VerbExact(word: string, verb: Verb)
    ensures VerbOf(ToUpper(word)) == verb <==> Spells(word, verb)
  {
    UpperSpells(word, "EHLO");
    UpperSpells(word, "HELO");
    UpperSpells(word, "STARTTLS");
    UpperSpells(word, "MAIL");
    UpperSpells(word, "RCPT");
    UpperSpells(word, "DATA");
    UpperSpells(word, "RSET");
    UpperSpells(word, "QUIT");
    UpperSpells(word, "NOOP");
  }

  /** A command line is its first word, in any case and trimmed, and what follows the first blank. */
  lemma ParseExact(head: string, args: string, verb: Verb)
    requires Lacks(head, ' ')
    ensures (Parse(head + " " + args) == Command(verb, args, Addressed(verb, args)))
            <==> exists left, word, right :: Around(head, SPACES, left, word, right) && Spells(word, verb)
    ensures Parse(head + " " + args).args == args
  {
    ParseWith(head, args);
    VerbExact(TrimSpace(head), verb);
    TrimWord(head, verb);
  }

  /** ... and without a blank it has no arguments. */
  lemma ParseAloneExact(head: string, verb: Verb)
    requires Lacks(head, ' ')
    ensures (Parse(head) == Command(verb, "", Addressed(verb, "")))
            <==> exists left, word, right :: Around(head, SPACES, left, word, right) && Spells(word, verb)
  {
    ParseAlone(head);
    VerbExact(TrimSpace(head), verb);
    TrimWord(head, verb);
  }

  lemma TrimWord(head: string, verb: Verb)
    ensures Spells(TrimSpace(head), verb)
            <==> exists left, word, right :: Around(head, SPACES, left, word, right) && Spells(word, verb)
  {
    var left, right := TrimSplits(head, SPACES);
    forall left, word, right | Around(head, SPACES, left, word, right) ensures TrimSpace(head) == word {
      TrimAround(head, SPACES, left, word, right);
    }
  }

  lemma ParseWith(head: string, args: string)
    requires Lacks(head, ' ')
    ensures var verb := VerbOf(ToUpper(TrimSpace(head)));
            Parse(head + " " + args) == Command(verb, args, Addressed(verb, args))
  {
    var text := head + " " + args;
    assert forall j | 0 <= j < |head| :: text[j] == head[j];
    IndexOfUnique(text, ' ', |head|);
    assert text[..|head|] == head && text[|head| + 1..] == args;
  }

  lemma ParseAlone(head: string)
    requires Lacks(head, ' ')
    ensures var verb := VerbOf(ToUpper(TrimSpace(head)));
            Parse(head) == Command(verb, "", Addressed(verb, ""))
  {
    IndexOfUnique(head, ' ', |head|);
  }

  function Dispatch(cfg: Config, core: Core, net: Net, cmd: Command): (step: Step)
    ensures |step.net.input| <= |net.input|
  {
    match cmd.verb
    case EHLO => Ehlo(cfg, core, net, cmd.args)
    case STARTTLS => StartTls(cfg, core, net)
    case MAIL => Mail(core, net, cmd.addr)
    case RCPT => Rcpt(core, net, cmd.addr)
    case DATA => DataCommand(cfg, core, net)
    case RSET => Rset(core, net)
    case QUIT => QuitCommand(cfg, core, net)
    case NOOP => Say(core, net, [Reply(250, false, "OK")])
    case OTHER => Say(core, net, [Reply(500, false, "Command not recognized")])
  }

  /** One command of the client with everything it caused. */
  datatype Exchange = Exchange(cmd: Command, replies: seq<Reply>, handoff: Option<MessageReceived>, upgraded: bool)

  function Record(cmd: Command, step: Step): Exchange {
    Exchange(cmd, step.replies, step.handoff, step.upgraded)
  }

  datatype Session = Session(core: Core, net: Net, log: seq<Exchange>)

  const NEWLINES: set<char> := {'\r', '\n'}

  /** The read loop, from any point of a session until it ends. */
  function Serve(cfg: Config, core: Core, net: Net): Session
    decreases |net.input|
  {
    if |net.input| == 0 then Session(core, net, [])
    else
      var left := net.(input := net.input[1..]);
      if net.input[0].Failed? then Session(core, left, [])
      else
        var text := TrimRight(net.input[0].line, NEWLINES);
        if text == "" then Serve(cfg, core, left)
        else
          var cmd := Parse(text);
          var step := Dispatch(cfg, core, left, cmd);
          var exchange := Record(cmd, step);
          if cmd.verb == QUIT then Session(step.core, step.net, [exchange])
          else
            var later := Serve(cfg, step.core, step.net);
            later.(log := [exchange] + later.log)
  }

  function Replies(log: seq<Exchange>): seq<Reply> {
    if log == [] then [] else log[0].replies + Replies(log[1..])
  }

  function Handoffs(log: seq<Exchange>): seq<MessageReceived> {
    if log == [] then [] else Handed(log[0].handoff) + Handoffs(log[1..])
  }

  function Handed(handoff: Option<MessageReceived>): seq<MessageReceived> {
    if handoff.Some? then [handoff.value] else []
  }

  /** Doing one exchange and then a log is doing the longer log. */
  lemma {:induction false} LogCons(exchange: Exchange, log: seq<Exchange>, sent: seq<Reply>,
      handed: seq<MessageReceived>)
    ensures sent + Replies([exchange] + log) == sent + exchange.replies + Replies(log)
    ensures handed + Handoffs([exchange] + log) == handed + Handed(exchange.handoff) + Handoffs(log)
  {
    assert ([exchange] + log)[1..] == log;
    Regroup(sent, exchange.replies, Replies(log));
    Regroup(handed, Handed(exchange.handoff), Handoffs(log));
  }

  /** One turn of the read loop on a non-empty command line. */
  lemma ServeTurn(cfg: Config, core: Core, net: Net, text: string)
    requires |net.input| > 0 && net.input[0].Got?
    requires text == TrimRight(net.input[0].line, NEWLINES) && text != ""
    ensures var cmd := Parse(text);
            var step := Dispatch(cfg, core, net.(input := net.input[1..]), cmd);
            var rest := if cmd.verb == QUIT then Session(step.core, step.net, []) else Serve(cfg, step.core, step.net);
            Serve(cfg, core, net) ==
            rest.(log := [Record(cmd, step)] + rest.log)
  {
  }

  // ---- The objects ----

  class Envelope {
    var from: string
    var to: seq<string>
    var data: string
    var size: nat

    function Value(): Contents
      reads this
    {
      Contents(from, to, data, size)
    }

    constructor ()
      ensures Value() == BLANK
    {
      from, to, data, size := "", [], "", 0;
    }

    method AddRecipient(addr: string)
      modifies this
      ensures Value() == old(Value()).(to := old(to) + [addr])
    {
      to := to + [addr];
    }

    method Reset()
      modifies this
      ensures Value() == BLANK
    {
      from, to, data, size := "", [], "", 0;
    }
  }

  class Connection {
    const cfg: Config
    const envelope: Envelope
    var fsm: State
    var isTLS: bool
    var net: Net
    var sent: seq<Reply>
    var handed: seq<MessageReceived>

    ghost function View(): Core
      reads this, envelope
    {
      Core(fsm, envelope.Value(), isTLS)
    }

    /** The object has done what `step` says since the state given by the other arguments. */
    ghost predicate Did(step: Step, sentBefore: seq<Reply>, handedBefore: seq<MessageReceived>)
      reads this, envelope
    {
      && View() == step.core
      && net == step.net
      && sent == sentBefore + step.replies
      && handed == handedBefore + Handed(step.handoff)
    }

    constructor (cfg: Config, isTLS: bool, net: Net)
      ensures this.cfg == cfg && this.net == net && sent == [] && handed == []
      ensures View() == Core(Init, BLANK, isTLS)
      ensures fresh(envelope)
    {
      this.cfg := cfg;
      this.isTLS := isTLS;
      this.net := net;
      envelope := new Envelope();
      fsm, sent, handed := Init, [], [];
    }

    method Write(line: Reply)
      modifies this`sent
      ensures sent == old(sent) + [line]
    {
      sent := sent + [line];
    }

    method Transition(event: Event) returns (ok: bool)
      modifies this`fsm, this`sent
      ensures ok == Fire(old(fsm), event).Some?
      ensures fsm == if ok then Fire(old(fsm), event).value else old(fsm)
      ensures sent == old(sent) + if ok then [] else [BAD_SEQUENCE]
    {
      match Fire(fsm, event)
      case None =>
        Write(BAD_SEQUENCE);
        ok := false;
      case Some(s) =>
        fsm := s;
        ok := true;
    }

    method HandleEhlo(args: string)
      modifies this, envelope
      ensures Did(Ehlo(cfg, old(View()), old(net), args), old(sent), old(handed))
    {
      if args == "" {
        Write(Reply(501, false, "Syntax: EHLO hostname"));
        return;
      }
      var ok := Transition(EhloEvent);
      if !ok { return; }
      envelope.Reset();
      WriteExtensions(args);
    }

    method WriteExtensions(args: string)
      modifies this`sent
      ensures sent == old(sent) + EhloLines(cfg, isTLS, args)
    {
      Write(Reply(250, true, cfg.domain + " greets " + args));
      Write(Reply(250, true, "SIZE " + DecInt(cfg.maxSize)));
      Write(Reply(250, true, "8BITMIME"));
      if cfg.tlsAvailable && !isTLS {
        Write(Reply(250, true, "STARTTLS"));
      }
      Write(Reply(250, false, "ENHANCEDSTATUSCODES"));
    }

    method HandleMail(args: string)
      modifies this, envelope
      ensures Did(Mail(old(View()), old(net), ExtractAddress(args, "FROM:")), old(sent), old(handed))
    {
      Begin(ExtractAddress(args, "FROM:"));
    }

    method Begin(addr: Option<Address>)
      modifies this, envelope
      ensures Did(Mail(old(View()), old(net), addr), old(sent), old(handed))
    {
      if addr.None? {
        Write(Reply(501, false, "Syntax: MAIL FROM:<address>"));
        return;
      }
      var ok := Transition(MailFromEvent);
      if !ok { return; }
      envelope.from := addr.value;
      Write(Reply(250, false, "OK"));
    }

    method TransitionRcptTo() returns (ok: bool)
      modifies this`fsm, this`sent
      ensures ok == (old(fsm).RcptTo? || Fire(old(fsm), RcptToEvent).Some?)
      ensures fsm == if ok then RcptTo else old(fsm)
      ensures sent == old(sent) + if ok then [] else [BAD_SEQUENCE]
    {
      if fsm.RcptTo? {
        return true;
      }
      ok := Transition(RcptToEvent);
    }

    method HandleRcpt(args: string)
      modifies this, envelope
      ensures Did(Rcpt(old(View()), old(net), ExtractAddress(args, "TO:")), old(sent), old(handed))
    {
      Admit(ExtractAddress(args, "TO:"));
    }

    method Admit(addr: Option<Address>)
      modifies this, envelope
      ensures Did(Rcpt(old(View()), old(net), addr), old(sent), old(handed))
    {
      if addr.None? {
        Write(Reply(501, false, "Syntax: RCPT TO:<address>"));
        return;
      }
      if |envelope.to| >= RECIPIENT_LIMIT {
        Write(Reply(452, false, "Too many recipients"));
        return;
      }
      var ok := TransitionRcptTo();
      if !ok { return; }
      envelope.AddRecipient(addr.value);
      Write(Reply(250, false, "OK"));
    }

    method HandleData()
      modifies this, envelope
      ensures Did(DataCommand(cfg, old(View()), old(net)), old(sent), old(handed))
    {
      var ok := Transition(DataEvent);
      if !ok { return; }
      Write(START_INPUT);
      var outcome := ReadBody(net.input, cfg.maxSize);
      net := net.(input := outcome.rest);
      match outcome {
        case Broken(_) =>
        case TooLarge(_) => Reject();
        case Accepted(body, _) => HandOver(body);
      }
    }

    /** The message is too large: refuse it and start from nothing. */
    method Reject()
      requires fsm.Data?
      modifies this, envelope
      ensures View() == Core(Greeted, BLANK, old(isTLS)) && net == old(net)
      ensures sent == old(sent) + [OVERSIZE] && handed == old(handed)
    {
      Write(OVERSIZE);
      envelope.Reset();
      var ok := Transition(RsetEvent);
    }

    method HandOver(body: string)
      requires fsm.Data?
      modifies this, envelope
      ensures Did(Handover(old(View()), old(net), body), old(sent), old(handed))
    {
      envelope.data := body;
      envelope.size := |body|;
      handed := handed + [MessageReceived(envelope.from, envelope.to, envelope.data, envelope.size)];
      var (delivered, deliveries) := Next(net.deliveries);
      net := net.(deliveries := deliveries);
      if !delivered {
        Write(ABORTED);
        return;
      }
      var ok := Transition(DoneEvent);
      Write(TAKEN);
    }

    method HandleRset()
      modifies this, envelope
      ensures Did(Rset(old(View()), old(net)), old(sent), old(handed))
    {
      var ok := Transition(RsetEvent);
      if !ok { return; }
      envelope.Reset();
      Write(Reply(250, false, "OK"));
    }

    method HandleQuit()
      modifies this, envelope
      ensures Did(QuitCommand(cfg, old(View()), old(net)), old(sent), old(handed))
    {
      var ok := Transition(QuitEvent);
      Write(Reply(221, false, cfg.domain + " Service closing transmission channel"));
    }

    method HandleStartTls()
      modifies this, envelope
      ensures Did(StartTls(cfg, old(View()), old(net)), old(sent), old(handed))
    {
      if isTLS {
        Write(Reply(503, false, "Already using TLS"));
        return;
      }
      if !cfg.tlsAvailable {
        Write(Reply(454, false, "TLS not available"));
        return;
      }
      if fsm.MailFrom? || fsm.RcptTo? {
        Write(BAD_SEQUENCE);
        return;
      }
      Write(Reply(220, false, "Ready to start TLS"));
      var (ok, handshakes) := Next(net.handshakes);
      net := net.(handshakes := handshakes);
      if !ok { return; }
      isTLS := true;
      fsm := Init;
      envelope.Reset();
    }

    method HandleCommand(verb: Verb, args: string)
      modifies this, envelope
      ensures Did(Dispatch(cfg, old(View()), old(net), Command(verb, args, Addressed(verb, args))), old(sent),
              old(handed))
    {
      match verb
      case EHLO => HandleEhlo(args);
      case STARTTLS => HandleStartTls();
      case MAIL => HandleMail(args);
      case RCPT => HandleRcpt(args);
      case DATA => HandleData();
      case RSET => HandleRset();
      case QUIT => HandleQuit();
      case NOOP => Write(Reply(250, false, "OK"));
      case OTHER => Write(Reply(500, false, "Command not recognized"));
    }

    /** What `run` still has to do is done, or is what `rest` will do. */
    ghost predicate Owes(run: Session, rest: Session, sentBefore: seq<Reply>, handedBefore: seq<MessageReceived>)
      reads this
    {
      && run.core == rest.core
      && run.net == rest.net
      && sentBefore + Replies(run.log) == sent + Replies(rest.log)
      && handedBefore + Handoffs(run.log) == handed + Handoffs(rest.log)
    }

    /** One turn of the read loop. */
    method HandleRead() returns (done: bool)
      requires |net.input| > 0
      modifies this, envelope
      ensures done ==> Owes(Serve(cfg, old(View()), old(net)), Session(View(), net, []), old(sent), old(handed))
      ensures !done ==> Owes(Serve(cfg, old(View()), old(net)), Serve(cfg, View(), net), old(sent), old(handed))
      ensures |net.input| < |old(net).input|
    {
      var next := net.input[0];
      ghost var run := Serve(cfg, View(), net);
      net := net.(input := net.input[1..]);
      if next.Failed? {
        return true;
      }
      var text := TrimRight(next.line, NEWLINES);
      if text == "" {
        return false;
      }
      var (word, args, _) := Cut(text, ' ');
      var verb := VerbOf(ToUpper(TrimSpace(word)));
      ServeTurn(cfg, old(View()), old(net), text);
      HandleCommand(verb, args);
      done := verb == QUIT;
      ghost var rest := if done then Session(View(), net, []) else Serve(cfg, View(), net);
      assert run == rest.(log := [run.log[0]] + rest.log);
      LogCons(run.log[0], rest.log, old(sent), old(handed));
    }

    /** The whole session: greeting, then commands until QUIT or a failed read. */
    method Handle()
      modifies this, envelope
      ensures var run := Serve(cfg, old(View()), old(net));
              && View() == run.core
              && net == run.net
              && sent == old(sent) + [Reply(220, false, cfg.domain + " ESMTP gomail-core ready")] + Replies(run.log)
              && handed == old(handed) + Handoffs(run.log)
    {
      Write(Reply(220, false, cfg.domain + " ESMTP gomail-core ready"));
      ghost var run := Serve(cfg, View(), net);
      ghost var greeted := sent;
      while |net.input| > 0
        invariant Owes(run, Serve(cfg, View(), net), greeted, old(handed))
        decreases |net.input|
      {
        var done := HandleRead();
        if done {
          return;
        }
      }
    }
  }
}
