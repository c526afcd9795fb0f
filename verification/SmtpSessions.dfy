/** SMTP sessions on real command lines, from the bytes the client sends to the messages handed over. */
module SmtpSessions {
  import opened Text
  import opened DataTransfer
  import opened Smtp
  import opened SmtpRuns

  // ---- Command lines ----

  function MailText(from: Address): string { "MAIL" + " " + ("FROM:" + ("<" + from + ">")) }

  function RcptText(to: Address): string { "RCPT" + " " + ("TO:" + ("<" + to + ">")) }

  function EhloText(name: string): string { "EHLO" + " " + name }

  lemma MailParses(from: Address)
    ensures Parse(MailText(from)) == Command(MAIL, "FROM:" + ("<" + from + ">"), Some(from))
  {
    TrimNothing("MAIL", SPACES);
    assert ToUpper("MAIL") == "MAIL" && ToUpper("FROM:") == "FROM:";
    ParseWith("MAIL", "FROM:" + ("<" + from + ">"));
    BracketedAddress("FROM:", from);
  }

  lemma RcptParses(to: Address)
    ensures Parse(RcptText(to)) == Command(RCPT, "TO:" + ("<" + to + ">"), Some(to))
  {
    TrimNothing("RCPT", SPACES);
    assert ToUpper("RCPT") == "RCPT" && ToUpper("TO:") == "TO:";
    ParseWith("RCPT", "TO:" + ("<" + to + ">"));
    BracketedAddress("TO:", to);
  }

  lemma DataParses()
    ensures Parse("DATA") == Command(DATA, "", None)
  {
    TrimNothing("DATA", SPACES);
    assert ToUpper("DATA") == "DATA";
    ParseAlone("DATA");
  }

  lemma EhloParses(name: string)
    ensures Parse(EhloText(name)) == Command(EHLO, name, None)
  {
    TrimNothing("EHLO", SPACES);
    assert ToUpper("EHLO") == "EHLO";
    ParseWith("EHLO", name);
  }

  /** A text that makes one line. */
  predicate OneLine(text: string) {
    text != "" && Lacks(text, '\n') && text[|text| - 1] != '\r'
  }

  lemma BracketLine(word: string, key: string, addr: Address)
    requires Lacks(word, '\n') && Lacks(key, '\n') && Lacks(addr, '\n')
    ensures OneLine(word + " " + (key + ("<" + addr + ">")))
  {
  }

  lemma WordLine(word: string, args: string)
    requires Lacks(word, '\n') && OneLine(args)
    ensures OneLine(word + " " + args)
  {
  }

  /** A command line on the wire. */
  ghost function Sent(text: string): Read
    requires OneLine(text)
  {
    assert forall i | 0 <= i < |text| + 1 :: (text + "\r\n")[i] == if i < |text| then text[i] else '\r';
    Got(text + "\r\n")
  }

  /** The messages a session hands over from some point on. */
  ghost function HandedFrom(cfg: Config, core: Core, net: Net): seq<MessageReceived> {
    Handoffs(Serve(cfg, core, net).log)
  }

  /** One command line of a session. */
  lemma LineTurn(cfg: Config, core: Core, net: Net, text: string, cmd: Command, rest: seq<Read>)
    requires OneLine(text) && Parse(text) == cmd && cmd.verb != QUIT && net.input == [Sent(text)] + rest
    ensures var step := Dispatch(cfg, core, net.(input := rest), cmd);
            HandedFrom(cfg, core, net) == Handed(step.handoff) + HandedFrom(cfg, step.core, step.net)
  {
    LineLog(cfg, core, net, text, cmd, rest);
    var step := Dispatch(cfg, core, net.(input := rest), cmd);
    LogCons(Record(cmd, step), Serve(cfg, step.core, step.net).log, [], []);
  }

  /** The same for a session and a reading of lines of which nothing else is known. */
  type Handing = (Core, Net) -> seq<MessageReceived>

  type Meaning = (Read, Command) -> bool

  datatype Turn = Turn(core: Core, net: Net, line: Read, cmd: Command, rest: seq<Read>)

  ghost predicate Obeys(cfg: Config, hands: Handing, means: Meaning, t: Turn) {
    means(t.line, t.cmd) && t.net.input == [t.line] + t.rest ==>
      var step := Dispatch(cfg, t.core, t.net.(input := t.rest), t.cmd);
      hands(t.core, t.net) == Handed(step.handoff) + hands(step.core, step.net)
  }

  ghost predicate IsRcpt(means: Meaning, line: Read, to: Address) {
    exists args :: means(line, Command(RCPT, args, Some(to)))
  }

  /** The lines of a message read as MAIL, RCPT for each recipient, DATA and the end marker. */
  ghost predicate MessageLines(means: Meaning, mail: Read, rcpts: seq<Read>, data: Read, end: Read, from: Address,
      to: seq<Address>) {
    && (exists args :: means(mail, Command(MAIL, args, Some(from))))
    && |rcpts| == |to| && (forall i | 0 <= i < |to| :: IsRcpt(means, rcpts[i], to[i]))
    && means(data, Command(DATA, "", None))
    && end.Got? && IsEndMarker(end.line)
  }

  lemma MailTurn(
    cfg: Config, hands: Handing, means: Meaning, core: Core, net: Net, line: Read, from: Address, rest: seq<Read>)
    requires forall t :: Obeys(cfg, hands, means, t)
    requires core.state.Greeted? && net.input == [line] + rest
             && exists args :: means(line, Command(MAIL, args, Some(from)))
    ensures hands(core, net) == hands(core.(state := MailFrom, envelope := core.envelope.(from := from)),
            net.(input := rest))
  {
    var args :| means(line, Command(MAIL, args, Some(from)));
    assert Obeys(cfg, hands, means, Turn(core, net, line, Command(MAIL, args, Some(from)), rest));
  }

  lemma RcptTurn(
    cfg: Config, hands: Handing, means: Meaning, core: Core, net: Net, line: Read, to: Address, rest: seq<Read>)
    requires forall t :: Obeys(cfg, hands, means, t)
    requires (core.state.MailFrom? || core.state.RcptTo?) && |core.envelope.to| < RECIPIENT_LIMIT
    requires net.input == [line] + rest && IsRcpt(means, line, to)
    ensures hands(core, net)
            == hands(core.(state := RcptTo, envelope := core.envelope.(to := core.envelope.to + [to])),
                net.(input := rest))
  {
    var args :| means(line, Command(RCPT, args, Some(to)));
    assert Obeys(cfg, hands, means, Turn(core, net, line, Command(RCPT, args, Some(to)), rest));
  }

  lemma DataTurn(
    cfg: Config, hands: Handing, means: Meaning, core: Core, net: Net, line: Read, end: Read, rest: seq<Read>)
    requires forall t :: Obeys(cfg, hands, means, t)
    requires core.state.RcptTo? && means(line, Command(DATA, "", None)) && end.Got? && IsEndMarker(end.line)
    requires net.input == [line] + ([end] + rest) && |net.deliveries| > 0 && net.deliveries[0]
    ensures hands(core, net)
            == [MessageReceived(core.envelope.from, core.envelope.to, "", 0)]
               + hands(core.(state := Greeted, envelope := core.envelope.(data := "", size := 0)),
                       net.(input := rest, deliveries := net.deliveries[1..]))
  {
    var lines := [end] + rest;
    assert lines[0] == end && lines[1..] == rest;
    assert Receive(lines, cfg.maxSize, "") == Accepted("", rest);
    assert Obeys(cfg, hands, means, Turn(core, net, line, Command(DATA, "", None), lines));
  }

  function Strings(to: seq<Address>): seq<string> {
    to
  }

  /** Each further recipient is added behind the others. */
  lemma {:induction false} RcptTurns(
    cfg: Config, hands: Handing, means: Meaning, core: Core, net: Net, lines: seq<Read>, to: seq<Address>,
        rest: seq<Read>)
    requires forall t :: Obeys(cfg, hands, means, t)
    requires (core.state.MailFrom? || core.state.RcptTo?) && |core.envelope.to| + |to| <= RECIPIENT_LIMIT && |to| > 0
    requires |lines| == |to| && (forall i | 0 <= i < |to| :: IsRcpt(means, lines[i], to[i]))
             && net.input == lines + rest
    ensures hands(core, net)
            == hands(core.(state := RcptTo, envelope := core.envelope.(to := core.envelope.to + Strings(to))),
                     net.(input := rest))
    decreases |to|
  {
    var tail := lines[1..] + rest;
    assert net.input == [lines[0]] + tail;
    RcptTurn(cfg, hands, means, core, net, lines[0], to[0], tail);
    var one := core.(state := RcptTo, envelope := core.envelope.(to := core.envelope.to + [to[0]]));
    if |to| == 1 {
      assert tail == rest && Strings(to) == [to[0]];
    } else {
      RcptTurns(cfg, hands, means, one, net.(input := tail), lines[1..], to[1..], rest);
      assert core.envelope.to + [to[0]] + Strings(to[1..]) == core.envelope.to + Strings(to);
    }
  }

  /** A message goes to the recipients already in the envelope and to its own, in order. */
  lemma MessageTurn(
    cfg: Config, hands: Handing, means: Meaning, core: Core, net: Net,
    mail: Read, rcpts: seq<Read>, data: Read, end: Read, from: Address, to: seq<Address>, rest: seq<Read>)
    requires forall t :: Obeys(cfg, hands, means, t)
    requires core.state.Greeted? && |to| > 0 && |core.envelope.to| + |to| <= RECIPIENT_LIMIT
    requires |net.deliveries| > 0 && net.deliveries[0]
    requires MessageLines(means, mail, rcpts, data, end, from, to)
             && net.input == [mail] + (rcpts + ([data] + ([end] + rest)))
    ensures hands(core, net)
            == [MessageReceived(from, core.envelope.to + Strings(to), "", 0)]
               + hands(Core(Greeted, Contents(from, core.envelope.to + Strings(to), "", 0), core.isTLS),
                       net.(input := rest, deliveries := net.deliveries[1..]))
  {
    var third := [data] + ([end] + rest);
    var second := rcpts + third;
    MailTurn(cfg, hands, means, core, net, mail, from, second);
    var named := core.(state := MailFrom, envelope := core.envelope.(from := from));
    RcptTurns(cfg, hands, means, named, net.(input := second), rcpts, to, third);
    var filled := named.(state := RcptTo, envelope := named.envelope.(to := named.envelope.to + Strings(to)));
    DataTurn(cfg, hands, means, filled, net.(input := third), data, end, rest);
  }

  /** The lines of one message, told apart. */
  datatype Lines = Lines(mail: Read, rcpts: seq<Read>, data: Read, end: Read) {
    function Then(rest: seq<Read>): seq<Read> {
      [mail] + (rcpts + ([data] + ([end] + rest)))
    }
  }

  ghost predicate Sends(means: Meaning, lines: Lines, from: Address, to: seq<Address>) {
    MessageLines(means, lines.mail, lines.rcpts, lines.data, lines.end, from, to)
  }

  /** Two messages in a row. */
  lemma TwoMessages(
    cfg: Config, hands: Handing, means: Meaning, isTLS: bool, ehlo: Read, name: string,
    first: Lines, second: Lines, a: Address, b: seq<Address>, c: seq<Address>)
    requires forall t :: Obeys(cfg, hands, means, t)
    requires means(ehlo, Command(EHLO, name, None)) && name != "" && |b| > 0 && |c| > 0 && |b| + |c| <= RECIPIENT_LIMIT
    requires Sends(means, first, a, b) && Sends(means, second, a, c)
    requires forall core :: hands(core, Net([], [], [])) == []
    ensures hands(Core(Init, BLANK, isTLS), Net([ehlo] + first.Then(second.Then([])), [], [true, true]))
            == [MessageReceived(a, Strings(b), "", 0), MessageReceived(a, Strings(b) + Strings(c), "", 0)]
  {
    var later := first.Then(second.Then([]));
    var start, net := Core(Init, BLANK, isTLS), Net([ehlo] + later, [], [true, true]);
    assert Obeys(cfg, hands, means, Turn(start, net, ehlo, Command(EHLO, name, None), later));
    var greeted, filled := Core(Greeted, BLANK, isTLS), Core(Greeted, Contents(a, Strings(b), "", 0), isTLS);
    assert hands(start, net) == hands(greeted, net.(input := later));
    MessageTurn(cfg, hands, means, greeted, net.(input := later), first.mail, first.rcpts, first.data, first.end, a, b,
                second.Then([]));
    assert [] + Strings(b) == Strings(b) && [true, true][1..] == [true] && [true][1..] == [];
    MessageTurn(cfg, hands, means, filled, Net(second.Then([]), [], [true]), second.mail, second.rcpts, second.data,
        second.end,
                a, c, []);
  }

  ghost function HandingOf(cfg: Config): Handing {
    (core, net) => HandedFrom(cfg, core, net)
  }

  /** The line means as this command. */
  ghost predicate ReadsAs(line: Read, cmd: Command) {
    exists text :: OneLine(text) && line == Sent(text) && Parse(text) == cmd && cmd.verb != QUIT
  }

  lemma SessionObeys(cfg: Config, t: Turn)
    ensures Obeys(cfg, HandingOf(cfg), ReadsAs, t)
  {
    if ReadsAs(t.line, t.cmd) && t.net.input == [t.line] + t.rest {
      var text :| OneLine(text) && t.line == Sent(text) && Parse(text) == t.cmd && t.cmd.verb != QUIT;
      LineTurn(cfg, t.core, t.net, text, t.cmd, t.rest);
    }
  }

  ghost predicate AllSendable(to: seq<Address>) {
    forall i | 0 <= i < |to| :: Lacks(to[i], '\n')
  }

  ghost function RcptLine(to: Address): Read
    requires Lacks(to, '\n')
  {
    BracketLine("RCPT", "TO:", to);
    Sent(RcptText(to))
  }

  /** What the client sends for one empty message. */
  ghost function OneMessage(from: Address, to: seq<Address>): Lines
    requires Lacks(from, '\n') && AllSendable(to)
  {
    BracketLine("MAIL", "FROM:", from);
    Lines(Sent(MailText(from)), seq(|to|, i requires 0 <= i < |to| => RcptLine(to[i])), Sent("DATA"), Got(".\r\n"))
  }

  lemma MailReads(from: Address)
    requires Lacks(from, '\n')
    ensures OneLine(MailText(from))
    ensures ReadsAs(Sent(MailText(from)), Command(MAIL, "FROM:" + ("<" + from + ">"), Some(from)))
  {
    BracketLine("MAIL", "FROM:", from);
    MailParses(from);
  }

  lemma RcptReads(to: Address)
    requires Lacks(to, '\n')
    ensures IsRcpt(ReadsAs, RcptLine(to), to)
  {
    BracketLine("RCPT", "TO:", to);
    RcptParses(to);
    assert ReadsAs(RcptLine(to), Command(RCPT, "TO:" + ("<" + to + ">"), Some(to)));
  }

  lemma DataReads()
    ensures ReadsAs(Sent("DATA"), Command(DATA, "", None))
  {
    DataParses();
  }

  lemma OneMessageReads(from: Address, to: seq<Address>)
    requires Lacks(from, '\n') && AllSendable(to)
    ensures Sends(ReadsAs, OneMessage(from, to), from, to)
  {
    var lines := OneMessage(from, to);
    assert IsEndMarker(lines.end.line);
    MailReads(from);
    DataReads();
    forall i | 0 <= i < |to| ensures IsRcpt(ReadsAs, lines.rcpts[i], to[i]) {
      RcptReads(to[i]);
    }
  }

  ghost function EhloLine(name: string): Read
    requires OneLine(name)
  {
    WordLine("EHLO", name);
    Sent(EhloText(name))
  }

  lemma EhloReads(name: string)
    requires OneLine(name)
    ensures ReadsAs(EhloLine(name), Command(EHLO, name, None))
  {
    WordLine("EHLO", name);
    EhloParses(name);
  }

  lemma CarryOver(
    cfg: Config, means: Meaning, isTLS: bool, ehlo: Read, name: string,
    first: Lines, second: Lines, a: Address, b: seq<Address>, c: seq<Address>)
    requires forall t :: Obeys(cfg, HandingOf(cfg), means, t)
    requires means(ehlo, Command(EHLO, name, None)) && name != "" && |b| > 0 && |c| > 0 && |b| + |c| <= RECIPIENT_LIMIT
    requires Sends(means, first, a, b) && Sends(means, second, a, c)
    ensures Handoffs(Transcript(cfg, isTLS, Net([ehlo] + first.Then(second.Then([])), [], [true, true])))
            == [MessageReceived(a, Strings(b), "", 0), MessageReceived(a, Strings(b) + Strings(c), "", 0)]
  {
    forall core ensures HandingOf(cfg)(core, Net([], [], [])) == [] {
      assert HandedFrom(cfg, core, Net([], [], [])) == [];
    }
    TwoMessages(cfg, HandingOf(cfg), means, isTLS, ehlo, name, first, second, a, b, c);
  }

  lemma AllObey(cfg: Config)
    ensures forall t :: Obeys(cfg, HandingOf(cfg), ReadsAs, t)
  {
    forall t ensures Obeys(cfg, HandingOf(cfg), ReadsAs, t) { SessionObeys(cfg, t); }
  }

  /** A message goes to all recipients of its transaction, in order; but not only to them: in a session that sends one
      message from `a` to the recipients `b` and then, with no reset in between, one from `a` to `c`, the first is
      handed to delivery for exactly `b`, and the second for `b` and `c`. */
  lemma RecipientsCarryOver(cfg: Config, isTLS: bool, name: string, a: Address, b: seq<Address>, c: seq<Address>)
    requires OneLine(name) && Lacks(a, '\n') && AllSendable(b) && AllSendable(c)
    requires |b| > 0 && |c| > 0 && |b| + |c| <= 100
    ensures var input := [EhloLine(name)] + OneMessage(a, b).Then(OneMessage(a, c).Then([]));
            Handoffs(Transcript(cfg, isTLS, Net(input, [], [true, true])))
            == [MessageReceived(a, Strings(b), "", 0), MessageReceived(a, Strings(b) + Strings(c), "", 0)]
  {
    EhloReads(name);
    OneMessageReads(a, b);
    OneMessageReads(a, c);
    AllObey(cfg);
    CarryOver(cfg, ReadsAs, isTLS, EhloLine(name), name, OneMessage(a, b), OneMessage(a, c), a, b, c);
  }

  // ---- A session that upgrades ----

  type Logging = (Core, Net) -> seq<Exchange>

  ghost predicate Logs(cfg: Config, logs: Logging, means: Meaning, t: Turn) {
    means(t.line, t.cmd) && t.net.input == [t.line] + t.rest ==>
      var step := Dispatch(cfg, t.core, t.net.(input := t.rest), t.cmd);
      logs(t.core, t.net) == [Record(t.cmd, step)] + logs(step.core, step.net)
  }

  ghost function LoggingOf(cfg: Config): Logging {
    (core, net) => Serve(cfg, core, net).log
  }

  lemma SessionLogs(cfg: Config, t: Turn)
    ensures Logs(cfg, LoggingOf(cfg), ReadsAs, t)
  {
    if ReadsAs(t.line, t.cmd) && t.net.input == [t.line] + t.rest {
      var text :| OneLine(text) && t.line == Sent(text) && Parse(text) == t.cmd && t.cmd.verb != QUIT;
      LineLog(cfg, t.core, t.net, text, t.cmd, t.rest);
    }
  }

  lemma LineLog(cfg: Config, core: Core, net: Net, text: string, cmd: Command, rest: seq<Read>)
    requires OneLine(text) && Parse(text) == cmd && cmd.verb != QUIT && net.input == [Sent(text)] + rest
    ensures var step := Dispatch(cfg, core, net.(input := rest), cmd);
            Serve(cfg, core, net).log == [Record(cmd, step)] + Serve(cfg, step.core, step.net).log
  {
    var line := text + "\r\n";
    KeptIs(line, |line|, NEWLINES, |text|);
    assert line[..|text|] == text;
    assert net.input[1..] == rest;
    ServeTurn(cfg, core, net, text);
  }

  lemma AllLog(cfg: Config)
    ensures forall t :: Logs(cfg, LoggingOf(cfg), ReadsAs, t)
  {
    forall t ensures Logs(cfg, LoggingOf(cfg), ReadsAs, t) { SessionLogs(cfg, t); }
  }

  ghost predicate Upgrade(e: Exchange) {
    e.cmd.verb == STARTTLS && e.upgraded && e.replies == [Reply(220, false, "Ready to start TLS")] && e.handoff.None?
  }

  lemma UpgradeTurns(
    cfg: Config, logs: Logging, means: Meaning, ehlo: Read, name: string, tls: Read, rest: seq<Read>,
        handshakes: seq<bool>,
    deliveries: seq<bool>) returns (hello: Exchange, upgrade: Exchange)
    requires forall t :: Logs(cfg, logs, means, t)
    requires cfg.tlsAvailable && means(ehlo, Command(EHLO, name, None)) && name != ""
             && means(tls, Command(STARTTLS, "", None))
    ensures logs(Core(Init, BLANK, false), Net([ehlo] + ([tls] + rest), [true] + handshakes, deliveries))
            == [hello] + ([upgrade] + logs(Core(Init, BLANK, true), Net(rest, handshakes, deliveries)))
    ensures AcceptedEhlo(hello) && !hello.upgraded && Upgrade(upgrade)
  {
    var start, net := Core(Init, BLANK, false), Net([ehlo] + ([tls] + rest), [true] + handshakes, deliveries);
    assert Logs(cfg, logs, means, Turn(start, net, ehlo, Command(EHLO, name, None), [tls] + rest));
    var greeted, left := Core(Greeted, BLANK, false), net.(input := [tls] + rest);
    hello := Record(Command(EHLO, name, None), Dispatch(cfg, start, left, Command(EHLO, name, None)));
    assert Logs(cfg, logs, means, Turn(greeted, left, tls, Command(STARTTLS, "", None), rest));
    upgrade := Record(Command(STARTTLS, "", None),
        Dispatch(cfg, greeted, left.(input := rest), Command(STARTTLS, "", None)));
    assert ([true] + handshakes)[1..] == handshakes;
  }

  lemma TlsReads()
    ensures OneLine("STARTTLS") && ReadsAs(Sent("STARTTLS"), Command(STARTTLS, "", None))
  {
    TrimNothing("STARTTLS", SPACES);
    assert ToUpper("STARTTLS") == "STARTTLS";
    ParseAlone("STARTTLS");
  }

  /** Sessions do upgrade: where TLS is to be had and the handshake succeeds, the lines EHLO and STARTTLS are answered
      250 and 220, and whatever the client sends next meets a session on TLS that has just begun. */
  lemma SessionUpgrades(cfg: Config, name: string, rest: seq<Read>, handshakes: seq<bool>, deliveries: seq<bool>)
    returns (hello: Exchange, upgrade: Exchange)
    requires cfg.tlsAvailable && OneLine(name)
    ensures OneLine("STARTTLS")
    ensures Transcript(cfg, false, Net([EhloLine(name)] + ([Sent("STARTTLS")] + rest), [true] + handshakes, deliveries))
            == [hello] + ([upgrade] + Serve(cfg, Core(Init, BLANK, true), Net(rest, handshakes, deliveries)).log)
    ensures AcceptedEhlo(hello) && !hello.upgraded && Upgrade(upgrade)
  {
    EhloReads(name);
    TlsReads();
    AllLog(cfg);
    hello, upgrade := UpgradeTurns(cfg, LoggingOf(cfg), ReadsAs, EhloLine(name), name, Sent("STARTTLS"), rest,
        handshakes, deliveries);
  }
}
