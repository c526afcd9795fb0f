/** What holds over whole SMTP sessions. A session is judged by its transcript alone: the commands, the replies,
    the messages handed to delivery and the TLS upgrade. */
module SmtpRuns {
  import opened Text
  import opened DataTransfer
  import opened Smtp
  import opened SmtpAnswers

  // ---- Reading a transcript ----

  /** The code of the last reply of an exchange. */
  predicate Answered(e: Exchange, code: nat) {
    e.replies != [] && e.replies[|e.replies| - 1].code == code
  }

  predicate AcceptedEhlo(e: Exchange) { e.cmd.verb == EHLO && Answered(e, 250) }
  predicate AcceptedMail(e: Exchange) { e.cmd.verb == MAIL && Answered(e, 250) }
  predicate AcceptedRcpt(e: Exchange) { e.cmd.verb == RCPT && Answered(e, 250) }
  predicate AcceptedData(e: Exchange) { e.cmd.verb == DATA && Answered(e, 250) }

  /** The exchanges after which a transaction starts from nothing. */
  predicate Resets(e: Exchange) {
    AcceptedEhlo(e) || (e.cmd.verb == RSET && Answered(e, 250)) || (e.cmd.verb == DATA && Answered(e, 552))
        || e.upgraded
  }

  /** The address the command names. */
  function Name(e: Exchange): string {
    if e.cmd.addr.Some? then e.cmd.addr.value else ""
  }

  /** What a transcript tells. */
  datatype Reading = Reading(
    latestMail: string,        // the address of the latest accepted MAIL
    sinceReset: seq<string>,   // the recipients accepted since the last reset, in order
    sinceMail: seq<string>,    // the recipients accepted since the latest accepted MAIL: those of this transaction
    leftover: seq<string>,     // the recipients of the message accepted last, if nothing has reset the envelope since
    acceptedSinceReset: bool,  // a message was accepted and nothing has reset the envelope since
    seenEhlo: bool,            // an EHLO was accepted since the session start or the TLS upgrade
    seenMail: bool,            // ... then a MAIL, whose transaction nothing has ended
    seenRcpt: bool,            // ... then a RCPT
    upgraded: bool)            // there was a TLS upgrade

  const UNREAD := Reading("", [], [], [], false, false, false, false, false)

  /** Nothing ends the current transaction. */
  predicate Continues(e: Exchange) {
    !Resets(e) && !AcceptedData(e)
  }

  function Advance(r: Reading, e: Exchange): Reading {
    var added := if AcceptedRcpt(e) then [Name(e)] else [];
    Reading(
      if AcceptedMail(e) then Name(e) else r.latestMail,
      if Resets(e) then [] else r.sinceReset + added,
      if AcceptedMail(e) then [] else r.sinceMail + added,
      if Resets(e) then [] else if AcceptedData(e) && e.handoff.Some? then e.handoff.value.to else r.leftover,
      !Resets(e) && (AcceptedData(e) || r.acceptedSinceReset),
      !e.upgraded && (AcceptedEhlo(e) || r.seenEhlo),
      Continues(e) && (if AcceptedMail(e) then r.seenEhlo else r.seenMail),
      Continues(e) && !AcceptedMail(e) && (r.seenRcpt || (AcceptedRcpt(e) && r.seenMail)),
      r.upgraded || e.upgraded)
  }

  function Scan(log: seq<Exchange>): Reading {
    if log == [] then UNREAD else Advance(Scan(log[..|log| - 1]), log[|log| - 1])
  }

  lemma ScanMore(log: seq<Exchange>, e: Exchange)
    ensures Scan(log + [e]) == Advance(Scan(log), e)
  {
    assert (log + [e])[..|log|] == log;
  }

  /** The required order, with the exchanges named: an accepted EHLO not followed by an upgrade, then an accepted MAIL
      not followed by another or by the end of its transaction, then an accepted RCPT. */
  ghost predicate InOrder(log: seq<Exchange>) {
    exists e, m, r | 0 <= e < m < r < |log| :: EhloAt(log, e) && MailAt(log, m) && AcceptedRcpt(log[r])
  }

  ghost predicate EhloAt(log: seq<Exchange>, e: nat)
    requires e < |log|
  {
    AcceptedEhlo(log[e]) && forall i | e < i < |log| :: !log[i].upgraded
  }

  ghost predicate MailAt(log: seq<Exchange>, m: nat)
    requires m < |log|
  {
    AcceptedMail(log[m]) && forall i | m < i < |log| :: Continues(log[i]) && !AcceptedMail(log[i])
  }

  lemma {:induction false} FindEhlo(log: seq<Exchange>) returns (e: nat)
    requires Scan(log).seenEhlo
    ensures e < |log| && EhloAt(log, e)
  {
    var n := |log| - 1;
    if AcceptedEhlo(log[n]) {
      e := n;
    } else {
      e := FindEhlo(log[..n]);
    }
  }

  lemma {:induction false} FindMail(log: seq<Exchange>) returns (e: nat, m: nat)
    requires Scan(log).seenMail
    ensures e < m < |log| && EhloAt(log, e) && MailAt(log, m)
  {
    var n := |log| - 1;
    if AcceptedMail(log[n]) {
      e := FindEhlo(log[..n]);
      m := n;
    } else {
      e, m := FindMail(log[..n]);
    }
  }

  lemma {:induction false} FindRcpt(log: seq<Exchange>) returns (e: nat, m: nat, r: nat)
    requires Scan(log).seenRcpt
    ensures e < m < r < |log| && EhloAt(log, e) && MailAt(log, m) && AcceptedRcpt(log[r])
  {
    var n := |log| - 1;
    if Scan(log[..n]).seenRcpt {
      e, m, r := FindRcpt(log[..n]);
    } else {
      e, m := FindMail(log[..n]);
      r := n;
    }
  }

  lemma {:induction false} FindUpgrade(log: seq<Exchange>)
    ensures !Scan(log).upgraded ==> NeverUpgraded(log)
  {
    if log != [] {
      FindUpgrade(log[..|log| - 1]);
    }
  }

  ghost predicate NeverUpgraded(log: seq<Exchange>) {
    forall i | 0 <= i < |log| :: !log[i].upgraded
  }

  // ---- What every step keeps ----

  ghost predicate AllNamed(to: seq<string>) {
    forall i | 0 <= i < |to| :: to[i] != ""
  }

  /** The session's state as the transcript determines it. */
  ghost predicate Inv(r: Reading, core: Core) {
    && core.envelope.to == r.sinceReset
    && |r.sinceReset| <= RECIPIENT_LIMIT && AllNamed(r.sinceReset)
    && (r.leftover == [] <==> !r.acceptedSinceReset)
    && (r.upgraded ==> core.isTLS)
    && (r.seenRcpt ==> r.seenMail) && (r.seenMail ==> r.seenEhlo)
    && match core.state
       case Init => r.sinceReset == r.leftover == []
       case Greeted => r.seenEhlo && r.sinceReset == r.leftover
       case MailFrom => r.seenMail && Sender(r, core) && r.sinceReset == r.leftover && r.sinceMail == []
       case Quit => false
       case _ => r.seenRcpt && Sender(r, core) && r.sinceReset == r.leftover + r.sinceMail && r.sinceMail != []
  }

  ghost predicate Sender(r: Reading, core: Core) {
    core.envelope.from == r.latestMail != ""
  }

  /** What is promised of a message handed to delivery after the exchanges of `log`. */
  ghost predicate Sound(cfg: Config, log: seq<Exchange>, m: MessageReceived) {
    var r := Scan(log);
    && InOrder(log)
    && m.from == r.latestMail != ""
    && 1 <= |m.to| <= RECIPIENT_LIMIT && AllNamed(m.to)
    && m.to == r.sinceReset == r.leftover + r.sinceMail
    && (m.to == r.sinceMail <==> !r.acceptedSinceReset)
    && m.size == |m.body| && Terminated(m.body) && (cfg.maxSize >= 0 ==> m.size <= cfg.maxSize)
  }

  /** Exchanges that change no reading of the transcript. */
  predicate Inert(e: Exchange) {
    Continues(e) && !AcceptedMail(e) && !AcceptedRcpt(e)
  }

  /** The kinds of step there are, as the transcript shows them. */
  datatype Kind = Nothing | Halted | Cleared | Named(addr: Address) | Added(addr: Address) | Taken

  ghost predicate Shows(kind: Kind, core: Core, e: Exchange, after: Core) {
    match kind
    case Nothing => Inert(e) && after == core
    case Halted =>
      && Inert(e) && core.state.RcptTo? && after.state.Data? && after.isTLS == core.isTLS
      && after.envelope.to == core.envelope.to && after.envelope.from == core.envelope.from
    case Cleared =>
      && Resets(e) && (e.upgraded || AcceptedEhlo(e) || !core.state.Init?)
      && after == Core(if e.upgraded then Init else Greeted, BLANK, core.isTLS || e.upgraded)
    case Named(addr) =>
      && AcceptedMail(e) && Continues(e) && core.state.Greeted? && e.cmd.addr == Some(addr)
      && after == core.(state := MailFrom, envelope := core.envelope.(from := addr))
    case Added(addr) =>
      && AcceptedRcpt(e) && Continues(e) && (core.state.MailFrom? || core.state.RcptTo?)
      && e.cmd.addr == Some(addr) && |core.envelope.to| < RECIPIENT_LIMIT
      && after == core.(state := RcptTo, envelope := core.envelope.(to := core.envelope.to + [addr]))
    case Taken =>
      && AcceptedData(e) && !Resets(e) && e.handoff.Some? && e.handoff.value.to == core.envelope.to
      && core.state.RcptTo? && after.state.Greeted? && after.isTLS == core.isTLS
         && after.envelope.to == core.envelope.to
  }

  lemma MailKind(core: Core, net: Net, cmd: Command) returns (kind: Kind)
    requires cmd.verb == MAIL
    ensures var step := Mail(core, net, cmd.addr); Shows(kind, core, Record(cmd, step), step.core)
  {
    kind := if cmd.addr.Some? && core.state.Greeted? then Named(cmd.addr.value) else Nothing;
  }

  lemma RcptKind(core: Core, net: Net, cmd: Command) returns (kind: Kind)
    requires cmd.verb == RCPT && !core.state.Quit?
    ensures var step := Rcpt(core, net, cmd.addr); Shows(kind, core, Record(cmd, step), step.core)
  {
    var admitted := |core.envelope.to| < RECIPIENT_LIMIT && (core.state.MailFrom? || core.state.RcptTo?);
    kind := if cmd.addr.Some? && admitted then Added(cmd.addr.value) else Nothing;
  }

  lemma DataKind(cfg: Config, core: Core, net: Net, cmd: Command) returns (kind: Kind)
    requires cmd.verb == DATA
    ensures var step := DataCommand(cfg, core, net); Shows(kind, core, Record(cmd, step), step.core)
  {
    var outcome := Receive(net.input, cfg.maxSize, "");
    kind := if !core.state.RcptTo? then Nothing
      else if outcome.TooLarge? then Cleared
      else if outcome.Accepted? && Next(net.deliveries).0 then Taken
      else Halted;
  }

  lemma StepKind(cfg: Config, core: Core, net: Net, cmd: Command) returns (kind: Kind)
    requires cmd.verb != QUIT && !core.state.Quit?
    ensures var step := Dispatch(cfg, core, net, cmd); Shows(kind, core, Record(cmd, step), step.core)
  {
    match cmd.verb {
      case MAIL => kind := MailKind(core, net, cmd);
      case RCPT => kind := RcptKind(core, net, cmd);
      case DATA => kind := DataKind(cfg, core, net, cmd);
      case EHLO => kind := if cmd.args != "" && core.state.Init? then Cleared else Nothing;
      case RSET => kind := if core.state.Init? || core.state.Greeted? then Nothing else Cleared;
      case STARTTLS => kind := if StartTls(cfg, core, net).upgraded then Cleared else Nothing;
      case _ => kind := Nothing;
    }
  }

  lemma AddedKeeps(r: Reading, core: Core, e: Exchange, after: Core, addr: Address)
    requires Inv(r, core) && Shows(Added(addr), core, e, after)
    ensures Inv(Advance(r, e), after)
  {
    var next := Advance(r, e);
    Regroup(r.leftover, r.sinceMail, [addr]);
    assert next.sinceReset == r.sinceReset + [addr] && next.sinceMail == r.sinceMail + [addr];
    assert forall i | 0 <= i < |next.sinceReset| :: next.sinceReset[i] != "";
  }

  lemma KindKeeps(kind: Kind, r: Reading, core: Core, e: Exchange, after: Core)
    requires Inv(r, core) && Shows(kind, core, e, after)
    ensures Inv(Advance(r, e), after)
  {
    match kind {
      case Nothing =>
      case Halted =>
      case Cleared =>
      case Named(_) =>
      case Added(addr) =>
        AddedKeeps(r, core, e, after, addr);
      case Taken =>
    }
  }

  lemma StepKeeps(cfg: Config, r: Reading, core: Core, net: Net, cmd: Command)
    requires Inv(r, core) && cmd.verb != QUIT
    ensures var step := Dispatch(cfg, core, net, cmd);
            Inv(Advance(r, Record(cmd, step)), step.core)
  {
    var kind := StepKind(cfg, core, net, cmd);
    var step := Dispatch(cfg, core, net, cmd);
    KindKeeps(kind, r, core, Record(cmd, step), step.core);
  }

  lemma OrderFound(log: seq<Exchange>)
    requires Scan(log).seenRcpt
    ensures InOrder(log)
  {
    var i, j, k := FindRcpt(log);
  }

  lemma HandoffFields(cfg: Config, core: Core, net: Net, m: MessageReceived)
    requires DataCommand(cfg, core, net).handoff == Some(m)
    ensures core.state.RcptTo? && m.from == core.envelope.from && m.to == core.envelope.to && m.size == |m.body|
    ensures Terminated(m.body) && (cfg.maxSize >= 0 ==> m.size <= cfg.maxSize)
  {
    AcceptedBody(net.input, cfg.maxSize);
  }

  lemma HandoffSound(cfg: Config, log: seq<Exchange>, core: Core, net: Net, m: MessageReceived)
    requires Inv(Scan(log), core) && DataCommand(cfg, core, net).handoff == Some(m)
    ensures Sound(cfg, log, m)
  {
    HandoffFields(cfg, core, net, m);
    OrderFound(log);
  }

  // ---- Replies ----

  /** One final reply, after any continuation lines; for an accepted DATA command 354 and then exactly one verdict,
      unless the read failed. */
  ghost predicate Disciplined(e: Exchange) {
    var n := |e.replies|;
    if e.cmd.verb == DATA && n > 0 && e.replies[0] == START_INPUT then
      || (n == 1 && e.handoff.None?)
      || (n == 2 && e.replies[1] == OVERSIZE && e.handoff.None?)
      || (n == 2 && e.replies[1] in {TAKEN, ABORTED} && e.handoff.Some?)
    else
      n > 0 && !e.replies[n - 1].more && e.handoff.None? && forall i | 0 <= i < n - 1 :: e.replies[i].more
  }

  /** The codes of a refusal. */
  predicate Refusal(code: nat) {
    code == 452 || code == 454 || code == 500 || code == 501 || code == 503
  }

  /** The verdict on a message tells how its transfer ended: none exactly when a read failed, 552 exactly when it was
      too large, 250 or 451 exactly when it was complete, by the answer of the delivery pipeline. */
  ghost predicate Verdict(cfg: Config, net: Net, step: Step) {
    var o, delivered := Receive(net.input, cfg.maxSize, ""), Next(net.deliveries).0;
    && (step.replies == [START_INPUT] <==> o.Broken?)
    && (step.replies == [START_INPUT, OVERSIZE] <==> o.TooLarge?)
    && (step.replies == [START_INPUT, TAKEN] <==> o.Accepted? && delivered)
    && (step.replies == [START_INPUT, ABORTED] <==> o.Accepted? && !delivered)
    && (step.handoff.Some? <==> o.Accepted?)
    && (o.Accepted? ==> step.handoff.value.body == o.body)
    && step.net.input == o.rest
  }

  /** The replies follow the rules; DATA is let in exactly after a recipient, and its verdict is right; and a refusal
      changes nothing: not the state, not the envelope, not what is left to read. */
  ghost predicate Orderly(cfg: Config, core: Core, net: Net, cmd: Command, step: Step) {
    && Disciplined(Record(cmd, step))
    && (cmd.verb == DATA ==> if core.state.RcptTo? then Verdict(cfg, net, step) else step.replies == [BAD_SEQUENCE])
    && (Refused(Record(cmd, step)) ==> step.core == core && step.net == net)
  }

  predicate Refused(e: Exchange) {
    e.replies != [] && Refusal(e.replies[|e.replies| - 1].code)
  }

  lemma DataVerdict(cfg: Config, core: Core, net: Net)
    requires core.state.RcptTo?
    ensures Verdict(cfg, net, DataCommand(cfg, core, net))
  {
    var step := DataCommand(cfg, core, net);
    assert |step.replies| == if Receive(net.input, cfg.maxSize, "").Broken? then 1 else 2;
    if |step.replies| == 2 {
      assert step.replies[1] == OVERSIZE || step.replies[1] == TAKEN || step.replies[1] == ABORTED;
      assert OVERSIZE.code == 552 && TAKEN.code == 250 && ABORTED.code == 451;
    }
  }

  lemma DataOrderly(cfg: Config, core: Core, net: Net, cmd: Command)
    requires cmd.verb == DATA
    ensures Orderly(cfg, core, net, cmd, DataCommand(cfg, core, net))
  {
    if core.state.RcptTo? {
      DataVerdict(cfg, core, net);
    }
  }

  lemma EhloOrderly(cfg: Config, core: Core, net: Net, cmd: Command)
    requires cmd.verb == EHLO
    ensures Orderly(cfg, core, net, cmd, Ehlo(cfg, core, net, cmd.args))
  {
  }

  lemma AddressOrderly(cfg: Config, core: Core, net: Net, cmd: Command)
    requires !core.state.Quit? && (cmd.verb == MAIL || cmd.verb == RCPT)
    ensures Orderly(cfg, core, net, cmd, Dispatch(cfg, core, net, cmd))
  {
  }

  lemma OtherOrderly(cfg: Config, core: Core, net: Net, cmd: Command)
    requires !core.state.Quit? && cmd.verb !in {DATA, EHLO, MAIL, RCPT}
    ensures Orderly(cfg, core, net, cmd, Dispatch(cfg, core, net, cmd))
  {
  }

  lemma StepOrderly(cfg: Config, core: Core, net: Net, cmd: Command)
    requires !core.state.Quit?
    ensures Orderly(cfg, core, net, cmd, Dispatch(cfg, core, net, cmd))
  {
    if cmd.verb == DATA {
      DataOrderly(cfg, core, net, cmd);
    } else if cmd.verb == EHLO {
      EhloOrderly(cfg, core, net, cmd);
    } else if cmd.verb == MAIL || cmd.verb == RCPT {
      AddressOrderly(cfg, core, net, cmd);
    } else {
      OtherOrderly(cfg, core, net, cmd);
    }
  }

  // ---- Whole sessions ----

  /** What holds of exchange number `n` of a session's transcript. */
  ghost predicate Good(cfg: Config, log: seq<Exchange>, n: nat)
    requires n < |log|
  {
    && (log[n].handoff.Some? ==> Sound(cfg, log[..n], log[n].handoff.value))
    && (log[n].upgraded ==> NeverUpgraded(log[..n]))
  }

  lemma GoodNext(cfg: Config, log: seq<Exchange>, core: Core, net: Net, e: Exchange)
    requires Inv(Scan(log), core)
    requires e.handoff.Some? ==> e.handoff == DataCommand(cfg, core, net).handoff
    requires e.upgraded ==> !core.isTLS
    ensures Good(cfg, log + [e], |log|)
  {
    FindUpgrade(log);
    if e.handoff.Some? {
      HandoffSound(cfg, log, core, net, e.handoff.value);
    }
    GoodLast(cfg, log, e);
  }

  lemma GoodLast(cfg: Config, log: seq<Exchange>, e: Exchange)
    requires e.handoff.Some? ==> Sound(cfg, log, e.handoff.value)
    requires e.upgraded ==> NeverUpgraded(log)
    ensures Good(cfg, log + [e], |log|)
  {
    assert (log + [e])[..|log|] == log;
  }

  lemma StepSources(cfg: Config, core: Core, net: Net, cmd: Command)
    ensures var step := Dispatch(cfg, core, net, cmd);
            && (step.handoff.Some? ==> step.handoff == DataCommand(cfg, core, net).handoff)
            && (step.upgraded ==> !core.isTLS && step.core == Core(Init, BLANK, true))
  {
    if cmd.verb == DATA {
      DataNeverUpgrades(cfg, core, net);
    } else {
      OnlyDataHandsOver(cfg, core, net, cmd);
    }
  }

  lemma DataNeverUpgrades(cfg: Config, core: Core, net: Net)
    ensures !DataCommand(cfg, core, net).upgraded
  {
  }

  lemma OnlyDataHandsOver(cfg: Config, core: Core, net: Net, cmd: Command)
    requires cmd.verb != DATA
    ensures var step := Dispatch(cfg, core, net, cmd);
            step.handoff.None? && (step.upgraded ==> !core.isTLS && step.core == Core(Init, BLANK, true))
  {
  }

  lemma {:induction false} Along(cfg: Config, core: Core, net: Net, past: seq<Exchange>, n: nat)
    requires Inv(Scan(past), core)
    requires |past| <= n < |past + Serve(cfg, core, net).log|
    ensures Good(cfg, past + Serve(cfg, core, net).log, n)
    decreases |net.input|
  {
    var text, left := TrimRight(net.input[0].line, NEWLINES), net.(input := net.input[1..]);
    if text == "" {
      Along(cfg, core, left, past, n);
    } else {
      var cmd := Parse(text);
      var step := Dispatch(cfg, core, left, cmd);
      ServeTurn(cfg, core, net, text);
      var e, later := Record(cmd, step), if cmd.verb == QUIT then [] else Serve(cfg, step.core, step.net).log;
      Regroup(past, [e], later);
      if n == |past| {
        StepSources(cfg, core, left, cmd);
        GoodNext(cfg, past, core, left, e);
        GoodPrefix(cfg, past + [e], later, n);
      } else {
        StepKeeps(cfg, Scan(past), core, left, cmd);
        ScanMore(past, e);
        Along(cfg, step.core, step.net, past + [e], n);
      }
    }
  }

  lemma GoodPrefix(cfg: Config, log: seq<Exchange>, more: seq<Exchange>, n: nat)
    requires n < |log| && Good(cfg, log, n)
    ensures Good(cfg, log + more, n)
  {
    assert (log + more)[..n] == log[..n];
  }

  lemma FromStart(cfg: Config, isTLS: bool, net: Net, n: nat)
    requires n < |Transcript(cfg, isTLS, net)|
    ensures Good(cfg, Transcript(cfg, isTLS, net), n)
  {
    var core := Core(Init, BLANK, isTLS);
    assert Inv(Scan([]), core);
    Along(cfg, core, net, [], n);
    assert [] + Serve(cfg, core, net).log == Transcript(cfg, isTLS, net);
  }

  function Transcript(cfg: Config, isTLS: bool, net: Net): seq<Exchange> {
    Serve(cfg, Core(Init, BLANK, isTLS), net).log
  }

  /** Run safety and envelope history: whatever the client and the outside world do, every message handed to delivery
      is sound for the exchanges before it. */
  lemma EveryHandoffSound(cfg: Config, isTLS: bool, net: Net, n: nat)
    requires n < |Transcript(cfg, isTLS, net)| && Transcript(cfg, isTLS, net)[n].handoff.Some?
    ensures var log := Transcript(cfg, isTLS, net); Sound(cfg, log[..n], log[n].handoff.value)
  {
    FromStart(cfg, isTLS, net, n);
  }

  /** A moment of a session: the state, and what is left to read and to be answered. */
  datatype Moment = Moment(core: Core, net: Net)

  /** Where the session stands each time it has read a command and done nothing of it yet. */
  ghost function Trail(cfg: Config, core: Core, net: Net): seq<Moment>
    decreases |net.input|
  {
    if |net.input| == 0 || net.input[0].Failed? then [] else
      var left, text := net.(input := net.input[1..]), TrimRight(net.input[0].line, NEWLINES);
      if text == "" then Trail(cfg, core, left) else
        var step := Dispatch(cfg, core, left, Parse(text));
        [Moment(core, left)] + if Parse(text).verb == QUIT then [] else Trail(cfg, step.core, step.net)
  }

  /** Exchange `e` is what happens from moment `at`, and leads to state `next`. */
  ghost predicate Leads(cfg: Config, at: Moment, e: Exchange, next: Core) {
    var step := Dispatch(cfg, at.core, at.net, e.cmd);
    !at.core.state.Quit? && e == Record(e.cmd, step) && next == step.core
  }

  /** The state in which the session stands after its moment number `n`. */
  ghost function Following(trail: seq<Moment>, last: Core, n: nat): Core
    requires n < |trail|
  {
    if n + 1 < |trail| then trail[n + 1].core else last
  }

  type Leading = (Moment, Exchange, Core) -> bool

  /** The exchanges lead from each moment to the next, from the first state to the last. */
  ghost predicate Chain(leads: Leading, first: Core, trail: seq<Moment>, log: seq<Exchange>, last: Core) {
    && |trail| == |log|
    && (if |trail| > 0 then trail[0].core == first else last == first)
    && forall n | 0 <= n < |log| :: leads(trail[n], log[n], Following(trail, last, n))
  }

  lemma ChainTurn(
    leads: Leading, at: Moment, e: Exchange, next: Core, trail: seq<Moment>, log: seq<Exchange>, last: Core)
    requires leads(at, e, next) && Chain(leads, next, trail, log, last)
    ensures Chain(leads, at.core, [at] + trail, [e] + log, last)
  {
    var longer, logged := [at] + trail, [e] + log;
    forall n | 0 <= n < |logged| ensures leads(longer[n], logged[n], Following(longer, last, n)) {
      if n > 0 {
        assert leads(trail[n - 1], log[n - 1], Following(trail, last, n - 1));
      }
    }
  }

  ghost function LeadsIn(cfg: Config): Leading {
    (at, e, next) => Leads(cfg, at, e, next)
  }

  lemma TrailTurn(cfg: Config, core: Core, net: Net, text: string)
    requires |net.input| > 0 && net.input[0].Got?
    requires text == TrimRight(net.input[0].line, NEWLINES) && text != ""
    ensures var left := net.(input := net.input[1..]);
            var step := Dispatch(cfg, core, left, Parse(text));
            Trail(cfg, core, net)
            == [Moment(core, left)] + if Parse(text).verb == QUIT then [] else Trail(cfg, step.core, step.net)
  {
  }

  lemma KeepsOpen(cfg: Config, core: Core, net: Net, cmd: Command)
    requires !core.state.Quit? && cmd.verb != QUIT
    ensures !Dispatch(cfg, core, net, cmd).core.state.Quit?
  {
    var kind := StepKind(cfg, core, net, cmd);
  }

  lemma {:induction false} SessionChain(cfg: Config, core: Core, net: Net)
    requires !core.state.Quit?
    ensures Chain(LeadsIn(cfg), core, Trail(cfg, core, net), Serve(cfg, core, net).log, Serve(cfg, core, net).core)
    decreases |net.input|
  {
    if |net.input| > 0 && net.input[0].Got? {
      var left, text := net.(input := net.input[1..]), TrimRight(net.input[0].line, NEWLINES);
      if text == "" {
        SessionChain(cfg, core, left);
      } else {
        var cmd := Parse(text);
        var step := Dispatch(cfg, core, left, cmd);
        ServeTurn(cfg, core, net, text);
        TrailTurn(cfg, core, net, text);
        var at, e := Moment(core, left), Record(cmd, step);
        assert LeadsIn(cfg)(at, e, step.core);
        if cmd.verb == QUIT {
          assert Chain(LeadsIn(cfg), step.core, [], [], step.core);
          ChainTurn(LeadsIn(cfg), at, e, step.core, [], [], step.core);
        } else {
          KeepsOpen(cfg, core, left, cmd);
          SessionChain(cfg, step.core, step.net);
          var later := Serve(cfg, step.core, step.net);
          ChainTurn(LeadsIn(cfg), at, e, step.core, Trail(cfg, step.core, step.net), later.log, later.core);
        }
      }
    }
  }

  /** The reply discipline, in every session: each exchange is one step from the moment its command was read, with its
      replies by the rules and the right verdict for DATA, to the state of the next; and after a refusal that is the
      same state. */
  lemma EveryExchangeOrderly(cfg: Config, isTLS: bool, net: Net, n: nat)
    requires n < |Transcript(cfg, isTLS, net)|
    ensures var start := Core(Init, BLANK, isTLS);
            var trail, last := Trail(cfg, start, net), Serve(cfg, start, net).core;
            && |trail| == |Transcript(cfg, isTLS, net)| && trail[0].core == start
            && OrderlyAt(cfg, trail[n], Transcript(cfg, isTLS, net)[n], Following(trail, last, n))
  {
    var start := Core(Init, BLANK, isTLS);
    var trail, last := Trail(cfg, start, net), Serve(cfg, start, net).core;
    SessionChain(cfg, start, net);
    assert LeadsIn(cfg)(trail[n], Transcript(cfg, isTLS, net)[n], Following(trail, last, n));
    LeadsOrderly(cfg, trail[n], Transcript(cfg, isTLS, net)[n], Following(trail, last, n));
  }

  ghost predicate OrderlyAt(cfg: Config, at: Moment, e: Exchange, next: Core) {
    var step := Dispatch(cfg, at.core, at.net, e.cmd);
    && e == Record(e.cmd, step) && next == step.core
    && Orderly(cfg, at.core, at.net, e.cmd, step)
    && RightAnswer(cfg, at.core, at.net, e.cmd, step)
    && (Refused(e) ==> next == at.core)
  }

  lemma LeadsOrderly(cfg: Config, at: Moment, e: Exchange, next: Core)
    requires Leads(cfg, at, e, next)
    ensures OrderlyAt(cfg, at, e, next)
  {
    StepOrderly(cfg, at.core, at.net, e.cmd);
    EveryAnswerRight(cfg, at.core, at.net, e.cmd);
  }

  /** At most one TLS upgrade succeeds in a session. */
  lemma OneUpgrade(cfg: Config, isTLS: bool, net: Net, m: nat, n: nat)
    requires m < n < |Transcript(cfg, isTLS, net)|
    ensures !(Transcript(cfg, isTLS, net)[m].upgraded && Transcript(cfg, isTLS, net)[n].upgraded)
  {
    FromStart(cfg, isTLS, net, n);
    var log := Transcript(cfg, isTLS, net);
    assert log[..n][m] == log[m];
  }

  // ---- STARTTLS forgets the past ----

  /** What a session does after its first `n` exchanges. */
  ghost function Tail(run: Session, n: nat): Session
    requires n <= |run.log|
  {
    run.(log := run.log[n..])
  }

  ghost predicate UpgradesAt(run: Session, i: nat) {
    i < |run.log| && run.log[i].cmd.verb == STARTTLS && run.log[i].upgraded
  }

  /** What is left to read and to be answered after exchange `i` of a session. */
  ghost function LeftAfter(cfg: Config, core: Core, net: Net, i: nat): Net {
    var trail, log := Trail(cfg, core, net), Serve(cfg, core, net).log;
    if i < |trail| && i < |log| then Dispatch(cfg, trail[i].core, trail[i].net, log[i].cmd).net else net
  }

  /** From moment `at` on, the exchange `e` and then the session `later`. */
  ghost predicate GoesOn(cfg: Config, at: Moment, e: Exchange, later: Session) {
    var step := Dispatch(cfg, at.core, at.net, e.cmd);
    e == Record(e.cmd, step) && later == Serve(cfg, step.core, step.net)
  }

  lemma TailTurn(run: Session, later: Session, i: nat)
    requires i <= |later.log| && run.log != []
    requires run == later.(log := [run.log[0]] + later.log)
    ensures Tail(run, i + 1) == Tail(later, i)
  {
    assert run.log[i + 1..] == later.log[i..];
    assert later.log[0..] == later.log;
  }

  /** A session is its first exchanges followed by the session from there. */
  lemma {:induction false} Resume(cfg: Config, core: Core, net: Net, i: nat)
    requires i < |Serve(cfg, core, net).log| && Serve(cfg, core, net).log[i].cmd.verb != QUIT
    ensures var run, trail := Serve(cfg, core, net), Trail(cfg, core, net);
            |trail| == |run.log| && GoesOn(cfg, trail[i], run.log[i], Tail(run, i + 1))
    decreases |net.input|
  {
    var left, text := net.(input := net.input[1..]), TrimRight(net.input[0].line, NEWLINES);
    if text == "" {
      Resume(cfg, core, left, i);
    } else {
      var cmd := Parse(text);
      var step := Dispatch(cfg, core, left, cmd);
      ServeTurn(cfg, core, net, text);
      TrailTurn(cfg, core, net, text);
      SameLength(cfg, step.core, step.net);
      TailTurn(Serve(cfg, core, net), Serve(cfg, step.core, step.net), i);
      if i > 0 {
        Resume(cfg, step.core, step.net, i - 1);
      }
    }
  }

  lemma {:induction false} SameLength(cfg: Config, core: Core, net: Net)
    ensures |Trail(cfg, core, net)| == |Serve(cfg, core, net).log|
    decreases |net.input|
  {
    if |net.input| > 0 && net.input[0].Got? {
      var left, text := net.(input := net.input[1..]), TrimRight(net.input[0].line, NEWLINES);
      if text == "" {
        SameLength(cfg, core, left);
      } else {
        var step := Dispatch(cfg, core, left, Parse(text));
        ServeTurn(cfg, core, net, text);
        TrailTurn(cfg, core, net, text);
        SameLength(cfg, step.core, step.net);
      }
    }
  }

  /** An upgrade leaves nothing behind: what follows is a session from the initial state. */
  lemma Upgraded(cfg: Config, core: Core, net: Net, i: nat)
    requires UpgradesAt(Serve(cfg, core, net), i)
    ensures Tail(Serve(cfg, core, net), i + 1) == Serve(cfg, Core(Init, BLANK, true), LeftAfter(cfg, core, net, i))
  {
    var run, trail := Serve(cfg, core, net), Trail(cfg, core, net);
    Resume(cfg, core, net, i);
    StepSources(cfg, trail[i].core, trail[i].net, run.log[i].cmd);
  }

  /** Two sessions of the same server that upgrade, whatever state and history each comes from: if what the client sends
      and the outside answers after the upgrade is the same, all that follows is the same. */
  lemma StartTlsForgets(cfg: Config, core1: Core, net1: Net, i1: nat, core2: Core, net2: Net, i2: nat)
    requires UpgradesAt(Serve(cfg, core1, net1), i1) && UpgradesAt(Serve(cfg, core2, net2), i2)
    requires LeftAfter(cfg, core1, net1, i1) == LeftAfter(cfg, core2, net2, i2)
    ensures Tail(Serve(cfg, core1, net1), i1 + 1) == Tail(Serve(cfg, core2, net2), i2 + 1)
  {
    Upgraded(cfg, core1, net1, i1);
    Upgraded(cfg, core2, net2, i2);
  }
}
