/** Which reply each SMTP command gets, in every state and for all arguments and outcomes, and what it leaves. */
module SmtpAnswers {
  import opened Text
  import opened DataTransfer
  import opened Smtp

  /** The code of the last reply. */
  function Code(step: Step): nat {
    if step.replies == [] then 0 else step.replies[|step.replies| - 1].code
  }

  /** EHLO and HELO: 501 without a name; otherwise 250 exactly in the initial state, with the extensions, and 503. */
  ghost predicate EhloAnswer(cfg: Config, core: Core, args: string, step: Step) {
    && (Code(step) == 501 <==> args == "")
    && (Code(step) == 250 <==> args != "" && core.state.Init?)
    && (Code(step) == 503 <==> args != "" && !core.state.Init?)
    && (Code(step) == 250 ==>
          step.core == Core(Greeted, Contents("", [], "", 0), core.isTLS) && Extensions(cfg, core, args, step))
  }

  /** The greeting names the client, the size limit is told, and STARTTLS is offered exactly if it can succeed. */
  ghost predicate Extensions(cfg: Config, core: Core, args: string, step: Step) {
    var n := |step.replies|;
    && n == (if cfg.tlsAvailable && !core.isTLS then 5 else 4)
    && (forall i | 0 <= i < n :: step.replies[i].code == 250 && (step.replies[i].more <==> i < n - 1))
    && step.replies[0].text == cfg.domain + " greets " + args
    && step.replies[1].text == "SIZE " + DecInt(cfg.maxSize)
    && step.replies[2].text == "8BITMIME"
    && (n == 5 ==> step.replies[3].text == "STARTTLS")
    && step.replies[n - 1].text == "ENHANCEDSTATUSCODES"
  }

  /** MAIL: 501 without an address; otherwise 250 exactly in `greeted`, and 503. */
  ghost predicate MailAnswer(core: Core, addr: Option<Address>, step: Step) {
    && (Code(step) == 501 <==> addr.None?)
    && (Code(step) == 250 <==> addr.Some? && core.state.Greeted?)
    && (Code(step) == 503 <==> addr.Some? && !core.state.Greeted?)
    && (Code(step) == 250 ==>
          step.core == Core(MailFrom, Contents(addr.value, core.envelope.to, core.envelope.data, core.envelope.size),
              core.isTLS))
  }

  /** RCPT: 501 without an address, 452 when 100 recipients are in the envelope; otherwise 250 exactly in `mail_from`
      and `rcpt_to`, and 503. */
  ghost predicate RcptAnswer(core: Core, addr: Option<Address>, step: Step) {
    var full, open := |core.envelope.to| >= 100, core.state.MailFrom? || core.state.RcptTo?;
    && (Code(step) == 501 <==> addr.None?)
    && (Code(step) == 452 <==> addr.Some? && full)
    && (Code(step) == 250 <==> addr.Some? && !full && open)
    && (Code(step) == 503 <==> addr.Some? && !full && !open)
    && (Code(step) == 250 ==>
          && step.core.state.RcptTo? && step.core.isTLS == core.isTLS
          && step.core.envelope.to == core.envelope.to + [addr.value] && step.core.envelope.from == core.envelope.from)
  }

  /** DATA: 354 exactly in `rcpt_to`, and 503 elsewhere. */
  ghost predicate DataAnswer(core: Core, step: Step) {
    && step.replies != []
    && (step.replies[0].code == 354 <==> core.state.RcptTo?)
    && (step.replies[0].code == 503 <==> !core.state.RcptTo?)
  }

  /** RSET: 250 exactly within a transaction, with everything blank, and 503. */
  ghost predicate RsetAnswer(core: Core, step: Step) {
    var inside := core.state.MailFrom? || core.state.RcptTo? || core.state.Data?;
    && (Code(step) == 250 <==> inside)
    && (Code(step) == 503 <==> !inside)
    && (Code(step) == 250 ==> step.core == Core(Greeted, Contents("", [], "", 0), core.isTLS))
  }

  /** STARTTLS: 503 on TLS, 454 if there is none to be had, 503 within a transaction, and 220 otherwise; the session
      upgrades, and forgets everything, exactly if it was answered 220 and the handshake succeeds. */
  ghost predicate StartTlsAnswer(cfg: Config, core: Core, net: Net, step: Step) {
    var busy := core.state.MailFrom? || core.state.RcptTo?;
    && (Code(step) == 220 <==> !core.isTLS && cfg.tlsAvailable && !busy)
    && (Code(step) == 454 <==> !core.isTLS && !cfg.tlsAvailable)
    && (Code(step) == 503 <==> core.isTLS || (cfg.tlsAvailable && busy))
    && (step.upgraded <==> Code(step) == 220 && |net.handshakes| > 0 && net.handshakes[0])
    && (step.upgraded ==> step.core == Core(Init, Contents("", [], "", 0), true))
    && (!step.upgraded ==> step.core == core)
  }

  ghost predicate RightAnswer(cfg: Config, core: Core, net: Net, cmd: Command, step: Step) {
    match cmd.verb
    case EHLO => EhloAnswer(cfg, core, cmd.args, step)
    case STARTTLS => StartTlsAnswer(cfg, core, net, step)
    case MAIL => MailAnswer(core, cmd.addr, step)
    case RCPT => RcptAnswer(core, cmd.addr, step)
    case DATA => DataAnswer(core, step)
    case RSET => RsetAnswer(core, step)
    case QUIT => Code(step) == 221 && step.core.state.Quit?
    case NOOP => Code(step) == 250 && step.core == core
    case OTHER => Code(step) == 500 && step.core == core
  }

  lemma EhloAnswered(cfg: Config, core: Core, net: Net, args: string)
    ensures EhloAnswer(cfg, core, args, Ehlo(cfg, core, net, args))
  {
  }

  lemma MailAnswered(core: Core, net: Net, addr: Option<Address>)
    ensures MailAnswer(core, addr, Mail(core, net, addr))
  {
  }

  lemma RcptAnswered(core: Core, net: Net, addr: Option<Address>)
    ensures RcptAnswer(core, addr, Rcpt(core, net, addr))
  {
  }

  lemma DataAnswered(cfg: Config, core: Core, net: Net)
    ensures DataAnswer(core, DataCommand(cfg, core, net))
  {
  }

  lemma StartTlsAnswered(cfg: Config, core: Core, net: Net)
    ensures StartTlsAnswer(cfg, core, net, StartTls(cfg, core, net))
  {
  }

  /** Every command gets the right answer, in every state. */
  lemma EveryAnswerRight(cfg: Config, core: Core, net: Net, cmd: Command)
    ensures RightAnswer(cfg, core, net, cmd, Dispatch(cfg, core, net, cmd))
  {
    match cmd.verb
    case EHLO => EhloAnswered(cfg, core, net, cmd.args);
    case MAIL => MailAnswered(core, net, cmd.addr);
    case RCPT => RcptAnswered(core, net, cmd.addr);
    case DATA => DataAnswered(cfg, core, net);
    case STARTTLS => StartTlsAnswered(cfg, core, net);
    case _ =>
  }
}
