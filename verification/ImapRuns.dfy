/** What holds over whole IMAP sessions. A session is judged by its transcript alone: the command lines, the port calls
    with their results, and the responses. The results of the calls are arbitrary here. */
module ImapRuns {
  import opened Text
  import opened Storage
  import opened FetchFormat
  import opened Imap
  import Wire = DataTransfer

  // ---- Reading a transcript ----

  /** The command ended with a tagged OK. */
  predicate Completed(e: Exchange) {
    e.lines != [] && e.lines[|e.lines| - 1].Tagged? && e.lines[|e.lines| - 1].status == OK
  }

  predicate LoggedIn(e: Exchange) { e.req.verb == LOGIN && Completed(e) }
  predicate OpenedBox(e: Exchange) { (e.req.verb == SELECT || e.req.verb == EXAMINE) && Completed(e) }
  predicate ClosedBox(e: Exchange) { e.req.verb == CLOSE && Completed(e) }

  /** Who logged in: the name given, and the account the user lookup found for it. */
  datatype Account = Account(username: string, userId: nat)

  /** The mailbox that is open: the row found for it, and whether EXAMINE opened it. */
  datatype Box = Box(found: Found, examined: bool)

  /** What a transcript tells. */
  datatype Reading = Reading(login: Option<Account>, open: Option<Box>)

  function AccountOf(e: Exchange): Option<Account> {
    if e.req.args.Credentials? && |e.calls| > 1 && e.calls[1].UserCall? && e.calls[1].userId.Some?
    then Some(Account(e.req.args.username, e.calls[1].userId.value)) else None
  }

  function BoxOf(e: Exchange): Option<Box> {
    if |e.calls| > 0 && e.calls[0].MailboxCall? && e.calls[0].found.Some?
    then Some(Box(e.calls[0].found.value, e.req.verb == EXAMINE)) else None
  }

  function Advance(r: Reading, e: Exchange): Reading {
    Reading(if LoggedIn(e) then AccountOf(e) else r.login,
            if OpenedBox(e) then BoxOf(e) else if ClosedBox(e) then None else r.open)
  }

  function Scan(log: seq<Exchange>): Reading {
    if log == [] then Reading(None, None) else Advance(Scan(log[..|log| - 1]), log[|log| - 1])
  }

  lemma ScanMore(log: seq<Exchange>, e: Exchange)
    ensures Scan(log + [e]) == Advance(Scan(log), e)
  {
    assert (log + [e])[..|log|] == log;
  }

  // ---- The session invariant ----

  /** The session's state as the transcript determines it: a mailbox is selected exactly in the Selected state, the user
      is the one who logged in, the mailbox is the one opened last, read-only if EXAMINE opened it. */
  ghost predicate Inv(r: Reading, core: Core) {
    && !core.state.Logout?
    && (core.state.NotAuthenticated? <==> r.login.None?)
    && (core.state.Selected? <==> core.selected.Some?)
    && (core.state.Selected? <==> r.open.Some?)
    && (if r.login.Some? then core.username == r.login.value.username && core.userId == r.login.value.userId
        else core.username == "" && core.userId == 0)
    && (r.open.Some? ==> Shows(core.selected.value, r.open.value))
  }

  ghost predicate Shows(selected: Opened, box: Box) {
    var row := box.found.row;
    selected == Opened(box.found.id, row.name, row.uidValidity, row.uidNext, box.examined)
  }

  // ---- What is promised of one exchange ----

  /** Exactly one tagged response, with the command's own tag, and it comes last. */
  ghost predicate Replied(e: Exchange) {
    var n := |e.lines|;
    && n > 0
    && e.lines[n - 1].Tagged? && e.lines[n - 1].tag == e.req.tag
    && forall i | 0 <= i < n - 1 :: e.lines[i].Untagged?
  }

  /** Mailboxes are looked up for the logged-in account only. */
  ghost predicate OwnAccount(r: Reading, e: Exchange) {
    forall i | 0 <= i < |e.calls| && (e.calls[i].MailboxCall? || e.calls[i].MailboxesCall?) ::
      r.login.Some? && e.calls[i].owner == r.login.value.userId
  }

  /** A completed LOGIN is the only one, and asked for the account of the address it names, and for its password. */
  ghost predicate LoginSound(r: Reading, e: Exchange) {
    LoggedIn(e) ==>
      && r.login.None?
      && e.req.args.Credentials? && e.req.args.address.Some? && |e.calls| == 3
      && var (local, domain) := e.req.args.address.value;
         && e.calls[0].DomainCall? && e.calls[0].name == domain && e.calls[0].domain.Some?
         && e.calls[1].UserCall? && e.calls[1].user == local && e.calls[1].domainId == e.calls[0].domain.value
         && e.calls[1].userId.Some?
         && e.calls[2] == PasswordCall(e.req.args.password, e.calls[1].userId.value, true)
  }

  /** A completed SELECT or EXAMINE opened the mailbox found under the name it gives. */
  ghost predicate OpenSound(r: Reading, e: Exchange) {
    OpenedBox(e) ==>
      && |e.calls| == 2 && e.req.args.Name? && BoxOf(e).Some?
      && e.calls[0].mailboxName == e.req.args.name
      && e.calls[1].ListCall? && e.calls[1].mailbox == e.calls[0].found.value.id && e.calls[1].listing.Some?
      && e.lines[..|e.lines| - 1] == Summary(|e.calls[1].listing.value|, e.calls[0].found.value.row)
  }

  /** A completed FETCH lists the open mailbox and prints every message in order, numbered from 1, with the body found
      for it. */
  ghost predicate FetchSound(r: Reading, e: Exchange) {
    e.req.verb == FETCH && Completed(e) ==>
      && r.open.Some? && e.req.args.Items? && |e.calls| > 0
      && e.calls[0].ListCall? && e.calls[0].mailbox == r.open.value.found.id && e.calls[0].listing.Some?
      && Printed(e, e.calls[0].listing.value, e.req.args.wants)
  }

  ghost predicate Printed(e: Exchange, listing: seq<Message>, wants: Wants) {
    && |e.lines| == |listing| + 1
    && |e.calls| == (if wants.body then |listing| + 1 else 1)
    && forall i | 0 <= i < |listing| :: PrintedAt(e, listing[i], wants, i)
  }

  ghost predicate PrintedAt(e: Exchange, m: Message, wants: Wants, i: nat)
    requires i < |e.lines| && (wants.body ==> i + 1 < |e.calls|)
  {
    && (wants.body ==> e.calls[i + 1].BodyCall? && e.calls[i + 1].id == m.id)
    && e.lines[i] == Untagged(Data(FetchText(i + 1, m, wants, BodyCalled(e, wants, i))))
  }

  function BodyCalled(e: Exchange, wants: Wants, i: nat): Option<string> {
    if wants.body && i + 1 < |e.calls| && e.calls[i + 1].BodyCall? then e.calls[i + 1].body else None
  }

  /** A completed SEARCH lists the open mailbox and counts every message. */
  ghost predicate SearchSound(r: Reading, e: Exchange) {
    e.req.verb == SEARCH && Completed(e) ==>
      && r.open.Some? && |e.calls| == 1
      && e.calls[0].ListCall? && e.calls[0].mailbox == r.open.value.found.id && e.calls[0].listing.Some?
      && |e.lines| == 2 && e.lines[0] == Untagged(Data(SearchText(|e.calls[0].listing.value|)))
  }

  /** A completed LIST or LSUB asks for the account's mailboxes and names those that match, in the order of the
      answer. */
  ghost predicate ListSound(r: Reading, e: Exchange) {
    (e.req.verb == LIST || e.req.verb == LSUB) && Completed(e) ==>
      && e.req.args.Pattern? && |e.calls| == 1 && e.calls[0].MailboxesCall? && e.calls[0].names.Some?
      && var names := e.calls[0].names.value;
         |e.lines| > 0 && e.lines[..|e.lines| - 1] == ListLines(names, e.req.args.pattern, |names|)
  }

  /** STORE and EXPUNGE on an open mailbox are refused exactly when EXAMINE opened it. */
  ghost predicate ReadOnlyKept(r: Reading, e: Exchange) {
    r.open.Some? && (e.req.verb == STORE || e.req.verb == EXPUNGE) ==> (Completed(e) <==> !r.open.value.examined)
  }

  /** The guards against a missing mailbox never fire. */
  ghost predicate Unguarded(e: Exchange) {
    forall i | 0 <= i < |e.lines| && e.lines[i].Tagged? :: e.lines[i].saying != Failure(NoMailboxSelected)
  }

  ghost predicate Good(r: Reading, e: Exchange) {
    && Replied(e) && Unguarded(e) && OwnAccount(r, e) && LoginSound(r, e) && OpenSound(r, e)
    && FetchSound(r, e) && SearchSound(r, e) && ListSound(r, e) && ReadOnlyKept(r, e)
  }

  // ---- What every step keeps ----

  /** What a step from a state of the invariant must show. */
  ghost predicate Upheld(r: Reading, req: Request, step: Step) {
    var e := Exchange(req, step.calls, step.lines);
    && Good(r, e)
    && (step.core.state.Logout? || Inv(Advance(r, e), step.core))
  }

  /** An exchange that is no completed LOGIN, SELECT, EXAMINE, CLOSE, FETCH, SEARCH, LIST or LSUB promises nothing and
      tells nothing. */
  lemma InertGood(r: Reading, e: Exchange)
    requires Replied(e) && Unguarded(e) && OwnAccount(r, e) && ReadOnlyKept(r, e)
    requires Completed(e) ==> e.req.verb !in {LOGIN, SELECT, EXAMINE, CLOSE, FETCH, SEARCH, LIST, LSUB}
    ensures Good(r, e) && Advance(r, e) == r
  {
  }

  /** A refused command changes nothing, whatever was asked of the ports. */
  lemma RefusedKeeps(r: Reading, core: Core, req: Request, calls: seq<Call>, status: Status, saying: Saying)
    requires Inv(r, core) && status != OK && saying != Failure(NoMailboxSelected)
    requires OwnAccount(r, Exchange(req, calls, [])) && (req.verb == STORE || req.verb == EXPUNGE ==>
               (r.open.Some? ==> r.open.value.examined))
    ensures Upheld(r, req, Step(core, calls, [Tagged(req.tag, status, saying)]))
  {
    InertGood(r, Exchange(req, calls, [Tagged(req.tag, status, saying)]));
  }

  lemma LoginKeeps(r: Reading, core: Core, req: Request, ans: Answers)
    requires Inv(r, core) && req.verb == LOGIN && core.state.NotAuthenticated?
    ensures Upheld(r, req, Login(core, req.tag, req.args, ans))
  {
    var step := Login(core, req.tag, req.args, ans);
    if step.lines[0].status == OK {
      LoggedInKeeps(r, core, req, ans);
    } else {
      RefusedKeeps(r, core, req, step.calls, step.lines[0].status, step.lines[0].saying);
    }
  }

  lemma LoggedInKeeps(r: Reading, core: Core, req: Request, ans: Answers)
    requires Inv(r, core) && req.verb == LOGIN && core.state.NotAuthenticated?
    requires Login(core, req.tag, req.args, ans).lines == [Tagged(req.tag, OK, Done(LOGIN))]
    ensures Upheld(r, req, Login(core, req.tag, req.args, ans))
  {
    var (local, domain) := req.args.address.value;
    assert Login(core, req.tag, req.args, ans).calls ==
           [DomainCall(domain, ans.domain), UserCall(local, ans.domain.value, ans.user),
            PasswordCall(req.args.password, ans.user.value, true)];
  }

  /** The mailbox found is now the selected one. */
  lemma OpenKeeps(r: Reading, core: Core, req: Request, found: Found, listing: seq<Message>, untagged: seq<Line>)
    requires Inv(r, core) && (req.verb == SELECT || req.verb == EXAMINE) && !core.state.NotAuthenticated?
             && req.args.Name?
    requires untagged == Summary(|listing|, found.row)
    ensures var now := Opened(found.id, found.row.name, found.row.uidValidity, found.row.uidNext, req.verb == EXAMINE);
            Upheld(r, req, Step(core.(state := Selected, selected := Some(now)),
                                [MailboxCall(core.userId, req.args.name, Some(found)),
                                    ListCall(found.id, Some(listing))],
                                untagged + [Tagged(req.tag, OK, OpenDone(req.verb == EXAMINE))]))
  {
    var e := Exchange(req, [MailboxCall(core.userId, req.args.name, Some(found)), ListCall(found.id, Some(listing))],
                      untagged + [Tagged(req.tag, OK, OpenDone(req.verb == EXAMINE))]);
    assert e.lines[..|e.lines| - 1] == untagged;
  }

  lemma SelectKeeps(r: Reading, core: Core, req: Request, ans: Answers)
    requires Inv(r, core) && (req.verb == SELECT || req.verb == EXAMINE) && !core.state.NotAuthenticated?
    ensures Upheld(r, req, SelectMailbox(core, req.tag, req.args, req.verb == EXAMINE, ans))
  {
    var step := SelectMailbox(core, req.tag, req.args, req.verb == EXAMINE, ans);
    if req.args.Name? && ans.mailbox.Some? && ans.listing.Some? {
      var found, count := ans.mailbox.value, |ans.listing.value|;
      assert step.calls == [MailboxCall(core.userId, req.args.name, ans.mailbox), ListCall(found.id, ans.listing)];
      OpenKeeps(r, core, req, found, ans.listing.value, Summary(count, found.row));
    } else {
      RefusedKeeps(r, core, req, step.calls, step.lines[0].status, step.lines[0].saying);
    }
  }

  lemma ListKeeps(r: Reading, core: Core, req: Request, ans: Answers)
    requires Inv(r, core) && (req.verb == LIST || req.verb == LSUB) && !core.state.NotAuthenticated?
    ensures Upheld(r, req, ListMailboxes(core, req.tag, req.args, ans))
  {
    var step := ListMailboxes(core, req.tag, req.args, ans);
    if req.args.Pattern? && ans.names.Some? {
      ListedKeeps(r, core, req, ans.names.value, ListLines(ans.names.value, req.args.pattern, |ans.names.value|));
    } else {
      RefusedKeeps(r, core, req, step.calls, step.lines[0].status, step.lines[0].saying);
    }
  }

  lemma ListedKeeps(r: Reading, core: Core, req: Request, names: seq<string>, lines: seq<Line>)
    requires Inv(r, core) && (req.verb == LIST || req.verb == LSUB) && !core.state.NotAuthenticated?
             && req.args.Pattern?
    requires lines == ListLines(names, req.args.pattern, |names|)
    ensures Upheld(r, req, Step(core, [MailboxesCall(core.userId, Some(names))],
            lines + [Tagged(req.tag, OK, Done(LIST))]))
  {
    var e := Exchange(req, [MailboxesCall(core.userId, Some(names))], lines + [Tagged(req.tag, OK, Done(LIST))]);
    ListedSound(r, e, names, lines);
    ListedGood(r, e, lines);
  }

  lemma ListedSound(r: Reading, e: Exchange, names: seq<string>, lines: seq<Line>)
    requires e.req.args.Pattern? && |e.calls| == 1 && e.calls[0].MailboxesCall? && e.calls[0].names == Some(names)
    requires lines == ListLines(names, e.req.args.pattern, |names|) && |e.lines| == |lines| + 1 && lines <= e.lines
    ensures ListSound(r, e)
  {
  }

  lemma ListedGood(r: Reading, e: Exchange, lines: seq<Line>)
    requires (e.req.verb == LIST || e.req.verb == LSUB) && ListSound(r, e)
    requires r.login.Some? && |e.calls| == 1 && e.calls[0].MailboxesCall? && e.calls[0].owner == r.login.value.userId
    requires forall i | 0 <= i < |lines| :: lines[i].Untagged?
    requires e.lines == lines + [Tagged(e.req.tag, OK, Done(LIST))]
    ensures Good(r, e) && Advance(r, e) == r
  {
  }

  /** The mailboxes named are those that match. */
  lemma {:induction false} ListedExactly(names: seq<string>, pattern: string, n: nat, name: string)
    requires n <= |names|
    ensures Untagged(Listed(name)) in ListLines(names, pattern, n) <==> name in names[..n] && Matches(name, pattern)
  {
    if n > 0 {
      ListedExactly(names, pattern, n - 1, name);
      assert names[..n] == names[..n - 1] + [names[n - 1]];
    }
  }

  lemma FetchPrints(e: Exchange, listing: seq<Message>, wants: Wants, bodies: seq<Option<string>>)
    requires e.lines != [] && e.lines[..|e.lines| - 1] == FetchLines(listing, wants, bodies, |listing|)
    requires e.calls != [] && e.calls[1..] == BodyCalls(listing, wants, bodies, |listing|)
    ensures Printed(e, listing, wants)
  {
    var lines, calls := FetchLines(listing, wants, bodies, |listing|), BodyCalls(listing, wants, bodies, |listing|);
    forall i | 0 <= i < |listing| ensures PrintedAt(e, listing[i], wants, i) {
      assert e.lines[i] == lines[i];
      assert wants.body ==> e.calls[i + 1] == calls[i];
      PrintsAt(e, listing[i], wants, BodyAt(bodies, i), i);
    }
  }

  lemma PrintsAt(e: Exchange, m: Message, wants: Wants, body: Option<string>, i: nat)
    requires i < |e.lines| && e.lines[i] == Untagged(Data(FetchText(i + 1, m, wants, body)))
    requires wants.body ==> i + 1 < |e.calls| && e.calls[i + 1] == BodyCall(m.id, body)
    ensures PrintedAt(e, m, wants, i)
  {
    if !wants.body {
      BodyUnread(i + 1, m, wants, body, None);
    }
  }

  /** Without a body item the text does not depend on the body. */
  lemma BodyUnread(number: nat, m: Message, wants: Wants, body: Option<string>, other: Option<string>)
    requires !wants.body
    ensures FetchText(number, m, wants, body) == FetchText(number, m, wants, other)
  {
  }

  lemma FetchKeeps(r: Reading, core: Core, req: Request, ans: Answers)
    requires Inv(r, core) && req.verb == FETCH && core.state.Selected?
    ensures Upheld(r, req, Fetch(core, req.tag, req.args, ans))
  {
    var step := Fetch(core, req.tag, req.args, ans);
    if req.args.Items? && ans.listing.Some? {
      FetchPrints(Exchange(req, step.calls, step.lines), ans.listing.value, req.args.wants, ans.bodies);
      FetchedKeeps(r, core, req, step.calls, step.lines, ans.listing.value);
    } else {
      RefusedKeeps(r, core, req, step.calls, step.lines[0].status, step.lines[0].saying);
    }
  }

  lemma FetchedKeeps(
    r: Reading, core: Core, req: Request, calls: seq<Call>, lines: seq<Line>, listing: seq<Message>)
    requires Inv(r, core) && req.verb == FETCH && core.state.Selected? && req.args.Items?
    requires Printed(Exchange(req, calls, lines), listing, req.args.wants)
    requires calls[0] == ListCall(core.selected.value.id, Some(listing))
    requires lines[|lines| - 1] == Tagged(req.tag, OK, Done(FETCH))
    ensures Upheld(r, req, Step(core, calls, lines))
  {
    var e := Exchange(req, calls, lines);
    PrintedShape(e, listing, req.args.wants);
    FetchedGood(r, e);
  }

  lemma PrintedShape(e: Exchange, listing: seq<Message>, wants: Wants)
    requires Printed(e, listing, wants)
    ensures forall i | 0 <= i < |e.lines| - 1 :: e.lines[i].Untagged?
    ensures forall i | 1 <= i < |e.calls| :: e.calls[i].BodyCall?
  {
    forall i | 0 <= i < |e.lines| - 1 ensures e.lines[i].Untagged? {
      assert PrintedAt(e, listing[i], wants, i);
    }
    forall i | 1 <= i < |e.calls| ensures e.calls[i].BodyCall? {
      assert PrintedAt(e, listing[i - 1], wants, i - 1);
    }
  }

  lemma FetchedGood(r: Reading, e: Exchange)
    requires e.req.verb == FETCH && FetchSound(r, e) && |e.lines| > 0 && |e.calls| > 0 && e.calls[0].ListCall?
    requires e.lines[|e.lines| - 1] == Tagged(e.req.tag, OK, Done(FETCH))
    requires forall i | 0 <= i < |e.lines| - 1 :: e.lines[i].Untagged?
    requires forall i | 1 <= i < |e.calls| :: e.calls[i].BodyCall?
    ensures Good(r, e) && Advance(r, e) == r
  {
  }

  lemma SearchKeeps(r: Reading, core: Core, req: Request, ans: Answers)
    requires Inv(r, core) && req.verb == SEARCH && core.state.Selected?
    ensures Upheld(r, req, Search(core, req.tag, ans))
  {
    if ans.listing.None? {
      RefusedKeeps(r, core, req, [ListCall(core.selected.value.id, None)], NO, ErrorIn(SEARCH));
    } else {
      SearchedKeeps(r, core, req, ListCall(core.selected.value.id, ans.listing), SearchText(|ans.listing.value|));
    }
  }

  lemma SearchedKeeps(r: Reading, core: Core, req: Request, asked: Call, text: string)
    requires Inv(r, core) && req.verb == SEARCH && core.state.Selected?
    requires asked.ListCall? && asked.mailbox == core.selected.value.id && asked.listing.Some?
    requires text == SearchText(|asked.listing.value|)
    ensures Upheld(r, req, Step(core, [asked], [Untagged(Data(text)), Tagged(req.tag, OK, Done(SEARCH))]))
  {
  }

  /** Commands without a lasting effect. */
  lemma PlainKeeps(r: Reading, core: Core, req: Request, untagged: seq<Line>, saying: Saying)
    requires Inv(r, core) && req.verb in {CAPABILITY, NOOP, STARTTLS, STORE, EXPUNGE}
             && saying != Failure(NoMailboxSelected)
    requires (req.verb == STORE || req.verb == EXPUNGE) && r.open.Some? ==> !r.open.value.examined
    requires forall i | 0 <= i < |untagged| :: untagged[i].Untagged?
    ensures Upheld(r, req, Say(core, untagged + [Tagged(req.tag, OK, saying)]))
  {
    InertGood(r, Exchange(req, [], untagged + [Tagged(req.tag, OK, saying)]));
  }

  lemma CapabilityKeeps(cfg: Config, r: Reading, core: Core, req: Request)
    requires Inv(r, core) && req.verb == CAPABILITY
    ensures Upheld(r, req, Capability(cfg, core, req.tag))
  {
    var lines := Capability(cfg, core, req.tag).lines;
    PlainKeeps(r, core, req, [lines[0]], lines[1].saying);
    assert [lines[0]] + [lines[1]] == lines;
  }

  lemma NoopKeeps(r: Reading, core: Core, req: Request, saying: Saying)
    requires Inv(r, core) && req.verb == NOOP
    requires saying != Failure(NoMailboxSelected)
    ensures Upheld(r, req, Say(core, [Tagged(req.tag, OK, saying)]))
  {
    PlainKeeps(r, core, req, [], saying);
    assert [] + [Tagged(req.tag, OK, saying)] == [Tagged(req.tag, OK, saying)];
  }

  lemma StartTlsKeeps(cfg: Config, r: Reading, core: Core, req: Request, ans: Answers)
    requires Inv(r, core) && req.verb == STARTTLS
    ensures Upheld(r, req, StartTls(cfg, core, req.tag, ans))
  {
    var step := StartTls(cfg, core, req.tag, ans);
    if step.lines[0].status == OK {
      PlainKeeps(r, step.core, req, [], Tls(BeginTls));
      assert [] + [Tagged(req.tag, OK, Tls(BeginTls))] == step.lines;
    } else {
      RefusedKeeps(r, core, req, [], NO, step.lines[0].saying);
    }
  }

  lemma StoreKeeps(r: Reading, core: Core, req: Request)
    requires Inv(r, core) && core.state.Selected? && req.verb == STORE
    ensures Upheld(r, req, StoreFlags(core, req.tag))
  {
    if r.open.value.examined {
      RefusedKeeps(r, core, req, [], NO, ReadOnly(STORE));
    } else {
      PlainKeeps(r, core, req, [], Done(STORE));
      assert [] + [Tagged(req.tag, OK, Done(STORE))] == [Tagged(req.tag, OK, Done(STORE))];
    }
  }

  lemma ExpungeKeeps(r: Reading, core: Core, req: Request)
    requires Inv(r, core) && core.state.Selected? && req.verb == EXPUNGE
    ensures Upheld(r, req, Expunge(core, req.tag))
  {
    if r.open.value.examined {
      RefusedKeeps(r, core, req, [], NO, ReadOnly(EXPUNGE));
    } else {
      PlainKeeps(r, core, req, [], Done(EXPUNGE));
      assert [] + [Tagged(req.tag, OK, Done(EXPUNGE))] == [Tagged(req.tag, OK, Done(EXPUNGE))];
    }
  }

  lemma CloseKeeps(r: Reading, core: Core, req: Request)
    requires Inv(r, core) && req.verb == CLOSE && core.state.Selected?
    ensures Upheld(r, req, Close(core, req.tag))
  {
  }

  lemma LogoutKeeps(r: Reading, core: Core, req: Request)
    requires Inv(r, core) && req.verb == LOGOUT
    ensures Upheld(r, req, LogoutCommand(core, req.tag))
  {
  }

  lemma BeforeLoginKeeps(cfg: Config, r: Reading, core: Core, req: Request, ans: Answers)
    requires Inv(r, core) && core.state.NotAuthenticated? && req.verb != MISSING
    ensures Upheld(r, req, BeforeLogin(cfg, core, req, ans))
  {
    match req.verb {
      case LOGIN => LoginKeeps(r, core, req, ans);
      case CAPABILITY => CapabilityKeeps(cfg, r, core, req);
      case LOGOUT => LogoutKeeps(r, core, req);
      case STARTTLS => StartTlsKeeps(cfg, r, core, req, ans);
      case _ => RefusedKeeps(r, core, req, [], NO, OutOfPlace(BeforeAuthentication));
    }
  }

  lemma AfterLoginKeeps(cfg: Config, r: Reading, core: Core, req: Request, ans: Answers)
    requires Inv(r, core) && core.state.Authenticated? && req.verb != MISSING
    ensures Upheld(r, req, AfterLogin(cfg, core, req, ans))
  {
    match req.verb {
      case SELECT => SelectKeeps(r, core, req, ans);
      case EXAMINE => SelectKeeps(r, core, req, ans);
      case LIST => ListKeeps(r, core, req, ans);
      case LSUB => ListKeeps(r, core, req, ans);
      case CAPABILITY => CapabilityKeeps(cfg, r, core, req);
      case NOOP => NoopKeeps(r, core, req, Done(NOOP));
      case LOGOUT => LogoutKeeps(r, core, req);
      case _ => RefusedKeeps(r, core, req, [], NO, OutOfPlace(WithoutMailbox));
    }
  }

  lemma WhileSelectedKeeps(cfg: Config, r: Reading, core: Core, req: Request, ans: Answers)
    requires Inv(r, core) && core.state.Selected? && req.verb != MISSING
    ensures Upheld(r, req, WhileSelected(cfg, core, req, ans))
  {
    match req.verb {
      case FETCH => FetchKeeps(r, core, req, ans);
      case SEARCH => SearchKeeps(r, core, req, ans);
      case SELECT => SelectKeeps(r, core, req, ans);
      case EXAMINE => SelectKeeps(r, core, req, ans);
      case LIST => ListKeeps(r, core, req, ans);
      case STORE => StoreKeeps(r, core, req);
      case EXPUNGE => ExpungeKeeps(r, core, req);
      case CAPABILITY => CapabilityKeeps(cfg, r, core, req);
      case NOOP => NoopKeeps(r, core, req, Done(NOOP));
      case CLOSE => CloseKeeps(r, core, req);
      case LOGOUT => LogoutKeeps(r, core, req);
      case _ => RefusedKeeps(r, core, req, [], BAD, OutOfPlace(UnknownCommand));
    }
  }

  lemma StepKeeps(cfg: Config, r: Reading, core: Core, req: Request, ans: Answers)
    requires Inv(r, core)
    ensures Upheld(r, req, Dispatch(cfg, core, req, ans))
  {
    if req.verb == MISSING {
      RefusedKeeps(r, core, req, [], BAD, OutOfPlace(InvalidCommand));
    } else {
      match core.state {
        case NotAuthenticated => BeforeLoginKeeps(cfg, r, core, req, ans);
        case Authenticated => AfterLoginKeeps(cfg, r, core, req, ans);
        case Selected => WhileSelectedKeeps(cfg, r, core, req, ans);
      }
    }
  }

  // ---- Whole sessions ----

  ghost predicate GoodAt(log: seq<Exchange>, n: nat)
    requires n < |log|
  {
    Good(Scan(log[..n]), log[n]) && Parsed(log[n].req) && Noted(log[n])
  }

  /** Message data is sent by completed FETCH and SEARCH commands only, and the greeting by none. */
  ghost predicate Noted(e: Exchange) {
    forall i | 0 <= i < |e.lines| && e.lines[i].Untagged? ::
      && !e.lines[i].note.Greeting?
      && (e.lines[i].note.Data? ==> Completed(e) && (e.req.verb == FETCH || e.req.verb == SEARCH))
  }

  lemma LinesNoted(req: Request, calls: seq<Call>, lines: seq<Line>)
    requires forall i | 0 <= i < |lines| && lines[i].Untagged? :: !lines[i].note.Greeting? && !lines[i].note.Data?
    ensures Noted(Exchange(req, calls, lines))
  {
  }

  lemma {:induction false} ListedNoted(names: seq<string>, pattern: string, n: nat)
    requires n <= |names|
    ensures forall i | 0 <= i < |ListLines(names, pattern, n)| ::
              ListLines(names, pattern, n)[i].Untagged? && ListLines(names, pattern, n)[i].note.Listed?
  {
    if n > 0 {
      ListedNoted(names, pattern, n - 1);
    }
  }

  lemma ListNoted(core: Core, req: Request, ans: Answers)
    ensures var step := ListMailboxes(core, req.tag, req.args, ans); Noted(Exchange(req, step.calls, step.lines))
  {
    var step := ListMailboxes(core, req.tag, req.args, ans);
    if req.args.Pattern? && ans.names.Some? {
      ListedNoted(ans.names.value, req.args.pattern, |ans.names.value|);
    }
    LinesNoted(req, step.calls, step.lines);
  }

  lemma SelectNoted(core: Core, req: Request, readOnly: bool, ans: Answers)
    ensures var step := SelectMailbox(core, req.tag, req.args, readOnly, ans);
            Noted(Exchange(req, step.calls, step.lines))
  {
    var step := SelectMailbox(core, req.tag, req.args, readOnly, ans);
    LinesNoted(req, step.calls, step.lines);
  }

  lemma FetchNoted(core: Core, req: Request, ans: Answers)
    requires req.verb == FETCH
    ensures var step := Fetch(core, req.tag, req.args, ans); Noted(Exchange(req, step.calls, step.lines))
  {
  }

  lemma BeforeLoginNoted(cfg: Config, core: Core, req: Request, ans: Answers)
    ensures var step := BeforeLogin(cfg, core, req, ans); Noted(Exchange(req, step.calls, step.lines))
  {
    var step := BeforeLogin(cfg, core, req, ans);
    LinesNoted(req, step.calls, step.lines);
  }

  lemma AfterLoginNoted(cfg: Config, core: Core, req: Request, ans: Answers)
    ensures var step := AfterLogin(cfg, core, req, ans); Noted(Exchange(req, step.calls, step.lines))
  {
    match req.verb
    case SELECT => SelectNoted(core, req, false, ans);
    case EXAMINE => SelectNoted(core, req, true, ans);
    case LIST => ListNoted(core, req, ans);
    case LSUB => ListNoted(core, req, ans);
    case _ =>
  }

  lemma WhileSelectedNoted(cfg: Config, core: Core, req: Request, ans: Answers)
    ensures var step := WhileSelected(cfg, core, req, ans); Noted(Exchange(req, step.calls, step.lines))
  {
    match req.verb
    case FETCH => FetchNoted(core, req, ans);
    case SELECT => SelectNoted(core, req, false, ans);
    case EXAMINE => SelectNoted(core, req, true, ans);
    case LIST => ListNoted(core, req, ans);
    case _ =>
  }

  lemma StepNoted(cfg: Config, core: Core, req: Request, ans: Answers)
    ensures var step := Dispatch(cfg, core, req, ans); Noted(Exchange(req, step.calls, step.lines))
  {
    match core.state
    case NotAuthenticated => BeforeLoginNoted(cfg, core, req, ans);
    case Authenticated => AfterLoginNoted(cfg, core, req, ans);
    case Selected => WhileSelectedNoted(cfg, core, req, ans);
    case Logout =>
  }

  /** The request was read from a line. */
  ghost predicate Parsed(req: Request) {
    exists text :: Lacks(text, '\n') && req == Parse(text)
  }

  /** A trimmed line has no line feed. */
  lemma LineLacksFeed(line: Wire.Line)
    ensures Lacks(TrimRight(line, NEWLINES), '\n')
  {
    assert line[|line| - 1] in NEWLINES;
    assert Kept(line, |line|, NEWLINES) < |line|;
  }

  lemma {:induction false} GoodPrefix(past: seq<Exchange>, e: Exchange, later: seq<Exchange>)
    requires Good(Scan(past), e) && Parsed(e.req) && Noted(e)
    ensures GoodAt(past + [e] + later, |past|)
  {
    var log := past + [e] + later;
    assert log[..|past|] == past && log[|past|] == e;
  }

  /** A session that goes on after `past` is good from there, and ends in the invariant. */
  ghost predicate Fine(past: seq<Exchange>, run: Session) {
    && (forall n | |past| <= n < |past + run.log| :: GoodAt(past + run.log, n))
    && (run.core.state.Logout? || Inv(Scan(past + run.log), run.core))
  }

  lemma {:induction false} FineTurn(past: seq<Exchange>, e: Exchange, rest: Session)
    requires Good(Scan(past), e) && Parsed(e.req) && Noted(e) && Fine(past + [e], rest)
    ensures Fine(past, rest.(log := [e] + rest.log))
  {
    Regroup(past, [e], rest.log);
    GoodPrefix(past, e, rest.log);
  }

  lemma {:induction false} FineEnd(past: seq<Exchange>, run: Session)
    requires run.log == [] && (run.core.state.Logout? || Inv(Scan(past), run.core))
    ensures Fine(past, run)
  {
    assert past + run.log == past;
  }

  lemma {:induction false} Along(cfg: Config, core: Core, net: Net, past: seq<Exchange>)
    requires Inv(Scan(past), core)
    ensures Fine(past, Serve(cfg, core, net))
    decreases |net.input|
  {
    if |net.input| == 0 || net.input[0].Failed? {
      FineEnd(past, Serve(cfg, core, net));
    } else {
      var text := TrimRight(net.input[0].line, NEWLINES);
      if text == "" {
        Along(cfg, core, net.(input := net.input[1..]), past);
      } else {
        LineLacksFeed(net.input[0].line);
        var req, ans := Parse(text), NextAnswers(net);
        var step := Dispatch(cfg, core, req, ans);
        var e := Exchange(req, step.calls, step.lines);
        StepKeeps(cfg, Scan(past), core, req, ans);
        StepNoted(cfg, core, req, ans);
        ScanMore(past, e);
        if step.core.state.Logout? {
          FineEnd(past + [e], Session(step.core, Taken(net), []));
          FineTurn(past, e, Session(step.core, Taken(net), []));
        } else {
          Along(cfg, step.core, Taken(net), past + [e]);
          FineTurn(past, e, Serve(cfg, step.core, Taken(net)));
        }
        ServeTurn(cfg, core, net, text);
      }
    }
  }

  function Run(cfg: Config, isTLS: bool, net: Net): Session {
    Serve(cfg, Start(isTLS), net)
  }

  lemma FromStart(cfg: Config, isTLS: bool, net: Net)
    ensures var run := Run(cfg, isTLS, net);
            && (forall n | 0 <= n < |run.log| :: GoodAt(run.log, n))
            && (run.core.state.Logout? || Inv(Scan(run.log), run.core))
  {
    Along(cfg, Start(isTLS), net, []);
    assert [] + Run(cfg, isTLS, net).log == Run(cfg, isTLS, net).log;
  }

  /** In every reachable state other than Logout the invariant holds. */
  lemma ReachableInv(cfg: Config, isTLS: bool, net: Net)
    ensures var run := Run(cfg, isTLS, net); run.core.state.Logout? || Inv(Scan(run.log), run.core)
  {
    FromStart(cfg, isTLS, net);
  }

  /** Every exchange of every session is good for the exchanges before it. */
  lemma EveryExchangeGood(cfg: Config, isTLS: bool, net: Net, n: nat)
    requires n < |Run(cfg, isTLS, net).log|
    ensures var log := Run(cfg, isTLS, net).log; Good(Scan(log[..n]), log[n]) && Parsed(log[n].req) && Noted(log[n])
  {
    FromStart(cfg, isTLS, net);
    assert GoodAt(Run(cfg, isTLS, net).log, n);
  }

  lemma {:induction false} LoginStays(log: seq<Exchange>, k: nat)
    requires k < |log| && Scan(log[..k]).login.Some? && LoginSound(Scan(log[..k]), log[k])
    ensures Scan(log[..k + 1]).login == Scan(log[..k]).login
  {
    assert log[..k + 1] == log[..k] + [log[k]];
    ScanMore(log[..k], log[k]);
  }

  lemma {:induction false} LoginFixed(log: seq<Exchange>, m: nat, n: nat)
    requires m <= n <= |log| && forall i | 0 <= i < |log| :: LoginSound(Scan(log[..i]), log[i])
    requires Scan(log[..m]).login.Some?
    ensures Scan(log[..n]).login == Scan(log[..m]).login
    decreases n
  {
    if m < n {
      LoginFixed(log, m, n - 1);
      LoginStays(log, n - 1);
    }
  }

  /** The user never changes after LOGIN. */
  lemma UserFixed(cfg: Config, isTLS: bool, net: Net, m: nat, n: nat)
    requires m <= n <= |Run(cfg, isTLS, net).log| && Scan(Run(cfg, isTLS, net).log[..m]).login.Some?
    ensures Scan(Run(cfg, isTLS, net).log[..n]).login == Scan(Run(cfg, isTLS, net).log[..m]).login
  {
    var log := Run(cfg, isTLS, net).log;
    FromStart(cfg, isTLS, net);
    forall i | 0 <= i < |log| ensures LoginSound(Scan(log[..i]), log[i]) {
      assert GoodAt(log, i);
    }
    LoginFixed(log, m, n);
  }

  // ---- Responses on the wire ----

  /** What a client tells tagged and untagged responses apart by. */
  function FirstWord(s: string): string {
    Cut(s, ' ').0
  }

  lemma FirstWordIs(word: string, rest: string)
    requires Lacks(word, ' ')
    ensures FirstWord(word + " " + rest) == word
  {
    var s := word + " " + rest;
    assert forall j | 0 <= j < |word| :: s[j] == word[j];
    IndexOfUnique(s, ' ', |word|);
    assert s[..|word|] == word;
  }

  lemma ParsedTag(text: string)
    requires Lacks(text, '\n')
    ensures Lacks(Parse(text).tag, ' ') && Lacks(Parse(text).tag, '\n')
  {
    var i := IndexOf(text, ' ');
    assert Lacks(text[..i], ' ') && Lacks(text[..i], '\n');
    assert text[..|text|] == text;
    assert Parse(text).tag == text[..i];
  }

  lemma TaggedWord(tag: string, status: string, words: string)
    requires Lacks(tag, ' ')
    ensures FirstWord(tag + " " + status + " " + words + CRLF) == tag
  {
    Regroup(tag + " ", status, " ");
    Regroup(tag + " ", status + " ", words);
    Regroup(tag + " ", status + " " + words, CRLF);
    FirstWordIs(tag, status + " " + words + CRLF);
  }

  lemma UntaggedWord(words: string)
    ensures FirstWord("* " + words + CRLF) == "*"
  {
    assert "* " == "*" + " ";
    Regroup("* ", words, CRLF);
    FirstWordIs("*", words + CRLF);
  }

  lemma WireWord(line: Line)
    requires line.Tagged? ==> Lacks(line.tag, ' ')
    ensures FirstWord(line.Wire()) == if line.Tagged? then line.tag else "*"
  {
    match line
    case Tagged(tag, status, saying) => TaggedWord(tag, StatusText(status), Wording(saying));
    case Untagged(note) => UntaggedWord(NoteText(note));
  }

  lemma TagIsWord(req: Request)
    requires Parsed(req)
    ensures Lacks(req.tag, ' ') && Lacks(req.tag, '\n')
  {
    var text :| Lacks(text, '\n') && req == Parse(text);
    ParsedTag(text);
  }

  /** A client that looks for its tag finds it on exactly one response, the last, unless its tag is the "*" of untagged
      responses, which the server accepts: then it finds it on all. */
  lemma OneTaggedOnWire(r: Reading, e: Exchange, i: nat)
    requires Good(r, e) && Parsed(e.req) && i < |e.lines|
    ensures FirstWord(e.lines[i].Wire()) == e.req.tag <==> i == |e.lines| - 1 || e.req.tag == "*"
  {
    TagIsWord(e.req);
    WordTells(e, i);
  }

  lemma WordTells(e: Exchange, i: nat)
    requires Replied(e) && Lacks(e.req.tag, ' ') && i < |e.lines|
    ensures FirstWord(e.lines[i].Wire()) == e.req.tag <==> i == |e.lines| - 1 || e.req.tag == "*"
  {
    WireWord(e.lines[i]);
  }

  /** The number in a response code such as "OK [KEY 7] ...", as a client reads it. */
  function CodeNumber(text: string, key: string): Option<nat> {
    var start := "OK [" + key + " ";
    if !(start <= text) then None else
      var (digits, _, closed) := Cut(text[|start|..], ']');
      if closed && AllDigits(digits) then Some(ParseDec(digits)) else None
  }

  /** Digits before a mark that is none are read back. */
  lemma NumberBefore(n: nat, mark: char, rest: string)
    requires !IsDigit(mark)
    ensures var (digits, _, found) := Cut(Dec(n) + [mark] + rest, mark);
            found && AllDigits(digits) && ParseDec(digits) == n
  {
    var text, digits := Dec(n) + [mark] + rest, Dec(n);
    assert forall i | 0 <= i < |digits| :: text[i] == digits[i];
    IndexOfUnique(text, mark, |digits|);
    assert text[..|digits|] == digits;
    DecRoundTrip(n);
  }

  lemma CodeRead(key: string, n: nat, comment: string)
    ensures CodeNumber(CodeText(key, n, comment), key) == Some(n)
  {
    var start := "OK [" + key + " ";
    var text := CodeText(key, n, comment);
    Regroup(start, Dec(n), "]" + comment);
    Regroup(Dec(n), "]", comment);
    assert text[|start|..] == Dec(n) + "]" + comment;
    NumberBefore(n, ']', comment);
  }

  /** What SELECT and EXAMINE announce reads as the number of messages listed, and the mailbox's UIDVALIDITY and
      UIDNEXT. */
  lemma SummaryTells(count: nat, row: Mailbox)
    ensures var lines := Summary(count, row);
            && |lines| == 7
            && LeadingNumber(NoteText(lines[0].note)) == Some(count)
            && CodeNumber(NoteText(lines[3].note), "UIDVALIDITY") == Some(row.uidValidity)
            && CodeNumber(NoteText(lines[4].note), "UIDNEXT") == Some(row.uidNext)
  {
    var lines := Summary(count, row);
    ExistsTells(count);
    assert NoteText(lines[0].note) == Dec(count) + " EXISTS";
    CodeRead("UIDVALIDITY", row.uidValidity, " UIDs valid");
    assert NoteText(lines[3].note) == CodeText("UIDVALIDITY", row.uidValidity, " UIDs valid");
    CodeRead("UIDNEXT", row.uidNext, " Predicted next UID");
    assert NoteText(lines[4].note) == CodeText("UIDNEXT", row.uidNext, " Predicted next UID");
  }

  lemma ExistsTells(count: nat)
    ensures LeadingNumber(Dec(count) + " EXISTS") == Some(count)
  {
    NumberBefore(count, ' ', "EXISTS");
    assert Dec(count) + " EXISTS" == Dec(count) + " " + "EXISTS";
  }

  /** Response `i` bears number i+1. */
  ghost predicate NumberedAt(e: Exchange, i: nat) {
    i < |e.lines| && e.lines[i].Untagged? && LeadingNumber(NoteText(e.lines[i].note)) == Some(i + 1)
  }

  lemma DataText(text: string)
    ensures NoteText(Data(text)) == text
  {
  }

  lemma FetchNumberAt(fetch: Exchange, m: Message, wants: Wants, i: nat)
    requires i < |fetch.lines| && (wants.body ==> i + 1 < |fetch.calls|) && PrintedAt(fetch, m, wants, i)
    ensures NumberedAt(fetch, i)
  {
    DataText(FetchText(i + 1, m, wants, BodyCalled(fetch, wants, i)));
    FetchNumbered(i + 1, m, wants, BodyCalled(fetch, wants, i));
  }

  lemma FetchNumbersAre(fetch: Exchange, before: Reading)
    requires fetch.req.verb == FETCH && Completed(fetch) && FetchSound(before, fetch)
    ensures |fetch.lines| == |fetch.calls[0].listing.value| + 1
    ensures forall i | 0 <= i < |fetch.lines| - 1 :: NumberedAt(fetch, i)
  {
    var listing, wants := fetch.calls[0].listing.value, fetch.req.args.wants;
    forall i | 0 <= i < |listing| ensures NumberedAt(fetch, i) {
      FetchNumberAt(fetch, listing[i], wants, i);
    }
  }

  lemma SearchNumbersAre(search: Exchange, before: Reading)
    requires search.req.verb == SEARCH && Completed(search) && SearchSound(before, search)
    ensures search.lines[0].Untagged?
    ensures SearchNumbers(NoteText(search.lines[0].note)) == Numbers(|search.calls[0].listing.value|)
  {
    DataText(SearchText(|search.calls[0].listing.value|));
    SearchNumbered(|search.calls[0].listing.value|);
  }

  /** FETCH and SEARCH that saw the same listing number its messages alike: 1..n in UID order. */
  lemma NumbersAgree(fetch: Exchange, before: Reading, search: Exchange, before': Reading)
    requires fetch.req.verb == FETCH && Completed(fetch) && FetchSound(before, fetch)
    requires search.req.verb == SEARCH && Completed(search) && SearchSound(before', search)
    requires fetch.calls[0].listing == search.calls[0].listing
    ensures search.lines[0].Untagged?
    ensures var numbers := SearchNumbers(NoteText(search.lines[0].note));
            && |numbers| == |fetch.lines| - 1
            && forall i | 0 <= i < |numbers| :: NumberedAt(fetch, i) && numbers[i] == Dec(i + 1)
  {
    FetchNumbersAre(fetch, before);
    SearchNumbersAre(search, before');
  }
}
