/** The whole system: SMTP sessions feed deliveries, deliveries fill the store, IMAP sessions read it.

    IMAP sessions never write to the store, so an interleaving of deliveries with the commands of any number of IMAP
    sessions is a run of the delivery system together with, for each port call of each session, the moment of the run
    at which the store answered it. */
module MailSystem {
  import opened Text
  import opened Storage
  import opened MessageStore
  import opened DeliverySystem
  import opened DeliveryTheorems
  import opened FetchFormat
  import DataTransfer
  import Smtp
  import SmtpRuns
  import opened Imap
  import Sessions = ImapRuns
  import ImapCommands

  // ---- Runs of the deliveries, moment by moment ----

  /** A run of the deliveries from an empty message table. */
  datatype World = World(dir: Directory, origin: System, run: seq<Action>)

  ghost predicate Legal(world: World) {
    Initial(world.dir, world.origin) && ValidRun(world.dir, world.origin, world.run)
  }

  /** The state after `k` steps. */
  ghost function StateAt(world: World, k: nat): System
    requires Legal(world) && k <= |world.run|
  {
    At(world.dir, world.origin, world.run, k)
  }

  lemma InvAt(world: World, k: nat)
    requires Legal(world) && k <= |world.run|
    ensures Inv(world.dir, world.origin.store, StateAt(world, k))
  {
    InitialInv(world.dir, world.origin);
    InvAlong(world.dir, world.origin.store, world.origin, world.run, k);
  }

  lemma {:induction false} LaterAt(world: World, j: nat, k: nat)
    requires Legal(world) && j <= k <= |world.run|
    ensures Later(StateAt(world, j), StateAt(world, k))
    decreases k
  {
    InvAt(world, j);
    if j < k {
      LaterAt(world, j, k - 1);
      InvAt(world, k - 1);
      AtStep(world.dir, world.origin, world.run, k - 1);
      StepLater(world.dir, StateAt(world, j), StateAt(world, k - 1), world.run[k - 1]);
    }
  }

  /** Worker `w` was started for this mail and recipient. */
  ghost predicate Started(world: World, w: nat, mail: Mail, to: string) {
    exists j | 0 <= j < |world.run| :: world.run[j] == Start(w, mail, to)
  }

  lemma WorkerEffect(dir: Directory, s: System, a: Action, w: nat)
    requires Enabled(dir, s, a) && w in Apply(dir, s, a).workers
    ensures var worker := Apply(dir, s, a).workers[w];
            if w in s.workers then worker.mail == s.workers[w].mail && worker.to == s.workers[w].to
            else a == Start(w, worker.mail, worker.to)
  {
  }

  lemma {:induction false} WorkerStarted(world: World, k: nat, w: nat)
    requires Legal(world) && k <= |world.run| && w in StateAt(world, k).workers
    ensures Started(world, w, StateAt(world, k).workers[w].mail, StateAt(world, k).workers[w].to)
  {
    if k > 0 {
      AtStep(world.dir, world.origin, world.run, k - 1);
      WorkerEffect(world.dir, StateAt(world, k - 1), world.run[k - 1], w);
      if w in StateAt(world, k - 1).workers {
        WorkerStarted(world, k - 1, w);
      }
    }
  }

  /** A worker is started once. */
  lemma {:induction false} StartedKeeps(world: World, j: nat, k: nat)
    requires Legal(world) && j < k <= |world.run| && world.run[j].Start?
    ensures var Start(w, mail, to) := world.run[j];
            w in StateAt(world, k).workers && StateAt(world, k).workers[w].mail == mail
                && StateAt(world, k).workers[w].to == to
    decreases k
  {
    AtStep(world.dir, world.origin, world.run, k - 1);
    if j < k - 1 {
      StartedKeeps(world, j, k - 1);
      WorkerEffect(world.dir, StateAt(world, k - 1), world.run[k - 1], world.run[j].w);
    }
  }

  // ---- Honest answers ----

  /** An answer of the store: what it holds, or an error. */
  ghost predicate Truthful(dir: Directory, store: Store, call: Call) {
    match call
    case DomainCall(name, domain) => domain.None? || domain == FindDomain(dir, name)
    case UserCall(user, domainId, userId) => userId.None? || userId == FindUser(dir, user, domainId)
    case PasswordCall(_, _, _) => true
    case MailboxCall(owner, name, found) => found.None? || FoundIn(dir, store, owner, name, found.value)
    case MailboxesCall(owner, names) => names.None? || NamesIn(dir, owner, names.value)
    case ListCall(mailbox, listing) => listing.None? || listing.value == Listing(store.messages, mailbox)
    case BodyCall(id, body) => body.None? || body == GetMessageBody(store.cache, id)
  }

  /** The names of the owner's mailboxes, in any order. */
  ghost predicate NamesIn(dir: Directory, owner: nat, names: seq<string>) {
    forall name :: name in names <==> (owner, name) in dir.byOwner
  }

  ghost predicate FoundIn(dir: Directory, store: Store, owner: nat, name: string, found: Found) {
    && FindMailbox(dir, owner, name) == Some(found.id)
    && found.id in store.mailboxes && store.mailboxes[found.id] == found.row
  }

  /** The call was answered at some moment of the run. */
  ghost predicate Honest(world: World, call: Call)
  {
    Legal(world) && exists k | 0 <= k <= |world.run| :: Truthful(world.dir, StateAt(world, k).store, call)
  }

  ghost predicate HonestLog(world: World, log: seq<Exchange>)
  {
    forall n | 0 <= n < |log| :: HonestExchange(world, log[n])
  }

  ghost predicate HonestExchange(world: World, e: Exchange)
  {
    forall i | 0 <= i < |e.calls| :: Honest(world, e.calls[i])
  }

  /** The transcript of an IMAP session. */
  ghost predicate SessionLog(log: seq<Exchange>) {
    exists cfg, isTLS, net :: log == Sessions.Run(cfg, isTLS, net).log
  }

  lemma SessionGood(log: seq<Exchange>)
    requires SessionLog(log)
    ensures forall n | 0 <= n < |log| :: Sessions.GoodAt(log, n)
  {
    var cfg, isTLS, net :| log == Sessions.Run(cfg, isTLS, net).log;
    Sessions.FromStart(cfg, isTLS, net);
  }

  // ---- Ownership ----

  /** The account belongs to the name given at LOGIN, and the open mailbox belongs to the account. */
  ghost predicate Owned(dir: Directory, r: Sessions.Reading) {
    LoginOwnedBy(dir, r) && OpenOwnedBy(dir, r)
  }

  ghost predicate Owns(dir: Directory, user: nat, mailbox: nat) {
    exists name :: FindMailbox(dir, user, name) == Some(mailbox)
  }

  lemma CredentialsParsed(req: Request)
    requires Sessions.Parsed(req) && req.args.Credentials?
    ensures req.args.address == ParseAddress(req.args.username)
  {
  }

  lemma DomainTold(world: World, call: Call)
    requires Honest(world, call) && call.DomainCall? && call.domain.Some?
    ensures FindDomain(world.dir, call.name) == call.domain
  {
  }

  lemma UserTold(world: World, call: Call)
    requires Honest(world, call) && call.UserCall? && call.userId.Some?
    ensures FindUser(world.dir, call.user, call.domainId) == call.userId
  {
  }

  lemma LoginOwned(world: World, r: Sessions.Reading, e: Exchange)
    requires HonestExchange(world, e) && Sessions.LoginSound(r, e) && Sessions.Parsed(e.req) && Sessions.LoggedIn(e)
    ensures var login := Sessions.AccountOf(e);
            login.Some? && ResolveUser(world.dir, login.value.username) == Some(login.value.userId)
  {
    CredentialsParsed(e.req);
    assert Honest(world, e.calls[0]) && Honest(world, e.calls[1]);
    DomainTold(world, e.calls[0]);
    UserTold(world, e.calls[1]);
  }

  lemma OpenOwned(world: World, r: Sessions.Reading, e: Exchange)
    requires Legal(world) && HonestExchange(world, e) && Sessions.OpenSound(r, e) && Sessions.OwnAccount(r, e)
             && Sessions.OpenedBox(e)
    ensures r.login.Some? && Sessions.BoxOf(e).Some?
            && Owns(world.dir, r.login.value.userId, Sessions.BoxOf(e).value.found.id)
  {
    assert Honest(world, e.calls[0]);
    assert FindMailbox(world.dir, e.calls[0].owner, e.calls[0].mailboxName) == Some(e.calls[0].found.value.id);
  }

  ghost predicate LoginOwnedBy(dir: Directory, r: Sessions.Reading) {
    r.login.Some? ==> ResolveUser(dir, r.login.value.username) == Some(r.login.value.userId)
  }

  ghost predicate OpenOwnedBy(dir: Directory, r: Sessions.Reading) {
    r.open.Some? ==> r.login.Some? && Owns(dir, r.login.value.userId, r.open.value.found.id)
  }

  lemma LoginStep(world: World, r: Sessions.Reading, e: Exchange)
    requires HonestExchange(world, e) && Sessions.LoginSound(r, e) && Sessions.Parsed(e.req)
             && LoginOwnedBy(world.dir, r)
    ensures LoginOwnedBy(world.dir, Sessions.Advance(r, e))
  {
    if Sessions.LoggedIn(e) {
      LoginOwned(world, r, e);
    }
  }

  lemma OpenStep(world: World, r: Sessions.Reading, e: Exchange)
    requires HonestExchange(world, e) && Sessions.OpenSound(r, e) && Sessions.OwnAccount(r, e)
             && Sessions.LoginSound(r, e)
    requires OpenOwnedBy(world.dir, r)
    ensures OpenOwnedBy(world.dir, Sessions.Advance(r, e))
  {
    if Sessions.OpenedBox(e) {
      OpenOwned(world, r, e);
    }
  }

  lemma OwnedStep(world: World, r: Sessions.Reading, e: Exchange)
    requires HonestExchange(world, e) && Sessions.Good(r, e) && Sessions.Parsed(e.req) && Owned(world.dir, r)
    ensures Owned(world.dir, Sessions.Advance(r, e))
  {
    LoginStep(world, r, e);
    OpenStep(world, r, e);
  }

  lemma OwnedNext(world: World, log: seq<Exchange>, n: nat)
    requires Legal(world) && n < |log| && HonestExchange(world, log[n]) && Sessions.GoodAt(log, n)
    requires Owned(world.dir, Sessions.Scan(log[..n]))
    ensures Owned(world.dir, Sessions.Scan(log[..n + 1]))
  {
    OwnedStep(world, Sessions.Scan(log[..n]), log[n]);
    assert log[..n + 1] == log[..n] + [log[n]];
    Sessions.ScanMore(log[..n], log[n]);
  }

  lemma {:induction false} OwnedAlong(world: World, log: seq<Exchange>, n: nat)
    requires Legal(world) && HonestLog(world, log) && n <= |log|
    requires forall i | 0 <= i < |log| :: Sessions.GoodAt(log, i)
    ensures Owned(world.dir, Sessions.Scan(log[..n]))
  {
    if n > 0 {
      OwnedAlong(world, log, n - 1);
      assert HonestExchange(world, log[n - 1]);
      OwnedNext(world, log, n - 1);
    }
  }

  /** In every reachable state other than Logout, the selected mailbox belongs to the logged-in user, and the user is
      the one LOGIN named. */
  lemma SelectedOwned(world: World, cfg: Config, isTLS: bool, net: Net)
    requires Legal(world) && HonestLog(world, Sessions.Run(cfg, isTLS, net).log)
    ensures var core := Sessions.Run(cfg, isTLS, net).core;
            !core.state.Logout? ==>
              && (!core.state.NotAuthenticated? ==> ResolveUser(world.dir, core.username) == Some(core.userId))
              && (core.selected.Some? ==>
                    core.selected.value.id in world.origin.store.mailboxes
                    && world.origin.store.mailboxes[core.selected.value.id].userId == core.userId)
  {
    var log, core := Sessions.Run(cfg, isTLS, net).log, Sessions.Run(cfg, isTLS, net).core;
    Sessions.FromStart(cfg, isTLS, net);
    OwnedAlong(world, log, |log|);
    assert log[..|log|] == log;
    if !core.state.Logout? {
      OwnedCore(world, Sessions.Scan(log), core);
    }
  }

  lemma OwnedCore(world: World, r: Sessions.Reading, core: Core)
    requires Legal(world) && Owned(world.dir, r) && Sessions.Inv(r, core)
    ensures !core.state.NotAuthenticated? ==> ResolveUser(world.dir, core.username) == Some(core.userId)
    ensures core.selected.Some? ==>
              core.selected.value.id in world.origin.store.mailboxes
              && world.origin.store.mailboxes[core.selected.value.id].userId == core.userId
  {
    if core.selected.Some? {
      var name :| FindMailbox(world.dir, core.userId, name) == Some(core.selected.value.id);
      assert (core.userId, name) in world.dir.byOwner;
    }
  }

  /** A message of a mailbox was delivered for an address of the mailbox's owner. */
  lemma DeliveredToOwner(world: World, k: nat, mailbox: nat, m: Message)
    requires Legal(world) && k <= |world.run| && Has(Listing(StateAt(world, k).store.messages, mailbox), m)
    ensures ResolveUser(world.dir, m.envelopeTo).Some?
    ensures FindMailbox(world.dir, ResolveUser(world.dir, m.envelopeTo).value, "INBOX") == Some(mailbox)
  {
    var s := StateAt(world, k);
    InvAt(world, k);
    ListingHas(s.store.messages, mailbox, m);
    var i :| 0 <= i < |s.store.messages| && s.store.messages[i] == m;
    var w := Author(world.dir, world.origin.store, s, i);
    assert ResolveInbox(world.dir, s.workers[w].to) == Some(s.workers[w].phase.mb);
  }

  /** A mailbox has one owner. */
  lemma OneOwner(world: World, user: nat, other: nat, mailbox: nat)
    requires Legal(world) && Owns(world.dir, user, mailbox) && Owns(world.dir, other, mailbox)
    ensures user == other
  {
    var name :| FindMailbox(world.dir, user, name) == Some(mailbox);
    var otherName :| FindMailbox(world.dir, other, otherName) == Some(mailbox);
    assert world.dir.byOwner[(user, name)] == mailbox && world.dir.byOwner[(other, otherName)] == mailbox;
  }

  /** The exchange shows or counts message `m`. */
  ghost predicate Reveals(e: Exchange, m: Message) {
    && (e.req.verb == FETCH || e.req.verb == SEARCH) && Sessions.Completed(e)
    && |e.calls| > 0 && e.calls[0].ListCall? && e.calls[0].listing.Some? && Has(e.calls[0].listing.value, m)
  }

  /** Ownership: every message an IMAP session shows in FETCH or counts in SEARCH was delivered for an address that
      belongs to the account logged in, which is the account of the name given at LOGIN. */
  lemma Ownership(world: World, log: seq<Exchange>, n: nat, m: Message)
    requires Legal(world) && SessionLog(log) && HonestLog(world, log) && n < |log| && Reveals(log[n], m)
    ensures var r := Sessions.Scan(log[..n]);
            && r.login.Some?
            && ResolveUser(world.dir, r.login.value.username) == Some(r.login.value.userId)
            && ResolveUser(world.dir, m.envelopeTo) == Some(r.login.value.userId)
  {
    SessionGood(log);
    OwnedAlong(world, log, n);
    assert Sessions.GoodAt(log, n) && HonestExchange(world, log[n]);
    Revealed(world, Sessions.Scan(log[..n]), log[n], m);
  }

  lemma Revealed(world: World, r: Sessions.Reading, e: Exchange, m: Message)
    requires Legal(world) && HonestExchange(world, e) && Sessions.FetchSound(r, e) && Sessions.SearchSound(r, e)
    requires Owned(world.dir, r) && Reveals(e, m)
    ensures r.login.Some? && ResolveUser(world.dir, m.envelopeTo) == Some(r.login.value.userId)
  {
    assert Honest(world, e.calls[0]);
    var k :| 0 <= k <= |world.run| && Truthful(world.dir, StateAt(world, k).store, e.calls[0]);
    var mailbox := r.open.value.found.id;
    DeliveredToOwner(world, k, mailbox, m);
    OneOwner(world, r.login.value.userId, ResolveUser(world.dir, m.envelopeTo).value, mailbox);
  }

  /** A completed LIST or LSUB names exactly the logged-in account's mailboxes that match the pattern. */
  lemma ListedOwned(world: World, log: seq<Exchange>, n: nat, name: string)
    requires Legal(world) && SessionLog(log) && HonestLog(world, log) && n < |log|
    requires (log[n].req.verb == LIST || log[n].req.verb == LSUB) && Sessions.Completed(log[n])
    ensures var r, e := Sessions.Scan(log[..n]), log[n];
            && r.login.Some? && e.req.args.Pattern?
            && (Untagged(Listed(name)) in e.lines
                <==> && (r.login.value.userId, name) in world.dir.byOwner
                     && (e.req.args.pattern == "*" || e.req.args.pattern == "%" || SameWord(name, e.req.args.pattern)))
  {
    SessionGood(log);
    assert Sessions.GoodAt(log, n) && HonestExchange(world, log[n]);
    ListedFor(world, Sessions.Scan(log[..n]), log[n], name);
    ImapCommands.MatchesExact(name, log[n].req.args.pattern);
  }

  lemma ListedFor(world: World, r: Sessions.Reading, e: Exchange, name: string)
    requires Legal(world) && HonestExchange(world, e) && (e.req.verb == LIST || e.req.verb == LSUB)
             && Sessions.Completed(e)
    requires Sessions.ListSound(r, e) && Sessions.OwnAccount(r, e)
    ensures r.login.Some?
    ensures Untagged(Listed(name)) in e.lines
            <==> (r.login.value.userId, name) in world.dir.byOwner && Matches(name, e.req.args.pattern)
  {
    assert Honest(world, e.calls[0]);
    var names, count := e.calls[0].names.value, |e.lines| - 1;
    Sessions.ListedExactly(names, e.req.args.pattern, |names|, name);
    assert names[..|names|] == names;
    assert e.lines == e.lines[..count] + [e.lines[count]];
  }

  // ---- What deliveries carry ----

  /** The message was handed over by some SMTP session. */
  ghost predicate HandedOff(m: Smtp.MessageReceived) {
    exists cfg, isTLS, net, n | 0 <= n < |SmtpRuns.Transcript(cfg, isTLS, net)| ::
      SmtpRuns.Transcript(cfg, isTLS, net)[n].handoff == Some(m)
  }

  /** What is delivered of it. */
  function MailFor(m: Smtp.MessageReceived): Mail {
    Mail(m.from, m.body, Subject(m.body))
  }

  /** Deliveries are started only for messages handed over, and only to their recipients. */
  ghost predicate Fed(world: World) {
    forall j | 0 <= j < |world.run| && world.run[j].Start? :: FedBy(world.run[j].mail, world.run[j].to)
  }

  ghost predicate FedBy(mail: Mail, to: string) {
    exists m :: HandedOff(m) && mail == MailFor(m) && to in m.to
  }

  lemma HandedOffTerminated(m: Smtp.MessageReceived)
    requires HandedOff(m)
    ensures DataTransfer.Terminated(m.body)
  {
    var cfg, isTLS, net, n :| 0 <= n < |SmtpRuns.Transcript(cfg, isTLS, net)|
      && SmtpRuns.Transcript(cfg, isTLS, net)[n].handoff == Some(m);
    SmtpRuns.EveryHandoffSound(cfg, isTLS, net, n);
  }

  /** The cross-module invariant: a delivered body is empty or ends in a line feed. */
  lemma DeliveredTerminated(world: World, w: nat, mail: Mail, to: string)
    requires Legal(world) && Fed(world) && Started(world, w, mail, to)
    ensures DataTransfer.Terminated(mail.body) && !EndsBlank(mail.body)
  {
    var j :| 0 <= j < |world.run| && world.run[j] == Start(w, mail, to);
    assert FedBy(world.run[j].mail, world.run[j].to);
    var m :| HandedOff(m) && mail == MailFor(m) && to in m.to;
    HandedOffTerminated(m);
  }

  /** Event `m` was handed over by an SMTP session, and `row` records it for one of its recipients: the sender, the
      recipient, the subject its header scan finds, and its size; it lies in the recipient's INBOX. */
  ghost predicate RecordOf(dir: Directory, row: Message, m: Smtp.MessageReceived) {
    && HandedOff(m)
    && row.envelopeFrom == m.from && row.envelopeTo in m.to
    && row.subject == Subject(m.body) && row.sizeBytes == |m.body| && row.flags == ""
    && ResolveInbox(dir, row.envelopeTo) == Some(row.mailboxId)
  }

  /** Every message stored at any moment records an event that an SMTP session handed over. */
  lemma StoredAsSent(world: World, k: nat, i: nat) returns (m: Smtp.MessageReceived)
    requires Legal(world) && Fed(world) && k <= |world.run| && i < |StateAt(world, k).store.messages|
    ensures RecordOf(world.dir, StateAt(world, k).store.messages[i], m)
  {
    var s := StateAt(world, k);
    InvAt(world, k);
    var w := StoredFields(world.dir, world.origin.store, s, i);
    WorkerStarted(world, k, w);
    m := EventOf(world, w, s.workers[w].mail, s.workers[w].to);
  }

  lemma EventOf(world: World, w: nat, mail: Mail, to: string) returns (m: Smtp.MessageReceived)
    requires Fed(world) && Started(world, w, mail, to)
    ensures HandedOff(m) && mail.from == m.from && mail.body == m.body && mail.subject == Subject(m.body) && to in m.to
  {
    var j :| 0 <= j < |world.run| && world.run[j] == Start(w, mail, to);
    assert FedBy(world.run[j].mail, world.run[j].to);
    m :| HandedOff(m) && mail == MailFor(m) && to in m.to;
  }

  // ---- What FETCH shows ----

  /** Message `m` was written by worker `w` at some moment. */
  ghost predicate WrittenBy(world: World, m: Message, w: nat)
  {
    Legal(world) && exists k | 0 <= k <= |world.run| :: MessageBy(StateAt(world, k), w) == Some(m)
  }

  lemma ListedWritten(world: World, mailbox: nat, listing: seq<Message>, i: nat) returns (w: nat)
    requires Honest(world, ListCall(mailbox, Some(listing))) && i < |listing|
    ensures WrittenBy(world, listing[i], w)
  {
    var k :| 0 <= k <= |world.run| && Truthful(world.dir, StateAt(world, k).store, ListCall(mailbox, Some(listing)));
    w := ListedAuthor(world, k, mailbox, i);
  }

  lemma ListedAuthor(world: World, k: nat, mailbox: nat, i: nat) returns (w: nat)
    requires Legal(world) && k <= |world.run| && i < |Listing(StateAt(world, k).store.messages, mailbox)|
    ensures MessageBy(StateAt(world, k), w) == Some(Listing(StateAt(world, k).store.messages, mailbox)[i])
  {
    var s := StateAt(world, k);
    var m := Listing(s.store.messages, mailbox)[i];
    InvAt(world, k);
    assert Has(Listing(s.store.messages, mailbox), m);
    ListingHas(s.store.messages, mailbox, m);
    var j :| 0 <= j < |s.store.messages| && s.store.messages[j] == m;
    w := Author(world.dir, world.origin.store, s, j);
  }

  /** Messages once written stay as they are. */
  lemma WrittenStays(world: World, m: Message, w: nat)
    requires Legal(world) && WrittenBy(world, m, w)
    ensures MessageBy(StateAt(world, |world.run|), w) == Some(m)
  {
    var k :| 0 <= k <= |world.run| && MessageBy(StateAt(world, k), w) == Some(m);
    LaterAt(world, k, |world.run|);
  }

  /** A body answered for the id of a written message is the body of its delivery. */
  lemma BodyIsWriters(world: World, m: Message, w: nat, body: string)
    requires Legal(world) && WrittenBy(world, m, w) && Honest(world, BodyCall(m.id, Some(body)))
    ensures w in StateAt(world, |world.run|).workers
    ensures var worker := StateAt(world, |world.run|).workers[w];
            worker.mail.body == body && worker.to == m.envelopeTo && |body| == m.sizeBytes
  {
    var k :| 0 <= k <= |world.run| && Truthful(world.dir, StateAt(world, k).store, BodyCall(m.id, Some(body)));
    InvAt(world, k);
    InvAt(world, |world.run|);
    WrittenStays(world, m, w);
    var i, v := CacheAgreement(world.dir, world.origin.store, StateAt(world, k), m.id);
    var found := StateAt(world, k).store.messages[i];
    assert WrittenBy(world, found, v);
    WrittenStays(world, found, v);
    OneAuthor(world.dir, world.origin.store, StateAt(world, |world.run|), v, w);
    MailStays(world, k, w);
  }

  lemma {:induction false} MailStays(world: World, k: nat, w: nat)
    requires Legal(world) && k <= |world.run| && w in StateAt(world, k).workers
    ensures w in StateAt(world, |world.run|).workers
    ensures StateAt(world, |world.run|).workers[w].mail == StateAt(world, k).workers[w].mail
    decreases |world.run| - k
  {
    if k < |world.run| {
      AtStep(world.dir, world.origin, world.run, k);
      WorkerKept(world.dir, StateAt(world, k), world.run[k], w);
      MailStays(world, k + 1, w);
    }
  }

  lemma WorkerKept(dir: Directory, s: System, a: Action, w: nat)
    requires Enabled(dir, s, a) && w in s.workers
    ensures w in Apply(dir, s, a).workers && Apply(dir, s, a).workers[w].mail == s.workers[w].mail
  {
  }

  /** The delivery that wrote `m` carried `body`. */
  ghost predicate Carried(world: World, m: Message, body: string)
  {
    exists w, mail :: WrittenBy(world, m, w) && Started(world, w, mail, m.envelopeTo) && mail.body == body
  }

  /** What FETCH prints for listed message `i`: the body its delivery carried, of the size on record, or the
      placeholder. */
  lemma ShownBody(world: World, r: Sessions.Reading, e: Exchange, i: nat)
    requires Legal(world) && HonestExchange(world, e) && Sessions.FetchSound(r, e) && e.req.verb == FETCH
             && Sessions.Completed(e)
    requires e.req.args.wants.body && i < |e.calls[0].listing.value|
    ensures var m, body := e.calls[0].listing.value[i], Sessions.BodyCalled(e, e.req.args.wants, i);
            && m.flags == ""
            && (body.Some? ==> Carried(world, m, body.value) && |body.value| == m.sizeBytes)
  {
    var listing, wants := e.calls[0].listing.value, e.req.args.wants;
    var m, body := listing[i], Sessions.BodyCalled(e, wants, i);
    assert Honest(world, e.calls[0]);
    var w := ListedWritten(world, e.calls[0].mailbox, listing, i);
    WrittenStays(world, m, w);
    if body.Some? {
      assert Sessions.PrintedAt(e, m, wants, i);
      assert Honest(world, e.calls[i + 1]);
      BodyIsWriters(world, m, w, body.value);
      WorkerStarted(world, |world.run|, w);
    }
  }

  // ---- Round trip ----

  lemma DataWire(text: string, rest: string)
    ensures Untagged(Data(text)).Wire() + rest == "* " + text + CRLF + rest
  {
  }

  /** A body that carries over the wire unharmed. */
  lemma ShownUnharmed(world: World, r: Sessions.Reading, e: Exchange, i: nat)
    requires Legal(world) && Fed(world) && HonestExchange(world, e)
    requires Sessions.FetchSound(r, e) && e.req.verb == FETCH && Sessions.Completed(e)
    requires e.req.args.wants.body && i < |e.calls[0].listing.value|
    ensures e.calls[0].listing.value[i].flags == "" && !EndsBlank(Shown(Sessions.BodyCalled(e, e.req.args.wants, i)))
  {
    var m, body := e.calls[0].listing.value[i], Sessions.BodyCalled(e, e.req.args.wants, i);
    ShownBody(world, r, e, i);
    if body.Some? {
      var w, mail :| WrittenBy(world, m, w) && Started(world, w, mail, m.envelopeTo) && mail.body == body.value;
      DeliveredTerminated(world, w, mail, m.envelopeTo);
    }
  }

  /** The body item of every FETCH response can be read back: the client gets the very bytes printed, and stays in
      step. */
  lemma FetchReadable(world: World, r: Sessions.Reading, e: Exchange, i: nat, rest: string)
    requires Legal(world) && Fed(world) && HonestExchange(world, e)
    requires Sessions.FetchSound(r, e) && e.req.verb == FETCH && Sessions.Completed(e)
    requires e.req.args.wants.body && i < |e.calls[0].listing.value|
    ensures ReadResponse(e.lines[i].Wire() + rest) == Some((Expected(e, i), rest))
  {
    ShownUnharmed(world, r, e, i);
    PrintedReadable(e, i, rest);
  }

  lemma PrintedReadable(e: Exchange, i: nat, rest: string)
    requires e.req.args.Items? && e.req.args.wants.body && |e.calls| > 0 && e.calls[0].ListCall?
             && e.calls[0].listing.Some?
    requires i < |e.calls[0].listing.value| && Sessions.Printed(e, e.calls[0].listing.value, e.req.args.wants)
    requires e.calls[0].listing.value[i].flags == "" && !EndsBlank(Shown(Sessions.BodyCalled(e, e.req.args.wants, i)))
    ensures ReadResponse(e.lines[i].Wire() + rest) == Some((Expected(e, i), rest))
  {
    var m, wants := e.calls[0].listing.value[i], e.req.args.wants;
    var body := Sessions.BodyCalled(e, wants, i);
    assert Sessions.PrintedAt(e, m, wants, i);
    DataWire(FetchText(i + 1, m, wants, body), rest);
    FetchReadBack(i + 1, m, wants, body, rest);
  }

  /** What a client should read as the response for listed message `i`. */
  function Expected(e: Exchange, i: nat): seq<Piece>
    requires e.req.args.Items? && |e.calls| > 0 && e.calls[0].ListCall? && e.calls[0].listing.Some?
             && i < |e.calls[0].listing.value|
  {
    var m, wants := e.calls[0].listing.value[i], e.req.args.wants;
    var body := Shown(Sessions.BodyCalled(e, wants, i));
    [Chars(Head(i + 1, m, wants, |body|)), Literal(body), Chars(")")]
  }

  /** A conforming sender's body that fits is what DATA hands over. */
  lemma HandoffOf(cfg: Smtp.Config, core: Smtp.Core, net: Smtp.Net, body: string, rest: seq<DataTransfer.Read>)
    requires DataTransfer.Terminated(body) && |body| <= cfg.maxSize
    requires core.state.RcptTo? && net.input == DataTransfer.Transmit(body) + rest
    ensures var step := Smtp.DataCommand(cfg, core, net);
            step.net.input == rest
            && step.handoff == Some(Smtp.MessageReceived(core.envelope.from, core.envelope.to, body, |body|))
  {
    DataTransfer.TransmitReceive(body, cfg.maxSize, rest);
  }

  /** The response for listed message `i` of a FETCH, when worker `w` wrote the message and the cache still had its
      body. */
  lemma ReadBackOf(world: World, r: Sessions.Reading, e: Exchange, i: nat, j: nat, rest: string)
    requires Legal(world) && Fed(world) && HonestExchange(world, e)
    requires Sessions.FetchSound(r, e) && e.req.verb == FETCH && Sessions.Completed(e)
    requires e.req.args.wants.body && i < |e.calls[0].listing.value|
    requires j < |world.run| && world.run[j].Start? && WrittenBy(world, e.calls[0].listing.value[i], world.run[j].w)
    requires Sessions.BodyCalled(e, e.req.args.wants, i).Some?
    ensures var m, body := e.calls[0].listing.value[i], world.run[j].mail.body;
            && m.sizeBytes == |body| && m.envelopeTo == world.run[j].to
            && ReadResponse(e.lines[i].Wire() + rest)
               == Some(([Chars(Head(i + 1, m, e.req.args.wants, |body|)), Literal(body), Chars(")")], rest))
  {
    var m, wants := e.calls[0].listing.value[i], e.req.args.wants;
    StartedKeeps(world, j, |world.run|);
    assert Sessions.PrintedAt(e, m, wants, i);
    assert Honest(world, e.calls[i + 1]);
    BodyIsWriters(world, m, world.run[j].w, Sessions.BodyCalled(e, wants, i).value);
    FetchReadable(world, r, e, i, rest);
  }

  /** End to end: a body that fits, dot-stuffed by a conforming sender, received by DATA, handed to delivery step `j`,
      its message listed as number `i` in a FETCH of any IMAP session while the cache had the body: a client reading
      that response gets the sender's bytes, and nothing else of the stream is lost. */
  lemma EndToEnd(
    cfg: Smtp.Config, core: Smtp.Core, sender: Smtp.Net, body: string, unread: seq<DataTransfer.Read>,
        event: Smtp.MessageReceived,
    world: World, j: nat, log: seq<Exchange>, n: nat, i: nat, rest: string)
    requires DataTransfer.Terminated(body) && |body| <= cfg.maxSize
    requires core.state.RcptTo? && sender.input == DataTransfer.Transmit(body) + unread
    requires Smtp.DataCommand(cfg, core, sender).handoff == Some(event)
    requires Legal(world) && Fed(world) && j < |world.run| && world.run[j].Start? && world.run[j].mail == MailFor(event)
    requires SessionLog(log) && HonestLog(world, log) && n < |log|
    requires log[n].req.verb == FETCH && Sessions.Completed(log[n]) && log[n].req.args.Items?
             && log[n].req.args.wants.body
    requires |log[n].calls| > 0 && log[n].calls[0].ListCall? && log[n].calls[0].listing.Some?
             && i < |log[n].calls[0].listing.value|
    requires WrittenBy(world, log[n].calls[0].listing.value[i], world.run[j].w)
    requires Sessions.BodyCalled(log[n], log[n].req.args.wants, i).Some?
    ensures var e := log[n];
            var m := e.calls[0].listing.value[i];
            && m.sizeBytes == |body| && i < |e.lines|
            && ReadResponse(e.lines[i].Wire() + rest)
               == Some(([Chars(Head(i + 1, m, e.req.args.wants, |body|)), Literal(body), Chars(")")], rest))
  {
    SessionGood(log);
    assert Sessions.GoodAt(log, n) && HonestExchange(world, log[n]);
    HandoffOf(cfg, core, sender, body, unread);
    ReadBackOf(world, Sessions.Scan(log[..n]), log[n], i, j, rest);
  }
}
