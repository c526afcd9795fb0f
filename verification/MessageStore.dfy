/** Delivery of one event run alone: for each recipient in turn, allocate a UID, insert the message, cache the body. */
module MessageStore {
  import opened Text
  import opened Storage

  /** A commit that reports an error may have taken effect or not, and so may an insert. */
  datatype Commit = Committed | CommitUnreported | CommitFailed
  datatype Insertion = Inserted | InsertUnreported | InsertFailed

  /** What the outside does to one recipient's delivery. */
  datatype Faults = Faults(lookupFails: bool, allocateFails: bool, commit: Commit, insertion: Insertion,
      cacheFails: bool)

  datatype Mail = Mail(from: string, body: string, subject: string)

  /** One recipient: the address, the mailbox its lookups lead to, and the faults. */
  datatype Job = Job(to: string, target: Option<nat>, faults: Faults)

  function JobFor(dir: Directory, to: string, faults: Faults): Job {
    Job(to, if faults.lookupFails then None else ResolveInbox(dir, to), faults)
  }

  /** Lock the row, read, increment, commit: nothing happens when a statement fails, the increment would leave the
      column's range, or the commit does not take effect. */
  function Allocate(store: Store, mailbox: nat, faults: Faults): (Store, Option<nat>) {
    if mailbox !in store.mailboxes || faults.allocateFails || store.mailboxes[mailbox].uidNext >= UID_MAX
        || faults.commit.CommitFailed?
    then (store, None)
    else
      var row := store.mailboxes[mailbox];
      (store.(mailboxes := store.mailboxes[mailbox := row.(uidNext := row.uidNext + 1)]),
       if faults.commit.Committed? then Some(row.uidNext) else None)
  }

  /** A UID is given out exactly if the mailbox exists, nothing fails, the commit is reported, and the increment stays
      within the 32 bits of the column; it is the counter's value, and the counter moves by one exactly if a commit
      took effect. */
  lemma AllocateExact(store: Store, mailbox: nat, faults: Faults)
    ensures var (after, uid) := Allocate(store, mailbox, faults);
            var possible := mailbox in store.mailboxes && !faults.allocateFails && !faults.commit.CommitFailed?
                            && store.mailboxes[mailbox].uidNext + 1 <= 4294967295;
            && (uid.Some? <==> possible && faults.commit.Committed?)
            && (uid.Some? ==> uid.value == store.mailboxes[mailbox].uidNext)
            && (!possible ==> after == store)
            && (possible ==>
                  && after.mailboxes.Keys == store.mailboxes.Keys
                  && after.messages == store.messages && after.cache == store.cache && after.nextId == store.nextId
                  && forall mb | mb in store.mailboxes ::
                       && after.mailboxes[mb].uidNext == store.mailboxes[mb].uidNext + (if mb == mailbox then 1 else 0)
                       && after.mailboxes[mb].userId == store.mailboxes[mb].userId
                       && after.mailboxes[mb].name == store.mailboxes[mb].name)
  {
  }

  function NewMessage(id: nat, mailbox: nat, uid: nat, to: string, mail: Mail): Message {
    Message(id, mailbox, uid, "", |mail.body|, mail.from, to, mail.subject)
  }

  /** The row tells the sender, the recipient, the Subject and the size of the mail, has no flags, and lies in the
      mailbox under the UID. */
  predicate Records(m: Message, mailbox: nat, uid: nat, mail: Mail, to: string) {
    && m.mailboxId == mailbox && m.uid == uid && m.flags == ""
    && m.envelopeFrom == mail.from && m.envelopeTo == to && m.subject == mail.subject && m.sizeBytes == |mail.body|
  }

  function InsertAndCache(store: Store, mailbox: nat, uid: nat, to: string, mail: Mail, faults: Faults): (Store, bool) {
    if faults.insertion.InsertFailed? then (store, false) else
      var id := store.nextId;
      var stored := store.(messages := store.messages + [NewMessage(id, mailbox, uid, to, mail)], nextId := id + 1);
      if faults.insertion.InsertUnreported? then (stored, false)
      else if faults.cacheFails then (stored, true)
      else (stored.(cache := stored.cache[BodyKey(id) := mail.body]), true)
  }

  function DeliverTo(store: Store, mail: Mail, job: Job): (Store, bool) {
    match job.target
    case None => (store, false)
    case Some(mailbox) =>
      var (counted, uid) := Allocate(store, mailbox, job.faults);
      match uid
      case None => (counted, false)
      case Some(u) => InsertAndCache(counted, mailbox, u, job.to, mail, job.faults)
  }

  /** The first `n` recipients. */
  function DeliverFirst(store: Store, mail: Mail, jobs: seq<Job>, n: nat): Store
    requires n <= |jobs|
  {
    if n == 0 then store else DeliverTo(DeliverFirst(store, mail, jobs, n - 1), mail, jobs[n - 1]).0
  }

  /** Whether recipient `i` is reported as delivered. */
  function Reported(store: Store, mail: Mail, jobs: seq<Job>, i: nat): bool
    requires i < |jobs|
  {
    DeliverTo(DeliverFirst(store, mail, jobs, i), mail, jobs[i]).1
  }

  // ---- The outcome in closed form, from the arguments alone ----

  predicate Takes(job: Job, mailbox: nat) {
    job.target == Some(mailbox) && !job.faults.allocateFails && !job.faults.commit.CommitFailed?
  }

  /** How many of the first `n` recipients take a UID of the mailbox, if there is room. */
  function Taken(jobs: seq<Job>, n: nat, mailbox: nat): (k: nat)
    requires n <= |jobs|
    ensures k <= n
  {
    if n == 0 then 0 else Taken(jobs, n - 1, mailbox) + if Takes(jobs[n - 1], mailbox) then 1 else 0
  }

  /** The UID recipient `i` is given, if there is room. */
  function UidFor(store: Store, jobs: seq<Job>, i: nat, mailbox: nat): nat
    requires i <= |jobs| && mailbox in store.mailboxes
  {
    store.mailboxes[mailbox].uidNext + Taken(jobs, i, mailbox)
  }

  /** All steps of recipient `i` itself succeed. */
  predicate OwnStepsSucceed(store: Store, jobs: seq<Job>, i: nat)
    requires i < |jobs|
  {
    && jobs[i].target.Some? && jobs[i].target.value in store.mailboxes
    && Takes(jobs[i], jobs[i].target.value) && jobs[i].faults.commit.Committed?
       && !jobs[i].faults.insertion.InsertFailed?
  }

  /** Recipient `i` gets a message: its own steps succeed and the mailbox still has a UID to give. */
  predicate Stores(store: Store, jobs: seq<Job>, i: nat)
    requires i < |jobs|
  {
    OwnStepsSucceed(store, jobs, i) && UidFor(store, jobs, i, jobs[i].target.value) < UID_MAX
  }

  function Added(store: Store, mail: Mail, jobs: seq<Job>, n: nat): seq<Message>
    requires n <= |jobs|
    decreases n, 0
  {
    if n == 0 then [] else
      var before := Added(store, mail, jobs, n - 1);
      if Stores(store, jobs, n - 1) then before + [MessageFor(store, mail, jobs, n - 1)] else before
  }

  function MessageFor(store: Store, mail: Mail, jobs: seq<Job>, i: nat): Message
    requires i < |jobs| && Stores(store, jobs, i)
    decreases i, 1
  {
    var mailbox := jobs[i].target.value;
    NewMessage(store.nextId + |Added(store, mail, jobs, i)|, mailbox, UidFor(store, jobs, i, mailbox), jobs[i].to, mail)
  }

  function CachedBodies(store: Store, mail: Mail, jobs: seq<Job>, n: nat): map<string, string>
    requires n <= |jobs|
  {
    if n == 0 then store.cache else
      var before := CachedBodies(store, mail, jobs, n - 1);
      if Stores(store, jobs, n - 1) && jobs[n - 1].faults.insertion.Inserted? && !jobs[n - 1].faults.cacheFails
      then before[BodyKey(MessageFor(store, mail, jobs, n - 1).id) := mail.body] else before
  }

  function Min(a: nat, b: nat): nat {
    if a <= b then a else b
  }

  ghost predicate InRange(store: Store) {
    forall mb | mb in store.mailboxes :: store.mailboxes[mb].uidNext <= UID_MAX
  }

  /** The mailbox rows after `n` recipients. */
  ghost predicate RowsAfter(store: Store, jobs: seq<Job>, n: nat, rows: map<nat, Mailbox>)
    requires n <= |jobs|
  {
    && rows.Keys == store.mailboxes.Keys
    && forall mb | mb in rows :: rows[mb] == store.mailboxes[mb].(uidNext := Min(UidFor(store, jobs, n, mb), UID_MAX))
  }

  /** The message of recipient `i` is on record, in every field. */
  ghost predicate RecordedAt(store: Store, mail: Mail, jobs: seq<Job>, i: nat)
    requires i < |jobs| && Stores(store, jobs, i)
  {
    var mailbox := jobs[i].target.value;
    Records(MessageFor(store, mail, jobs, i), mailbox, UidFor(store, jobs, i, mailbox), mail, jobs[i].to)
  }

  /** The closed form is what delivery does, for every number of recipients and all faults. */
  lemma {:induction false} DeliverFirstExact(store: Store, mail: Mail, jobs: seq<Job>, n: nat)
    requires n <= |jobs| && InRange(store)
    ensures var r := DeliverFirst(store, mail, jobs, n);
            && RowsAfter(store, jobs, n, r.mailboxes)
            && r.messages == store.messages + Added(store, mail, jobs, n)
            && r.nextId == store.nextId + |Added(store, mail, jobs, n)|
            && r.cache == CachedBodies(store, mail, jobs, n)
    ensures forall i | 0 <= i < n && Stores(store, jobs, i) :: RecordedAt(store, mail, jobs, i)
  {
    if n > 0 {
      DeliverFirstExact(store, mail, jobs, n - 1);
      OneMore(store, mail, jobs, n - 1, DeliverFirst(store, mail, jobs, n - 1));
    }
  }

  lemma OneMoreRow(store: Store, jobs: seq<Job>, i: nat, now: Store, mailbox: nat)
    requires i < |jobs| && InRange(store) && RowsAfter(store, jobs, i, now.mailboxes) && jobs[i].target == Some(mailbox)
    ensures var (r, uid) := Allocate(now, mailbox, jobs[i].faults);
            && RowsAfter(store, jobs, i + 1, r.mailboxes)
            && r.messages == now.messages && r.nextId == now.nextId && r.cache == now.cache
            && (uid.Some? <==> mailbox in store.mailboxes && Takes(jobs[i], mailbox) && jobs[i].faults.commit.Committed?
                               && UidFor(store, jobs, i, mailbox) < UID_MAX)
            && (uid.Some? ==> uid.value == UidFor(store, jobs, i, mailbox))
  {
  }

  lemma OneMore(store: Store, mail: Mail, jobs: seq<Job>, i: nat, now: Store)
    requires i < |jobs| && InRange(store)
    requires RowsAfter(store, jobs, i, now.mailboxes)
    requires now.messages == store.messages + Added(store, mail, jobs, i)
    requires now.nextId == store.nextId + |Added(store, mail, jobs, i)|
    requires now.cache == CachedBodies(store, mail, jobs, i)
    ensures var (r, ok) := DeliverTo(now, mail, jobs[i]);
            && RowsAfter(store, jobs, i + 1, r.mailboxes)
            && r.messages == store.messages + Added(store, mail, jobs, i + 1)
            && r.nextId == store.nextId + |Added(store, mail, jobs, i + 1)|
            && r.cache == CachedBodies(store, mail, jobs, i + 1)
            && (ok <==> Stores(store, jobs, i) && jobs[i].faults.insertion.Inserted?)
  {
    if jobs[i].target.Some? {
      OneMoreRow(store, jobs, i, now, jobs[i].target.value);
    }
  }

  /** The whole delivery: which recipients get a message, with which UID; nothing else is added. */
  lemma DeliveryExact(store: Store, mail: Mail, jobs: seq<Job>)
    requires InRange(store)
    ensures DeliverFirst(store, mail, jobs, |jobs|).messages == store.messages + Added(store, mail, jobs, |jobs|)
    ensures RowsAfter(store, jobs, |jobs|, DeliverFirst(store, mail, jobs, |jobs|).mailboxes)
    ensures forall i | 0 <= i < |jobs| && Stores(store, jobs, i) :: RecordedAt(store, mail, jobs, i)
    ensures forall i | 0 <= i < |jobs| ::
              Reported(store, mail, jobs, i) <==> Stores(store, jobs, i) && jobs[i].faults.insertion.Inserted?
  {
    DeliverFirstExact(store, mail, jobs, |jobs|);
    forall i | 0 <= i < |jobs|
      ensures Reported(store, mail, jobs, i) <==> Stores(store, jobs, i) && jobs[i].faults.insertion.Inserted?
    {
      DeliverFirstExact(store, mail, jobs, i);
      OneMore(store, mail, jobs, i, DeliverFirst(store, mail, jobs, i));
    }
  }

  lemma {:induction false} TakenGrows(jobs: seq<Job>, i: nat, j: nat, mailbox: nat)
    requires i <= j <= |jobs|
    ensures Taken(jobs, i, mailbox) <= Taken(jobs, j, mailbox)
  {
    if i < j {
      TakenGrows(jobs, i, j - 1, mailbox);
    }
  }

  /** Recipients of the same mailbox, the same address twice included, get UIDs that increase in recipient order. */
  lemma LaterRecipientHigherUid(store: Store, mail: Mail, jobs: seq<Job>, i: nat, j: nat)
    requires i < j < |jobs| && Stores(store, jobs, i) && Stores(store, jobs, j) && jobs[i].target == jobs[j].target
    ensures MessageFor(store, mail, jobs, i).uid < MessageFor(store, mail, jobs, j).uid
  {
    TakenGrows(jobs, i + 1, j, jobs[i].target.value);
  }

  lemma {:induction false} ListingIgnores(messages: seq<Message>, added: seq<Message>, mailbox: nat)
    requires forall i | 0 <= i < |added| :: added[i].mailboxId != mailbox
    ensures Listing(messages + added, mailbox) == Listing(messages, mailbox)
  {
    if added == [] {
      assert messages + added == messages;
    } else {
      var n := |added| - 1;
      ListingIgnores(messages, added[..n], mailbox);
      assert messages + added == messages + added[..n] + [added[n]];
      ListingMore(messages + added[..n], added[n], mailbox);
    }
  }

  lemma {:induction false} NoneTargeted(store: Store, mail: Mail, jobs: seq<Job>, n: nat, mailbox: nat)
    requires n <= |jobs| && forall i | 0 <= i < |jobs| :: jobs[i].target != Some(mailbox)
    ensures Taken(jobs, n, mailbox) == 0
    ensures forall k | 0 <= k < |Added(store, mail, jobs, n)| :: Added(store, mail, jobs, n)[k].mailboxId != mailbox
  {
    if n > 0 {
      NoneTargeted(store, mail, jobs, n - 1, mailbox);
    }
  }

  /** A mailbox that is no recipient's keeps its row and its listing. */
  lemma OthersUntouched(store: Store, mail: Mail, jobs: seq<Job>, mailbox: nat)
    requires InRange(store) && mailbox in store.mailboxes
    requires forall i | 0 <= i < |jobs| :: jobs[i].target != Some(mailbox)
    ensures var r := DeliverFirst(store, mail, jobs, |jobs|);
            && mailbox in r.mailboxes && r.mailboxes[mailbox] == store.mailboxes[mailbox]
            && Listing(r.messages, mailbox) == Listing(store.messages, mailbox)
  {
    DeliverFirstExact(store, mail, jobs, |jobs|);
    NoneTargeted(store, mail, jobs, |jobs|, mailbox);
    ListingIgnores(store.messages, Added(store, mail, jobs, |jobs|), mailbox);
  }

  lemma {:induction false} OneApart(jobs: seq<Job>, others: seq<Job>, k: nat, i: nat, mailbox: nat)
    requires |jobs| == |others| && k < |jobs| && i <= |jobs|
    requires forall j | 0 <= j < |jobs| && j != k :: jobs[j] == others[j]
    ensures Taken(jobs, i, mailbox) - Taken(others, i, mailbox) ==
            if i <= k || Takes(jobs[k], mailbox) == Takes(others[k], mailbox) then 0
            else if Takes(jobs[k], mailbox) then 1 else -1
  {
    if i > 0 {
      OneApart(jobs, others, k, i - 1, mailbox);
    }
  }

  /** The mailbox of recipient `i` is down to its very last UID when `i` comes for it, and whether an earlier `k` has
      taken that UID is what differs. */
  predicate LastUidAtStake(store: Store, jobs: seq<Job>, others: seq<Job>, k: nat, i: nat)
    requires |jobs| == |others| && k < |jobs| && i < |jobs|
    requires jobs[i].target.Some? && jobs[i].target.value in store.mailboxes
  {
    var mailbox := jobs[i].target.value;
    && k < i && Takes(jobs[k], mailbox) != Takes(others[k], mailbox)
    && Min(UidFor(store, jobs, i, mailbox), UidFor(store, others, i, mailbox)) == UID_MAX - 1
  }

  /** Recipient independence: whatever happens to recipient `k`, recipient `i` gets the same message, its UID moved by
      at most one. Only whether `i` gets a message at all can change, and exactly when the mailbox's last UID is at
      stake. */
  lemma RecipientsIndependent(store: Store, mail: Mail, jobs: seq<Job>, others: seq<Job>, k: nat, i: nat)
    requires |jobs| == |others| && k < |jobs| && i < |jobs| && i != k
    requires forall j | 0 <= j < |jobs| && j != k :: jobs[j] == others[j]
    ensures Stores(store, jobs, i) && Stores(store, others, i) ==>
              var m, m' := MessageFor(store, mail, jobs, i), MessageFor(store, mail, others, i);
              m == m'.(id := m.id, uid := m.uid) && -1 <= m.uid - m'.uid <= 1 && (i < k ==> m.uid == m'.uid)
    ensures Stores(store, jobs, i) != Stores(store, others, i)
            <==> OwnStepsSucceed(store, jobs, i) && LastUidAtStake(store, jobs, others, k, i)
  {
    if jobs[i].target.Some? {
      OneApart(jobs, others, k, i, jobs[i].target.value);
    }
  }

  const FINE := Faults(false, false, Committed, Inserted, false)

  /** The exception is real, for every directory and any two recipients of one mailbox (the same address twice
      included) that is down to its last UID: if both deliveries go well the second recipient gets nothing, and if the
      first one's allocation fails the second gets the message. */
  lemma LastUidIsExclusive(dir: Directory, store: Store, mail: Mail, a: string, b: string, mailbox: nat)
    requires ResolveInbox(dir, a) == Some(mailbox) && ResolveInbox(dir, b) == Some(mailbox)
    requires mailbox in store.mailboxes && store.mailboxes[mailbox].uidNext == UID_MAX - 1
    ensures var jobs := [JobFor(dir, a, FINE), JobFor(dir, b, FINE)];
            && DeliverFirst(store, mail, jobs, 2).messages
               == store.messages + [NewMessage(store.nextId, mailbox, UID_MAX - 1, a, mail)]
            && Reported(store, mail, jobs, 0) && !Reported(store, mail, jobs, 1)
    ensures var others := [JobFor(dir, a, FINE.(allocateFails := true)), JobFor(dir, b, FINE)];
            && DeliverFirst(store, mail, others, 2).messages
               == store.messages + [NewMessage(store.nextId, mailbox, UID_MAX - 1, b, mail)]
            && !Reported(store, mail, others, 0) && Reported(store, mail, others, 1)
  {
    var jobs := [JobFor(dir, a, FINE), JobFor(dir, b, FINE)];
    var others := [JobFor(dir, a, FINE.(allocateFails := true)), JobFor(dir, b, FINE)];
    assert DeliverFirst(store, mail, jobs, 0) == store && DeliverFirst(store, mail, others, 0) == store;
    var first := DeliverFirst(store, mail, jobs, 1);
    assert first == DeliverTo(store, mail, jobs[0]).0;
    assert first.mailboxes[mailbox].uidNext == UID_MAX;
    assert DeliverFirst(store, mail, others, 1) == store;
  }

  /** Such a case: the database of one domain, one user and one INBOX, and a message addressed to the user twice. */
  lemma LastUidCase(mail: Mail)
    ensures var dir := Directory(map["d" := 1], map[(1, "a") := 1], map[(1, "INBOX") := 1]);
            var store := Store(map[1 := Mailbox(1, "INBOX", 1, UID_MAX - 1)], [], 1, map[]);
            var jobs := [JobFor(dir, "a@d", FINE), JobFor(dir, "a@d", FINE)];
            var others := [JobFor(dir, "a@d", FINE.(allocateFails := true)), JobFor(dir, "a@d", FINE)];
            && Consistent(dir, store.mailboxes)
            && !Reported(store, mail, jobs, 1) && Reported(store, mail, others, 1)
  {
    var dir := Directory(map["d" := 1], map[(1, "a") := 1], map[(1, "INBOX") := 1]);
    var store := Store(map[1 := Mailbox(1, "INBOX", 1, UID_MAX - 1)], [], 1, map[]);
    assert "a@d" == "a" + "@" + "d";
    ParseAddressExact("a@d", "a", "d");
    LastUidIsExclusive(dir, store, mail, "a@d", "a@d", 1);
  }

  // ---- The object ----

  class Pipeline {
    const dir: Directory
    var mailboxes: map<nat, Mailbox>
    var messages: seq<Message>
    var nextId: nat
    var cache: map<string, string>

    ghost function View(): Store
      reads this
    {
      Store(mailboxes, messages, nextId, cache)
    }

    constructor (dir: Directory, store: Store)
      ensures this.dir == dir && View() == store
    {
      this.dir := dir;
      mailboxes, messages, nextId, cache := store.mailboxes, store.messages, store.nextId, store.cache;
    }

    method AllocateUID(mailbox: nat, faults: Faults) returns (uid: Option<nat>)
      modifies this`mailboxes
      ensures (View(), uid) == Allocate(old(View()), mailbox, faults)
    {
      uid := None;
      if mailbox !in mailboxes || faults.allocateFails {
        return;
      }
      var current := mailboxes[mailbox].uidNext;
      var updated := mailboxes[mailbox].uidNext + 1;
      if updated > UID_MAX {
        return;
      }
      match faults.commit
      case Committed =>
        mailboxes := mailboxes[mailbox := mailboxes[mailbox].(uidNext := updated)];
        uid := Some(current);
      case CommitUnreported =>
        mailboxes := mailboxes[mailbox := mailboxes[mailbox].(uidNext := updated)];
      case CommitFailed =>
    }

    method InsertMessage(msg: Message, result: Insertion) returns (id: Option<nat>)
      modifies this`messages, this`nextId
      ensures id == if result.Inserted? then Some(old(nextId)) else None
      ensures messages == if result.InsertFailed? then old(messages) else old(messages) + [msg.(id := old(nextId))]
      ensures nextId == old(nextId) + if result.InsertFailed? then 0 else 1
    {
      id := None;
      if !result.InsertFailed? {
        messages := messages + [msg.(id := nextId)];
        id := if result.Inserted? then Some(nextId) else None;
        nextId := nextId + 1;
      }
    }

    method SetMessageBody(id: nat, body: string, fails: bool)
      modifies this`cache
      ensures cache == if fails then old(cache) else old(cache)[BodyKey(id) := body]
    {
      if !fails {
        cache := cache[BodyKey(id) := body];
      }
    }

    method DeliverOne(mail: Mail, job: Job) returns (ok: bool)
      modifies this
      ensures (View(), ok) == DeliverTo(old(View()), mail, job)
      ensures ok ==> job.target.Some? && job.target.value in old(mailboxes) && |messages| == |old(messages)| + 1
                     && Records(messages[|old(messages)|], job.target.value, old(mailboxes)[job.target.value].uidNext,
                                mail, job.to)
      ensures old(messages) <= messages
    {
      if job.target.None? {
        return false;
      }
      var uid := AllocateUID(job.target.value, job.faults);
      if uid.None? {
        return false;
      }
      var id := InsertMessage(NewMessage(0, job.target.value, uid.value, job.to, mail), job.faults.insertion);
      if id.None? {
        return false;
      }
      SetMessageBody(id.value, mail.body, job.faults.cacheFails);
      return true;
    }

    /** The pipeline's entry point: a failed recipient does not stop the others, and no error is ever reported. */
    method Deliver(from: string, to: seq<string>, body: string, faults: seq<Faults>)
        returns (err: Option<string>, ghost jobs: seq<Job>)
      requires |faults| == |to|
      modifies this
      ensures err == None
      ensures |jobs| == |to| && forall i | 0 <= i < |to| :: jobs[i] == JobFor(dir, to[i], faults[i])
      ensures View() == DeliverFirst(old(View()), Mail(from, body, Subject(body)), jobs, |jobs|)
    {
      var subject := ExtractSubject(body);
      var mail := Mail(from, body, subject);
      jobs := seq(|to|, i requires 0 <= i < |to| => JobFor(dir, to[i], faults[i]));
      for i := 0 to |to|
        invariant View() == DeliverFirst(old(View()), mail, jobs, i)
      {
        assert jobs[i] == JobFor(dir, to[i], faults[i]);
        var ok := DeliverOne(mail, JobFor(dir, to[i], faults[i]));
      }
      err := None;
    }
  }
}
