/** Any number of deliveries at once. Each worker delivers one message to one recipient; their database and cache
    operations interleave freely, only the row lock of SELECT ... FOR UPDATE keeps transactions on the same mailbox
    apart. */
module DeliverySystem {
  import opened Text
  import opened Storage
  import opened MessageStore

  datatype Phase =
    | Fresh
    | Begun(mb: nat)                              // recipient resolved, transaction begun
    | Locked(mb: nat, seen: nat)                  // row locked, uid_next read
    | Updated(mb: nat, seen: nat, pending: nat)   // row updated, not committed: others still see the old value
    | Allocated(mb: nat, uid: nat)                // commit reported, UID returned, awaiting the insert
    | Stored(mb: nat, uid: nat, id: nat)          // message inserted
    | Finished(mb: nat, uid: nat, id: nat)        // ... and the body offered to the cache
    | Orphaned(mb: nat, uid: nat, id: nat)        // message inserted, but the insert reported an error
    | Wasted(mb: nat, uid: nat)                   // UID returned, no message inserted
    | Burned(mb: nat, uid: nat)                   // commit took effect but reported an error
    | Dead                                        // failed before any UID was consumed

  datatype Worker = Worker(mail: Mail, to: string, phase: Phase)

  datatype System = System(store: Store, locks: map<nat, nat>, workers: map<nat, Worker>)

  datatype Action =
    | Start(w: nat, mail: Mail, to: string)
    | Begin(w: nat)
    | Lock(w: nat)
    | Update(w: nat)
    | CommitReported(w: nat)
    | CommitUnreported(w: nat)
    | Abort(w: nat)            // any failure before the commit takes effect: rollback
    | InsertReported(w: nat)
    | InsertUnreported(w: nat)
    | InsertFails(w: nat)
    | Cache(w: nat)
    | CacheFails(w: nat)
    | Evict(key: string)       // expiry or eviction
    | SkipId                   // AUTO_INCREMENT values are lost

  predicate InTransaction(p: Phase) { p.Locked? || p.Updated? }

  /** A UID of the mailbox belongs to this phase. */
  predicate Holds(p: Phase) {
    p.Allocated? || p.Stored? || p.Finished? || p.Orphaned? || p.Wasted? || p.Burned?
  }

  predicate HasMessage(p: Phase) { p.Stored? || p.Finished? || p.Orphaned? }

  predicate Enabled(dir: Directory, s: System, a: Action) {
    match a
    case Start(w, _, _) => w !in s.workers
    case Begin(w) => w in s.workers && s.workers[w].phase.Fresh? && ResolveInbox(dir, s.workers[w].to).Some?
    case Lock(w) =>
      w in s.workers && s.workers[w].phase.Begun? && s.workers[w].phase.mb in s.store.mailboxes
      && s.workers[w].phase.mb !in s.locks
    case Update(w) =>
      w in s.workers && s.workers[w].phase.Locked? && s.workers[w].phase.mb in s.store.mailboxes
      && s.store.mailboxes[s.workers[w].phase.mb].uidNext + 1 <= UID_MAX
    case CommitReported(w) =>
      w in s.workers && s.workers[w].phase.Updated? && s.workers[w].phase.mb in s.store.mailboxes
    case CommitUnreported(w) =>
      w in s.workers && s.workers[w].phase.Updated? && s.workers[w].phase.mb in s.store.mailboxes
    case Abort(w) =>
      w in s.workers
      && (s.workers[w].phase.Fresh? || s.workers[w].phase.Begun? || InTransaction(s.workers[w].phase))
    case InsertReported(w) => w in s.workers && s.workers[w].phase.Allocated?
    case InsertUnreported(w) => w in s.workers && s.workers[w].phase.Allocated?
    case InsertFails(w) => w in s.workers && s.workers[w].phase.Allocated?
    case Cache(w) => w in s.workers && s.workers[w].phase.Stored?
    case CacheFails(w) => w in s.workers && s.workers[w].phase.Stored?
    case Evict(_) => true
    case SkipId => true
  }

  function Move(s: System, w: nat, p: Phase): map<nat, Worker>
    requires w in s.workers
  {
    s.workers[w := s.workers[w].(phase := p)]
  }

  function Release(s: System, w: nat): map<nat, nat>
    requires w in s.workers
  {
    if InTransaction(s.workers[w].phase) then s.locks - {s.workers[w].phase.mb} else s.locks
  }

  /** The row takes the pending value. */
  function Committed(s: System, w: nat): Store
    requires w in s.workers && s.workers[w].phase.Updated? && s.workers[w].phase.mb in s.store.mailboxes
  {
    var p := s.workers[w].phase;
    s.store.(mailboxes := s.store.mailboxes[p.mb := s.store.mailboxes[p.mb].(uidNext := p.pending)])
  }

  function MessageOf(worker: Worker): Message
    requires HasMessage(worker.phase)
  {
    NewMessage(worker.phase.id, worker.phase.mb, worker.phase.uid, worker.to, worker.mail)
  }

  function WithMessage(s: System, w: nat): Store
    requires w in s.workers && s.workers[w].phase.Allocated?
  {
    var p, id := s.workers[w].phase, s.store.nextId;
    var m := NewMessage(id, p.mb, p.uid, s.workers[w].to, s.workers[w].mail);
    s.store.(messages := s.store.messages + [m], nextId := id + 1)
  }

  function Apply(dir: Directory, s: System, a: Action): System
    requires Enabled(dir, s, a)
  {
    match a
    case Start(w, mail, to) => s.(workers := s.workers[w := Worker(mail, to, Fresh)])
    case Begin(w) => s.(workers := Move(s, w, Begun(ResolveInbox(dir, s.workers[w].to).value)))
    case Lock(w) =>
      var mb := s.workers[w].phase.mb;
      s.(locks := s.locks[mb := w], workers := Move(s, w, Locked(mb, s.store.mailboxes[mb].uidNext)))
    case Update(w) =>
      var p := s.workers[w].phase;
      s.(workers := Move(s, w, Updated(p.mb, p.seen, s.store.mailboxes[p.mb].uidNext + 1)))
    case CommitReported(w) =>
      var p := s.workers[w].phase;
      System(Committed(s, w), Release(s, w), Move(s, w, Allocated(p.mb, p.seen)))
    case CommitUnreported(w) =>
      var p := s.workers[w].phase;
      System(Committed(s, w), Release(s, w), Move(s, w, Burned(p.mb, p.seen)))
    case Abort(w) => s.(locks := Release(s, w), workers := Move(s, w, Dead))
    case InsertReported(w) =>
      var p := s.workers[w].phase;
      s.(store := WithMessage(s, w), workers := Move(s, w, Stored(p.mb, p.uid, s.store.nextId)))
    case InsertUnreported(w) =>
      var p := s.workers[w].phase;
      s.(store := WithMessage(s, w), workers := Move(s, w, Orphaned(p.mb, p.uid, s.store.nextId)))
    case InsertFails(w) =>
      var p := s.workers[w].phase;
      s.(workers := Move(s, w, Wasted(p.mb, p.uid)))
    case Cache(w) =>
      var p := s.workers[w].phase;
      s.(store := s.store.(cache := s.store.cache[BodyKey(p.id) := s.workers[w].mail.body]),
         workers := Move(s, w, Finished(p.mb, p.uid, p.id)))
    case CacheFails(w) =>
      var p := s.workers[w].phase;
      s.(workers := Move(s, w, Finished(p.mb, p.uid, p.id)))
    case Evict(key) => s.(store := s.store.(cache := s.store.cache - {key}))
    case SkipId => s.(store := s.store.(nextId := s.store.nextId + 1))
  }

  // ---- Runs ----

  predicate ValidRun(dir: Directory, s: System, run: seq<Action>)
    decreases |run|
  {
    run == [] || (Enabled(dir, s, run[0]) && ValidRun(dir, Apply(dir, s, run[0]), run[1..]))
  }

  function Exec(dir: Directory, s: System, run: seq<Action>): System
    requires ValidRun(dir, s, run)
    decreases |run|
  {
    if run == [] then s else Exec(dir, Apply(dir, s, run[0]), run[1..])
  }

  /** The state after `k` steps of a run. */
  ghost function At(dir: Directory, s: System, run: seq<Action>, k: nat): System
    requires ValidRun(dir, s, run) && k <= |run|
    decreases k
  {
    if k == 0 then s else At(dir, Apply(dir, s, run[0]), run[1..], k - 1)
  }

  lemma {:induction false} AtStep(dir: Directory, s: System, run: seq<Action>, k: nat)
    requires ValidRun(dir, s, run) && k < |run|
    ensures Enabled(dir, At(dir, s, run, k), run[k])
    ensures At(dir, s, run, k + 1) == Apply(dir, At(dir, s, run, k), run[k])
    decreases k
  {
    if k > 0 {
      AtStep(dir, Apply(dir, s, run[0]), run[1..], k - 1);
      assert run[1..][k - 1] == run[k];
    }
  }

  lemma {:induction false} AtEnd(dir: Directory, s: System, run: seq<Action>)
    requires ValidRun(dir, s, run)
    ensures At(dir, s, run, |run|) == Exec(dir, s, run)
    decreases |run|
  {
    if run != [] {
      AtEnd(dir, Apply(dir, s, run[0]), run[1..]);
    }
  }

  /** No messages, no deliveries under way, and every counter a positive value of its column. */
  ghost predicate Initial(dir: Directory, s: System) {
    && Consistent(dir, s.store.mailboxes)
    && (forall mb | mb in s.store.mailboxes :: 1 <= s.store.mailboxes[mb].uidNext <= UID_MAX)
    && s.store.messages == [] && s.store.cache == map[] && s.locks == map[] && s.workers == map[]
  }

  // ---- The invariant ----

  /** Rows keep their identity; counters only grow from their initial values and stay in range. */
  ghost predicate RowsOk(origin: Store, s: System) {
    && s.store.mailboxes.Keys == origin.mailboxes.Keys
    && forall mb | mb in s.store.mailboxes ::
         && s.store.mailboxes[mb] == origin.mailboxes[mb].(uidNext := s.store.mailboxes[mb].uidNext)
         && 1 <= origin.mailboxes[mb].uidNext <= s.store.mailboxes[mb].uidNext <= UID_MAX
  }

  /** A transaction past its SELECT holds its mailbox's lock, and what it read is still the value. */
  ghost predicate LocksOk(s: System) {
    forall w | w in s.workers && InTransaction(s.workers[w].phase) :: Guarded(s, w, s.workers[w].phase)
  }

  /** No lock outlives its transaction. */
  ghost predicate LocksUsed(s: System) {
    forall mb | mb in s.locks ::
      var w := s.locks[mb];
      w in s.workers && InTransaction(s.workers[w].phase) && s.workers[w].phase.mb == mb
  }

  ghost predicate Guarded(s: System, w: nat, p: Phase)
    requires InTransaction(p)
  {
    && p.mb in s.locks && s.locks[p.mb] == w
    && p.mb in s.store.mailboxes && p.seen == s.store.mailboxes[p.mb].uidNext
    && (p.Updated? ==> p.pending == p.seen + 1 <= UID_MAX)
  }

  /** The mailbox and UID worker `w` owns. */
  function UidOf(s: System, w: nat): Option<(nat, nat)> {
    if w in s.workers && Holds(s.workers[w].phase) then Some((s.workers[w].phase.mb, s.workers[w].phase.uid)) else None
  }

  /** The message worker `w` has inserted. */
  function MessageBy(s: System, w: nat): Option<Message> {
    if w in s.workers && HasMessage(s.workers[w].phase) then Some(MessageOf(s.workers[w])) else None
  }

  /** Owned UIDs lie between the initial and the current counter. */
  ghost predicate UidsOk(origin: Store, s: System) {
    forall w | UidOf(s, w).Some? ::
      var (mb, uid) := UidOf(s, w).value;
      && mb in s.store.mailboxes && mb in origin.mailboxes
      && origin.mailboxes[mb].uidNext <= uid < s.store.mailboxes[mb].uidNext
  }

  /** No UID has two owners. */
  ghost predicate OwnersDistinct(s: System) {
    forall v, w | v != w && UidOf(s, v).Some? :: UidOf(s, v) != UidOf(s, w)
  }

  /** The rows of the message table are the messages the workers have inserted. */
  ghost predicate Written(s: System, m: Message) {
    exists w :: MessageBy(s, w) == Some(m)
  }

  ghost predicate MessagesOk(s: System) {
    && (forall i | 0 <= i < |s.store.messages| :: Written(s, s.store.messages[i]))
    && (forall w | MessageBy(s, w).Some? :: Has(s.store.messages, MessageBy(s, w).value))
  }

  /** Message ids ascend in table order, below the counter. */
  ghost predicate IdsOk(s: System) {
    && (forall i, j | 0 <= i < j < |s.store.messages| :: s.store.messages[i].id < s.store.messages[j].id)
    && (forall i | 0 <= i < |s.store.messages| :: s.store.messages[i].id < s.store.nextId)
  }

  /** Worker `w` put this entry into the cache. */
  ghost predicate CachedBy(s: System, key: string, body: string, w: nat) {
    && w in s.workers && s.workers[w].phase.Finished?
    && key == BodyKey(s.workers[w].phase.id) && body == s.workers[w].mail.body
  }

  ghost predicate CacheOk(s: System) {
    forall key | key in s.store.cache :: exists w :: CachedBy(s, key, s.store.cache[key], w)
  }

  predicate Targeted(p: Phase) { !p.Fresh? && !p.Dead? }

  /** Workers act on the mailbox their recipient resolves to. */
  ghost predicate TargetsOk(dir: Directory, s: System) {
    forall w | w in s.workers && Targeted(s.workers[w].phase) ::
      ResolveInbox(dir, s.workers[w].to) == Some(s.workers[w].phase.mb)
  }

  ghost predicate Inv(dir: Directory, origin: Store, s: System) {
    && RowsOk(origin, s) && LocksOk(s) && LocksUsed(s) && UidsOk(origin, s) && OwnersDistinct(s)
    && MessagesOk(s) && IdsOk(s) && CacheOk(s) && TargetsOk(dir, s)
  }

  lemma InitialInv(dir: Directory, s: System)
    requires Initial(dir, s)
    ensures Inv(dir, s.store, s)
  {
  }

  predicate IsCommit(a: Action) { a.CommitReported? || a.CommitUnreported? }

  predicate IsInsert(a: Action) { a.InsertReported? || a.InsertUnreported? }

  /** Only a commit gives out a UID: the value of the counter, to the committing worker. No UID is ever taken back. */
  lemma UidEffect(dir: Directory, s: System, a: Action, v: nat)
    requires LocksOk(s) && Enabled(dir, s, a)
    ensures UidOf(Apply(dir, s, a), v) ==
            if IsCommit(a) && v == a.w
            then Some((s.workers[v].phase.mb, s.store.mailboxes[s.workers[v].phase.mb].uidNext)) else UidOf(s, v)
    ensures IsCommit(a) ==> UidOf(s, a.w) == None
  {
  }

  /** Only an insert adds a message, the inserting worker's. No message is ever changed or removed. */
  lemma MessageEffect(dir: Directory, s: System, a: Action, v: nat)
    requires Enabled(dir, s, a)
    ensures var r := Apply(dir, s, a);
            && MessageBy(r, v) ==
               (if IsInsert(a) && v == a.w then Some(r.store.messages[|s.store.messages|]) else MessageBy(s, v))
            && (IsInsert(a) ==> MessageBy(s, a.w) == None)
  {
  }

  lemma TableEffect(dir: Directory, s: System, a: Action)
    requires Enabled(dir, s, a)
    ensures var r := Apply(dir, s, a);
            && r.store.messages ==
               s.store.messages + (if IsInsert(a) then [r.store.messages[|s.store.messages|]] else [])
            && s.store.nextId <= r.store.nextId
            && (IsInsert(a) ==> r.store.messages[|s.store.messages|].id == s.store.nextId < r.store.nextId)
  {
  }

  lemma RowEffect(dir: Directory, s: System, a: Action)
    requires LocksOk(s) && Enabled(dir, s, a)
    ensures var r := Apply(dir, s, a);
            r.store.mailboxes ==
            if IsCommit(a) then
              var mb := s.workers[a.w].phase.mb;
              s.store.mailboxes[mb := s.store.mailboxes[mb].(uidNext := s.store.mailboxes[mb].uidNext + 1)]
            else s.store.mailboxes
    ensures IsCommit(a) ==> s.store.mailboxes[s.workers[a.w].phase.mb].uidNext < UID_MAX
  {
  }

  lemma KeepsRows(dir: Directory, origin: Store, s: System, a: Action)
    requires RowsOk(origin, s) && LocksOk(s) && Enabled(dir, s, a)
    ensures RowsOk(origin, Apply(dir, s, a))
  {
    RowEffect(dir, s, a);
  }

  lemma KeepsLocks(dir: Directory, s: System, a: Action)
    requires LocksOk(s) && Enabled(dir, s, a)
    ensures LocksOk(Apply(dir, s, a))
  {
    var r := Apply(dir, s, a);
    forall w | w in r.workers && InTransaction(r.workers[w].phase) ensures Guarded(r, w, r.workers[w].phase) {
    }
  }

  lemma KeepsUsed(dir: Directory, s: System, a: Action)
    requires LocksOk(s) && LocksUsed(s) && Enabled(dir, s, a)
    ensures LocksUsed(Apply(dir, s, a))
  {
    var r := Apply(dir, s, a);
    forall mb | mb in r.locks
      ensures var w := r.locks[mb]; w in r.workers && InTransaction(r.workers[w].phase) && r.workers[w].phase.mb == mb
    {
    }
  }

  lemma KeepsUids(dir: Directory, origin: Store, s: System, a: Action)
    requires RowsOk(origin, s) && LocksOk(s) && UidsOk(origin, s) && Enabled(dir, s, a)
    ensures UidsOk(origin, Apply(dir, s, a))
  {
    RowEffect(dir, s, a);
    forall w { UidEffect(dir, s, a, w); }
  }

  lemma KeepsOwners(dir: Directory, origin: Store, s: System, a: Action)
    requires LocksOk(s) && UidsOk(origin, s) && OwnersDistinct(s) && Enabled(dir, s, a)
    ensures OwnersDistinct(Apply(dir, s, a))
  {
    forall w { UidEffect(dir, s, a, w); }
  }

  lemma KeepsMessages(dir: Directory, s: System, a: Action)
    requires MessagesOk(s) && Enabled(dir, s, a)
    ensures MessagesOk(Apply(dir, s, a))
  {
    var r := Apply(dir, s, a);
    var n := |s.store.messages|;
    TableEffect(dir, s, a);
    forall i | 0 <= i < |r.store.messages| ensures Written(r, r.store.messages[i]) {
      if i < n {
        assert Written(s, s.store.messages[i]);
        var w :| MessageBy(s, w) == Some(s.store.messages[i]);
        MessageEffect(dir, s, a, w);
      } else {
        MessageEffect(dir, s, a, a.w);
      }
    }
    forall w | MessageBy(r, w).Some? ensures Has(r.store.messages, MessageBy(r, w).value) {
      MessageEffect(dir, s, a, w);
      if IsInsert(a) && w == a.w {
        assert r.store.messages[n] == MessageBy(r, w).value;
      } else {
        var i :| 0 <= i < n && s.store.messages[i] == MessageBy(s, w).value;
        assert r.store.messages[i] == MessageBy(r, w).value;
      }
    }
  }

  lemma KeepsIds(dir: Directory, s: System, a: Action)
    requires IdsOk(s) && Enabled(dir, s, a)
    ensures IdsOk(Apply(dir, s, a))
  {
    TableEffect(dir, s, a);
  }

  /** What a finished worker put into the cache stays its own. */
  lemma CachedStays(dir: Directory, s: System, a: Action, key: string, body: string, w: nat)
    requires Enabled(dir, s, a) && CachedBy(s, key, body, w)
    ensures CachedBy(Apply(dir, s, a), key, body, w)
  {
  }

  lemma CacheEffect(dir: Directory, s: System, a: Action, key: string)
    requires Enabled(dir, s, a) && key in Apply(dir, s, a).store.cache
    ensures var r := Apply(dir, s, a);
            || (a.Cache? && CachedBy(r, key, r.store.cache[key], a.w))
            || (key in s.store.cache && s.store.cache[key] == r.store.cache[key])
  {
  }

  lemma KeepsCache(dir: Directory, s: System, a: Action)
    requires CacheOk(s) && Enabled(dir, s, a)
    ensures CacheOk(Apply(dir, s, a))
  {
    var r := Apply(dir, s, a);
    forall key | key in r.store.cache ensures exists w :: CachedBy(r, key, r.store.cache[key], w) {
      CacheEffect(dir, s, a, key);
      if key in s.store.cache && s.store.cache[key] == r.store.cache[key] {
        var w :| CachedBy(s, key, s.store.cache[key], w);
        CachedStays(dir, s, a, key, s.store.cache[key], w);
      }
    }
  }

  lemma KeepsTargets(dir: Directory, s: System, a: Action)
    requires TargetsOk(dir, s) && Enabled(dir, s, a)
    ensures TargetsOk(dir, Apply(dir, s, a))
  {
  }

  /** Every step of every interleaving keeps the invariant. */
  lemma StepKeeps(dir: Directory, origin: Store, s: System, a: Action)
    requires Inv(dir, origin, s) && Enabled(dir, s, a)
    ensures Inv(dir, origin, Apply(dir, s, a))
  {
    KeepsRows(dir, origin, s, a);
    KeepsLocks(dir, s, a);
    KeepsUsed(dir, s, a);
    KeepsUids(dir, origin, s, a);
    KeepsOwners(dir, origin, s, a);
    KeepsMessages(dir, s, a);
    KeepsIds(dir, s, a);
    KeepsCache(dir, s, a);
    KeepsTargets(dir, s, a);
  }

  lemma {:induction false} RunKeeps(dir: Directory, origin: Store, s: System, run: seq<Action>)
    requires Inv(dir, origin, s) && ValidRun(dir, s, run)
    ensures Inv(dir, origin, Exec(dir, s, run))
    decreases |run|
  {
    if run != [] {
      StepKeeps(dir, origin, s, run[0]);
      RunKeeps(dir, origin, Apply(dir, s, run[0]), run[1..]);
    }
  }

  lemma {:induction false} InvAlong(dir: Directory, origin: Store, s: System, run: seq<Action>, k: nat)
    requires Inv(dir, origin, s) && ValidRun(dir, s, run) && k <= |run|
    ensures Inv(dir, origin, At(dir, s, run, k))
    decreases k
  {
    if k > 0 {
      InvAlong(dir, origin, s, run, k - 1);
      AtStep(dir, s, run, k - 1);
      StepKeeps(dir, origin, At(dir, s, run, k - 1), run[k - 1]);
    }
  }

  /** The invariant holds in every state reachable from an empty message table. */
  lemma ReachableInv(dir: Directory, s: System, run: seq<Action>)
    requires Initial(dir, s) && ValidRun(dir, s, run)
    ensures Inv(dir, s.store, Exec(dir, s, run))
  {
    InitialInv(dir, s);
    RunKeeps(dir, s.store, s, run);
  }
}
