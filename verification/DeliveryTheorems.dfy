/** What the delivery protocol guarantees in every reachable state and over every run. */
module DeliveryTheorems {
  import opened Text
  import opened Storage
  import opened MessageStore
  import opened DeliverySystem

  // ---- Unique UIDs, though no key of the table enforces it ----

  /** The owner of a stored message. */
  lemma Author(dir: Directory, origin: Store, s: System, i: nat) returns (w: nat)
    requires Inv(dir, origin, s) && i < |s.store.messages|
    ensures MessageBy(s, w) == Some(s.store.messages[i])
    ensures UidOf(s, w) == Some((s.store.messages[i].mailboxId, s.store.messages[i].uid))
  {
    assert Written(s, s.store.messages[i]);
    w :| MessageBy(s, w) == Some(s.store.messages[i]);
  }

  /** Every stored message is on record as its delivery gave it, in every field. */
  lemma StoredFields(dir: Directory, origin: Store, s: System, i: nat) returns (w: nat)
    requires Inv(dir, origin, s) && i < |s.store.messages|
    ensures w in s.workers && HasMessage(s.workers[w].phase)
    ensures var m, worker := s.store.messages[i], s.workers[w];
            && m.envelopeFrom == worker.mail.from && m.envelopeTo == worker.to && m.subject == worker.mail.subject
            && m.sizeBytes == |worker.mail.body| && m.flags == ""
            && m.id == worker.phase.id && m.mailboxId == worker.phase.mb && m.uid == worker.phase.uid
  {
    w := Author(dir, origin, s, i);
  }

  /** Stored and in-flight UIDs of a mailbox are pairwise distinct, positive and below the counter. */
  lemma UidsUnique(dir: Directory, origin: Store, s: System, mb: nat)
    requires Inv(dir, origin, s)
    ensures DistinctUids(s.store.messages, mb)
    ensures forall i | 0 <= i < |s.store.messages| && s.store.messages[i].mailboxId == mb ::
              mb in s.store.mailboxes && 1 <= s.store.messages[i].uid < s.store.mailboxes[mb].uidNext
    ensures forall w, i | w in s.workers && s.workers[w].phase.Allocated? && s.workers[w].phase.mb == mb
                          && 0 <= i < |s.store.messages| && s.store.messages[i].mailboxId == mb ::
              s.workers[w].phase.uid != s.store.messages[i].uid
    ensures forall v, w | v in s.workers && w in s.workers && v != w && s.workers[v].phase.Allocated?
            && s.workers[w].phase.Allocated?
                          && s.workers[v].phase.mb == mb == s.workers[w].phase.mb ::
              s.workers[v].phase.uid != s.workers[w].phase.uid
  {
    var ms := s.store.messages;
    forall i, j | 0 <= i < j < |ms| && ms[i].mailboxId == mb == ms[j].mailboxId ensures ms[i].uid != ms[j].uid {
      var v := Author(dir, origin, s, i);
      var w := Author(dir, origin, s, j);
      assert ms[i].id < ms[j].id;
      assert UidOf(s, v) != UidOf(s, w);
    }
    forall i | 0 <= i < |ms| && ms[i].mailboxId == mb
      ensures mb in s.store.mailboxes && 1 <= ms[i].uid < s.store.mailboxes[mb].uidNext
    {
      var w := Author(dir, origin, s, i);
    }
    forall w, i | w in s.workers && s.workers[w].phase.Allocated? && s.workers[w].phase.mb == mb
                  && 0 <= i < |ms| && ms[i].mailboxId == mb
      ensures s.workers[w].phase.uid != ms[i].uid
    {
      var v := Author(dir, origin, s, i);
      assert UidOf(s, v) != UidOf(s, w);
    }
    forall v, w | v in s.workers && w in s.workers && v != w && s.workers[v].phase.Allocated?
        && s.workers[w].phase.Allocated?
                  && s.workers[v].phase.mb == mb == s.workers[w].phase.mb
      ensures s.workers[v].phase.uid != s.workers[w].phase.uid
    {
      assert UidOf(s, v) != UidOf(s, w);
    }
  }

  /** Listings ascend strictly, and looking up a UID agrees with the listing. */
  lemma ListingsAscend(dir: Directory, origin: Store, s: System, mb: nat, uid: nat)
    requires Inv(dir, origin, s)
    ensures Ascending(Listing(s.store.messages, mb))
    ensures var r, list := GetMessageByUID(s.store.messages, mb, uid), Listing(s.store.messages, mb);
            && (r.Some? ==> exists i | 0 <= i < |list| ::
                 list[i] == r.value && list[i].uid == uid && forall j | 0 <= j < |list| && list[j].uid == uid :: j == i)
            && (r.None? <==> forall i | 0 <= i < |list| :: list[i].uid != uid)
  {
    UidsUnique(dir, origin, s, mb);
    ListingAscends(s.store.messages, mb);
    GetAgreesWithListing(s.store.messages, mb, uid);
  }

  // ---- Allocation is an atomic fetch-and-increment ----

  /** The specification: a counter per mailbox, and what each caller has been given. */
  datatype Counters = Counters(next: map<nat, nat>, returned: map<nat, (nat, nat)>)

  ghost predicate FetchAndIncrement(c: Counters, c': Counters, mb: nat, w: nat) {
    && mb in c.next && 1 <= c.next[mb] < UID_MAX && w !in c.returned
    && c' == Counters(c.next[mb := c.next[mb] + 1], c.returned[w := (mb, c.next[mb])])
  }

  /** A value is consumed, but its caller was told of an error. */
  ghost predicate Lose(c: Counters, c': Counters, mb: nat) {
    mb in c.next && 1 <= c.next[mb] < UID_MAX && c' == c.(next := c.next[mb := c.next[mb] + 1])
  }

  ghost predicate AtomicStep(c: Counters, c': Counters) {
    c == c' || (exists mb, w :: FetchAndIncrement(c, c', mb, w)) || (exists mb :: Lose(c, c', mb))
  }

  function Given(s: System, w: nat): Option<(nat, nat)> {
    if w in s.workers && s.workers[w].phase.Burned? then None else UidOf(s, w)
  }

  function Abstract(s: System): Counters {
    Counters(map mb | mb in s.store.mailboxes :: s.store.mailboxes[mb].uidNext,
             map w | w in s.workers && Given(s, w).Some? :: Given(s, w).value)
  }

  lemma GivenEffect(dir: Directory, s: System, a: Action, v: nat)
    requires LocksOk(s) && Enabled(dir, s, a)
    ensures Given(Apply(dir, s, a), v) ==
            if a.CommitReported? && v == a.w
            then Some((s.workers[v].phase.mb, s.store.mailboxes[s.workers[v].phase.mb].uidNext)) else Given(s, v)
    ensures IsCommit(a) ==> Given(s, a.w) == None
  {
    UidEffect(dir, s, a, v);
  }

  lemma NextEffect(dir: Directory, s: System, a: Action)
    requires LocksOk(s) && Enabled(dir, s, a)
    ensures var next := Abstract(s).next;
            Abstract(Apply(dir, s, a)).next ==
            if IsCommit(a) then var mb := s.workers[a.w].phase.mb; next[mb := next[mb] + 1] else next
  {
    RowEffect(dir, s, a);
  }

  lemma ReturnedEffect(dir: Directory, s: System, a: Action)
    requires LocksOk(s) && Enabled(dir, s, a)
    ensures var c := Abstract(s);
            Abstract(Apply(dir, s, a)).returned ==
            if a.CommitReported?
            then c.returned[a.w := (s.workers[a.w].phase.mb, c.next[s.workers[a.w].phase.mb])] else c.returned
  {
    var was, now := Abstract(s).returned, Abstract(Apply(dir, s, a)).returned;
    forall v ensures v in now <==> (v in was || (a.CommitReported? && v == a.w)) {
      GivenEffect(dir, s, a, v);
    }
    forall v | v in now ensures now[v] == Given(Apply(dir, s, a), v).value {
    }
    forall v { GivenEffect(dir, s, a, v); }
  }

  lemma Atomic(c: Counters, c': Counters, mb: nat, w: nat, reported: bool)
    requires mb in c.next && 1 <= c.next[mb] < UID_MAX && w !in c.returned
    requires c'.next == c.next[mb := c.next[mb] + 1]
    requires c'.returned == if reported then c.returned[w := (mb, c.next[mb])] else c.returned
    ensures AtomicStep(c, c')
  {
    if reported {
      assert FetchAndIncrement(c, c', mb, w);
    } else {
      assert Lose(c, c', mb);
    }
  }

  lemma CommitReady(dir: Directory, origin: Store, s: System, a: Action)
    requires RowsOk(origin, s) && LocksOk(s) && Enabled(dir, s, a) && IsCommit(a)
    ensures var c, mb := Abstract(s), s.workers[a.w].phase.mb;
            mb in c.next && 1 <= c.next[mb] < UID_MAX && a.w !in c.returned
  {
    RowEffect(dir, s, a);
    GivenEffect(dir, s, a, a.w);
  }

  /** Each step of the protocol is a step of the counters, or none. */
  lemma StepRefines(dir: Directory, origin: Store, s: System, a: Action)
    requires Inv(dir, origin, s) && Enabled(dir, s, a)
    ensures AtomicStep(Abstract(s), Abstract(Apply(dir, s, a)))
  {
    if IsCommit(a) {
      CommitRefines(dir, origin, s, a);
    } else {
      OtherStutters(dir, s, a);
    }
  }

  lemma CommitRefines(dir: Directory, origin: Store, s: System, a: Action)
    requires RowsOk(origin, s) && LocksOk(s) && Enabled(dir, s, a) && IsCommit(a)
    ensures AtomicStep(Abstract(s), Abstract(Apply(dir, s, a)))
  {
    NextEffect(dir, s, a);
    ReturnedEffect(dir, s, a);
    CommitReady(dir, origin, s, a);
    Atomic(Abstract(s), Abstract(Apply(dir, s, a)), s.workers[a.w].phase.mb, a.w, a.CommitReported?);
  }

  lemma OtherStutters(dir: Directory, s: System, a: Action)
    requires LocksOk(s) && Enabled(dir, s, a) && !IsCommit(a)
    ensures Abstract(Apply(dir, s, a)) == Abstract(s)
  {
    NextEffect(dir, s, a);
    ReturnedEffect(dir, s, a);
  }

  /** Refinement: every interleaving of lock, read, update, commit and rollback steps looks, state by state, like atomic
      steps of the counters. */
  lemma RunRefines(dir: Directory, origin: Store, s: System, run: seq<Action>)
    requires Inv(dir, origin, s) && ValidRun(dir, s, run)
    ensures At(dir, s, run, 0) == s && At(dir, s, run, |run|) == Exec(dir, s, run)
    ensures forall i | 0 <= i < |run| :: AtomicStep(Abstract(At(dir, s, run, i)), Abstract(At(dir, s, run, i + 1)))
  {
    AtEnd(dir, s, run);
    forall i | 0 <= i < |run| ensures AtomicStep(Abstract(At(dir, s, run, i)), Abstract(At(dir, s, run, i + 1))) {
      RefinesAt(dir, origin, s, run, i);
    }
  }

  lemma RefinesAt(dir: Directory, origin: Store, s: System, run: seq<Action>, i: nat)
    requires Inv(dir, origin, s) && ValidRun(dir, s, run) && i < |run|
    ensures AtomicStep(Abstract(At(dir, s, run, i)), Abstract(At(dir, s, run, i + 1)))
  {
    InvAlong(dir, origin, s, run, i);
    AtStep(dir, s, run, i);
    StepRefines(dir, origin, At(dir, s, run, i), run[i]);
  }

  lemma {:induction false} CountersGrow(dir: Directory, origin: Store, s: System, run: seq<Action>, mb: nat)
    requires Inv(dir, origin, s) && ValidRun(dir, s, run) && mb in s.store.mailboxes
    ensures mb in Exec(dir, s, run).store.mailboxes
    ensures s.store.mailboxes[mb].uidNext <= Exec(dir, s, run).store.mailboxes[mb].uidNext
    decreases |run|
  {
    if run != [] {
      RowEffect(dir, s, run[0]);
      StepKeeps(dir, origin, s, run[0]);
      CountersGrow(dir, origin, Apply(dir, s, run[0]), run[1..], mb);
    }
  }

  /** UIDs increase strictly in commit order and stay within 1..2^32-2, whatever happens between two commits
      on the same mailbox. */
  lemma CommitOrder(dir: Directory, origin: Store, s: System, v: nat, between: seq<Action>, w: nat)
    requires Inv(dir, origin, s) && Enabled(dir, s, CommitReported(v))
    requires ValidRun(dir, Apply(dir, s, CommitReported(v)), between)
    requires Enabled(dir, Exec(dir, Apply(dir, s, CommitReported(v)), between), CommitReported(w))
    ensures var s1 := Apply(dir, s, CommitReported(v));
            var s2 := Exec(dir, s1, between);
            var s3 := Apply(dir, s2, CommitReported(w));
            && UidOf(s1, v).Some? && UidOf(s3, w).Some?
            && (UidOf(s1, v).value.0 == UidOf(s3, w).value.0 ==>
                 1 <= UidOf(s1, v).value.1 < UidOf(s3, w).value.1 <= 4294967294)
  {
    var s1 := Apply(dir, s, CommitReported(v));
    var s2 := Exec(dir, s1, between);
    var mb := s.workers[v].phase.mb;
    UidEffect(dir, s, CommitReported(v), v);
    RowEffect(dir, s, CommitReported(v));
    StepKeeps(dir, origin, s, CommitReported(v));
    CountersGrow(dir, origin, s1, between, mb);
    RunKeeps(dir, origin, s1, between);
    UidEffect(dir, s2, CommitReported(w), w);
    RowEffect(dir, s2, CommitReported(w));
  }

  // ---- Conservation: where every UID went ----

  ghost function HoldersOf(s: System, mb: nat): set<nat> {
    set w | w in s.workers && Holds(s.workers[w].phase) && s.workers[w].phase.mb == mb
  }

  ghost function WritersOf(s: System, mb: nat): set<nat> {
    set w | w in s.workers && HasMessage(s.workers[w].phase) && s.workers[w].phase.mb == mb
  }

  /** UIDs returned, their messages not yet inserted. */
  ghost function InFlightOf(s: System, mb: nat): set<nat> {
    set w | w in s.workers && s.workers[w].phase.Allocated? && s.workers[w].phase.mb == mb
  }

  /** UIDs consumed that will never have a message. */
  ghost function LostOf(s: System, mb: nat): set<nat> {
    set w | w in s.workers && (s.workers[w].phase.Wasted? || s.workers[w].phase.Burned?) && s.workers[w].phase.mb == mb
  }

  function CountIn(messages: seq<Message>, mb: nat): nat {
    if messages == [] then 0 else
      CountIn(messages[..|messages| - 1], mb) + if messages[|messages| - 1].mailboxId == mb then 1 else 0
  }

  /** As many owners as the counter has moved, as many authors as there are messages, and every UID has its owner. */
  ghost predicate Counted(origin: Store, s: System, mb: nat)
    requires mb in s.store.mailboxes && mb in origin.mailboxes
  {
    && |HoldersOf(s, mb)| == s.store.mailboxes[mb].uidNext - origin.mailboxes[mb].uidNext
    && |WritersOf(s, mb)| == CountIn(s.store.messages, mb)
    && forall uid | origin.mailboxes[mb].uidNext <= uid < s.store.mailboxes[mb].uidNext :: Accounted(s, mb, uid)
  }

  ghost predicate Accounted(s: System, mb: nat, uid: nat) {
    exists w :: UidOf(s, w) == Some((mb, uid))
  }

  lemma HoldersEffect(dir: Directory, s: System, a: Action, mb: nat)
    requires LocksOk(s) && Enabled(dir, s, a)
    ensures var added := if IsCommit(a) && s.workers[a.w].phase.mb == mb then {a.w} else {};
            HoldersOf(Apply(dir, s, a), mb) == HoldersOf(s, mb) + added && HoldersOf(s, mb) !! added
  {
    var r := Apply(dir, s, a);
    forall v ensures v in HoldersOf(s, mb) <==> (UidOf(s, v).Some? && UidOf(s, v).value.0 == mb) {
    }
    forall v
      ensures v in HoldersOf(r, mb)
              <==> v in HoldersOf(s, mb) || (IsCommit(a) && v == a.w && s.workers[a.w].phase.mb == mb)
    {
      UidEffect(dir, s, a, v);
    }
    if IsCommit(a) {
      UidEffect(dir, s, a, a.w);
    }
  }

  lemma WritersEffect(dir: Directory, s: System, a: Action, mb: nat)
    requires Enabled(dir, s, a)
    ensures var added := if IsInsert(a) && s.workers[a.w].phase.mb == mb then {a.w} else {};
            WritersOf(Apply(dir, s, a), mb) == WritersOf(s, mb) + added && WritersOf(s, mb) !! added
  {
    var r := Apply(dir, s, a);
    forall v
      ensures v in WritersOf(r, mb)
              <==> v in WritersOf(s, mb) || (IsInsert(a) && v == a.w && s.workers[a.w].phase.mb == mb)
    {
      MessageEffect(dir, s, a, v);
    }
    if IsInsert(a) {
      MessageEffect(dir, s, a, a.w);
    }
  }

  lemma CountEffect(dir: Directory, s: System, a: Action, mb: nat)
    requires Enabled(dir, s, a)
    ensures CountIn(Apply(dir, s, a).store.messages, mb) ==
            CountIn(s.store.messages, mb) + if IsInsert(a) && s.workers[a.w].phase.mb == mb then 1 else 0
  {
    if IsInsert(a) {
      var ms := Apply(dir, s, a).store.messages;
      assert ms[..|ms| - 1] == s.store.messages;
    }
  }

  lemma AccountedEffect(dir: Directory, s: System, a: Action, mb: nat, uid: nat)
    requires LocksOk(s) && Enabled(dir, s, a) && mb in s.store.mailboxes
    requires uid < s.store.mailboxes[mb].uidNext ==> Accounted(s, mb, uid)
    ensures mb in Apply(dir, s, a).store.mailboxes
    ensures uid < Apply(dir, s, a).store.mailboxes[mb].uidNext ==> Accounted(Apply(dir, s, a), mb, uid)
  {
    RowEffect(dir, s, a);
    if Accounted(s, mb, uid) {
      var w :| UidOf(s, w) == Some((mb, uid));
      UidEffect(dir, s, a, w);
    } else if IsCommit(a) {
      UidEffect(dir, s, a, a.w);
    }
  }

  lemma AllAccounted(dir: Directory, origin: Store, s: System, a: Action, mb: nat)
    requires LocksOk(s) && Enabled(dir, s, a) && mb in s.store.mailboxes && mb in origin.mailboxes
             && Counted(origin, s, mb)
    ensures mb in Apply(dir, s, a).store.mailboxes
    ensures forall uid | origin.mailboxes[mb].uidNext <= uid < Apply(dir, s, a).store.mailboxes[mb].uidNext ::
              Accounted(Apply(dir, s, a), mb, uid)
  {
    RowEffect(dir, s, a);
    forall uid: nat | origin.mailboxes[mb].uidNext <= uid < Apply(dir, s, a).store.mailboxes[mb].uidNext
      ensures Accounted(Apply(dir, s, a), mb, uid)
    {
      AccountedEffect(dir, s, a, mb, uid);
    }
  }

  lemma HoldersCount(dir: Directory, s: System, a: Action, mb: nat)
    requires LocksOk(s) && Enabled(dir, s, a) && mb in s.store.mailboxes
    ensures var r := Apply(dir, s, a);
            && mb in r.store.mailboxes
            && |HoldersOf(r, mb)| - |HoldersOf(s, mb)| == r.store.mailboxes[mb].uidNext - s.store.mailboxes[mb].uidNext
  {
    RowEffect(dir, s, a);
    HoldersEffect(dir, s, a, mb);
  }

  lemma WritersCount(dir: Directory, s: System, a: Action, mb: nat)
    requires Enabled(dir, s, a)
    ensures var r := Apply(dir, s, a);
            |WritersOf(r, mb)| - |WritersOf(s, mb)| == CountIn(r.store.messages, mb) - CountIn(s.store.messages, mb)
  {
    WritersEffect(dir, s, a, mb);
    CountEffect(dir, s, a, mb);
  }

  lemma StepCounts(dir: Directory, origin: Store, s: System, a: Action, mb: nat)
    requires LocksOk(s) && Enabled(dir, s, a) && mb in s.store.mailboxes && mb in origin.mailboxes
             && Counted(origin, s, mb)
    ensures mb in Apply(dir, s, a).store.mailboxes && Counted(origin, Apply(dir, s, a), mb)
  {
    HoldersCount(dir, s, a, mb);
    WritersCount(dir, s, a, mb);
    AllAccounted(dir, origin, s, a, mb);
  }

  lemma {:induction false} RunCounts(dir: Directory, origin: Store, s: System, run: seq<Action>, mb: nat)
    requires Inv(dir, origin, s) && ValidRun(dir, s, run) && mb in s.store.mailboxes && Counted(origin, s, mb)
    ensures mb in Exec(dir, s, run).store.mailboxes && Counted(origin, Exec(dir, s, run), mb)
    decreases |run|
  {
    if run != [] {
      StepCounts(dir, origin, s, run[0], mb);
      StepKeeps(dir, origin, s, run[0]);
      RunCounts(dir, origin, Apply(dir, s, run[0]), run[1..], mb);
    }
  }

  lemma HoldersSplit(s: System, mb: nat)
    ensures |HoldersOf(s, mb)| == |WritersOf(s, mb)| + |InFlightOf(s, mb)| + |LostOf(s, mb)|
  {
    var writers, flying, lost := WritersOf(s, mb), InFlightOf(s, mb), LostOf(s, mb);
    assert HoldersOf(s, mb) == writers + flying + lost;
    assert writers !! flying && writers + flying !! lost;
  }

  /** UID conservation, in every reachable state: what the counter has moved is the messages stored, the UIDs in flight
      and the UIDs consumed without a message; and every UID below the counter has its owner. */
  lemma UidConservation(dir: Directory, s0: System, run: seq<Action>, mb: nat)
    requires Initial(dir, s0) && ValidRun(dir, s0, run) && mb in s0.store.mailboxes
    ensures var s := Exec(dir, s0, run);
            && mb in s.store.mailboxes
            && s.store.mailboxes[mb].uidNext - s0.store.mailboxes[mb].uidNext
               == CountIn(s.store.messages, mb) + |InFlightOf(s, mb)| + |LostOf(s, mb)|
            && forall uid | s0.store.mailboxes[mb].uidNext <= uid < s.store.mailboxes[mb].uidNext ::
               Accounted(s, mb, uid)
  {
    InitialInv(dir, s0);
    assert HoldersOf(s0, mb) == {} && WritersOf(s0, mb) == {};
    RunCounts(dir, s0.store, s0, run, mb);
    HoldersSplit(Exec(dir, s0, run), mb);
  }

  // ---- Late arrivals ----

  /** The UID was this worker's already, or lies at or above the earlier counter. */
  ghost predicate UidKept(s: System, t: System, w: nat)
    requires UidOf(t, w).Some?
  {
    || UidOf(s, w) == UidOf(t, w)
    || (var (mb, uid) := UidOf(t, w).value;
        mb in s.store.mailboxes && s.store.mailboxes[mb].uidNext <= uid && UidOf(s, w).None?)
  }

  /** A worker whose delivery ended without a message. */
  predicate Over(s: System, w: nat) {
    w in s.workers && (s.workers[w].phase.Wasted? || s.workers[w].phase.Burned?)
  }

  /** What can have happened between `s` and a later state `t`. */
  ghost predicate Later(s: System, t: System) {
    && s.store.messages <= t.store.messages
    && (forall mb | mb in s.store.mailboxes ::
          mb in t.store.mailboxes && s.store.mailboxes[mb].uidNext <= t.store.mailboxes[mb].uidNext)
    && (forall w | UidOf(s, w).Some? :: UidOf(t, w) == UidOf(s, w))
    && (forall w | UidOf(t, w).Some? :: UidKept(s, t, w))
    && (forall w | MessageBy(s, w).Some? :: MessageBy(t, w) == MessageBy(s, w))
    && (forall w | Over(s, w) :: Over(t, w))
  }

  lemma OverEffect(dir: Directory, s: System, a: Action, w: nat)
    requires Enabled(dir, s, a) && Over(s, w)
    ensures Over(Apply(dir, s, a), w)
  {
  }

  lemma StepLater(dir: Directory, s: System, t: System, a: Action)
    requires Later(s, t) && LocksOk(t) && Enabled(dir, t, a) && s.store.mailboxes.Keys == t.store.mailboxes.Keys
    ensures Later(s, Apply(dir, t, a))
  {
    var u := Apply(dir, t, a);
    TableEffect(dir, t, a);
    RowEffect(dir, t, a);
    forall w | UidOf(u, w).Some? ensures UidKept(s, u, w) {
      UidEffect(dir, t, a, w);
    }
    forall w | UidOf(s, w).Some? ensures UidOf(u, w) == UidOf(s, w) {
      UidEffect(dir, t, a, w);
    }
    forall w | MessageBy(s, w).Some? ensures MessageBy(u, w) == MessageBy(s, w) {
      MessageEffect(dir, t, a, w);
    }
    forall w | Over(s, w) ensures Over(u, w) {
      OverEffect(dir, t, a, w);
    }
  }

  lemma {:induction false} RunLater(dir: Directory, origin: Store, s: System, t: System, run: seq<Action>)
    requires Inv(dir, origin, s) && Inv(dir, origin, t) && Later(s, t) && ValidRun(dir, t, run)
    ensures Later(s, Exec(dir, t, run))
    decreases |run|
  {
    if run != [] {
      StepLater(dir, s, t, run[0]);
      StepKeeps(dir, origin, t, run[0]);
      RunLater(dir, origin, s, Apply(dir, t, run[0]), run[1..]);
    }
  }

  /** Late arrivals: a message that appears after an observer saw the counter at `n`, with a UID below `n`, was in
      flight at that moment: its UID allocated, its insert outstanding. */
  lemma LateArrivals(dir: Directory, origin: Store, s: System, run: seq<Action>, i: nat)
    requires Inv(dir, origin, s) && ValidRun(dir, s, run)
    requires |s.store.messages| <= i < |Exec(dir, s, run).store.messages|
    ensures var m := Exec(dir, s, run).store.messages[i];
            && m.mailboxId in s.store.mailboxes
            && (m.uid < s.store.mailboxes[m.mailboxId].uidNext ==>
                 exists w :: w in s.workers && s.workers[w].phase == Allocated(m.mailboxId, m.uid))
  {
    RunLater(dir, origin, s, s, run);
    RunKeeps(dir, origin, s, run);
    var w := Author(dir, origin, Exec(dir, s, run), i);
    WasInFlight(dir, origin, s, Exec(dir, s, run), i, w);
  }

  lemma WasInFlight(dir: Directory, origin: Store, s: System, t: System, i: nat, w: nat)
    requires MessagesOk(s) && UidsOk(origin, t) && IdsOk(t) && Later(s, t)
             && t.store.mailboxes.Keys == s.store.mailboxes.Keys
    requires |s.store.messages| <= i < |t.store.messages| && MessageBy(t, w) == Some(t.store.messages[i])
    ensures var m := t.store.messages[i];
            && m.mailboxId in s.store.mailboxes
            && (m.uid < s.store.mailboxes[m.mailboxId].uidNext ==>
                 exists w :: w in s.workers && s.workers[w].phase == Allocated(m.mailboxId, m.uid))
  {
    var m := t.store.messages[i];
    assert UidOf(t, w) == Some((m.mailboxId, m.uid));
    assert UidKept(s, t, w);
    if m.uid < s.store.mailboxes[m.mailboxId].uidNext {
      NewAuthor(dir, origin, s, t, i, w);
      assert !Over(t, w) && s.workers[w].phase == Allocated(m.mailboxId, m.uid);
    }
  }

  /** The author of a new message had none before. */
  lemma NewAuthor(dir: Directory, origin: Store, s: System, t: System, i: nat, w: nat)
    requires MessagesOk(s) && IdsOk(t) && Later(s, t) && |s.store.messages| <= i < |t.store.messages|
    requires MessageBy(t, w) == Some(t.store.messages[i])
    ensures MessageBy(s, w) == None
  {
  }

  /** With nothing in flight, the listing an observer saw is a prefix of every later one: positions already numbered
      keep their messages. */
  lemma StableNumbering(dir: Directory, origin: Store, s: System, run: seq<Action>, mb: nat)
    requires Inv(dir, origin, s) && ValidRun(dir, s, run)
    requires InFlightOf(s, mb) == {}
    ensures Listing(s.store.messages, mb) <= Listing(Exec(dir, s, run).store.messages, mb)
  {
    RunLater(dir, origin, s, s, run);
    var before, now := s.store.messages, Exec(dir, s, run).store.messages;
    forall k | |before| <= k < |now| && now[k].mailboxId == mb
      ensures mb in s.store.mailboxes && s.store.mailboxes[mb].uidNext <= now[k].uid
    {
      ArrivesAbove(dir, origin, s, run, k);
    }
    forall i | 0 <= i < |Listing(before, mb)|
      ensures mb in s.store.mailboxes && Listing(before, mb)[i].uid < s.store.mailboxes[mb].uidNext
    {
      ListedBelow(dir, origin, s, mb, i);
    }
    PrefixBelow(before, now, mb, if mb in s.store.mailboxes then s.store.mailboxes[mb].uidNext else 0);
  }

  /** A listing below a bound stays a prefix when all that arrives is at or above the bound. */
  lemma PrefixBelow(before: seq<Message>, now: seq<Message>, mb: nat, bound: nat)
    requires before <= now
    requires forall i | 0 <= i < |Listing(before, mb)| :: Listing(before, mb)[i].uid < bound
    requires forall k | |before| <= k < |now| && now[k].mailboxId == mb :: bound <= now[k].uid
    ensures Listing(before, mb) <= Listing(now, mb)
  {
    var added := now[|before|..];
    assert now == before + added;
    ListingPrefix(before, added, mb);
  }

  lemma ArrivesAbove(dir: Directory, origin: Store, s: System, run: seq<Action>, k: nat)
    requires Inv(dir, origin, s) && ValidRun(dir, s, run)
    requires |s.store.messages| <= k < |Exec(dir, s, run).store.messages|
    requires InFlightOf(s, Exec(dir, s, run).store.messages[k].mailboxId) == {}
    ensures var m := Exec(dir, s, run).store.messages[k];
            m.mailboxId in s.store.mailboxes && s.store.mailboxes[m.mailboxId].uidNext <= m.uid
  {
    LateArrivals(dir, origin, s, run, k);
    AddedAbove(s, Exec(dir, s, run).store.messages[k]);
  }

  lemma AddedAbove(s: System, m: Message)
    requires m.mailboxId in s.store.mailboxes && InFlightOf(s, m.mailboxId) == {}
    requires m.uid < s.store.mailboxes[m.mailboxId].uidNext ==>
               exists w :: w in s.workers && s.workers[w].phase == Allocated(m.mailboxId, m.uid)
    ensures m.uid >= s.store.mailboxes[m.mailboxId].uidNext
  {
    assert forall w | w in s.workers && s.workers[w].phase == Allocated(m.mailboxId, m.uid) ::
           w in InFlightOf(s, m.mailboxId);
  }

  lemma ListedBelow(dir: Directory, origin: Store, s: System, mb: nat, i: nat)
    requires Inv(dir, origin, s) && i < |Listing(s.store.messages, mb)|
    ensures mb in s.store.mailboxes && Listing(s.store.messages, mb)[i].uid < s.store.mailboxes[mb].uidNext
  {
    var m := Listing(s.store.messages, mb)[i];
    assert Has(Listing(s.store.messages, mb), m);
    ListingHas(s.store.messages, mb, m);
    var k :| 0 <= k < |s.store.messages| && s.store.messages[k] == m;
    var w := Author(dir, origin, s, k);
  }

  // ---- The cache agrees with what was delivered ----

  /** A body found in the cache is the body delivered with the message of that id, and has the recorded size. */
  lemma CacheAgreement(dir: Directory, origin: Store, s: System, id: nat) returns (i: nat, w: nat)
    requires Inv(dir, origin, s) && GetMessageBody(s.store.cache, id).Some?
    ensures i < |s.store.messages| && s.store.messages[i].id == id
    ensures MessageBy(s, w) == Some(s.store.messages[i])
    ensures GetMessageBody(s.store.cache, id) == Some(s.workers[w].mail.body)
    ensures s.store.messages[i].sizeBytes == |s.workers[w].mail.body|
  {
    var key := BodyKey(id);
    w :| CachedBy(s, key, s.store.cache[key], w);
    BodyKeyInjective(id, s.workers[w].phase.id);
    assert MessageBy(s, w).Some? && Has(s.store.messages, MessageBy(s, w).value);
    i :| 0 <= i < |s.store.messages| && s.store.messages[i] == MessageBy(s, w).value;
  }

  /** A body can be read from the moment it is cached until it is evicted; nothing else changes what can be read. */
  lemma CachedBodyEffect(dir: Directory, s: System, a: Action, id: nat)
    requires Enabled(dir, s, a)
    ensures GetMessageBody(Apply(dir, s, a).store.cache, id) ==
            if a.Cache? && s.workers[a.w].phase.id == id then Some(s.workers[a.w].mail.body)
            else if a.Evict? && a.key == BodyKey(id) then None
            else GetMessageBody(s.store.cache, id)
  {
    if a.Cache? {
      CacheReadBack(s.store.cache, s.workers[a.w].phase.id, s.workers[a.w].mail.body, id);
    }
  }

  /** Whatever can go wrong can go wrong at any time: cached bodies vanish, ids are lost, a delivery fails before its
      commit, a commit and an insert take effect or not and are reported or not, and caching fails. */
  lemma AnythingCanFail(dir: Directory, s: System, w: nat, key: string)
    ensures Enabled(dir, s, Evict(key)) && Enabled(dir, s, SkipId)
    ensures w in s.workers ==>
              var p := s.workers[w].phase;
              && (p.Fresh? || p.Begun? || p.Locked? || p.Updated? <==> Enabled(dir, s, Abort(w)))
              && (p.Updated? && p.mb in s.store.mailboxes
                  <==> Enabled(dir, s, CommitReported(w)) && Enabled(dir, s, Action.CommitUnreported(w)))
              && (p.Allocated? <==> Enabled(dir, s, InsertReported(w)))
              && (p.Allocated? <==> Enabled(dir, s, Action.InsertUnreported(w)))
              && (p.Allocated? <==> Enabled(dir, s, InsertFails(w)))
              && (p.Stored? <==> Enabled(dir, s, Cache(w)) && Enabled(dir, s, CacheFails(w)))
  {
  }

  /** A transaction waits for the row exactly while another holds it, and updates it exactly within the column's 32
      bits. */
  lemma LockExact(dir: Directory, s: System, w: nat)
    requires w in s.workers
    ensures var p := s.workers[w].phase;
            && (Enabled(dir, s, Lock(w)) <==> p.Begun? && p.mb in s.store.mailboxes && p.mb !in s.locks)
            && (Enabled(dir, s, Update(w))
                <==> p.Locked? && p.mb in s.store.mailboxes && s.store.mailboxes[p.mb].uidNext < 4294967295)
            && (Enabled(dir, s, Begin(w)) <==> p.Fresh? && ResolveInbox(dir, s.workers[w].to).Some?)
  {
  }

  /** A transaction that does not commit leaves the store as it was and frees the row. */
  lemma RollbackEffect(dir: Directory, s: System, w: nat)
    requires Enabled(dir, s, Abort(w))
    ensures Apply(dir, s, Abort(w)).store == s.store
    ensures InTransaction(s.workers[w].phase) ==> s.workers[w].phase.mb !in Apply(dir, s, Abort(w)).locks
  {
  }

  /** Ids name one message and one author, so the body above is the only candidate. */
  lemma OneAuthor(dir: Directory, origin: Store, s: System, v: nat, w: nat)
    requires Inv(dir, origin, s) && MessageBy(s, v).Some? && MessageBy(s, w).Some?
    requires MessageBy(s, v).value.id == MessageBy(s, w).value.id
    ensures v == w
  {
    var i :| 0 <= i < |s.store.messages| && s.store.messages[i] == MessageBy(s, v).value;
    var j :| 0 <= j < |s.store.messages| && s.store.messages[j] == MessageBy(s, w).value;
    assert i == j;
    assert UidOf(s, v) == UidOf(s, w);
  }
}
