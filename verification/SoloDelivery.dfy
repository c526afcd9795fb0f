/** The two descriptions of a delivery agree: what one recipient's delivery does when run alone is a run of
    the concurrent system by one fresh worker. */
module SoloDelivery {
  import opened Text
  import opened Storage
  import opened MessageStore
  import opened DeliverySystem

  lemma {:induction false} RunAppend(dir: Directory, s: System, first: seq<Action>, second: seq<Action>)
    requires ValidRun(dir, s, first) && ValidRun(dir, Exec(dir, s, first), second)
    ensures ValidRun(dir, s, first + second)
    ensures Exec(dir, s, first + second) == Exec(dir, Exec(dir, s, first), second)
    decreases |first|
  {
    if first == [] {
      assert first + second == second;
    } else {
      assert (first + second)[1..] == first[1..] + second;
      RunAppend(dir, Apply(dir, s, first[0]), first[1..], second);
    }
  }

  lemma OneStep(dir: Directory, s: System, a: Action)
    requires Enabled(dir, s, a)
    ensures ValidRun(dir, s, [a]) && Exec(dir, s, [a]) == Apply(dir, s, a)
  {
    assert [a][1..] == [];
    assert ValidRun(dir, Apply(dir, s, a), []);
  }

  lemma OneMoreStep(dir: Directory, s: System, run: seq<Action>, a: Action)
    requires ValidRun(dir, s, run) && Enabled(dir, Exec(dir, s, run), a)
    ensures ValidRun(dir, s, run + [a]) && Exec(dir, s, run + [a]) == Apply(dir, Exec(dir, s, run), a)
  {
    OneStep(dir, Exec(dir, s, run), a);
    RunAppend(dir, s, run, [a]);
  }

  /** Lookup: the worker stands at the mailbox, or the delivery is over. */
  lemma Arrives(dir: Directory, s: System, w: nat, mail: Mail, to: string) returns (run: seq<Action>)
    requires w !in s.workers && ResolveInbox(dir, to).Some?
    ensures ValidRun(dir, s, run)
    ensures Exec(dir, s, run) == s.(workers := s.workers[w := Worker(mail, to, Begun(ResolveInbox(dir, to).value))])
  {
    OneStep(dir, s, Start(w, mail, to));
    run := [Start(w, mail, to)];
    OneMoreStep(dir, s, run, Begin(w));
    run := run + [Begin(w)];
  }

  /** The transaction, from an unlocked row. */
  lemma Allocates(dir: Directory, s: System, w: nat, mb: nat, faults: Faults) returns (run: seq<Action>)
    requires w in s.workers && s.workers[w].phase == Begun(mb) && mb !in s.locks
    ensures ValidRun(dir, s, run)
    ensures var (store, uid) := Allocate(s.store, mb, faults);
            var t := Exec(dir, s, run);
            t.store == store && t.locks == s.locks && w in t.workers
            && t.workers.Keys == s.workers.Keys
            && t.workers[w].mail == s.workers[w].mail && t.workers[w].to == s.workers[w].to
            && (uid.Some? ==> t.workers[w].phase == Allocated(mb, uid.value))
  {
    var (store, uid) := Allocate(s.store, mb, faults);
    run := [];
    if store != s.store {
      OneMoreStep(dir, s, run, Lock(w));
      run := run + [Lock(w)];
      OneMoreStep(dir, s, run, Update(w));
      run := run + [Update(w)];
      var commit := if faults.commit.Committed? then CommitReported(w) else Action.CommitUnreported(w);
      OneMoreStep(dir, s, run, commit);
      run := run + [commit];
      assert Exec(dir, s, run).locks == s.locks;
    }
  }

  /** Insert and cache. */
  lemma Inserts(dir: Directory, s: System, w: nat, mb: nat, uid: nat, faults: Faults) returns (run: seq<Action>)
    requires w in s.workers && s.workers[w].phase == Allocated(mb, uid)
    ensures ValidRun(dir, s, run)
    ensures Exec(dir, s, run).locks == s.locks && Exec(dir, s, run).workers.Keys == s.workers.Keys
    ensures Exec(dir, s, run).store == InsertAndCache(s.store, mb, uid, s.workers[w].to, s.workers[w].mail, faults).0
  {
    var insert := match faults.insertion
      case Inserted => InsertReported(w)
      case InsertUnreported => Action.InsertUnreported(w)
      case InsertFailed => InsertFails(w);
    OneStep(dir, s, insert);
    run := [insert];
    if faults.insertion.Inserted? {
      var caching := if faults.cacheFails then CacheFails(w) else Cache(w);
      OneMoreStep(dir, s, run, caching);
      run := run + [caching];
    }
  }

  /** One recipient's delivery, with any faults, is a run of the concurrent system. */
  lemma SoloRun(dir: Directory, s: System, w: nat, mail: Mail, to: string, faults: Faults) returns (run: seq<Action>)
    requires w !in s.workers && s.locks == map[]
    ensures ValidRun(dir, s, run)
    ensures Exec(dir, s, run).store == DeliverTo(s.store, mail, JobFor(dir, to, faults)).0
    ensures Exec(dir, s, run).locks == map[] && Exec(dir, s, run).workers.Keys <= s.workers.Keys + {w}
  {
    var job := JobFor(dir, to, faults);
    if job.target.None? {
      run := [];
    } else {
      var mb := job.target.value;
      run := Arrives(dir, s, w, mail, to);
      var s1 := Exec(dir, s, run);
      var more := Allocates(dir, s1, w, mb, faults);
      RunAppend(dir, s, run, more);
      run := run + more;
      var s2 := Exec(dir, s, run);
      var uid := Allocate(s.store, mb, faults).1;
      if uid.Some? {
        var last := Inserts(dir, s2, w, mb, uid.value, faults);
        RunAppend(dir, s, run, last);
        run := run + last;
      }
    }
  }

  /** A whole delivery to a list of recipients, one after the other and with any faults, is a run of the concurrent
      system with one fresh worker for each recipient. */
  lemma {:induction false} SequentialRun(dir: Directory, s: System, w: nat, mail: Mail, jobs: seq<Job>, n: nat)
      returns (run: seq<Action>)
    requires s.locks == map[] && n <= |jobs| && forall v | v in s.workers :: v < w
    requires forall i | 0 <= i < n :: jobs[i] == JobFor(dir, jobs[i].to, jobs[i].faults)
    ensures ValidRun(dir, s, run)
    ensures var t := Exec(dir, s, run);
            && t.store == DeliverFirst(s.store, mail, jobs, n)
            && t.locks == map[]
            && forall v | v in t.workers :: v < w + n
  {
    run := [];
    if n > 0 {
      run := SequentialRun(dir, s, w, mail, jobs, n - 1);
      var t := Exec(dir, s, run);
      var last := SoloRun(dir, t, w + n - 1, mail, jobs[n - 1].to, jobs[n - 1].faults);
      RunAppend(dir, s, run, last);
      run := run + last;
    }
  }
}
