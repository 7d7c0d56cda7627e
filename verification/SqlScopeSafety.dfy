/**
 * What every step of a scope keeps, and serializability over whole runs.
 */
module SqlScopeSafety {
  import opened Wrappers
  import opened SqlScope

  // ------------------------------------------------------ kept by every run

  function PersistJobs<D, S>(s: Scope<D, S>): nat {
    if s.persists != [] && s.persists[0] == AwaitingMutex then 1 else 0
  }

  /** The persist chain: only its head has started, and one `Scheduled` link at most. */
  predicate PersistChainOk<D, S>(s: Scope<D, S>) {
    && |s.persists| <= 2
    && (|s.persists| == 2 ==> s.persists[0] != Scheduled && s.persists[1] == Scheduled)
    && (s.persistQueued <==> s.persists != [] && s.persists[|s.persists| - 1] == Scheduled)
    && SnapshotCount(s.chain) == PersistJobs(s)
  }

  /** How many persist snapshots wait for the mutex. */
  function SnapshotCount<S>(chain: seq<Call<S>>): nat {
    if chain == [] then 0
    else (if chain[0].PersistSnapshot? then 1 else 0) + SnapshotCount(chain[1..])
  }

  lemma {:induction false} SnapshotsAppend<S>(chain: seq<Call<S>>, c: Call<S>)
    ensures SnapshotCount(chain + [c]) == SnapshotCount(chain) + if c.PersistSnapshot? then 1 else 0
  {
    if chain == [] {
      assert (chain + [c])[1..] == [];
    } else {
      assert (chain + [c])[1..] == chain[1..] + [c];
      SnapshotsAppend(chain[1..], c);
    }
  }

  ghost predicate Consistent<D, S>(s: Scope<D, S>) {
    && (s.autocommit ==> s.committed == s.working == s.file)
    && (s.running.None? && s.tx.Some? ==> !s.autocommit)
    && (s.running.Some? ==> s.tx == s.running.value.token && s.running.value.ticket < s.next)
    && (s.tx.Some? ==> s.tx.value < s.next)
    && (forall w :: w in s.gate ==> NeedsGate(w.call))
    && PersistChainOk(s)
  }

  lemma SchedulePersistKeeps<D, S>(s: Scope<D, S>)
    requires Consistent(s)
    ensures Consistent(SchedulePersist(s))
  {
  }

  lemma PassGateKeeps<D, S>(s: Scope<D, S>, c: Call<S>)
    requires Consistent(s) && NeedsGate(c)
    ensures Consistent(PassGate(s, c))
  {
    SnapshotsAppend(s.chain, c);
  }

  lemma StmtNextKeeps<D, S>(s: Scope<D, S>, spill: D, w: nat, ap: (D, S) -> D)
    requires Consistent(s) && StmtEnabled(s, spill, w, ap)
    ensures Consistent(StmtNext(s, spill, w, ap))
  {
  }

  lemma SnapshotKeeps<D, S>(s: Scope<D, S>, outcome: Outcome, w: nat)
    requires Consistent(s) && GrantEnabled(s, outcome, w) && s.chain[0].PersistSnapshot?
    ensures Consistent(GrantNext(s, outcome, w))
  {
    assert SnapshotCount(s.chain) == 1 + SnapshotCount(s.chain[1..]);
    hide SnapshotCount;
    assert s.persists != [] && s.persists[0] == AwaitingMutex;
  }

  lemma GrantNextKeeps<D, S>(s: Scope<D, S>, outcome: Outcome, w: nat)
    requires Consistent(s) && GrantEnabled(s, outcome, w) && !s.chain[0].PersistSnapshot?
    ensures Consistent(GrantNext(s, outcome, w))
  {
    var c, s1 := s.chain[0], s.(chain := s.chain[1..]);
    assert SnapshotCount(s.chain) == SnapshotCount(s1.chain);
    hide SnapshotCount;
    assert Consistent(s1);
    if !Admitted(s1, c) {
      if NeedsGate(c) {
        PassGateKeeps(s1, c);
      }
    } else {
      match c {
        case Commit(_) =>
          if !s.autocommit && outcome == Succeeds {
            SchedulePersistKeeps(CommitWork(s1, w).(tx := None));
          }
        case Rollback(_) => SchedulePersistKeeps(RollBack(s1, w).(tx := None));
        case _ =>
      }
    }
  }

  lemma StmtFailedKeeps<D, S>(s: Scope<D, S>, rolledBack: bool, spill: D, w: nat, ap: (D, S) -> D)
    requires Consistent(s) && Enabled(s, StmtFailed(rolledBack, spill, w), ap)
    ensures Consistent(Next(s, StmtFailed(rolledBack, spill, w), ap))
  {
    hide SnapshotCount;
    var s' := if s.autocommit then s.(writes := s.writes + w)
              else if rolledBack then RollBack(s, w)
              else s.(file := spill, writes := s.writes + w);
    SchedulePersistKeeps(Reconcile(s').(running := None));
  }

  lemma FinishKeeps<D, S>(s: Scope<D, S>)
    requires Consistent(s) && s.running.Some?
    ensures Consistent(EndExec(s, s.running.value.token).(running := None))
  {
    hide SnapshotCount;
    SchedulePersistKeeps(s);
  }

  /** Every step of every run, with or without transaction control in the text. */
  lemma StepKeeps<D, S>(s: Scope<D, S>, a: Action<D, S>, ap: (D, S) -> D)
    requires Consistent(s) && Enabled(s, a, ap)
    ensures Consistent(Next(s, a, ap))
  {
    assert a.Grant? ==> s.chain != [];
    var snapshot := a.Grant? && s.chain[0].PersistSnapshot?;
    hide SnapshotCount, StmtNext, GrantNext, StmtEnabled, GrantEnabled, PassGate, EndExec;
    match a {
      case Arrive(c) =>
        if NeedsGate(c) {
          PassGateKeeps(s, c);
        } else {
          SnapshotsAppend(s.chain, c);
        }
      case Recheck(k) =>
        var s1 := s.(gate := s.gate[..k] + s.gate[k + 1..]);
        assert s.gate[k] in s.gate;
        assert forall w :: w in s1.gate ==> w in s.gate;
        PassGateKeeps(s1, s.gate[k].call);
      case Grant(outcome, w) =>
        if snapshot {
          SnapshotKeeps(s, outcome, w);
        } else {
          GrantNextKeeps(s, outcome, w);
        }
      case StmtDone(spill, w) => StmtNextKeeps(s, spill, w, ap);
      case StmtFailed(rolledBack, spill, w) => StmtFailedKeeps(s, rolledBack, spill, w, ap);
      case Finish => FinishKeeps(s);
      case PersistStart => SnapshotsAppend(s.chain, PersistSnapshot);
      case Deliver(_) =>
    }
  }

  lemma {:induction false} RunKeeps<D, S>(db: D, run: seq<Action<D, S>>, ap: (D, S) -> D)
    requires ValidRun(Opened(db), run, ap)
    ensures Consistent(After(Opened(db), run, ap))
    decreases |run|
  {
    hide Enabled, Next;
    if run != [] {
      var last := |run| - 1;
      assert run[..last] + [run[last]] == run;
      RunSnoc(Opened(db), run[..last], run[last], ap);
      RunKeeps(db, run[..last], ap);
      StepKeeps(After(Opened(db), run[..last], ap), run[last], ap);
    }
  }
}
