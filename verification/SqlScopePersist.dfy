/**
 * Write-behind persistence: only committed states are handed out, stored
 * versions never go back, and exactly which steps can lose a write.
 */
module SqlScopePersist {
  import opened Wrappers
  import opened SqlScope
  import opened SqlScopeSafety
  import opened SqlScopeSerial

  // ------------------------------------------------- only committed states go out

  predicate TakesSnapshot<D, S>(s: Scope<D, S>, a: Action<D, S>) {
    a.Grant? && s.chain != [] && s.chain[0].PersistSnapshot? && Admitted(s, s.chain[0])
  }

  /** After which prefix of the run the stored bytes, and those in flight, were read. */
  ghost function Saved<D, S>(db: D, run: seq<Action<D, S>>, ap: (D, S) -> D): (nat, nat)
    requires ValidRun(Opened(db), run, ap)
    decreases |run|
  {
    if run == [] then (0, 0)
    else
      var last := |run| - 1;
      RunPrefix(Opened(db), run, last, ap);
      var (stored, flying) := Saved(db, run[..last], ap);
      if TakesSnapshot(After(Opened(db), run[..last], ap), run[last]) then (stored, last)
      else if run[last] == Deliver(true) then (flying, flying)
      else (stored, flying)
  }

  ghost predicate SavedFrom<D, S>(db: D, run: seq<Action<D, S>>, k: nat, bytes: D, ap: (D, S) -> D) {
    k <= |run| && ValidRun(Opened(db), run[..k], ap) && After(Opened(db), run[..k], ap).committed == bytes
  }

  lemma StepSaves<D, S>(s: Scope<D, S>, a: Action<D, S>, ap: (D, S) -> D)
    requires Consistent(s) && Enabled(s, a, ap)
    ensures TakesSnapshot(s, a) ==> Next(s, a, ap).stored == s.stored &&
                                    Next(s, a, ap).persists != [] &&
                                    Next(s, a, ap).persists[0] == Delivering(s.committed)
    ensures a == Deliver(true) ==> s.persists != [] && s.persists[0].Delivering? &&
                                   Next(s, a, ap).stored == s.persists[0].bytes
    ensures a != Deliver(true) ==> Next(s, a, ap).stored == s.stored
    ensures Next(s, a, ap).persists != [] && Next(s, a, ap).persists[0].Delivering? ==>
            TakesSnapshot(s, a) || (s.persists != [] && Next(s, a, ap).persists[0] == s.persists[0])
  {
    if a.Grant? && s.chain[0].PersistSnapshot? {
      assert SnapshotCount(s.chain) >= 1;
      assert s.persists != [] && s.persists[0] == AwaitingMutex;
    }
    if a.Deliver? && |s.persists| == 2 {
      assert s.persists[1] == Scheduled;
    }
  }

  /**
   * Every byte string handed to `persist` is a committed state of the run, even
   * when scripts carry transaction control; what is stored was read no later
   * than what is in flight.
   */
  lemma {:induction false} PersistsCommittedStates<D, S>(db: D, run: seq<Action<D, S>>, ap: (D, S) -> D)
    requires ValidRun(Opened(db), run, ap)
    ensures var s, (stored, flying) := After(Opened(db), run, ap), Saved(db, run, ap);
            && stored <= flying <= |run|
            && SavedFrom(db, run, stored, s.stored, ap)
            && (s.persists != [] && s.persists[0].Delivering? ==>
                  SavedFrom(db, run, flying, s.persists[0].bytes, ap))
    decreases |run|
  {
    hide Enabled, Next, Consistent;
    if run != [] {
      var last := |run| - 1;
      var prefix, a := run[..last], run[last];
      assert prefix + [a] == run;
      RunSnoc(Opened(db), prefix, a, ap);
      RunKeeps(db, prefix, ap);
      PersistsCommittedStates(db, prefix, ap);
      StepSaves(After(Opened(db), prefix, ap), a, ap);
      var (stored, flying) := Saved(db, prefix, ap);
      assert prefix[..stored] == run[..stored] && prefix[..flying] == run[..flying];
    } else {
      assert run[..0] == run;
    }
  }

  /** The store never returns to an older version. */
  lemma {:induction false} StoredNeverGoesBack<D, S>(db: D, run: seq<Action<D, S>>, k: nat, ap: (D, S) -> D)
    requires ValidRun(Opened(db), run, ap) && k <= |run|
    ensures ValidRun(Opened(db), run[..k], ap)
    ensures Saved(db, run[..k], ap).0 <= Saved(db, run, ap).0
    decreases |run|
  {
    RunPrefix(Opened(db), run, k, ap);
    if k == |run| {
      assert run[..k] == run;
    } else {
      var last := |run| - 1;
      RunPrefix(Opened(db), run, last, ap);
      assert run[..last][..k] == run[..k];
      StoredNeverGoesBack(db, run[..last], k, ap);
      PersistsCommittedStates(db, run[..last], ap);
    }
  }

  // ------------------------------------------------------------- nothing is lost

  /** The newest bytes that left the engine: being delivered, or stored. */
  function Newest<D, S>(s: Scope<D, S>): D {
    if s.persists != [] && s.persists[0].Delivering? then s.persists[0].bytes else s.stored
  }

  predicate PersistPending<D, S>(s: Scope<D, S>) {
    exists k :: 0 <= k < |s.persists| && !s.persists[k].Delivering?
  }

  /** The dirty check is sound: an unmoved counter means the newest bytes are the file's. */
  ghost predicate CounterSound<D, S>(s: Scope<D, S>) {
    s.persistedWrites <= s.writes && (s.writes == s.persistedWrites ==> s.file == Newest(s))
  }

  /** At rest, the committed database has left the engine or is about to. */
  ghost predicate Durable<D, S>(s: Scope<D, S>) {
    s.running.None? && s.tx.None? ==> s.committed == Newest(s) || PersistPending(s)
  }

  /** The steps that end a transaction without rescheduling, while something is still unsaved. */
  ghost predicate Loses<D, S>(s: Scope<D, S>, a: Action<D, S>) {
    && a.Grant? && s.chain != [] && Admitted(s, s.chain[0])
    && (s.chain[0].Expire? || (s.chain[0].Commit? && a.outcome == RolledBack))
    && s.committed != Newest(s) && !PersistPending(s)
  }

  ghost predicate PersistInv<D, S>(s: Scope<D, S>) {
    Consistent(s) && PlainScope(s) && CounterSound(s)
  }

  lemma PendingAppended<D, S>(s: Scope<D, S>)
    ensures PersistPending(s.(persists := s.persists + [Scheduled]))
  {
    var p := s.persists + [Scheduled];
    assert p[|p| - 1] == Scheduled;
  }

  /** After scheduling at rest, the committed database is covered. */
  lemma ScheduleCovers<D, S>(s: Scope<D, S>)
    requires s.persistQueued ==> PersistPending(s)
    requires s.autocommit && s.file == s.committed
    requires CounterSound(s)
    ensures CounterSound(SchedulePersist(s))
    ensures var s' := SchedulePersist(s); s'.committed == Newest(s') || PersistPending(s')
  {
    PendingAppended(s);
  }

  lemma QueuedIsPending<D, S>(s: Scope<D, S>)
    requires PersistChainOk(s)
    ensures s.persistQueued ==> PersistPending(s)
  {
  }

  lemma SameChain<D, S>(s: Scope<D, S>, s': Scope<D, S>)
    requires s'.persists == s.persists && s'.stored == s.stored
    ensures Newest(s') == Newest(s) && PersistPending(s') == PersistPending(s)
  {
  }

  lemma GrantDurable<D, S>(s: Scope<D, S>, outcome: Outcome, w: nat)
    requires PersistInv(s) && Durable(s) && GrantEnabled(s, outcome, w)
    ensures CounterSound(GrantNext(s, outcome, w))
    ensures Durable(GrantNext(s, outcome, w)) <==> !Loses(s, Grant(outcome, w))
  {
    hide PersistPending;
    var c, s1 := s.chain[0], s.(chain := s.chain[1..]);
    SameChain(s, s1);
    QueuedIsPending(s);
    if c.PersistSnapshot? {
      assert SnapshotCount(s.chain) >= 1;
      hide SnapshotCount;
      assert s.persists[0] == AwaitingMutex;
      assert Newest(s) == s.stored;
      if !Admitted(s, c) {
        assert s.tx.Some?;
      }
    } else if Admitted(s, c) {
      hide SnapshotCount;
      if c.Commit? && outcome == Succeeds {
        var s2 := CommitWork(s1, w).(tx := None);
        SameChain(s1, s2);
        ScheduleCovers(s2);
      } else if c.Rollback? {
        var s2 := RollBack(s1, w).(tx := None);
        SameChain(s1, s2);
        ScheduleCovers(s2);
      } else {
        SameChain(s1, GrantNext(s, outcome, w));
      }
    } else {
      hide SnapshotCount;
      SameChain(s1, GrantNext(s, outcome, w));
    }
  }

  lemma EndDurable<D, S>(s: Scope<D, S>, a: Action<D, S>, ap: (D, S) -> D)
    requires PersistInv(s) && Enabled(s, a, ap) && (a.Finish? || a.StmtFailed?)
    ensures CounterSound(Next(s, a, ap)) && Durable(Next(s, a, ap))
  {
    hide PersistPending, SnapshotCount;
    QueuedIsPending(s);
    var before := match a
      case StmtFailed(rolledBack, spill, w) =>
        Reconcile(if s.autocommit then s.(writes := s.writes + w)
                  else if rolledBack then RollBack(s, w)
                  else s.(file := spill, writes := s.writes + w)).(running := None)
      case _ => s;
    SameChain(s, before);
    if before.autocommit {
      ScheduleCovers(before);
    }
    SameChain(SchedulePersist(before), Next(s, a, ap));
  }

  /** Step by step: exactly the losing steps leave a committed write uncovered. */
  lemma StepDurable<D, S>(s: Scope<D, S>, a: Action<D, S>, ap: (D, S) -> D)
    requires PersistInv(s) && Durable(s) && Enabled(s, a, ap)
    requires a != Deliver(false)
    ensures CounterSound(Next(s, a, ap))
    ensures Durable(Next(s, a, ap)) <==> !Loses(s, a)
  {
    hide SnapshotCount, GrantNext, GrantEnabled;
    match a {
      case Grant(outcome, w) => GrantDurable(s, outcome, w);
      case Finish => EndDurable(s, a, ap);
      case StmtFailed(_, _, _) => EndDurable(s, a, ap);
      case StmtDone(_, _) => assert s.running.value.rest[0].Data?;
      case Deliver(_) =>
        if |s.persists| == 2 {
          assert s.persists[1] == Scheduled && Next(s, a, ap).persists == [Scheduled];
          assert Next(s, a, ap).persists[0] == Scheduled;
        }
      case PersistStart =>
        assert Next(s, a, ap).persists[0] == AwaitingMutex;
        assert s.persists[0] == Scheduled;
      case _ => SameChain(s, Next(s, a, ap));
    }
  }

  ghost predicate NeverLoses<D, S>(s: Scope<D, S>, run: seq<Action<D, S>>, ap: (D, S) -> D)
    requires ValidRun(s, run, ap)
  {
    forall k :: 0 <= k < |run| ==>
      ValidRun(s, run[..k], ap) && !Loses(After(s, run[..k], ap), run[k])
  }

  predicate AllDelivered<D, S>(run: seq<Action<D, S>>) {
    forall k :: 0 <= k < |run| ==> !(run[k].Deliver? && !run[k].ok)
  }

  lemma {:induction false} RunDurable<D, S>(db: D, run: seq<Action<D, S>>, ap: (D, S) -> D)
    requires ValidRun(Opened(db), run, ap) && PlainRun(run) && AllDelivered(run)
    requires NeverLoses(Opened(db), run, ap)
    ensures PersistInv(After(Opened(db), run, ap)) && Durable(After(Opened(db), run, ap))
    decreases |run|
  {
    hide Enabled, Next, Consistent, PlainScope, Loses;
    if run == [] {
      RunExplained(db, run, ap);
    } else {
      var last := |run| - 1;
      var prefix, a := run[..last], run[last];
      assert prefix + [a] == run;
      RunSnoc(Opened(db), prefix, a, ap);
      assert NeverLoses(Opened(db), prefix, ap) by {
        forall k | 0 <= k < |prefix|
          ensures ValidRun(Opened(db), prefix[..k], ap) && !Loses(After(Opened(db), prefix[..k], ap), prefix[k]) {
          assert prefix[..k] == run[..k] && prefix[k] == run[k];
        }
      }
      assert PlainRun(prefix) by {
        forall k | 0 <= k < |prefix| && prefix[k].Arrive? ensures PlainCall(prefix[k].call) {
          assert run[k] == prefix[k];
        }
      }
      RunDurable(db, prefix, ap);
      StepDurable(After(Opened(db), prefix, ap), a, ap);
      RunExplained(db, run, ap);
    }
  }

  /** Nobody holds or waits for the mutex, no transaction is open, nothing is being persisted. */
  predicate Quiet<D, S>(s: Scope<D, S>) {
    s.running.None? && s.chain == [] && s.tx.None? && s.persists == []
  }

  /**
   * No lost write. When the engine comes to rest after a run of plain calls whose
   * persists all succeeded and that took no losing step, the stored bytes are the
   * committed database.
   */
  lemma FlushedIsCommitted<D, S>(db: D, run: seq<Action<D, S>>, ap: (D, S) -> D)
    requires ValidRun(Opened(db), run, ap) && PlainRun(run) && AllDelivered(run)
    requires NeverLoses(Opened(db), run, ap)
    requires Quiet(After(Opened(db), run, ap))
    ensures After(Opened(db), run, ap).stored == After(Opened(db), run, ap).committed
  {
    RunDurable(db, run, ap);
  }

  // ------------------------------------------------------------- ordinary runs

  /** No expiry arrives, and no COMMIT is turned into a rollback. */
  predicate Ordinary<D, S>(a: Action<D, S>) {
    (a.Arrive? ==> !a.call.Expire?) && (a.Grant? ==> a.outcome != RolledBack)
  }

  predicate OrdinaryRun<D, S>(run: seq<Action<D, S>>) {
    forall k :: 0 <= k < |run| ==> Ordinary(run[k])
  }

  ghost predicate NoExpiryQueued<D, S>(s: Scope<D, S>) {
    forall k :: 0 <= k < |s.chain| ==> !s.chain[k].Expire?
  }

  lemma OrdinaryQueue<D, S>(s: Scope<D, S>, a: Action<D, S>, ap: (D, S) -> D)
    requires Consistent(s) && NoExpiryQueued(s) && Ordinary(a) && Enabled(s, a, ap)
    ensures NoExpiryQueued(Next(s, a, ap))
  {
    hide SnapshotCount;
    match a {
      case Recheck(k) => assert s.gate[k] in s.gate;
      case _ =>
    }
  }

  /** Only an expiry, or a COMMIT that SQLite rolled back, can be a losing step. */
  lemma OrdinaryStepsKeep<D, S>(s: Scope<D, S>, a: Action<D, S>)
    requires NoExpiryQueued(s) && Ordinary(a)
    ensures !Loses(s, a)
  {
    hide Newest, PersistPending, Admitted;
  }

  lemma {:induction false} OrdinaryNeverLoses<D, S>(db: D, run: seq<Action<D, S>>, ap: (D, S) -> D)
    requires ValidRun(Opened(db), run, ap) && OrdinaryRun(run)
    ensures NeverLoses(Opened(db), run, ap) && NoExpiryQueued(After(Opened(db), run, ap))
    decreases |run|
  {
    hide Enabled, Next, Consistent, Loses;
    if run != [] {
      var last := |run| - 1;
      var prefix, a := run[..last], run[last];
      assert prefix + [a] == run;
      RunSnoc(Opened(db), prefix, a, ap);
      OrdinaryNeverLoses(db, prefix, ap);
      RunKeeps(db, prefix, ap);
      OrdinaryQueue(After(Opened(db), prefix, ap), a, ap);
      forall k | 0 <= k < |run| ensures ValidRun(Opened(db), run[..k], ap) && !Loses(After(Opened(db), run[..k], ap), run[k]) {
        RunPrefix(Opened(db), run, k, ap);
        if k < last {
          assert prefix[..k] == run[..k] && prefix[k] == run[k];
        } else {
          OrdinaryStepsKeep(After(Opened(db), prefix, ap), a);
        }
      }
    }
  }

  /**
   * In terms of the calls alone: after a run of plain calls without expiries, in which no
   * COMMIT turns into a rollback and every persist succeeds, an engine at rest has stored
   * its committed database.
   */
  lemma OrdinaryRunsFlush<D, S>(db: D, run: seq<Action<D, S>>, ap: (D, S) -> D)
    requires ValidRun(Opened(db), run, ap) && PlainRun(run) && AllDelivered(run) && OrdinaryRun(run)
    requires Quiet(After(Opened(db), run, ap))
    ensures After(Opened(db), run, ap).stored == After(Opened(db), run, ap).committed
  {
    hide NeverLoses, Quiet, PlainRun, AllDelivered, OrdinaryRun;
    OrdinaryNeverLoses(db, run, ap);
    FlushedIsCommitted(db, run, ap);
  }
}
