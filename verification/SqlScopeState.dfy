/**
 * The scope as the engine keeps it: one object whose fields the critical
 * sections update in place. Every method is tied to the transition of the step
 * machine it carries out, so what is proved of all runs holds of the object.
 */
module SqlScopeState {
  import opened Wrappers
  import opened SqlScope

  /** What SQLite did with one statement of a script. */
  datatype Effect<D> = Did(spill: D, w: nat) | Failed(rolledBack: bool, spill: D, w: nat)

  /** What a whole script amounts to when SQLite treats its statements this way. */
  function ScriptTrace<D, S>(effects: seq<Effect<D>>): seq<Action<D, S>> {
    if effects == [] then [Finish]
    else match effects[0]
      case Did(spill, w) => [StmtDone(spill, w)] + ScriptTrace(effects[1..])
      case Failed(rolledBack, spill, w) => [StmtFailed(rolledBack, spill, w)]
  }

  class State<D(==), S> {
    var committed: D
    var working: D
    var file: D
    var autocommit: bool
    var tx: Option<nat>
    var next: nat
    var gate: seq<Waiting<S>>
    var chain: seq<Call<S>>
    var running: Option<Running<S>>
    var writes: nat
    var persistedWrites: nat
    var persistQueued: bool
    var persists: seq<Persist<D>>
    var stored: D

    ghost function View(): Scope<D, S>
      reads this
    {
      Scope(committed, working, file, autocommit, tx, next, gate, chain, running,
            writes, persistedWrites, persistQueued, persists, stored)
    }

    constructor (db: D)
      ensures View() == Opened(db)
    {
      committed, working, file, stored := db, db, db, db;
      autocommit, tx, next, running := true, None, 0, None;
      gate, chain, persists := [], [], [];
      writes, persistedWrites, persistQueued := 0, 0, false;
    }

    // ------------------------------------------------------------ the database

    method DbRollback(w: nat)
      modifies this
      ensures View() == RollBack(old(View()), w)
    {
      if !autocommit {
        working, file, autocommit, writes := committed, committed, true, writes + w;
      }
    }

    method DbCommit(w: nat)
      modifies this
      ensures View() == CommitWork(old(View()), w)
    {
      committed, file, autocommit, writes := working, working, true, writes + w;
    }

    // ----------------------------------------------------- transaction tracking

    method CloseTx()
      modifies this
      ensures View() == old(View()).(tx := None)
    {
      tx := None;
    }

    method ReconcileTx()
      modifies this
      ensures View() == Reconcile(old(View()))
    {
      if tx.Some? && autocommit {
        CloseTx();
      }
    }

    method SchedulePersist()
      modifies this
      ensures View() == SqlScope.SchedulePersist(old(View()))
    {
      if persistQueued { return; }
      if writes == persistedWrites { return; }
      if !autocommit { return; }
      persistQueued := true;
      persists := persists + [Scheduled];
    }

    /** Refuses manual transaction control; the persist is scheduled only if all is well. */
    method EnforceTxDiscipline(token: Option<nat>) returns (ok: bool)
      modifies this
      ensures ok <==> old(if token.None? then tx.Some? || autocommit else !autocommit)
      ensures ok ==> View() == old(View())
      ensures !ok ==> View() == EndExec(old(View()), token)
    {
      if token.None? && tx.None? && !autocommit {
        DbRollback(1);
        return false;
      }
      if token.Some? && autocommit {
        CloseTx();
        return false;
      }
      return true;
    }

    // ------------------------------------------------------- mutex and the gate

    method PassGate(c: Call<S>)
      modifies this
      ensures View() == SqlScope.PassGate(old(View()), c)
    {
      match tx
      case Some(t) => gate := gate + [Waiting(c, t)];
      case None => chain := chain + [c];
    }

    method Arrive(c: Call<S>, ghost ap: (D, S) -> D)
      requires Enabled(View(), Action.Arrive(c), ap)
      modifies this
      ensures View() == Next(old(View()), Action.Arrive(c), ap)
    {
      if NeedsGate(c) {
        PassGate(c);
      } else {
        chain := chain + [c];
      }
    }

    method Recheck(k: nat, ghost ap: (D, S) -> D)
      requires Enabled(View(), Action.Recheck(k), ap)
      modifies this
      ensures View() == Next(old(View()), Action.Recheck(k), ap)
    {
      var c := gate[k].call;
      gate := gate[..k] + gate[k + 1..];
      PassGate(c);
    }

    /** The head of the mutex queue is let in: it works, waits again, or is refused. */
    method Grant(outcome: Outcome, w: nat, ghost ap: (D, S) -> D)
      requires Enabled(View(), Action.Grant(outcome, w), ap)
      modifies this
      ensures View() == Next(old(View()), Action.Grant(outcome, w), ap)
      ensures old(NeedsGate(chain[0]) && tx.Some?) ==>
                View() == old(View()).(chain := old(chain[1..]), gate := old(gate + [Waiting(chain[0], tx.value)]))
    {
      hide GrantNext;
      if NeedsGate(chain[0]) {
        EnterGated(outcome, w);
      } else {
        EnterWithToken(outcome, w);
      }
    }

    method EnterGated(outcome: Outcome, w: nat)
      requires chain != [] && NeedsGate(chain[0])
      modifies this
      ensures View() == GrantNext(old(View()), outcome, w)
      ensures old(tx.Some?) ==>
                View() == old(View()).(chain := old(chain[1..]), gate := old(gate + [Waiting(chain[0], tx.value)]))
    {
      var c := chain[0];
      chain := chain[1..];
      if tx.Some? {
        PassGate(c);
        return;
      }
      match c
      case Exec(token, script) =>
        running := Some(Running(next, token, script));
        next := next + 1;
      case Begin =>
        if outcome != Refused {
          autocommit, tx, next := false, Some(next), next + 1;
        }
      case Snapshot =>
    }

    method EnterWithToken(outcome: Outcome, w: nat)
      requires chain != [] && !NeedsGate(chain[0])
      modifies this
      ensures View() == GrantNext(old(View()), outcome, w)
    {
      if !chain[0].Exec? && !chain[0].PersistSnapshot? {
        EnterTxEnd(outcome, w);
        return;
      }
      var c := chain[0];
      chain := chain[1..];
      if c.PersistSnapshot? {
        TakeSnapshot();
      } else if tx == c.token {
        running := Some(Running(next, c.token, c.script));
        next := next + 1;
      }
    }

    /** Commit, rollback and expiry: nothing happens unless the named transaction is the open one. */
    method EnterTxEnd(outcome: Outcome, w: nat)
      requires chain != [] && (chain[0].Commit? || chain[0].Rollback? || chain[0].Expire?)
      modifies this
      ensures View() == GrantNext(old(View()), outcome, w)
    {
      hide SqlScope.SchedulePersist, RollBack, CommitWork, Reconcile;
      var c := chain[0];
      chain := chain[1..];
      if tx != Some(c.tx) {
        return;
      }
      match c
      case Commit(_) =>
        CommitBody(outcome, w);
      case Rollback(_) =>
        DbRollback(w);
        CloseTx();
        SchedulePersist();
      case Expire(_) =>
        DbRollback(w);
        CloseTx();
    }

    /** The persist callback under the mutex: copy the file, or give up. */
    method TakeSnapshot()
      modifies this
      ensures var s := old(View());
              View() == if s.tx.None? && s.autocommit
                        then s.(persistedWrites := s.writes,
                                persists := if s.persists == [] then [] else [Delivering(s.file)] + s.persists[1..])
                        else s.(persists := if s.persists == [] then [] else s.persists[1..])
    {
      if tx.None? && autocommit {
        persistedWrites := writes;
        if persists != [] {
          persists := [Delivering(file)] + persists[1..];
        }
      } else if persists != [] {
        persists := persists[1..];
      }
    }

    method CommitBody(outcome: Outcome, w: nat)
      modifies this
      ensures old(autocommit) ==> View() == old(View()).(tx := None)
      ensures !old(autocommit) && outcome == Succeeds ==>
                View() == SqlScope.SchedulePersist(CommitWork(old(View()), w).(tx := None))
      ensures !old(autocommit) && outcome == RolledBack ==> View() == Reconcile(RollBack(old(View()), w))
      ensures !old(autocommit) && outcome == Refused ==> View() == old(View())
    {
      if autocommit {
        CloseTx();
        return;
      }
      match outcome
      case Succeeds =>
        DbCommit(w);
        CloseTx();
        SchedulePersist();
      case RolledBack =>
        DbRollback(w);
        ReconcileTx();
      case Refused =>
        ReconcileTx();
    }

    // -------------------------------------------------------------- exec's body

    method Step(spill: D, w: nat, ap: (D, S) -> D)
      requires Enabled(View(), StmtDone(spill, w), ap)
      modifies this
      ensures View() == Next(old(View()), StmtDone(spill, w), ap)
    {
      var stmt := running.value.rest[0];
      running := Some(running.value.(rest := running.value.rest[1..]));
      match stmt
      case Data(x) =>
        working, writes := ap(working, x), writes + w;
        if autocommit {
          committed, file := working, working;
        } else {
          file := spill;
        }
      case TextBegin => autocommit := false;
      case TextCommit => DbCommit(w);
      case TextRollback => DbRollback(w);
    }

    method Fail(rolledBack: bool, spill: D, w: nat, ghost ap: (D, S) -> D)
      requires Enabled(View(), StmtFailed(rolledBack, spill, w), ap)
      modifies this
      ensures View() == Next(old(View()), StmtFailed(rolledBack, spill, w), ap)
    {
      if autocommit {
        writes := writes + w;
      } else if rolledBack {
        DbRollback(w);
      } else {
        file, writes := spill, writes + w;
      }
      ReconcileTx();
      running := None;
      SchedulePersist();
    }

    method Finish(ghost ap: (D, S) -> D)
      requires Enabled(View(), Action.Finish, ap)
      modifies this
      ensures View() == Next(old(View()), Action.Finish, ap)
    {
      var ok := EnforceTxDiscipline(running.value.token);
      if ok {
        SchedulePersist();
      }
      running := None;
    }

    /**
     * The exec holding the mutex, run to its end: statements in order until one
     * fails and the error path is taken, or else the discipline check.
     */
    method RunScript(effects: seq<Effect<D>>, ap: (D, S) -> D) returns (ok: bool)
      requires ValidRun(View(), ScriptTrace(effects), ap)
      modifies this
      ensures View() == After(old(View()), ScriptTrace(effects), ap)
      ensures ok <==> forall k :: 0 <= k < |effects| ==> effects[k].Did?
    {
      hide Enabled, Next;
      var k := 0;
      while k < |effects|
        invariant k <= |effects|
        invariant forall j :: 0 <= j < k ==> effects[j].Did?
        invariant ValidRun(View(), ScriptTrace(effects[k..]), ap)
        invariant After(View(), ScriptTrace(effects[k..]), ap) == After(old(View()), ScriptTrace(effects), ap)
        decreases |effects| - k
      {
        match effects[k]
        case Did(spill, w) =>
          Step(spill, w, ap);
          k := k + 1;
        case Failed(rolledBack, spill, w) =>
          Fail(rolledBack, spill, w, ap);
          return false;
      }
      Finish(ap);
      return true;
    }

    // -------------------------------------------------------------- persistence

    method PersistStart(ghost ap: (D, S) -> D)
      requires Enabled(View(), Action.PersistStart, ap)
      modifies this
      ensures View() == Next(old(View()), Action.PersistStart, ap)
    {
      persistQueued := false;
      persists := [AwaitingMutex] + persists[1..];
      chain := chain + [PersistSnapshot];
    }

    method Deliver(ok: bool, ghost ap: (D, S) -> D)
      requires Enabled(View(), Action.Deliver(ok), ap)
      modifies this
      ensures View() == Next(old(View()), Action.Deliver(ok), ap)
    {
      if ok {
        stored := persists[0].bytes;
      }
      persists := persists[1..];
    }
  }
}
