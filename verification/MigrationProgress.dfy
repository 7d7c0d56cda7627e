/**
 * Migration can always be finished: from wherever crashes and failures have left
 * it, a restart and an undisturbed retry run to completion.
 */
module MigrationProgress {
  import opened Wrappers
  import opened SqlScope
  import opened SqlScopeSafety
  import opened Migrations
  import opened MigrationRuns
  import opened MigrationLoop

  ghost predicate CanReach<X(!new)>(m: Machine<X>, m': Machine<X>, ms: seq<Migration>, exec: (X, string) -> X) {
    exists steps :: ValidSteps(m, steps, ms, exec) && AfterSteps(m, steps, ms, exec) == m'
  }

  lemma ReachStep<X(!new)>(m: Machine<X>, step: Step<X>, ms: seq<Migration>, exec: (X, string) -> X)
    requires StepEnabled(m, step, exec)
    ensures CanReach(m, MachineNext(m, step, ms, exec), ms, exec)
  {
    hide StepEnabled, MachineNext;
    var m' := MachineNext(m, step, ms, exec);
    assert [step][1..] == [];
    assert ValidSteps(m', [], ms, exec) && AfterSteps(m', [], ms, exec) == m';
    assert ValidSteps(m, [step], ms, exec) && AfterSteps(m, [step], ms, exec) == m';
  }

  lemma {:induction false} StepsJoin<X(!new)>(m: Machine<X>, first: seq<Step<X>>, second: seq<Step<X>>, ms: seq<Migration>, exec: (X, string) -> X)
    requires ValidSteps(m, first, ms, exec) && ValidSteps(AfterSteps(m, first, ms, exec), second, ms, exec)
    ensures ValidSteps(m, first + second, ms, exec)
    ensures AfterSteps(m, first + second, ms, exec) == AfterSteps(AfterSteps(m, first, ms, exec), second, ms, exec)
    decreases |first|
  {
    hide StepEnabled, MachineNext;
    if first == [] {
      assert first + second == second;
    } else {
      assert (first + second)[1..] == first[1..] + second;
      StepsJoin(MachineNext(m, first[0], ms, exec), first[1..], second, ms, exec);
    }
  }

  lemma ReachTrans<X(!new)>(a: Machine<X>, b: Machine<X>, c: Machine<X>, ms: seq<Migration>, exec: (X, string) -> X)
    requires CanReach(a, b, ms, exec) && CanReach(b, c, ms, exec)
    ensures CanReach(a, c, ms, exec)
  {
    hide ValidSteps, AfterSteps;
    var first :| ValidSteps(a, first, ms, exec) && AfterSteps(a, first, ms, exec) == b;
    var second :| ValidSteps(b, second, ms, exec) && AfterSteps(b, second, ms, exec) == c;
    StepsJoin(a, first, second, ms, exec);
  }

  /** The client between two calls, nothing else in the queue. */
  ghost predicate Calm<X(!new)>(m: Machine<X>) {
    var s := m.scope;
    && !m.waiting && s.running.None? && s.chain == [] && s.gate == [] && (UsesTodo(m.phase) ==> m.todo != [])
    && (s.tx.None? ==> s.autocommit && s.committed == s.working == s.file)
  }

  /** A call issued now stands alone at the head of the queue. */
  lemma Issues<X(!new)>(m: Machine<X>, ms: seq<Migration>, exec: (X, string) -> X)
    requires Calm(m) && Active(m.phase) && (NeedsGate(CallOf(m)) ==> m.scope.tx.None?)
    ensures CanReach(m, m.(waiting := true, scope := m.scope.(chain := [CallOf(m)])), ms, exec)
  {
    assert MachineNext(m, Issue, ms, exec) == m.(waiting := true, scope := m.scope.(chain := [CallOf(m)]));
    hide MachineNext;
    ReachStep(m, Issue, ms, exec);
  }

  /** The call's exec is let in. */
  lemma ExecIsGranted<X(!new)>(m: Machine<X>, ms: seq<Migration>, exec: (X, string) -> X)
    requires Calm(m) && Executes(m.phase) && m.scope.tx == TokenOf(m)
    ensures var s := m.scope;
            CanReach(m.(waiting := true, scope := s.(chain := [CallOf(m)])),
                     m.(waiting := true, scope := s.(running := Some(Running(s.next, TokenOf(m), [Data(OpOf(m))])),
                                                     next := s.next + 1)), ms, exec)
  {
    var s := m.scope;
    var before := m.(waiting := true, scope := s.(chain := [CallOf(m)]));
    var a: Step<X> := Engine(Grant(Succeeds, 0));
    assert StepEnabled(before, a, exec);
    assert MachineNext(before, a, ms, exec) ==
           m.(waiting := true, scope := s.(running := Some(Running(s.next, TokenOf(m), [Data(OpOf(m))])), next := s.next + 1));
    hide MachineNext, StepEnabled;
    ReachStep(before, a, ms, exec);
  }

  /** The scope while the client's exec runs, before and after its one statement. */
  function Busy<X>(s: Scope<Db<X>, Op>, token: Option<nat>, rest: seq<Stmt<Op>>, working: Db<X>): Scope<Db<X>, Op> {
    s.(running := Some(Running(s.next, token, rest)), next := s.next + 1, working := working)
  }

  lemma StatementRuns<X(!new)>(m: Machine<X>, ms: seq<Migration>, exec: (X, string) -> X)
    requires Calm(m) && Executes(m.phase) && m.scope.tx == TokenOf(m)
    requires m.scope.autocommit <==> m.scope.tx.None?
    ensures var s := m.scope;
            CanReach(m.(waiting := true, scope := Busy(s, TokenOf(m), [Data(OpOf(m))], s.working)),
                     m.(waiting := true, scope := Busy(s, TokenOf(m), [], ApplyOp(s.working, OpOf(m), exec))), ms, exec)
  {
    var s := m.scope;
    var before := m.(waiting := true, scope := Busy(s, TokenOf(m), [Data(OpOf(m))], s.working));
    var a: Step<X> := Engine(StmtDone(s.file, 0));
    assert [Data(OpOf(m))][1..] == [];
    assert StepEnabled(before, a, exec);
    assert MachineNext(before, a, ms, exec) ==
           m.(waiting := true, scope := Busy(s, TokenOf(m), [], ApplyOp(s.working, OpOf(m), exec)));
    hide MachineNext, StepEnabled;
    ReachStep(before, a, ms, exec);
  }

  /** The script of an open transaction ends well, and the client goes on to its next call. */
  lemma ScriptEnds<X(!new)>(m: Machine<X>, working: Db<X>, ms: seq<Migration>, exec: (X, string) -> X)
    requires Calm(m) && (m.phase.Scripting? || m.phase.Stamping?) && m.scope.tx == TokenOf(m) && !m.scope.autocommit
    ensures var s := m.scope;
            CanReach(m.(waiting := true, scope := Busy(s, TokenOf(m), [], working)),
                     m.(scope := s.(next := s.next + 1, working := working),
                        phase := if m.phase.Scripting? then Stamping else Committing), ms, exec)
  {
    var s := m.scope;
    var before := m.(waiting := true, scope := Busy(s, TokenOf(m), [], working));
    var a: Step<X> := Engine(Finish);
    assert StepEnabled(before, a, exec);
    assert MachineNext(before, a, ms, exec) ==
           m.(scope := s.(next := s.next + 1, working := working),
              phase := if m.phase.Scripting? then Stamping else Committing);
    hide MachineNext, StepEnabled;
    ReachStep(before, a, ms, exec);
  }

  /** One script of the open transaction, from call to answer. */
  lemma ScriptRuns<X(!new)>(m: Machine<X>, ms: seq<Migration>, exec: (X, string) -> X)
    requires Calm(m) && (m.phase.Scripting? || m.phase.Stamping?) && m.scope.tx == Some(m.tx) && !m.scope.autocommit
    ensures var s := m.scope;
            CanReach(m, m.(scope := s.(next := s.next + 1, working := ApplyOp(s.working, OpOf(m), exec)),
                           phase := if m.phase.Scripting? then Stamping else Committing), ms, exec)
  {
    var s, working := m.scope, ApplyOp(m.scope.working, OpOf(m), exec);
    Issues(m, ms, exec);
    ExecIsGranted(m, ms, exec);
    StatementRuns(m, ms, exec);
    ScriptEnds(m, working, ms, exec);
    hide CanReach;
    var m1 := m.(waiting := true, scope := s.(chain := [CallOf(m)]));
    var m2 := m.(waiting := true, scope := Busy(s, TokenOf(m), [Data(OpOf(m))], s.working));
    var m3 := m.(waiting := true, scope := Busy(s, TokenOf(m), [], working));
    var m4 := m.(scope := s.(next := s.next + 1, working := working),
                 phase := if m.phase.Scripting? then Stamping else Committing);
    ReachTrans(m, m1, m2, ms, exec);
    ReachTrans(m, m2, m3, ms, exec);
    ReachTrans(m, m3, m4, ms, exec);
  }

  lemma Begun<X(!new)>(m: Machine<X>, ms: seq<Migration>, exec: (X, string) -> X)
    requires Calm(m) && m.phase.Beginning? && m.scope.tx.None?
    ensures var s := m.scope;
            CanReach(m, m.(scope := s.(autocommit := false, tx := Some(s.next), next := s.next + 1),
                           phase := Scripting, tx := s.next), ms, exec)
  {
    var s := m.scope;
    Issues(m, ms, exec);
    var before := m.(waiting := true, scope := s.(chain := [Begin]));
    var a: Step<X> := Engine(Grant(Succeeds, 0));
    var after := m.(scope := s.(autocommit := false, tx := Some(s.next), next := s.next + 1), phase := Scripting, tx := s.next);
    assert StepEnabled(before, a, exec) && MachineNext(before, a, ms, exec) == after;
    hide MachineNext, StepEnabled, CanReach;
    ReachStep(before, a, ms, exec);
    ReachTrans(m, before, after, ms, exec);
  }

  /** The scope after a commit: everything is committed, and a persist may have been queued. */
  function Landed<X>(s: Scope<Db<X>, Op>): Scope<Db<X>, Op> {
    SchedulePersist(CommitWork(s, 1).(tx := None))
  }

  lemma CommitRuns<X(!new)>(m: Machine<X>, ms: seq<Migration>, exec: (X, string) -> X)
    requires Calm(m) && m.phase.Committing? && m.scope.tx == Some(m.tx) && !m.scope.autocommit
    ensures CanReach(m, Answered(m.(scope := Landed(m.scope)), true, 0, 0, ms), ms, exec)
  {
    var s := m.scope;
    Issues(m, ms, exec);
    var before := m.(waiting := true, scope := s.(chain := [Commit(m.tx)]));
    var a: Step<X> := Engine(Grant(Succeeds, 1));
    var after := Answered(m.(scope := Landed(s)), true, 0, 0, ms);
    assert StepEnabled(before, a, exec);
    assert GrantNext(before.scope, Succeeds, 1) == Landed(s) by {
      assert before.scope.(chain := before.scope.chain[1..]) == s;
    }
    assert MachineNext(before, a, ms, exec) == after;
    hide MachineNext, StepEnabled, CanReach, Landed, Answered;
    ReachStep(before, a, ms, exec);
    ReachTrans(m, before, after, ms, exec);
  }

  /** One whole migration, from its begin to its commit. */
  lemma OneRuns<X(!new)>(m: Machine<X>, ms: seq<Migration>, exec: (X, string) -> X) returns (m': Machine<X>)
    requires Calm(m) && m.phase.Beginning? && m.scope.tx.None?
    ensures CanReach(m, m', ms, exec) && Calm(m') && m'.scope.tx.None? && m'.target == m.target
    ensures m'.todo == m.todo[1..] && m'.phase == (if m.todo[1..] == [] then Completed else Beginning)
    ensures m'.scope.committed == Db(exec(m.scope.committed.schema, m.todo[0].sql), m.todo[0].version)
  {
    hide CanReach;
    var s := m.scope;
    Begun(m, ms, exec);
    var m1 := m.(scope := s.(autocommit := false, tx := Some(s.next), next := s.next + 1), phase := Scripting, tx := s.next);
    ScriptRuns(m1, ms, exec);
    var m2 := m1.(scope := m1.scope.(next := m1.scope.next + 1, working := ApplyOp(m1.scope.working, OpOf(m1), exec)),
                  phase := Stamping);
    ReachTrans(m, m1, m2, ms, exec);
    ScriptRuns(m2, ms, exec);
    var m3 := m2.(scope := m2.scope.(next := m2.scope.next + 1, working := ApplyOp(m2.scope.working, OpOf(m2), exec)),
                  phase := Committing);
    ReachTrans(m, m2, m3, ms, exec);
    CommitRuns(m3, ms, exec);
    m' := Answered(m3.(scope := Landed(m3.scope)), true, 0, 0, ms);
    ReachTrans(m, m3, m', ms, exec);
  }

  /** All that is pending, one after another: the database the migration loop computes. */
  lemma {:induction false} AllRun<X(!new)>(m: Machine<X>, ms: seq<Migration>, exec: (X, string) -> X) returns (m': Machine<X>)
    requires Calm(m) && m.phase.Beginning? && m.scope.tx.None?
    ensures CanReach(m, m', ms, exec) && m'.phase.Completed? && m'.target == m.target
    ensures m'.scope.committed == Brought(m.scope.committed, m.todo, exec)
    decreases |m.todo|
  {
    hide CanReach, Calm, Brought;
    assert m.todo != [] by { TodoThere(m); }
    var next := OneRuns(m, ms, exec);
    OneBrought(m.scope.committed, m.todo, exec);
    if next.phase.Beginning? {
      m' := AllRun(next, ms, exec);
      ReachTrans(m, next, m', ms, exec);
    } else {
      m' := next;
    }
  }

  lemma OneBrought<X(!new)>(db: Db<X>, todo: seq<Migration>, exec: (X, string) -> X)
    requires todo != []
    ensures var one := Db(exec(db.schema, todo[0].sql), todo[0].version);
            Brought(db, todo, exec) == (if todo[1..] == [] then one else Brought(one, todo[1..], exec))
  {
    var one := Db(exec(db.schema, todo[0].sql), todo[0].version);
    assert todo == [todo[0]] + todo[1..];
    assert [todo[0]][..0] == [];
    assert Upgrade(db.schema, [], exec) == db.schema;
    assert Brought(db, [todo[0]], exec) == one;
    hide Brought;
    BroughtSplits(db, [todo[0]], todo[1..], exec);
    if todo[1..] == [] {
      assert todo == [todo[0]];
    }
  }

  lemma TodoThere<X(!new)>(m: Machine<X>)
    requires Calm(m) && UsesTodo(m.phase)
    ensures m.todo != []
  {
  }

  lemma VersionIsRead<X(!new)>(m: Machine<X>, ms: seq<Migration>, exec: (X, string) -> X)
    requires m == Boot(m.scope.stored, m.target)
    ensures CanReach(m, PlanFrom(m.(scope := m.scope.(next := 1)), m.scope.committed.version, ms), ms, exec)
  {
    var s := m.scope;
    Issues(m, ms, exec);
    ExecIsGranted(m, ms, exec);
    StatementRuns(m, ms, exec);
    var m1 := m.(waiting := true, scope := s.(chain := [CallOf(m)]));
    var m2 := m.(waiting := true, scope := Busy(s, None, [Data(OpOf(m))], s.working));
    var m3 := m.(waiting := true, scope := Busy(s, None, [], s.working));
    var m4 := PlanFrom(m.(scope := s.(next := 1)), s.committed.version, ms);
    var a: Step<X> := Engine(Finish);
    assert StepEnabled(m3, a, exec) && MachineNext(m3, a, ms, exec) == m4;
    hide MachineNext, StepEnabled, CanReach, PlanFrom;
    ReachStep(m3, a, ms, exec);
    ReachTrans(m, m1, m2, ms, exec);
    ReachTrans(m, m2, m3, ms, exec);
    ReachTrans(m, m3, m4, ms, exec);
  }

  /**
   * Freshly loaded data at or below the target can be brought all the way up, and then
   * is exactly what the migration loop on a connection of its own would make of it.
   */
  lemma BootCompletes<X(!new)>(bytes: Db<X>, target: int, ms: seq<Migration>, exec: (X, string) -> X) returns (m': Machine<X>)
    requires bytes.version <= target
    ensures CanReach(Boot(bytes, target), m', ms, exec) && m'.phase.Completed? && m'.target == target
    ensures m'.scope.committed == Brought(bytes, Sorted(Pending(ms, bytes.version, target)), exec)
  {
    hide CanReach, Sorted, Pending;
    var m := Boot(bytes, target);
    VersionIsRead(m, ms, exec);
    var planned := PlanFrom(m.(scope := m.scope.(next := 1)), bytes.version, ms);
    if planned.phase.Beginning? {
      m' := AllRun(planned, ms, exec);
      ReachTrans(m, planned, m', ms, exec);
    } else {
      m' := planned;
    }
  }

  /**
   * From anywhere in any run, a restart with a target not below the stored version can
   * be completed, and then holds the first database plus exactly the migrations up to
   * that target.
   */
  lemma AlwaysRecovers<X(!new)>(base: Db<X>, first: int, steps: seq<Step<X>>, target: int, ms: seq<Migration>, exec: (X, string) -> X)
    returns (m': Machine<X>)
    requires Ascending(ms) && ValidSteps(Boot(base, first), steps, ms, exec)
    requires AfterSteps(Boot(base, first), steps, ms, exec).scope.stored.version <= target
    ensures CanReach(AfterSteps(Boot(base, first), steps, ms, exec), m', ms, exec) && m'.phase.Completed?
    ensures m'.scope.committed.schema == Upgrade(base.schema, Pending(ms, base.version, target), exec)
  {
    var m := AfterSteps(Boot(base, first), steps, ms, exec);
    var reboot: Step<X> := Crash(target);
    Restarts(base, first, steps, target, ms, exec);
    hide Pending, ValidSteps, AfterSteps, CanReach;
    m' := BootCompletes(m.scope.stored, target, ms, exec);
    ReachTrans(m, Boot(m.scope.stored, target), m', ms, exec);
    ReachedIsSafe(base, first, steps, m', ms, exec);
  }

  lemma Restarts<X(!new)>(base: Db<X>, first: int, steps: seq<Step<X>>, target: int, ms: seq<Migration>, exec: (X, string) -> X)
    requires Ascending(ms) && ValidSteps(Boot(base, first), steps, ms, exec)
    ensures var m := AfterSteps(Boot(base, first), steps, ms, exec);
            CanReach(m, Boot(m.scope.stored, target), ms, exec)
  {
    var m := AfterSteps(Boot(base, first), steps, ms, exec);
    var reboot: Step<X> := Crash(target);
    hide AfterSteps, Migrated, Pending, Inv;
    RunInv(base, first, steps, ms, exec);
    InvTodo(m, base, ms, exec);
    ReachStep(m, reboot, ms, exec);
  }

  lemma RunInv<X(!new)>(base: Db<X>, first: int, steps: seq<Step<X>>, ms: seq<Migration>, exec: (X, string) -> X)
    requires Ascending(ms) && ValidSteps(Boot(base, first), steps, ms, exec)
    ensures Inv(AfterSteps(Boot(base, first), steps, ms, exec), base, ms, exec)
  {
    NothingPending(ms, base.version, base.version);
    hide ValidSteps, AfterSteps, Inv, Pending;
    BootInv(base, first, base, ms, exec);
    StepsInv(Boot(base, first), steps, base, ms, exec);
  }

  lemma InvTodo<X(!new)>(m: Machine<X>, base: Db<X>, ms: seq<Migration>, exec: (X, string) -> X)
    requires Inv(m, base, ms, exec)
    ensures UsesTodo(m.phase) ==> m.todo != []
  {
    hide Migrated, Pending, Consistent, Ascending;
  }

  lemma ReachedIsSafe<X(!new)>(base: Db<X>, first: int, steps: seq<Step<X>>, m': Machine<X>, ms: seq<Migration>, exec: (X, string) -> X)
    requires Ascending(ms) && ValidSteps(Boot(base, first), steps, ms, exec)
    requires CanReach(AfterSteps(Boot(base, first), steps, ms, exec), m', ms, exec) && m'.phase.Completed?
    ensures m'.scope.committed.schema == Upgrade(base.schema, Pending(ms, base.version, m'.target), exec)
  {
    hide ValidSteps, AfterSteps, Pending, Migrated, Upgrade;
    var m := AfterSteps(Boot(base, first), steps, ms, exec);
    var more :| ValidSteps(m, more, ms, exec) && AfterSteps(m, more, ms, exec) == m';
    StepsJoin(Boot(base, first), steps, more, ms, exec);
    CrashSafe(base, first, steps + more, ms, exec);
  }
}
