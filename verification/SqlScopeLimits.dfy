/**
 * Where the engine's promises stop: concrete runs showing that the conditions
 * of the main theorems are needed. Databases are sums of the numbers written.
 */
module SqlScopeLimits {
  import opened Wrappers
  import opened SqlScope
  import opened SqlScopeSerial
  import opened SqlScopePersist
  import opened SqlScopeControl

  function Add(db: int, x: int): int {
    db + x
  }

  type IntScope = Scope<int, int>
  type IntAction = Action<int, int>

  predicate Leads(s: IntScope, a: IntAction, s': IntScope) {
    Enabled(s, a, Add) && Next(s, a, Add) == s'
  }

  /** The states a run passes through, one more than it has actions. */
  predicate Passes(states: seq<IntScope>, run: seq<IntAction>) {
    |states| == |run| + 1 &&
    forall k :: 0 <= k < |run| ==> Leads(states[k], run[k], states[k + 1])
  }

  lemma {:induction false} PassesRun(states: seq<IntScope>, run: seq<IntAction>)
    requires Passes(states, run)
    ensures ValidRun(states[0], run, Add) && After(states[0], run, Add) == states[|run|]
    decreases |run|
  {
    hide Enabled, Next;
    if run != [] {
      assert Passes(states[1..], run[1..]) by {
        forall k | 0 <= k < |run[1..]|
          ensures Leads(states[1..][k], run[1..][k], states[1..][k + 1]) {
          assert Leads(states[k + 1], run[k + 1], states[k + 2]);
        }
      }
      PassesRun(states[1..], run[1..]);
      assert Leads(states[0], run[0], states[1]);
    }
  }

  lemma RunsJoin(s: IntScope, first: seq<IntAction>, second: seq<IntAction>)
    requires ValidRun(s, first, Add) && ValidRun(After(s, first, Add), second, Add)
    ensures ValidRun(s, first + second, Add)
    ensures After(s, first + second, Add) == After(After(s, first, Add), second, Add)
    decreases |first|
  {
    hide Enabled, Next;
    if first == [] {
      assert first + second == second;
    } else {
      assert (first + second)[1..] == first[1..] + second;
      RunsJoin(Next(s, first[0], Add), first[1..], second);
    }
  }

  // -------------------------------------------------------- one step at a time

  lemma Arrives(s: IntScope, c: Call<int>)
    requires !c.PersistSnapshot? && (NeedsGate(c) ==> s.tx.None?) && s.chain == []
    ensures Leads(s, Arrive(c), s.(chain := [c]))
  {
  }

  lemma StartsExec(s: IntScope, token: Option<nat>, script: seq<Stmt<int>>)
    requires s.running.None? && s.chain == [Exec(token, script)] && s.tx == token
    ensures Leads(s, Grant(Succeeds, 0), s.(chain := [], running := Some(Running(s.next, token, script)), next := s.next + 1))
  {
  }

  lemma DataAlone(s: IntScope, x: int)
    requires s.running.Some? && s.running.value.rest == [Data(x)] && s.autocommit
    ensures var db := s.working + x;
            Leads(s, StmtDone(0, 1), s.(running := Some(s.running.value.(rest := [])), committed := db, working := db,
                                        file := db, writes := s.writes + 1))
  {
    assert s.running.value.rest[1..] == [];
  }

  lemma DataInside(s: IntScope, x: int, tail: seq<Stmt<int>>)
    requires s.running.Some? && s.running.value.rest == [Data(x)] + tail && !s.autocommit && s.file == 0
    ensures Leads(s, StmtDone(0, 0), s.(running := Some(s.running.value.(rest := tail)), working := s.working + x))
  {
    assert s.running.value.rest[1..] == tail;
  }

  lemma TextCommits(s: IntScope, tail: seq<Stmt<int>>)
    requires s.running.Some? && s.running.value.rest == [TextCommit] + tail && !s.autocommit
    ensures Leads(s, StmtDone(0, 1), CommitWork(s.(running := Some(s.running.value.(rest := tail))), 1))
  {
    assert s.running.value.rest[1..] == tail;
  }

  lemma TextBegins(s: IntScope, tail: seq<Stmt<int>>)
    requires s.running.Some? && s.running.value.rest == [TextBegin] + tail && s.autocommit
    ensures Leads(s, StmtDone(0, 0), s.(running := Some(s.running.value.(rest := tail)), autocommit := false))
  {
    assert s.running.value.rest[1..] == tail;
  }

  lemma Finishes(s: IntScope)
    requires s.running.Some? && s.running.value.rest == []
    ensures Leads(s, Finish, EndExec(s, s.running.value.token).(running := None))
  {
  }

  // ------------------------------------------------------------ a write is lost

  /** One plain write has been committed and its persist scheduled. */
  function Written(): IntScope {
    Scope(1, 1, 1, true, None, 1, [], [], None, 1, 0, true, [Scheduled], 0)
  }

  function WriteOne(): seq<IntAction> {
    [Arrive(Exec(None, [Data(1)])), Grant(Succeeds, 0), StmtDone(0, 1), Finish]
  }

  lemma WriteOneRuns()
    ensures ValidRun(Opened(0), WriteOne(), Add) && After(Opened(0), WriteOne(), Add) == Written()
  {
    hide Leads;
    var s0: IntScope := Opened(0);
    var s1 := s0.(chain := [Exec(None, [Data(1)])]);
    var s2 := s0.(running := Some(Running(0, None, [Data(1)])), next := 1);
    var s3 := s2.(running := Some(Running(0, None, [])), committed := 1, working := 1, file := 1, writes := 1);
    Arrives(s0, Exec(None, [Data(1)]));
    StartsExec(s1, None, [Data(1)]);
    DataAlone(s2, 1);
    Finishes(s3);
    var run := WriteOne();
    assert Leads(s0, run[0], s1);
    assert Leads(s1, run[1], s2);
    assert Leads(s2, run[2], s3);
    assert s3.persists + [Scheduled] == [Scheduled];
    assert EndExec(s3, None).(running := None) == Written();
    assert Leads(s3, run[3], Written());
    PassesRun([s0, s1, s2, s3, Written()], run);
  }

  function BeginThenExpire(): seq<IntAction> {
    [Arrive(Begin), PersistStart, Grant(Succeeds, 0), Grant(Succeeds, 0), Arrive(Expire(1)), Grant(Succeeds, 0)]
  }

  lemma BeginThenExpireRuns()
    ensures ValidRun(Written(), BeginThenExpire(), Add)
    ensures After(Written(), BeginThenExpire(), Add) ==
            Scope(1, 1, 1, true, None, 2, [], [], None, 1, 0, false, [], 0)
  {
    var s4 := Written();
    var s5 := s4.(chain := [Begin]);
    var s6 := s5.(chain := [Begin, PersistSnapshot], persistQueued := false, persists := [AwaitingMutex]);
    var s7 := s6.(chain := [PersistSnapshot], autocommit := false, tx := Some(1), next := 2);
    var s8 := s7.(chain := [], persists := []);
    var s9 := s8.(chain := [Expire(1)]);
    var s10 := s9.(chain := [], autocommit := true, tx := None);
    var run := BeginThenExpire();
    assert Leads(s4, run[0], s5) && Leads(s5, run[1], s6) && Leads(s6, run[2], s7);
    assert Leads(s7, run[3], s8) && Leads(s8, run[4], s9) && Leads(s9, run[5], s10);
    hide Leads;
    PassesRun([s4, s5, s6, s7, s8, s9, s10], run);
  }

  /**
   * A committed write can miss its persist: the persist callback finds a
   * transaction open and gives up, and the idle expiry that ends that transaction
   * schedules nothing. The engine is then at rest with stale stored bytes.
   */
  lemma ExpiryCanLoseAWrite() returns (run: seq<IntAction>)
    ensures ValidRun(Opened(0), run, Add) && PlainRun(run) && AllDelivered(run)
    ensures var s := After(Opened(0), run, Add); Quiet(s) && s.committed == 1 && s.stored == 0
  {
    run := WriteOne() + BeginThenExpire();
    WriteOneRuns();
    BeginThenExpireRuns();
    hide After, ValidRun;
    RunsJoin(Opened(0), WriteOne(), BeginThenExpire());
  }

  // ------------------------------------------------------ a rollback is escaped

  function EscapeScript(): seq<Stmt<int>> {
    [Data(1), TextCommit, TextBegin]
  }

  function OpenTx(): seq<IntAction> {
    [Arrive(Begin), Grant(Succeeds, 0), Arrive(Exec(Some(0), EscapeScript())), Grant(Succeeds, 0)]
  }

  function InTx(): IntScope {
    Scope(0, 0, 0, false, Some(0), 2, [], [], Some(Running(1, Some(0), EscapeScript())), 0, 0, false, [], 0)
  }

  lemma OpenTxRuns()
    ensures ValidRun(Opened(0), OpenTx(), Add) && After(Opened(0), OpenTx(), Add) == InTx()
  {
    var s0: IntScope := Opened(0);
    var s1 := s0.(chain := [Begin]);
    var s2 := s0.(autocommit := false, tx := Some(0), next := 1);
    var s3 := s2.(chain := [Exec(Some(0), EscapeScript())]);
    var run := OpenTx();
    assert Leads(s0, run[0], s1) && Leads(s1, run[1], s2) && Leads(s2, run[2], s3) && Leads(s3, run[3], InTx());
    hide Leads;
    PassesRun([s0, s1, s2, s3, InTx()], run);
  }

  function Escape(): seq<IntAction> {
    [StmtDone(0, 0), StmtDone(0, 1), StmtDone(0, 0), Finish, Arrive(Rollback(0)), Grant(Succeeds, 0)]
  }

  lemma RollsBackNothing(s: IntScope)
    requires s.running.None? && s.chain == [Rollback(0)] && s.tx == Some(0) && !s.autocommit
    requires s.committed == s.file == 1 && !s.persistQueued && s.writes != s.persistedWrites
    ensures Leads(s, Grant(Succeeds, 0),
                  s.(chain := [], working := 1, tx := None, autocommit := true, persistQueued := true,
                     persists := s.persists + [Scheduled]))
  {
  }

  lemma EscapeRuns()
    ensures ValidRun(InTx(), Escape(), Add)
    ensures After(InTx(), Escape(), Add) ==
            Scope(1, 1, 1, true, None, 2, [], [], None, 1, 0, true, [Scheduled], 0)
  {
    hide Leads;
    var rest: seq<Stmt<int>> := [TextCommit, TextBegin];
    assert EscapeScript() == [Data(1)] + rest && rest == [TextCommit] + [TextBegin];
    assert [TextBegin] == [TextBegin] + EscapeScript()[3..];
    var s4 := InTx();
    var s5 := s4.(running := Some(Running(1, Some(0), rest)), working := 1);
    var s6 := Scope(1, 1, 1, true, Some(0), 2, [], [], Some(Running(1, Some(0), [TextBegin])), 1, 0, false, [], 0);
    var s7 := s6.(running := Some(Running(1, Some(0), [])), autocommit := false);
    var s8 := s7.(running := None);
    var s9 := s8.(chain := [Rollback(0)]);
    var s10 := s9.(chain := [], tx := None, autocommit := true, persistQueued := true, persists := [Scheduled]);
    DataInside(s4, 1, rest);
    TextCommits(s5, [TextBegin]);
    TextBegins(s6, []);
    Finishes(s7);
    Arrives(s8, Rollback(0));
    RollsBackNothing(s9);
    var run := Escape();
    assert Leads(s4, run[0], s5);
    assert Leads(s5, run[1], s6);
    assert Leads(s6, run[2], s7);
    assert Leads(s7, run[3], s8);
    assert Leads(s8, run[4], s9);
    assert s9.persists + [Scheduled] == [Scheduled];
    assert Leads(s9, run[5], s10);
    PassesRun([s4, s5, s6, s7, s8, s9, s10], run);
  }

  /**
   * Transaction control hidden in the text of a tokened call slips past the final
   * autocommit check: `COMMIT; BEGIN` publishes what the later rollback should undo.
   */
  lemma TextCommitEscapesRollback() returns (run: seq<IntAction>)
    ensures ValidRun(Opened(0), run, Add) && |run| == 10
    ensures run[8] == Arrive(Rollback(0)) && run[9] == Grant(Succeeds, 0)
    ensures var s := After(Opened(0), run, Add); s.running.None? && s.tx.None? && s.committed == 1
  {
    run := OpenTx() + Escape();
    OpenTxRuns();
    EscapeRuns();
    hide After, ValidRun;
    RunsJoin(Opened(0), OpenTx(), Escape());
  }

  // ------------------------------------------------- a dangling manual BEGIN

  function FailAfterBegin(): seq<IntAction> {
    [Arrive(Exec(None, [TextBegin, Data(1)])), Grant(Succeeds, 0), StmtDone(0, 0), StmtFailed(false, 0, 0)]
  }

  function LeftOpen(): IntScope {
    Scope(0, 0, 0, false, None, 1, [], [], None, 0, 0, false, [], 0)
  }

  lemma Fails(s: IntScope, tail: seq<Stmt<int>>)
    requires s.running == Some(Running(0, None, [Data(1)] + tail)) && !s.autocommit && s.tx.None? && s.file == 0
    ensures Leads(s, StmtFailed(false, 0, 0), s.(running := None))
  {
  }

  lemma FailAfterBeginRuns()
    ensures ValidRun(Opened(0), FailAfterBegin(), Add) && After(Opened(0), FailAfterBegin(), Add) == LeftOpen()
  {
    hide Leads;
    var run := FailAfterBegin();
    var script: seq<Stmt<int>> := [TextBegin, Data(1)];
    assert script == [TextBegin] + [Data(1)] && [Data(1)] + [] == [Data(1)];
    var s0: IntScope := Opened(0);
    var s1 := s0.(chain := [Exec(None, script)]);
    var s2 := s0.(running := Some(Running(0, None, script)), next := 1);
    var s3 := s2.(running := Some(Running(0, None, [Data(1)])), autocommit := false);
    Arrives(s0, Exec(None, script));
    StartsExec(s1, None, script);
    TextBegins(s2, [Data(1)]);
    Fails(s3, []);
    assert Leads(s0, run[0], s1);
    assert Leads(s1, run[1], s2);
    assert Leads(s2, run[2], s3);
    assert Leads(s3, run[3], LeftOpen());
    PassesRun([s0, s1, s2, s3, LeftOpen()], run);
  }

  function WriteFive(): seq<IntAction> {
    [Arrive(Exec(None, [Data(5)])), Grant(Succeeds, 0), StmtDone(0, 0), Finish]
  }

  /** The next call's write goes through without an error until its end, and is gone. */
  lemma WriteFiveRuns()
    ensures ValidRun(LeftOpen(), WriteFive(), Add)
    ensures After(LeftOpen(), WriteFive(), Add) == LeftOpen().(autocommit := true, next := 2, writes := 1)
    ensures ValidRun(LeftOpen(), WriteFive()[..3], Add) && After(LeftOpen(), WriteFive()[..3], Add).working == 5
  {
    hide Leads;
    var run := WriteFive();
    var s0 := LeftOpen();
    var s1 := s0.(chain := [Exec(None, [Data(5)])]);
    var s2 := s0.(running := Some(Running(1, None, [Data(5)])), next := 2);
    var s3 := s2.(running := Some(Running(1, None, [])), working := 5);
    var s4 := s0.(autocommit := true, next := 2, writes := 1);
    Arrives(s0, Exec(None, [Data(5)]));
    StartsExec(s1, None, [Data(5)]);
    assert [Data(5)] + [] == [Data(5)];
    DataInside(s2, 5, []);
    Finishes(s3);
    assert EndExec(s3, None).(running := None) == s4;
    assert Leads(s0, run[0], s1);
    assert Leads(s1, run[1], s2);
    assert Leads(s2, run[2], s3);
    assert Leads(s3, run[3], s4);
    PassesRun([s0, s1, s2, s3, s4], run);
    PassesRun([s0, s1, s2, s3], run[..3]);
  }

  /**
   * The discipline check runs only after a script that raised no error, so a failing
   * script can leave its own BEGIN open: nobody holds a token, yet SQLite is inside
   * a transaction, and what the next plain call writes is rolled back as it ends.
   */
  lemma FailedScriptLeavesBeginOpen()
    ensures ValidRun(Opened(0), FailAfterBegin(), Add) && Dangling(After(Opened(0), FailAfterBegin(), Add))
    ensures var run := FailAfterBegin() + WriteFive();
            && ValidRun(Opened(0), run, Add)
            && After(Opened(0), run, Add).working == 0 && After(Opened(0), run, Add).committed == 0
  {
    hide After, ValidRun;
    FailAfterBeginRuns();
    WriteFiveRuns();
    RunsJoin(Opened(0), FailAfterBegin(), WriteFive());
  }
}
