/**
 * Transaction control inside SQL text: exactly which scripts leave a transaction
 * nobody owns, and exactly which slip past the final autocommit check.
 */
module SqlScopeControl {
  import opened Wrappers
  import opened SqlScope
  import opened SqlScopeSafety
  import opened SqlScopeSerial
  import opened SqlScopeState

  // --------------------------------------------------------- reading the script

  function AfterStmt<S>(inside: bool, stmt: Stmt<S>): bool {
    match stmt
    case Data(_) => inside
    case TextBegin => true
    case TextCommit => false
    case TextRollback => false
  }

  /** Whether a script that starts inside a transaction, or not, ends inside one. */
  predicate InText<S>(inside: bool, script: seq<Stmt<S>>)
    decreases script
  {
    if script == [] then inside else InText(AfterStmt(inside, script[0]), script[1..])
  }

  /** Whether a script makes something permanent: a statement outside a transaction, or a COMMIT of something new. */
  predicate Publishes<S>(script: seq<Stmt<S>>, inside: bool, changed: bool) {
    script != [] &&
    match script[0]
    case Data(_) => !inside || Publishes(script[1..], true, true)
    case TextBegin => Publishes(script[1..], true, false)
    case TextCommit => changed || Publishes(script[1..], false, false)
    case TextRollback => Publishes(script[1..], false, false)
  }

  /** The statements that ran before one failed, or all of them. */
  function Ran<D, S>(script: seq<Stmt<S>>, effects: seq<Effect<D>>): seq<Stmt<S>> {
    if script == [] || effects == [] || effects[0].Failed? then []
    else [script[0]] + Ran(script[1..], effects[1..])
  }

  predicate Fails<D>(effects: seq<Effect<D>>) {
    effects != [] && (effects[0].Failed? || Fails(effects[1..]))
  }

  /** No failure made SQLite roll the transaction back. */
  predicate Survives<D>(effects: seq<Effect<D>>) {
    effects == [] || (if effects[0].Failed? then !effects[0].rolledBack else Survives(effects[1..]))
  }

  // ------------------------------------------------------- one statement at a time

  lemma RunsOne<D, S>(s: Scope<D, S>, effects: seq<Effect<D>>, ap: (D, S) -> D)
    requires Consistent(s) && s.running.Some? && effects != [] && effects[0].Did?
    requires ValidRun(s, ScriptTrace(effects), ap)
    ensures var a: Action<D, S> := StmtDone(effects[0].spill, effects[0].w);
            && Enabled(s, a, ap) && s.running.value.rest != [] && Consistent(Next(s, a, ap))
            && ValidRun(Next(s, a, ap), ScriptTrace(effects[1..]), ap)
            && After(s, ScriptTrace(effects), ap) == After(Next(s, a, ap), ScriptTrace(effects[1..]), ap)
  {
    var a: Action<D, S> := StmtDone(effects[0].spill, effects[0].w);
    assert ScriptTrace<D, S>(effects)[0] == a && ScriptTrace<D, S>(effects)[1..] == ScriptTrace(effects[1..]);
    StepKeeps(s, a, ap);
    hide Next, Consistent;
  }

  lemma StmtMoves<D, S>(s: Scope<D, S>, spill: D, w: nat, ap: (D, S) -> D)
    requires Consistent(s) && Enabled(s, StmtDone(spill, w), ap)
    ensures var s', r, stmt := Next(s, StmtDone(spill, w), ap), s.running.value, s.running.value.rest[0];
            && s'.running == Some(r.(rest := r.rest[1..])) && s'.tx == s.tx
            && (!s'.autocommit <==> AfterStmt(!s.autocommit, stmt))
  {
    hide SnapshotCount;
  }

  // --------------------------------------------------- among other calls' steps

  /** The steps of the running exec itself. */
  predicate Own<D, S>(a: Action<D, S>) {
    a.StmtDone? || a.StmtFailed? || a.Finish?
  }

  function OwnSteps<D, S>(run: seq<Action<D, S>>): seq<Action<D, S>> {
    if run == [] then []
    else (if Own(run[0]) then [run[0]] else []) + OwnSteps(run[1..])
  }

  /** The two scopes are at the same point of the same exec; queues and persists may differ. */
  predicate SameWork<D(==), S(==)>(s: Scope<D, S>, t: Scope<D, S>) {
    && s.committed == t.committed && s.working == t.working && s.file == t.file
    && s.autocommit == t.autocommit && s.tx == t.tx && s.running == t.running
  }

  /** While an exec runs, whatever else happens leaves its database and its transaction alone. */
  lemma OthersKeep<D, S>(s: Scope<D, S>, t: Scope<D, S>, a: Action<D, S>, ap: (D, S) -> D)
    requires SameWork(s, t) && s.running.Some? && Enabled(s, a, ap) && !Own(a)
    ensures SameWork(Next(s, a, ap), t)
  {
  }

  lemma OwnKeeps<D, S>(s: Scope<D, S>, t: Scope<D, S>, a: Action<D, S>, ap: (D, S) -> D)
    requires SameWork(s, t) && Enabled(s, a, ap) && Own(a)
    ensures Enabled(t, a, ap) && SameWork(Next(s, a, ap), Next(t, a, ap))
    ensures a.StmtDone? ==> Next(s, a, ap).running.Some?
  {
  }

  /** A stretch of a run in which the exec holding the mutex goes to its end, among any other steps. */
  predicate ExecRun<D(==), S(==)>(s: Scope<D, S>, run: seq<Action<D, S>>, effects: seq<Effect<D>>, ap: (D, S) -> D) {
    && s.running.Some? && ValidRun(s, run, ap) && OwnSteps(run) == ScriptTrace(effects)
    && run != [] && Own(run[|run| - 1])
  }

  lemma {:induction false} NoOwnLeft<D, S>(run: seq<Action<D, S>>)
    requires OwnSteps(run) == []
    ensures forall k :: 0 <= k < |run| ==> !Own(run[k])
  {
    if run != [] {
      NoOwnLeft(run[1..]);
    }
  }

  /** Other calls' steps in between make no difference to how the exec ends. */
  lemma {:induction false} Interleaved<D, S>(s: Scope<D, S>, t: Scope<D, S>, run: seq<Action<D, S>>, effects: seq<Effect<D>>,
                                             ap: (D, S) -> D)
    requires SameWork(s, t) && ExecRun(s, run, effects, ap)
    ensures ValidRun(t, ScriptTrace(effects), ap)
    ensures SameWork(After(s, run, ap), After(t, ScriptTrace(effects), ap))
    decreases |run|
  {
    hide Next, Enabled, SameWork;
    var a, rest := run[0], run[1..];
    if !Own(a) {
      OthersKeep(s, t, a, ap);
      StillRunning(s, t, a, ap);
      Interleaved(Next(s, a, ap), t, rest, effects, ap);
    } else {
      OwnKeeps(s, t, a, ap);
      assert ScriptTrace<D, S>(effects)[0] == a && OwnSteps(rest) == ScriptTrace<D, S>(effects)[1..];
      if a.StmtDone? {
        assert ScriptTrace<D, S>(effects)[1..] == ScriptTrace(effects[1..]);
        Interleaved(Next(s, a, ap), Next(t, a, ap), rest, effects[1..], ap);
      } else {
        assert ScriptTrace<D, S>(effects)[1..] == [];
        NoOwnLeft(rest);
        assert rest == [];
      }
    }
  }

  lemma StillRunning<D, S>(s: Scope<D, S>, t: Scope<D, S>, a: Action<D, S>, ap: (D, S) -> D)
    requires SameWork(s, t) && s.running.Some? && Enabled(s, a, ap) && !Own(a)
    ensures Next(s, a, ap).running.Some?
  {
  }

  // --------------------------------------------------------- a transaction nobody owns

  /** SQLite is inside a transaction that no token names, and nothing is running in it. */
  predicate Dangling<D, S>(s: Scope<D, S>) {
    s.running.None? && s.tx.None? && !s.autocommit
  }

  /** A script without a token failed, was not rolled back, and had a BEGIN of its own still open. */
  predicate FailsInside<D, S>(s: Scope<D, S>, effects: seq<Effect<D>>)
    requires s.running.Some?
  {
    s.running.value.token.None? && Fails(effects) && Survives(effects) &&
    InText(!s.autocommit, Ran(s.running.value.rest, effects))
  }

  lemma EndNeverDangles<D, S>(s: Scope<D, S>, ap: (D, S) -> D)
    requires Consistent(s) && Enabled(s, Finish, ap)
    ensures !Dangling(Next(s, Finish, ap))
  {
    hide SnapshotCount;
  }

  lemma FailureDangles<D, S>(s: Scope<D, S>, rolledBack: bool, spill: D, w: nat, ap: (D, S) -> D)
    requires Consistent(s) && Enabled(s, StmtFailed(rolledBack, spill, w), ap)
    ensures Dangling(Next(s, StmtFailed(rolledBack, spill, w), ap)) <==>
            s.running.value.token.None? && !rolledBack && !s.autocommit
  {
    hide SnapshotCount;
  }

  lemma {:induction false} DanglesAlone<D, S>(s: Scope<D, S>, effects: seq<Effect<D>>, ap: (D, S) -> D)
    requires Consistent(s) && s.running.Some? && ValidRun(s, ScriptTrace(effects), ap)
    ensures Dangling(After(s, ScriptTrace(effects), ap)) <==> FailsInside(s, effects)
    decreases |effects|
  {
    hide Consistent, Next, Enabled, Dangling;
    if effects == [] {
      EndNeverDangles(s, ap);
    } else if effects[0].Failed? {
      var f := effects[0];
      FailureDangles(s, f.rolledBack, f.spill, f.w, ap);
    } else {
      RunsOne(s, effects, ap);
      StmtMoves(s, effects[0].spill, effects[0].w, ap);
      DanglesAlone(Next(s, StmtDone(effects[0].spill, effects[0].w), ap), effects[1..], ap);
    }
  }

  /**
   * In any run, an exec leaves a transaction nobody owns exactly when its script fails
   * inside one of its own, whatever other calls do meanwhile.
   */
  lemma DanglesExactly<D, S>(s: Scope<D, S>, run: seq<Action<D, S>>, effects: seq<Effect<D>>, ap: (D, S) -> D)
    requires Consistent(s) && ExecRun(s, run, effects, ap)
    ensures Dangling(After(s, run, ap)) <==> FailsInside(s, effects)
  {
    hide Consistent, FailsInside, After, ValidRun;
    Interleaved(s, s, run, effects, ap);
    DanglesAlone(s, effects, ap);
  }

  /** In any run no other step ever makes one. */
  lemma DanglingOnlyFromFailure<D, S>(s: Scope<D, S>, a: Action<D, S>, ap: (D, S) -> D)
    requires Consistent(s) && !Dangling(s) && Enabled(s, a, ap)
    ensures Dangling(Next(s, a, ap)) <==>
            a.StmtFailed? && s.running.value.token.None? && !a.rolledBack && !s.autocommit
  {
    hide SnapshotCount;
    match a {
      case Finish => EndNeverDangles(s, ap);
      case StmtFailed(rolledBack, spill, w) => FailureDangles(s, rolledBack, spill, w, ap);
      case Grant(outcome, w) => GrantNeverDangles(s, outcome, w);
      case _ =>
    }
  }

  lemma GrantNeverDangles<D, S>(s: Scope<D, S>, outcome: Outcome, w: nat)
    requires Consistent(s) && !Dangling(s) && GrantEnabled(s, outcome, w)
    ensures !Dangling(GrantNext(s, outcome, w))
  {
    hide SnapshotCount;
  }

  lemma {:induction false} SwallowsAlone<D, S>(s: Scope<D, S>, effects: seq<Effect<D>>, ap: (D, S) -> D)
    requires Consistent(s) && s.running.Some? && s.running.value.token.None? && !s.autocommit
    requires PlainScript(s.running.value.rest) && ValidRun(s, ScriptTrace(effects), ap)
    ensures var f := After(s, ScriptTrace(effects), ap);
            && f.committed == s.committed
            && (Dangling(f) <==> Fails(effects) && Survives(effects))
            && (!Dangling(f) ==> f.running.None? && f.autocommit && f.working == s.committed)
    decreases |effects|
  {
    if effects == [] {
      SwallowEnds(s, ap);
    } else if effects[0].Failed? {
      var f := effects[0];
      SwallowFails(s, f.rolledBack, f.spill, f.w, ap);
    } else {
      hide Consistent, Next, Enabled;
      RunsOne(s, effects, ap);
      PlainMoves(s, effects[0].spill, effects[0].w, ap);
      SwallowsAlone(Next(s, StmtDone(effects[0].spill, effects[0].w), ap), effects[1..], ap);
    }
  }

  /**
   * Whatever plain script the next call without a token runs in it, and whether or not
   * it fails, nothing of it is committed. It is undone as the call ends, or, after a
   * failure that SQLite does not roll back, stays in the transaction nobody owns.
   */
  lemma DanglingSwallows<D, S>(s: Scope<D, S>, run: seq<Action<D, S>>, effects: seq<Effect<D>>, ap: (D, S) -> D)
    requires Consistent(s) && ExecRun(s, run, effects, ap) && s.running.value.token.None? && !s.autocommit
    requires PlainScript(s.running.value.rest)
    ensures var f := After(s, run, ap);
            && f.committed == s.committed
            && (Dangling(f) <==> Fails(effects) && Survives(effects))
            && (!Dangling(f) ==> f.running.None? && f.autocommit && f.working == s.committed)
  {
    hide Consistent, After, ValidRun, Fails, Survives;
    Interleaved(s, s, run, effects, ap);
    SwallowsAlone(s, effects, ap);
  }

  lemma SwallowEnds<D, S>(s: Scope<D, S>, ap: (D, S) -> D)
    requires Consistent(s) && Enabled(s, Finish, ap) && s.running.value.token.None? && !s.autocommit
    ensures var f := Next(s, Finish, ap);
            f.running.None? && f.autocommit && f.committed == s.committed && f.working == s.committed
  {
    hide SnapshotCount;
  }

  lemma SwallowFails<D, S>(s: Scope<D, S>, rolledBack: bool, spill: D, w: nat, ap: (D, S) -> D)
    requires Consistent(s) && Enabled(s, StmtFailed(rolledBack, spill, w), ap)
    requires s.running.value.token.None? && !s.autocommit
    ensures var f := Next(s, StmtFailed(rolledBack, spill, w), ap);
            && f.committed == s.committed && f.running.None? && f.tx.None?
            && (f.autocommit <==> rolledBack) && (rolledBack ==> f.working == s.committed)
  {
    hide SnapshotCount;
  }

  lemma PlainMoves<D, S>(s: Scope<D, S>, spill: D, w: nat, ap: (D, S) -> D)
    requires Consistent(s) && Enabled(s, StmtDone(spill, w), ap) && PlainScript(s.running.value.rest) && !s.autocommit
    ensures var s' := Next(s, StmtDone(spill, w), ap);
            && s'.running.Some? && s'.running.value.token == s.running.value.token && !s'.autocommit
            && PlainScript(s'.running.value.rest) && s'.committed == s.committed
  {
    assert s.running.value.rest[0].Data?;
    hide SnapshotCount;
  }

  // ------------------------------------------------------------ past the last check

  lemma TokenEnds<D, S>(s: Scope<D, S>, t: nat, ap: (D, S) -> D)
    requires Consistent(s) && Enabled(s, Finish, ap) && s.running.value.token == Some(t)
    ensures Next(s, Finish, ap).tx == Some(t) <==> !s.autocommit
    ensures Next(s, Finish, ap).committed == s.committed
  {
    hide SnapshotCount;
  }

  lemma TokenFails<D, S>(s: Scope<D, S>, t: nat, rolledBack: bool, spill: D, w: nat, ap: (D, S) -> D)
    requires Consistent(s) && Enabled(s, StmtFailed(rolledBack, spill, w), ap) && s.running.value.token == Some(t)
    ensures Next(s, StmtFailed(rolledBack, spill, w), ap).tx == Some(t) <==> !rolledBack && !s.autocommit
    ensures Next(s, StmtFailed(rolledBack, spill, w), ap).committed == s.committed
  {
    hide SnapshotCount;
  }

  lemma {:induction false} PassesAlone<D, S>(s: Scope<D, S>, t: nat, effects: seq<Effect<D>>, ap: (D, S) -> D)
    requires Consistent(s) && s.running.Some? && s.running.value.token == Some(t)
    requires ValidRun(s, ScriptTrace(effects), ap)
    ensures After(s, ScriptTrace(effects), ap).tx == Some(t) <==>
            Survives(effects) && InText(!s.autocommit, Ran(s.running.value.rest, effects))
    decreases |effects|
  {
    hide Consistent, Next;
    if effects == [] {
      TokenEnds(s, t, ap);
    } else if effects[0].Failed? {
      var f := effects[0];
      TokenFails(s, t, f.rolledBack, f.spill, f.w, ap);
    } else {
      hide Enabled;
      RunsOne(s, effects, ap);
      StmtMoves(s, effects[0].spill, effects[0].w, ap);
      PassesAlone(Next(s, StmtDone(effects[0].spill, effects[0].w), ap), t, effects[1..], ap);
    }
  }

  /**
   * A tokened script keeps its token, whether it runs through or fails, exactly if what
   * ran of it ends inside a transaction, any transaction, that SQLite has not rolled back.
   */
  lemma PassesExactly<D, S>(s: Scope<D, S>, t: nat, run: seq<Action<D, S>>, effects: seq<Effect<D>>, ap: (D, S) -> D)
    requires Consistent(s) && ExecRun(s, run, effects, ap) && s.running.value.token == Some(t)
    ensures After(s, run, ap).tx == Some(t) <==>
            Survives(effects) && InText(!s.autocommit, Ran(s.running.value.rest, effects))
  {
    hide Consistent, After, ValidRun, Survives, InText, Ran;
    Interleaved(s, s, run, effects, ap);
    PassesAlone(s, t, effects, ap);
  }

  lemma StmtPublishes<D, S>(s: Scope<D, S>, spill: D, w: nat, ap: (D, S) -> D)
    requires Consistent(s) && Enabled(s, StmtDone(spill, w), ap)
    ensures var s', stmt := Next(s, StmtDone(spill, w), ap), s.running.value.rest[0];
            && (s'.committed == (match stmt
                 case Data(x) => (if s.autocommit then ap(s.working, x) else s.committed)
                 case TextCommit => s.working
                 case _ => s.committed))
            && (s'.working == (match stmt
                 case Data(x) => ap(s.working, x)
                 case TextRollback => s.committed
                 case _ => s.working))
  {
    hide SnapshotCount;
  }

  /** The last step of an exec publishes nothing by itself. */
  lemma {:induction false} EndPublishesNothing<D, S>(s: Scope<D, S>, effects: seq<Effect<D>>, ap: (D, S) -> D)
    requires Consistent(s) && s.running.Some? && s.running.value.token.Some? && ValidRun(s, ScriptTrace(effects), ap)
    requires effects == [] || effects[0].Failed?
    ensures After(s, ScriptTrace(effects), ap).committed == s.committed
  {
    hide Consistent, Next;
    if effects == [] {
      TokenEnds(s, s.running.value.token.value, ap);
    } else {
      var f := effects[0];
      TokenFails(s, s.running.value.token.value, f.rolledBack, f.spill, f.w, ap);
    }
  }

  lemma {:induction false} QuietAlone<D, S>(s: Scope<D, S>, changed: bool, effects: seq<Effect<D>>, ap: (D, S) -> D)
    requires Consistent(s) && s.running.Some? && ValidRun(s, ScriptTrace(effects), ap)
    requires s.running.value.token.Some? && (!changed ==> s.working == s.committed)
    requires !Publishes(Ran(s.running.value.rest, effects), !s.autocommit, changed)
    ensures After(s, ScriptTrace(effects), ap).committed == s.committed
    decreases |effects|
  {
    if effects == [] || effects[0].Failed? {
      EndPublishesNothing(s, effects, ap);
    } else {
      assert s.autocommit ==> s.working == s.committed;
      hide Consistent, Next, Enabled;
      RunsOne(s, effects, ap);
      StmtMoves(s, effects[0].spill, effects[0].w, ap);
      StmtPublishes(s, effects[0].spill, effects[0].w, ap);
      var stmt := s.running.value.rest[0];
      assert Ran(s.running.value.rest, effects)[1..] == Ran(s.running.value.rest[1..], effects[1..]);
      QuietAlone(Next(s, StmtDone(effects[0].spill, effects[0].w), ap), stmt.Data?, effects[1..], ap);
    }
  }

  /** A tokened script of which nothing that ran publishes leaves the committed database alone, whatever it does in between. */
  lemma NothingPublished<D, S>(s: Scope<D, S>, changed: bool, run: seq<Action<D, S>>, effects: seq<Effect<D>>, ap: (D, S) -> D)
    requires Consistent(s) && ExecRun(s, run, effects, ap)
    requires s.running.value.token.Some? && (!changed ==> s.working == s.committed)
    requires !Publishes(Ran(s.running.value.rest, effects), !s.autocommit, changed)
    ensures After(s, run, ap).committed == s.committed
  {
    hide Consistent, After, ValidRun, Ran, Publishes;
    Interleaved(s, s, run, effects, ap);
    QuietAlone(s, changed, effects, ap);
  }

  /** Databases that record every write, so that none can be hidden by another. */
  function Append<S>(): (seq<S>, S) -> seq<S> {
    (db: seq<S>, x: S) => db + [x]
  }

  /** The committed history never shrinks. */
  lemma {:induction false} HistoryGrows<S>(s: Scope<seq<S>, S>, effects: seq<Effect<seq<S>>>)
    requires Consistent(s) && s.running.Some? && s.running.value.token.Some?
    requires ValidRun(s, ScriptTrace(effects), Append()) && |s.committed| <= |s.working|
    ensures |After(s, ScriptTrace(effects), Append()).committed| >= |s.committed|
    decreases |effects|
  {
    if effects == [] || effects[0].Failed? {
      EndPublishesNothing(s, effects, Append());
    } else {
      hide Consistent, Next, Enabled;
      RunsOne(s, effects, Append());
      StmtMoves(s, effects[0].spill, effects[0].w, Append());
      StmtPublishes(s, effects[0].spill, effects[0].w, Append());
      HistoryGrows(Next(s, StmtDone(effects[0].spill, effects[0].w), Append()), effects[1..]);
    }
  }

  /** On such databases a publishing script always shows. */
  lemma {:induction false} SomethingPublished<S>(s: Scope<seq<S>, S>, changed: bool, effects: seq<Effect<seq<S>>>)
    requires Consistent(s) && s.running.Some? && s.running.value.token.Some?
    requires ValidRun(s, ScriptTrace(effects), Append()) && |s.committed| <= |s.working|
    requires changed ==> |s.committed| < |s.working|
    requires Publishes(Ran(s.running.value.rest, effects), !s.autocommit, changed)
    ensures |After(s, ScriptTrace(effects), Append()).committed| > |s.committed|
    decreases |effects|
  {
    if effects != [] && effects[0].Did? {
      hide Consistent, Next, Enabled;
      RunsOne(s, effects, Append());
      StmtMoves(s, effects[0].spill, effects[0].w, Append());
      StmtPublishes(s, effects[0].spill, effects[0].w, Append());
      var s', stmt := Next(s, StmtDone(effects[0].spill, effects[0].w), Append()), s.running.value.rest[0];
      assert Ran(s.running.value.rest, effects)[1..] == Ran(s.running.value.rest[1..], effects[1..]);
      HistoryGrows(s', effects[1..]);
      if stmt.Data? && !s.autocommit {
        SomethingPublished(s', true, effects[1..]);
      } else if (stmt.TextCommit? && !changed) || stmt.TextBegin? || stmt.TextRollback? {
        SomethingPublished(s', false, effects[1..]);
      }
    }
  }

  /**
   * The exact escape. A tokened script, whether it runs through or fails, keeps its token
   * and yet the rollback of that transaction no longer brings back the database it began
   * with, exactly when what ran of it ends inside a transaction that SQLite has not rolled
   * back, and publishes something on the way.
   */
  lemma EscapesExactly<S>(s: Scope<seq<S>, S>, t: nat, run: seq<Action<seq<S>, S>>, effects: seq<Effect<seq<S>>>, w: nat)
    requires Consistent(s) && s.running.Some? && s.running.value.token == Some(t) && !s.autocommit
    requires ExecRun(s, run, effects, Append()) && s.committed <= s.working
    ensures var f, ran := After(s, run, Append()), Ran(s.running.value.rest, effects);
            f.tx == Some(t) && RollBack(f, w).committed != s.committed <==>
            Survives(effects) && InText(true, ran) && Publishes(ran, true, s.working != s.committed)
  {
    hide Consistent, After, ValidRun, InText, Publishes, Ran, Survives;
    PassesExactly(s, t, run, effects, Append());
    Interleaved(s, s, run, effects, Append());
    var changed := s.working != s.committed;
    if Publishes(Ran(s.running.value.rest, effects), true, changed) {
      SomethingPublished(s, changed, effects);
    } else {
      QuietAlone(s, changed, effects, Append());
    }
  }

  /** What ran is the whole script, or what stands before the first statement that failed. */
  lemma {:induction false} RanIsPrefix<D, S>(s: Scope<D, S>, effects: seq<Effect<D>>, ap: (D, S) -> D)
    requires Consistent(s) && s.running.Some? && ValidRun(s, ScriptTrace(effects), ap)
    ensures var rest, ran := s.running.value.rest, Ran(s.running.value.rest, effects);
            && ran <= rest && |ran| <= |effects| && (forall k :: 0 <= k < |ran| ==> effects[k].Did?)
            && (if Fails(effects) then |ran| < |effects| && effects[|ran|].Failed? else ran == rest)
    decreases |effects|
  {
    hide Consistent, Next;
    if effects != [] && effects[0].Did? {
      hide Enabled;
      RunsOne(s, effects, ap);
      StmtMoves(s, effects[0].spill, effects[0].w, ap);
      RanIsPrefix(Next(s, StmtDone(effects[0].spill, effects[0].w), ap), effects[1..], ap);
      assert s.running.value.rest == [s.running.value.rest[0]] + s.running.value.rest[1..];
    }
  }
}
