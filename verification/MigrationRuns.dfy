/**
 * The migration loop as a client of a concurrent scope, over any run of
 * crashes and retries: the process may die at any step and come back on the
 * bytes persisted last, possibly with another target version.
 */
module MigrationRuns {
  import opened Wrappers
  import opened SqlScope
  import opened SqlScopeSafety
  import opened Migrations

  // ------------------------------------------------- what a database should be

  datatype Db<X> = Db(schema: X, version: int)

  datatype Op = GetVersion | Script(sql: string) | SetVersion(version: int)

  function ApplyOp<X>(db: Db<X>, op: Op, exec: (X, string) -> X): Db<X> {
    match op
    case GetVersion => db
    case Script(sql) => db.(schema := exec(db.schema, sql))
    case SetVersion(v) => db.(version := v)
  }

  function Sql<X>(exec: (X, string) -> X): (Db<X>, Op) -> Db<X> {
    (db: Db<X>, op: Op) => ApplyOp(db, op, exec)
  }

  /** The migrations above `current` and at or below `target`. */
  function Pending(ms: seq<Migration>, current: int, target: int): (p: seq<Migration>)
    ensures forall m :: m in p ==> m in ms && current < m.version <= target
    ensures p == [] ==> forall m :: m in ms ==> !(current < m.version <= target)
  {
    if ms == [] then []
    else if current < ms[0].version <= target then [ms[0]] + Pending(ms[1..], current, target)
    else Pending(ms[1..], current, target)
  }

  function Upgrade<X>(schema: X, ms: seq<Migration>, exec: (X, string) -> X): X {
    if ms == [] then schema
    else exec(Upgrade(schema, ms[..|ms| - 1], exec), ms[|ms| - 1].sql)
  }

  /** `db` is `base` with exactly the migrations up to its own version applied, in order. */
  ghost predicate Migrated<X>(db: Db<X>, base: Db<X>, ms: seq<Migration>, exec: (X, string) -> X) {
    && base.version <= db.version
    && (db.version == base.version || exists m :: m in ms && m.version == db.version)
    && db.schema == Upgrade(base.schema, Pending(ms, base.version, db.version), exec)
  }

  lemma {:induction false} NothingPending(ms: seq<Migration>, current: int, target: int)
    requires forall m :: m in ms ==> !(current < m.version <= target)
    ensures Pending(ms, current, target) == []
  {
    if ms != [] {
      NothingPending(ms[1..], current, target);
    }
  }

  lemma {:induction false} PendingSplits(ms: seq<Migration>, a: int, b: int, c: int)
    requires Ascending(ms) && a <= b <= c
    ensures Pending(ms, a, c) == Pending(ms, a, b) + Pending(ms, b, c)
  {
    if ms != [] {
      PendingSplits(ms[1..], a, b, c);
      if b < ms[0].version {
        NothingPending(ms[1..], a, b);
      }
      hide Ascending;
      var x, y := Pending(ms[1..], a, b), Pending(ms[1..], b, c);
      assert [ms[0]] + (x + y) == ([ms[0]] + x) + y;
    }
  }

  lemma {:induction false} PendingToHead(ms: seq<Migration>, current: int, target: int)
    requires Ascending(ms) && Pending(ms, current, target) != []
    ensures var m := Pending(ms, current, target)[0]; Pending(ms, current, m.version) == [m]
  {
    if current < ms[0].version <= target {
      NothingPending(ms[1..], current, ms[0].version);
    } else {
      PendingToHead(ms[1..], current, target);
    }
  }

  /** One migration further: the pair it commits is again a migrated one. */
  lemma OneFurther<X>(db: Db<X>, base: Db<X>, target: int, ms: seq<Migration>, exec: (X, string) -> X)
    requires Ascending(ms) && Migrated(db, base, ms, exec) && Pending(ms, db.version, target) != []
    ensures var todo := Pending(ms, db.version, target);
            var db' := Db(exec(db.schema, todo[0].sql), todo[0].version);
            && Migrated(db', base, ms, exec) && db'.version <= target
            && Pending(ms, db'.version, target) == todo[1..]
  {
    var todo := Pending(ms, db.version, target);
    var m := todo[0];
    assert m in todo;
    PendingToHead(ms, db.version, target);
    PendingSplits(ms, base.version, db.version, m.version);
    PendingSplits(ms, db.version, m.version, target);
    hide Pending;
    var before, after := Pending(ms, base.version, db.version), Pending(ms, base.version, m.version);
    assert after == before + [m];
    assert after[..|after| - 1] == before;
    assert todo == [m] + Pending(ms, m.version, target);
  }

  /** Nothing pending: everything up to the target has been applied. */
  lemma AllApplied<X>(db: Db<X>, base: Db<X>, target: int, ms: seq<Migration>, exec: (X, string) -> X)
    requires Ascending(ms) && Migrated(db, base, ms, exec) && db.version <= target
    requires Pending(ms, db.version, target) == []
    ensures db.schema == Upgrade(base.schema, Pending(ms, base.version, target), exec)
  {
    PendingSplits(ms, base.version, db.version, target);
    assert Pending(ms, base.version, db.version) + [] == Pending(ms, base.version, db.version);
  }

  // -------------------------------------------------------------- the machine

  datatype Phase =
    | Reading | Beginning | Scripting | Stamping | Committing | Undoing
    | Completed | Downgrade | Failed

  /** `waiting` says the client's current call has been issued and not answered. */
  datatype Machine<X> = Machine(
    scope: Scope<Db<X>, Op>, phase: Phase, waiting: bool, tx: nat, target: int, todo: seq<Migration>)

  datatype Step<X> = Engine(a: Action<Db<X>, Op>) | Issue | Crash(target: int)

  datatype Reply = NoReply | Good | Bad

  function Boot<X>(bytes: Db<X>, target: int): Machine<X> {
    Machine(Opened(bytes), Reading, false, 0, target, [])
  }

  predicate Active(p: Phase) {
    !p.Completed? && !p.Downgrade? && !p.Failed?
  }

  predicate UsesTodo(p: Phase) {
    p.Beginning? || p.Scripting? || p.Stamping? || p.Committing?
  }

  predicate Executes(p: Phase) {
    p.Reading? || p.Scripting? || p.Stamping?
  }

  function OpOf<X>(m: Machine<X>): Op
    requires UsesTodo(m.phase) ==> m.todo != []
  {
    if m.phase.Scripting? then Script(m.todo[0].sql)
    else if m.phase.Stamping? then SetVersion(m.todo[0].version)
    else GetVersion
  }

  function TokenOf<X>(m: Machine<X>): Option<nat> {
    if m.phase.Reading? then None else Some(m.tx)
  }

  function CallOf<X>(m: Machine<X>): Call<Op>
    requires UsesTodo(m.phase) ==> m.todo != []
  {
    if Executes(m.phase) then Exec(TokenOf(m), [Data(OpOf(m))])
    else if m.phase.Beginning? then Begin
    else if m.phase.Committing? then Commit(m.tx)
    else Rollback(m.tx)
  }

  /** Calls that are not the client's: idle expiries and persist snapshots. */
  predicate Foreign<S>(c: Call<S>) {
    c.Expire? || c.PersistSnapshot?
  }

  function GrantReply<X>(s: Scope<Db<X>, Op>, outcome: Outcome): Reply
    requires s.chain != []
  {
    var c := s.chain[0];
    if Foreign(c) || (c.Exec? && Admitted(s, c)) then NoReply
    else if !Admitted(s, c) then (if NeedsGate(c) then NoReply else Bad)
    else if outcome == Succeeds && (c.Commit? ==> !s.autocommit) then Good
    else Bad
  }

  /** Whether, and how, this step of the engine answers the client's call. */
  function ReplyTo<X>(s: Scope<Db<X>, Op>, a: Action<Db<X>, Op>, exec: (X, string) -> X): Reply
    requires Enabled(s, a, Sql(exec))
  {
    match a
    case Grant(outcome, _) => GrantReply(s, outcome)
    case StmtFailed(_, _, _) => Bad
    case Finish =>
      if (s.running.value.token.None? && s.tx.None? && !s.autocommit) || (s.running.value.token.Some? && s.autocommit)
      then Bad else Good
    case _ => NoReply
  }

  function PlanFrom<X>(m: Machine<X>, version: int, ms: seq<Migration>): Machine<X> {
    var todo := Sorted(Pending(ms, version, m.target));
    if m.target < version then m.(phase := Downgrade)
    else if todo == [] then m.(phase := Completed)
    else m.(phase := Beginning, todo := todo)
  }

  /** The client's continuation; `m` is its state before, `version` what it read, `token` what it was given. */
  function Answered<X>(m: Machine<X>, good: bool, version: int, token: nat, ms: seq<Migration>): Machine<X>
    requires UsesTodo(m.phase) ==> m.todo != []
  {
    match m.phase
    case Reading => if good then PlanFrom(m, version, ms) else m.(phase := Failed)
    case Beginning => if good then m.(phase := Scripting, tx := token) else m.(phase := Failed)
    case Scripting => m.(phase := if good then Stamping else Undoing)
    case Stamping => m.(phase := if good then Committing else Undoing)
    case Committing =>
      if !good then m.(phase := Undoing)
      else if m.todo[1..] == [] then m.(phase := Completed, todo := [])
      else m.(phase := Beginning, todo := m.todo[1..])
    case _ => m.(phase := Failed)
  }

  predicate StepEnabled<X(==)>(m: Machine<X>, step: Step<X>, exec: (X, string) -> X) {
    && (UsesTodo(m.phase) ==> m.todo != [])
    && match step
       case Engine(a) => Enabled(m.scope, a, Sql(exec)) && (a.Arrive? ==> a.call.Expire?)
       case Issue => !m.waiting && Active(m.phase)
       case Crash(_) => true
  }

  function EngineStep<X>(m: Machine<X>, a: Action<Db<X>, Op>, ms: seq<Migration>, exec: (X, string) -> X): Machine<X>
    requires Enabled(m.scope, a, Sql(exec)) && (UsesTodo(m.phase) ==> m.todo != [])
  {
    var reply := ReplyTo(m.scope, a, exec);
    var m' := m.(scope := Next(m.scope, a, Sql(exec)));
    if reply == NoReply then m'
    else Answered(m'.(waiting := false), reply == Good, m.scope.working.version, m.scope.next, ms)
  }

  function MachineNext<X>(m: Machine<X>, step: Step<X>, ms: seq<Migration>, exec: (X, string) -> X): Machine<X>
    requires StepEnabled(m, step, exec)
  {
    match step
    case Engine(a) => EngineStep(m, a, ms, exec)
    case Issue => m.(waiting := true, scope := Next(m.scope, Arrive(CallOf(m)), Sql(exec)))
    case Crash(target) => Boot(m.scope.stored, target)
  }

  // ---------------------------------------------------------------- invariant

  function Mine<S>(chain: seq<Call<S>>): seq<Call<S>> {
    if chain == [] then []
    else (if Foreign(chain[0]) then [] else [chain[0]]) + Mine(chain[1..])
  }

  lemma {:induction false} MineAppend<S>(chain: seq<Call<S>>, c: Call<S>)
    ensures Mine(chain + [c]) == Mine(chain) + if Foreign(c) then [] else [c]
  {
    if chain == [] {
      assert (chain + [c])[1..] == [];
    } else {
      var longer := chain + [c];
      var head := if Foreign(chain[0]) then [] else [chain[0]];
      var tail := if Foreign(c) then [] else [c];
      assert longer[0] == chain[0] && longer[1..] == chain[1..] + [c];
      MineAppend(chain[1..], c);
      assert Mine(longer) == head + (Mine(chain[1..]) + tail);
      assert head + (Mine(chain[1..]) + tail) == (head + Mine(chain[1..])) + tail;
    }
  }

  ghost predicate Planned<X>(m: Machine<X>, ms: seq<Migration>) {
    var v := m.scope.committed.version;
    && (UsesTodo(m.phase) ==> v <= m.target && m.todo != [] && m.todo == Pending(ms, v, m.target))
    && (m.phase.Completed? ==> v <= m.target && Pending(ms, v, m.target) == [])
    && (m.phase.Downgrade? ==> m.target < v)
  }

  /** The only call of the client is where its phase says. */
  ghost predicate Queued<X>(m: Machine<X>)
    requires UsesTodo(m.phase) ==> m.todo != []
  {
    var s := m.scope;
    && s.gate == [] && (s.autocommit <==> s.tx.None?)
    && (s.tx.Some? ==> s.tx.value == m.tx && Active(m.phase) && !m.phase.Reading? && !m.phase.Beginning?)
    && (m.waiting ==> Active(m.phase))
    && match s.running
       case None => Mine(s.chain) == if m.waiting then [CallOf(m)] else []
       case Some(r) => m.waiting && Executes(m.phase) && Mine(s.chain) == [] && r.token == TokenOf(m) &&
                       (r.rest == [Data(OpOf(m))] || r.rest == [])
  }

  /** What the open transaction holds: the part of the current migration done so far. */
  ghost predicate Worked<X>(m: Machine<X>, exec: (X, string) -> X)
    requires UsesTodo(m.phase) ==> m.todo != []
  {
    var s := m.scope;
    var ran := s.running.Some? && s.running.value.rest == [];
    s.tx.Some? ==>
      && (m.phase.Scripting? ==> s.working == if ran then ApplyOp(s.committed, OpOf(m), exec) else s.committed)
      && (m.phase.Stamping? || m.phase.Committing? ==>
            s.working == Db(exec(s.committed.schema, m.todo[0].sql),
                            if m.phase.Committing? || ran then m.todo[0].version else s.committed.version))
  }

  ghost predicate Archived<X>(s: Scope<Db<X>, Op>, base: Db<X>, ms: seq<Migration>, exec: (X, string) -> X) {
    && Migrated(s.committed, base, ms, exec) && Migrated(s.stored, base, ms, exec)
    && forall k :: 0 <= k < |s.persists| && s.persists[k].Delivering? ==> Migrated(s.persists[k].bytes, base, ms, exec)
  }

  ghost predicate Inv<X>(m: Machine<X>, base: Db<X>, ms: seq<Migration>, exec: (X, string) -> X) {
    && Ascending(ms) && Consistent(m.scope) && Planned(m, ms) && Queued(m) && Worked(m, exec)
    && Archived(m.scope, base, ms, exec)
  }

  // ------------------------------------------------------- kept by every step

  lemma {:induction false} PendingSorted(ms: seq<Migration>, current: int, target: int)
    requires Ascending(ms)
    ensures Ascending(Pending(ms, current, target))
    ensures Sorted(Pending(ms, current, target)) == Pending(ms, current, target)
  {
    PendingAscends(ms, current, target);
    SortedStays(Pending(ms, current, target));
  }

  lemma {:induction false} PendingAscends(ms: seq<Migration>, current: int, target: int)
    requires Ascending(ms)
    ensures Ascending(Pending(ms, current, target))
  {
    if ms != [] {
      PendingAscends(ms[1..], current, target);
      var rest := Pending(ms[1..], current, target);
      forall k | 0 <= k < |rest| ensures ms[0].version < rest[k].version {
        assert rest[k] in rest && rest[k] in ms[1..];
      }
    }
  }

  lemma BootInv<X>(bytes: Db<X>, target: int, base: Db<X>, ms: seq<Migration>, exec: (X, string) -> X)
    requires Ascending(ms) && Migrated(bytes, base, ms, exec)
    ensures Inv(Boot(bytes, target), base, ms, exec)
  {
    hide Migrated, Ascending, Pending;
  }

  /** What the client can see of the scope is unchanged. */
  predicate SameForClient<X(==)>(s: Scope<Db<X>, Op>, s': Scope<Db<X>, Op>) {
    && s'.gate == s.gate && s'.autocommit == s.autocommit && s'.tx == s.tx && s'.running == s.running
    && s'.committed == s.committed && s'.working == s.working && Mine(s'.chain) == Mine(s.chain)
  }

  lemma FrameInv<X>(m: Machine<X>, s': Scope<Db<X>, Op>, base: Db<X>, ms: seq<Migration>, exec: (X, string) -> X)
    requires Inv(m, base, ms, exec) && SameForClient(m.scope, s') && Consistent(s') && Archived(s', base, ms, exec)
    ensures Inv(m.(scope := s'), base, ms, exec)
  {
    hide Mine, Migrated, Pending, Consistent, Archived, Ascending;
  }

  predicate Background<X>(a: Action<Db<X>, Op>) {
    (a.Arrive? && a.call.Expire?) || a.PersistStart? || a.Deliver?
  }

  lemma BackgroundSame<X>(s: Scope<Db<X>, Op>, a: Action<Db<X>, Op>, base: Db<X>, ms: seq<Migration>, exec: (X, string) -> X)
    requires Background(a) && Enabled(s, a, Sql(exec)) && Archived(s, base, ms, exec)
    ensures SameForClient(s, Next(s, a, Sql(exec))) && Archived(Next(s, a, Sql(exec)), base, ms, exec)
  {
    hide Migrated, Mine;
    match a {
      case Arrive(c) => MineAppend(s.chain, c);
      case PersistStart => MineAppend(s.chain, PersistSnapshot);
      case Deliver(_) =>
    }
  }

  /** Steps of the persister, and expiries that arrive, do not concern the client. */
  lemma BackgroundInv<X>(m: Machine<X>, a: Action<Db<X>, Op>, base: Db<X>, ms: seq<Migration>, exec: (X, string) -> X)
    requires Inv(m, base, ms, exec) && Enabled(m.scope, a, Sql(exec)) && Background(a)
    ensures Inv(EngineStep(m, a, ms, exec), base, ms, exec)
  {
    StepKeeps(m.scope, a, Sql(exec));
    assert ReplyTo(m.scope, a, exec) == NoReply;
    hide Migrated, Ascending, Consistent, Queued, Worked, Planned, Archived, SameForClient, Next, Enabled, ReplyTo;
    BackgroundSame(m.scope, a, base, ms, exec);
    FrameInv(m, Next(m.scope, a, Sql(exec)), base, ms, exec);
  }

  lemma SnapshotSame<X>(s: Scope<Db<X>, Op>, outcome: Outcome, w: nat, base: Db<X>, ms: seq<Migration>, exec: (X, string) -> X)
    requires GrantEnabled(s, outcome, w) && s.chain[0].PersistSnapshot? && (s.autocommit ==> s.file == s.committed)
    requires Archived(s, base, ms, exec)
    ensures SameForClient(s, GrantNext(s, outcome, w)) && Archived(GrantNext(s, outcome, w), base, ms, exec)
    ensures GrantReply(s, outcome) == NoReply
  {
    hide Migrated;
  }

  /** A step that gives the client no reply, seen from the scope alone. */
  lemma SilentGrant<X>(m: Machine<X>, outcome: Outcome, w: nat, base: Db<X>, ms: seq<Migration>, exec: (X, string) -> X)
    requires Inv(m, base, ms, exec) && GrantEnabled(m.scope, outcome, w) && GrantReply(m.scope, outcome) == NoReply
    ensures Enabled(m.scope, Grant(outcome, w), Sql(exec)) && Consistent(GrantNext(m.scope, outcome, w))
    ensures EngineStep(m, Grant(outcome, w), ms, exec) == m.(scope := GrantNext(m.scope, outcome, w))
  {
    StepKeeps(m.scope, Grant(outcome, w), Sql(exec));
    hide Migrated, Ascending, Pending, Consistent, Planned, Worked, Queued, Archived, GrantNext, Answered;
  }

  lemma FileIsCommitted<X>(s: Scope<Db<X>, Op>)
    requires Consistent(s)
    ensures s.autocommit ==> s.file == s.committed
  {
  }

  /** A queued persist snapshot gets the mutex. */
  lemma SnapshotInv<X>(m: Machine<X>, outcome: Outcome, w: nat, base: Db<X>, ms: seq<Migration>, exec: (X, string) -> X)
    requires Inv(m, base, ms, exec) && GrantEnabled(m.scope, outcome, w)
    requires m.scope.chain != [] && m.scope.chain[0].PersistSnapshot?
    ensures Inv(EngineStep(m, Grant(outcome, w), ms, exec), base, ms, exec)
  {
    hide Migrated, Ascending, Pending, Consistent, Queued, Worked, Planned, Archived, SameForClient;
    hide GrantNext, GrantReply, GrantEnabled, Enabled, EngineStep;
    FileIsCommitted(m.scope);
    SnapshotSame(m.scope, outcome, w, base, ms, exec);
    SilentGrant(m, outcome, w, base, ms, exec);
    FrameInv(m, GrantNext(m.scope, outcome, w), base, ms, exec);
  }

  lemma Expires<X>(s: Scope<Db<X>, Op>, outcome: Outcome, w: nat)
    requires GrantEnabled(s, outcome, w) && s.chain[0].Expire? && (s.autocommit <==> s.tx.None?)
    ensures var s' := GrantNext(s, outcome, w);
            && s'.committed == s.committed && s'.running.None? && s'.gate == s.gate && s'.chain == s.chain[1..]
            && ((s'.tx == s.tx && s'.working == s.working) || s'.tx.None?) && (s'.autocommit <==> s'.tx.None?)
            && s'.stored == s.stored && s'.persists == s.persists
  {
  }

  lemma ExpiryStep<X>(m: Machine<X>, outcome: Outcome, w: nat, base: Db<X>, ms: seq<Migration>, exec: (X, string) -> X)
    requires Inv(m, base, ms, exec) && GrantEnabled(m.scope, outcome, w) && m.scope.chain[0].Expire?
    ensures m.scope.running.None? && Mine(m.scope.chain[1..]) == Mine(m.scope.chain)
    ensures Enabled(m.scope, Grant(outcome, w), Sql(exec)) && Consistent(GrantNext(m.scope, outcome, w))
    ensures EngineStep(m, Grant(outcome, w), ms, exec) == m.(scope := GrantNext(m.scope, outcome, w))
  {
    StepKeeps(m.scope, Grant(outcome, w), Sql(exec));
    hide Migrated, Ascending, Pending, Consistent, Planned, Worked, Archived, GrantNext, Answered;
  }

  /** A queued expiry gets the mutex. */
  lemma ExpiryInv<X>(m: Machine<X>, outcome: Outcome, w: nat, base: Db<X>, ms: seq<Migration>, exec: (X, string) -> X)
    requires Inv(m, base, ms, exec) && GrantEnabled(m.scope, outcome, w)
    requires m.scope.chain != [] && m.scope.chain[0].Expire?
    ensures Inv(EngineStep(m, Grant(outcome, w), ms, exec), base, ms, exec)
  {
    hide Migrated, Ascending, Pending, Consistent, Mine, GrantNext, Next, Enabled, GrantEnabled, EngineStep;
    ExpiryStep(m, outcome, w, base, ms, exec);
    Expires(m.scope, outcome, w);
    assert Archived(GrantNext(m.scope, outcome, w), base, ms, exec);
    hide Archived;
  }

  /** The client's own call at the head of the queue: what the step does, in terms of the scope alone. */
  lemma OwnStep<X>(m: Machine<X>, outcome: Outcome, w: nat, base: Db<X>, ms: seq<Migration>, exec: (X, string) -> X)
    requires Inv(m, base, ms, exec) && GrantEnabled(m.scope, outcome, w) && !Foreign(m.scope.chain[0])
    ensures m.waiting && m.scope.running.None? && m.scope.chain[0] == CallOf(m) && Mine(m.scope.chain[1..]) == []
    ensures Enabled(m.scope, Grant(outcome, w), Sql(exec)) && Consistent(GrantNext(m.scope, outcome, w))
    ensures var reply, m' := GrantReply(m.scope, outcome), m.(scope := GrantNext(m.scope, outcome, w));
            EngineStep(m, Grant(outcome, w), ms, exec) ==
            if reply == NoReply then m'
            else Answered(m'.(waiting := false), reply == Good, m.scope.working.version, m.scope.next, ms)
  {
    StepKeeps(m.scope, Grant(outcome, w), Sql(exec));
    hide Migrated, Ascending, Pending, Consistent, Planned, Worked, Archived, GrantNext, GrantReply, Answered;
  }

  lemma ExecStarts<X>(s: Scope<Db<X>, Op>, outcome: Outcome, w: nat)
    requires GrantEnabled(s, outcome, w) && s.chain[0].Exec? && (s.chain[0].token.None? ==> s.tx.None?)
    ensures var s', c := GrantNext(s, outcome, w), s.chain[0];
            && (s.tx == c.token ==> s' == s.(chain := s.chain[1..], running := Some(Running(s.next, c.token, c.script)),
                                             next := s.next + 1) && GrantReply(s, outcome) == NoReply)
            && (s.tx != c.token ==> s' == s.(chain := s.chain[1..]) && GrantReply(s, outcome) == Bad)
  {
  }

  /** The client's own call gets the mutex: an exec starts, or is refused. */
  lemma OwnExecInv<X>(m: Machine<X>, outcome: Outcome, w: nat, base: Db<X>, ms: seq<Migration>, exec: (X, string) -> X)
    requires Inv(m, base, ms, exec) && GrantEnabled(m.scope, outcome, w) && m.scope.chain != [] && m.scope.chain[0].Exec?
    ensures Inv(EngineStep(m, Grant(outcome, w), ms, exec), base, ms, exec)
  {
    hide Migrated, Ascending, Pending, Consistent, Mine, GrantNext, GrantReply, Next, Enabled, GrantEnabled, EngineStep;
    OwnStep(m, outcome, w, base, ms, exec);
    ExecStarts(m.scope, outcome, w);
    assert Archived(GrantNext(m.scope, outcome, w), base, ms, exec);
    hide Archived;
  }

  lemma RestIsCommitted<X>(s: Scope<Db<X>, Op>)
    requires Consistent(s)
    ensures s.autocommit ==> s.working == s.committed
  {
  }

  lemma Begins<X>(s: Scope<Db<X>, Op>, outcome: Outcome, w: nat)
    requires GrantEnabled(s, outcome, w) && s.chain[0].Begin? && s.tx.None? && s.autocommit
    ensures var s' := GrantNext(s, outcome, w);
            && s'.committed == s.committed && s'.working == s.working && s'.running.None? && s'.gate == s.gate
            && s'.chain == s.chain[1..] && s'.stored == s.stored && s'.persists == s.persists
            && (outcome == Succeeds ==> s'.tx == Some(s.next) && !s'.autocommit)
            && (outcome != Succeeds ==> s'.tx.None? && s'.autocommit)
    ensures GrantReply(s, outcome) == if outcome == Succeeds then Good else Bad
  {
  }

  lemma OwnBeginInv<X>(m: Machine<X>, outcome: Outcome, w: nat, base: Db<X>, ms: seq<Migration>, exec: (X, string) -> X)
    requires Inv(m, base, ms, exec) && GrantEnabled(m.scope, outcome, w) && m.scope.chain != [] && m.scope.chain[0].Begin?
    ensures Inv(EngineStep(m, Grant(outcome, w), ms, exec), base, ms, exec)
  {
    hide Migrated, Ascending, Pending, Consistent, Mine, GrantNext, GrantReply, Lands, Next, Enabled, GrantEnabled, EngineStep;
    var s, s' := m.scope, GrantNext(m.scope, outcome, w);
    OwnStep(m, outcome, w, base, ms, exec);
    RestIsCommitted(s);
    Begins(s, outcome, w);
    assert Archived(s', base, ms, exec);
    hide Archived;
  }

  predicate Lands<X>(s: Scope<Db<X>, Op>, outcome: Outcome)
    requires s.chain != []
  {
    Admitted(s, s.chain[0]) && !s.autocommit && outcome == Succeeds
  }

  lemma CommitLands<X>(s: Scope<Db<X>, Op>, outcome: Outcome, w: nat)
    requires GrantEnabled(s, outcome, w) && s.chain[0].Commit? && Lands(s, outcome)
    ensures var s' := GrantNext(s, outcome, w);
            && s'.committed == s.working && s'.tx.None? && s'.autocommit && s'.running.None?
            && s'.gate == s.gate && s'.chain == s.chain[1..] && s'.stored == s.stored
            && (s'.persists == s.persists || s'.persists == s.persists + [Scheduled])
    ensures GrantReply(s, outcome) == Good && s.tx == Some(s.chain[0].tx)
  {
  }

  lemma CommitLandsInv<X>(m: Machine<X>, outcome: Outcome, w: nat, base: Db<X>, ms: seq<Migration>, exec: (X, string) -> X)
    requires Inv(m, base, ms, exec) && GrantEnabled(m.scope, outcome, w)
    requires m.scope.chain != [] && m.scope.chain[0].Commit? && Lands(m.scope, outcome)
    ensures Inv(EngineStep(m, Grant(outcome, w), ms, exec), base, ms, exec)
  {
    hide Migrated, Ascending, Pending, Consistent, Mine, GrantNext, GrantReply, Lands, Next, Enabled, GrantEnabled, EngineStep;
    var s, s' := m.scope, GrantNext(m.scope, outcome, w);
    OwnStep(m, outcome, w, base, ms, exec);
    CommitLands(s, outcome, w);
    assert s.tx.Some? && m.phase.Committing?;
    OneFurther(s.committed, base, m.target, ms, exec);
    assert s.working == Db(exec(s.committed.schema, m.todo[0].sql), m.todo[0].version);
    assert Archived(s', base, ms, exec);
    hide Archived;
  }

  lemma CommitFails<X>(s: Scope<Db<X>, Op>, outcome: Outcome, w: nat)
    requires GrantEnabled(s, outcome, w) && s.chain[0].Commit? && !Lands(s, outcome)
    requires s.autocommit <==> s.tx.None?
    ensures var s' := GrantNext(s, outcome, w);
            && s'.committed == s.committed && s'.running.None? && s'.gate == s.gate && s'.chain == s.chain[1..]
            && (s'.tx == s.tx || s'.tx.None?) && (s'.autocommit <==> s'.tx.None?)
            && s'.stored == s.stored && s'.persists == s.persists
    ensures GrantReply(s, outcome) == Bad
  {
  }

  lemma CommitFailsInv<X>(m: Machine<X>, outcome: Outcome, w: nat, base: Db<X>, ms: seq<Migration>, exec: (X, string) -> X)
    requires Inv(m, base, ms, exec) && GrantEnabled(m.scope, outcome, w)
    requires m.scope.chain != [] && m.scope.chain[0].Commit? && !Lands(m.scope, outcome)
    ensures Inv(EngineStep(m, Grant(outcome, w), ms, exec), base, ms, exec)
  {
    hide Migrated, Ascending, Pending, Consistent, Mine, GrantNext, GrantReply, Lands, Next, Enabled, GrantEnabled, EngineStep;
    var s, s' := m.scope, GrantNext(m.scope, outcome, w);
    OwnStep(m, outcome, w, base, ms, exec);
    CommitFails(s, outcome, w);
    assert Archived(s', base, ms, exec);
    hide Archived;
  }

  lemma RollsBack<X>(s: Scope<Db<X>, Op>, outcome: Outcome, w: nat)
    requires GrantEnabled(s, outcome, w) && s.chain[0].Rollback?
    requires (s.autocommit <==> s.tx.None?) && (s.tx.Some? ==> s.tx.value == s.chain[0].tx)
    ensures var s' := GrantNext(s, outcome, w);
            && s'.committed == s.committed && s'.tx.None? && s'.autocommit && s'.running.None?
            && s'.gate == s.gate && s'.chain == s.chain[1..] && s'.stored == s.stored
            && (s'.persists == s.persists || s'.persists == s.persists + [Scheduled])
    ensures GrantReply(s, outcome) != NoReply
  {
  }

  lemma OwnRollbackInv<X>(m: Machine<X>, outcome: Outcome, w: nat, base: Db<X>, ms: seq<Migration>, exec: (X, string) -> X)
    requires Inv(m, base, ms, exec) && GrantEnabled(m.scope, outcome, w) && m.scope.chain != [] && m.scope.chain[0].Rollback?
    ensures Inv(EngineStep(m, Grant(outcome, w), ms, exec), base, ms, exec)
  {
    hide Migrated, Ascending, Pending, Consistent, Mine, GrantNext, GrantReply, Lands, Next, Enabled, GrantEnabled, EngineStep;
    var s, s' := m.scope, GrantNext(m.scope, outcome, w);
    OwnStep(m, outcome, w, base, ms, exec);
    RollsBack(s, outcome, w);
    assert Archived(s', base, ms, exec);
    hide Archived;
  }

  lemma OpRuns<X>(s: Scope<Db<X>, Op>, spill: Db<X>, w: nat, op: Op, exec: (X, string) -> X)
    requires Enabled(s, StmtDone(spill, w), Sql(exec)) && s.running.value.rest == [Data(op)]
    requires s.autocommit ==> op.GetVersion? && s.committed == s.working
    ensures var s' := Next(s, StmtDone(spill, w), Sql(exec));
            && s'.committed == s.committed && s'.working == ApplyOp(s.working, op, exec)
            && s'.running == Some(s.running.value.(rest := [])) && s'.tx == s.tx && s'.autocommit == s.autocommit
            && s'.gate == s.gate && s'.chain == s.chain && s'.stored == s.stored && s'.persists == s.persists
  {
    assert s.running.value.rest[1..] == [];
  }

  /** The statement of the client's script has run. */
  lemma OpDoneInv<X>(m: Machine<X>, spill: Db<X>, w: nat, base: Db<X>, ms: seq<Migration>, exec: (X, string) -> X)
    requires Inv(m, base, ms, exec) && Enabled(m.scope, StmtDone(spill, w), Sql(exec))
    ensures Inv(EngineStep(m, StmtDone(spill, w), ms, exec), base, ms, exec)
  {
    var s, s' := m.scope, Next(m.scope, StmtDone(spill, w), Sql(exec));
    StepKeeps(s, StmtDone(spill, w), Sql(exec));
    assert s.running.Some? && s.running.value.rest == [Data(OpOf(m))];
    assert s.tx == TokenOf(m) && (s.autocommit ==> s.committed == s.working);
    OpRuns(s, spill, w, OpOf(m), exec);
    hide Migrated, Ascending, Pending, Consistent, Mine, Next, Enabled;
    assert Archived(s', base, ms, exec);
    hide Archived;
  }

  lemma OpFails<X>(s: Scope<Db<X>, Op>, rolledBack: bool, spill: Db<X>, w: nat, exec: (X, string) -> X)
    requires Enabled(s, StmtFailed(rolledBack, spill, w), Sql(exec)) && (s.autocommit <==> s.tx.None?)
    ensures var s' := Next(s, StmtFailed(rolledBack, spill, w), Sql(exec));
            && s'.committed == s.committed && s'.running.None? && (s'.tx == s.tx || s'.tx.None?)
            && (s'.autocommit <==> s'.tx.None?)
            && s'.gate == s.gate && s'.chain == s.chain && s'.stored == s.stored
            && (s'.persists == s.persists || s'.persists == s.persists + [Scheduled])
  {
  }

  lemma FailStep<X>(m: Machine<X>, a: Action<Db<X>, Op>, base: Db<X>, ms: seq<Migration>, exec: (X, string) -> X)
    requires Inv(m, base, ms, exec) && Enabled(m.scope, a, Sql(exec)) && a.StmtFailed?
    ensures m.scope.running.Some? && Consistent(Next(m.scope, a, Sql(exec)))
    ensures EngineStep(m, a, ms, exec) ==
            Answered(m.(scope := Next(m.scope, a, Sql(exec)), waiting := false), false,
                     m.scope.working.version, m.scope.next, ms)
  {
    StepKeeps(m.scope, a, Sql(exec));
    hide Migrated, Ascending, Pending, Consistent, Planned, Worked, Archived, Queued, Answered, Next;
  }

  lemma OpFailsInv<X>(m: Machine<X>, rolledBack: bool, spill: Db<X>, w: nat, base: Db<X>, ms: seq<Migration>, exec: (X, string) -> X)
    requires Inv(m, base, ms, exec) && Enabled(m.scope, StmtFailed(rolledBack, spill, w), Sql(exec))
    ensures Inv(EngineStep(m, StmtFailed(rolledBack, spill, w), ms, exec), base, ms, exec)
  {
    hide Migrated, Ascending, Pending, Consistent, Mine, Next, Enabled, EngineStep;
    var s, s' := m.scope, Next(m.scope, StmtFailed(rolledBack, spill, w), Sql(exec));
    FailStep(m, StmtFailed(rolledBack, spill, w), base, ms, exec);
    OpFails(s, rolledBack, spill, w, exec);
    assert Archived(s', base, ms, exec);
    hide Archived;
  }

  lemma ReadEnds<X>(s: Scope<Db<X>, Op>, exec: (X, string) -> X)
    requires Enabled(s, Finish, Sql(exec)) && s.running.value.token.None? && s.autocommit
    ensures var s' := Next(s, Finish, Sql(exec));
            && s'.committed == s.committed && s'.tx == s.tx && s'.autocommit && s'.running.None?
            && s'.gate == s.gate && s'.chain == s.chain && s'.stored == s.stored
            && (s'.persists == s.persists || s'.persists == s.persists + [Scheduled])
    ensures ReplyTo(s, Finish, exec) == Good
  {
  }

  lemma PlanInv<X>(m: Machine<X>, base: Db<X>, ms: seq<Migration>, exec: (X, string) -> X)
    requires Inv(m, base, ms, exec) && m.phase.Reading? && !m.waiting
    ensures Inv(PlanFrom(m, m.scope.committed.version, ms), base, ms, exec)
  {
    hide Migrated, Ascending, Pending, Consistent, Mine, Sorted, Archived;
    PendingSorted(ms, m.scope.committed.version, m.target);
    var todo := Pending(ms, m.scope.committed.version, m.target);
    assert PlanFrom(m, m.scope.committed.version, ms) ==
           if m.target < m.scope.committed.version then m.(phase := Downgrade)
           else if todo == [] then m.(phase := Completed)
           else m.(phase := Beginning, todo := todo);
    hide PlanFrom;
  }

  /** The version has been read: plan, or refuse a downgrade. */
  lemma ReadInv<X>(m: Machine<X>, base: Db<X>, ms: seq<Migration>, exec: (X, string) -> X)
    requires Inv(m, base, ms, exec) && Enabled(m.scope, Finish, Sql(exec)) && m.phase.Reading?
    ensures Inv(EngineStep(m, Finish, ms, exec), base, ms, exec)
  {
    var s, s' := m.scope, Next(m.scope, Finish, Sql(exec));
    StepKeeps(s, Finish, Sql(exec));
    assert s.autocommit && s.committed == s.working;
    ReadEnds(s, exec);
    hide Migrated, Ascending, Pending, Consistent, Mine, Sorted, Next, ReplyTo, Enabled;
    assert Archived(s', base, ms, exec);
    var m' := m.(scope := s', waiting := false);
    assert EngineStep(m, Finish, ms, exec) == PlanFrom(m', s.committed.version, ms);
    hide Archived, EngineStep, PlanFrom;
    PlanInv(m', base, ms, exec);
  }

  /** The end of a tokened script that is still inside its transaction changes nothing else. */
  lemma FinishStep<X>(m: Machine<X>, base: Db<X>, ms: seq<Migration>, exec: (X, string) -> X)
    requires Inv(m, base, ms, exec) && Enabled(m.scope, Finish, Sql(exec)) && !m.phase.Reading?
    ensures var s := m.scope;
            && s.running.Some? && s.running.value.rest == [] && s.tx.Some? && Consistent(s.(running := None))
            && EngineStep(m, Finish, ms, exec) ==
               Answered(m.(scope := s.(running := None), waiting := false), true, s.working.version, s.next, ms)
  {
    var s := m.scope;
    StepKeeps(s, Finish, Sql(exec));
    assert s.running.value.token == TokenOf(m) && s.tx == TokenOf(m) && !s.autocommit;
    hide Migrated, Ascending, Pending, Consistent, Mine, Worked, Planned, Archived, Queued, Answered;
    assert Next(s, Finish, Sql(exec)) == s.(running := None);
  }

  /** A script of the open transaction has ended. */
  lemma FinishInv<X>(m: Machine<X>, base: Db<X>, ms: seq<Migration>, exec: (X, string) -> X)
    requires Inv(m, base, ms, exec) && Enabled(m.scope, Finish, Sql(exec)) && !m.phase.Reading?
    ensures Inv(EngineStep(m, Finish, ms, exec), base, ms, exec)
  {
    hide Migrated, Ascending, Pending, Consistent, Mine, Next, Enabled, EngineStep;
    FinishStep(m, base, ms, exec);
    assert Archived(m.scope.(running := None), base, ms, exec);
    hide Archived;
  }

  lemma IssueStep<X>(m: Machine<X>, base: Db<X>, ms: seq<Migration>, exec: (X, string) -> X)
    requires Inv(m, base, ms, exec) && StepEnabled(m, Issue, exec)
    ensures var s' := m.scope.(chain := m.scope.chain + [CallOf(m)]);
            && MachineNext(m, Issue, ms, exec) == m.(waiting := true, scope := s') && Consistent(s')
            && (m.scope.running.None? ==> Mine(s'.chain) == [CallOf(m)])
  {
    var c := CallOf(m);
    StepKeeps(m.scope, Arrive(c), Sql(exec));
    MineAppend(m.scope.chain, c);
    hide Migrated, Ascending, Pending, Consistent, Mine, Worked, Archived;
    assert Next(m.scope, Arrive(c), Sql(exec)) == m.scope.(chain := m.scope.chain + [c]);
    hide Next;
    if m.scope.running.None? {
      assert Mine(m.scope.chain) == [];
      assert [] + [c] == [c];
    }
  }

  lemma IssueInv<X>(m: Machine<X>, base: Db<X>, ms: seq<Migration>, exec: (X, string) -> X)
    requires Inv(m, base, ms, exec) && StepEnabled(m, Issue, exec)
    ensures Inv(MachineNext(m, Issue, ms, exec), base, ms, exec)
  {
    hide Migrated, Ascending, Pending, Consistent, Mine, Next, Enabled, MachineNext;
    IssueStep(m, base, ms, exec);
  }

  /** The client never asks for a snapshot, so none heads the queue. */
  lemma NoSnapshotHeads<X>(m: Machine<X>)
    requires (UsesTodo(m.phase) ==> m.todo != []) && Queued(m) && m.scope.running.None? && m.scope.chain != []
    ensures !m.scope.chain[0].Snapshot?
  {
    var c := m.scope.chain[0];
    if !Foreign(c) {
      assert Mine(m.scope.chain)[0] == c;
      assert c == CallOf(m);
    }
  }

  /** Whatever call heads the queue is let in, and the invariant holds again. */
  lemma GrantInv<X>(m: Machine<X>, outcome: Outcome, w: nat, base: Db<X>, ms: seq<Migration>, exec: (X, string) -> X)
    requires Inv(m, base, ms, exec) && GrantEnabled(m.scope, outcome, w)
    ensures Inv(EngineStep(m, Grant(outcome, w), ms, exec), base, ms, exec)
  {
    assert m.scope.chain != [] && m.scope.running.None?;
    hide Consistent, Queued, Worked, Planned, Archived, EngineStep, Next, GrantEnabled, Lands, Migrated, Ascending, Pending;
    NoSnapshotHeads(m);
    match m.scope.chain[0] {
      case PersistSnapshot => SnapshotInv(m, outcome, w, base, ms, exec);
      case Expire(_) => ExpiryInv(m, outcome, w, base, ms, exec);
      case Exec(_, _) => OwnExecInv(m, outcome, w, base, ms, exec);
      case Begin => OwnBeginInv(m, outcome, w, base, ms, exec);
      case Commit(_) =>
        if Lands(m.scope, outcome) {
          CommitLandsInv(m, outcome, w, base, ms, exec);
        } else {
          CommitFailsInv(m, outcome, w, base, ms, exec);
        }
      case Rollback(_) => OwnRollbackInv(m, outcome, w, base, ms, exec);
      case Snapshot =>
    }
  }

  lemma NobodyParked<X>(m: Machine<X>, base: Db<X>, ms: seq<Migration>, exec: (X, string) -> X)
    requires Inv(m, base, ms, exec)
    ensures m.scope.gate == [] && (UsesTodo(m.phase) ==> m.todo != [])
    ensures Migrated(m.scope.stored, base, ms, exec)
  {
    hide Consistent, Migrated, Ascending, Pending;
  }

  lemma StepInv<X>(m: Machine<X>, step: Step<X>, base: Db<X>, ms: seq<Migration>, exec: (X, string) -> X)
    requires Inv(m, base, ms, exec) && StepEnabled(m, step, exec)
    ensures Inv(MachineNext(m, step, ms, exec), base, ms, exec)
  {
    hide Consistent, Queued, Worked, Planned, Archived, EngineStep, Next, GrantEnabled, StmtEnabled, Migrated, Ascending, Pending;
    NobodyParked(m, base, ms, exec);
    match step {
      case Issue => IssueInv(m, base, ms, exec);
      case Crash(target) => BootInv(m.scope.stored, target, base, ms, exec);
      case Engine(a) =>
        match a {
          case Arrive(_) => BackgroundInv(m, a, base, ms, exec);
          case PersistStart => BackgroundInv(m, a, base, ms, exec);
          case Deliver(_) => BackgroundInv(m, a, base, ms, exec);
          case Recheck(k) =>
          case StmtDone(spill, w) => OpDoneInv(m, spill, w, base, ms, exec);
          case StmtFailed(rolledBack, spill, w) => OpFailsInv(m, rolledBack, spill, w, base, ms, exec);
          case Finish =>
            if m.phase.Reading? {
              ReadInv(m, base, ms, exec);
            } else {
              FinishInv(m, base, ms, exec);
            }
          case Grant(outcome, w) => GrantInv(m, outcome, w, base, ms, exec);
        }
    }
  }

  // --------------------------------------------------------------- whole runs

  predicate ValidSteps<X(==)>(m: Machine<X>, steps: seq<Step<X>>, ms: seq<Migration>, exec: (X, string) -> X)
    decreases |steps|
  {
    steps == [] ||
    (StepEnabled(m, steps[0], exec) && ValidSteps(MachineNext(m, steps[0], ms, exec), steps[1..], ms, exec))
  }

  function AfterSteps<X>(m: Machine<X>, steps: seq<Step<X>>, ms: seq<Migration>, exec: (X, string) -> X): Machine<X>
    requires ValidSteps(m, steps, ms, exec)
    decreases |steps|
  {
    if steps == [] then m else AfterSteps(MachineNext(m, steps[0], ms, exec), steps[1..], ms, exec)
  }

  lemma {:induction false} StepsInv<X>(m: Machine<X>, steps: seq<Step<X>>, base: Db<X>, ms: seq<Migration>, exec: (X, string) -> X)
    requires Inv(m, base, ms, exec) && ValidSteps(m, steps, ms, exec)
    ensures Inv(AfterSteps(m, steps, ms, exec), base, ms, exec)
    decreases |steps|
  {
    hide Inv, StepEnabled, MachineNext;
    if steps != [] {
      StepInv(m, steps[0], base, ms, exec);
      StepsInv(MachineNext(m, steps[0], ms, exec), steps[1..], base, ms, exec);
    }
  }

  /**
   * Over every run of crashes, retries, expiries and failures, what is committed and
   * what is stored is the database first opened plus exactly the migrations up to
   * its recorded version, ascending, once each; a run that completes has applied all
   * of them up to its target; one refused as a downgrade found newer data.
   */
  lemma CrashSafe<X>(base: Db<X>, target: int, steps: seq<Step<X>>, ms: seq<Migration>, exec: (X, string) -> X)
    requires Ascending(ms) && ValidSteps(Boot(base, target), steps, ms, exec)
    ensures var m := AfterSteps(Boot(base, target), steps, ms, exec);
            && Migrated(m.scope.committed, base, ms, exec)
            && Migrated(m.scope.stored, base, ms, exec)
            && (m.phase.Completed? ==>
                  && m.scope.committed.version <= m.target
                  && m.scope.committed.schema ==
                     Upgrade(base.schema, Pending(ms, base.version, m.target), exec))
            && (m.phase.Downgrade? ==> m.target < m.scope.committed.version)
  {
    hide ValidSteps, AfterSteps, Consistent, Pending;
    assert Pending(ms, base.version, base.version) == [] by {
      NothingPending(ms, base.version, base.version);
    }
    BootInv(base, target, base, ms, exec);
    StepsInv(Boot(base, target), steps, base, ms, exec);
    var m := AfterSteps(Boot(base, target), steps, ms, exec);
    if m.phase.Completed? {
      AllApplied(m.scope.committed, base, m.target, ms, exec);
    }
  }

  /** What, besides a statement, can move the committed database at all. */
  lemma CommittedMoves<X>(s: Scope<Db<X>, Op>, a: Action<Db<X>, Op>, exec: (X, string) -> X)
    requires Enabled(s, a, Sql(exec)) && Next(s, a, Sql(exec)).committed != s.committed && !a.StmtDone?
    ensures a.Grant? && s.chain[0].Commit? && Lands(s, a.outcome) && Next(s, a, Sql(exec)).committed == s.working
  {
  }

  /** Short of a crash, the database moves only when a commit lands the next migration whole. */
  lemma OnlyWholeMigrationsLand<X>(m: Machine<X>, step: Step<X>, base: Db<X>, ms: seq<Migration>, exec: (X, string) -> X)
    requires Inv(m, base, ms, exec) && StepEnabled(m, step, exec) && !step.Crash?
    ensures var db, db' := m.scope.committed, MachineNext(m, step, ms, exec).scope.committed;
            db' != db ==>
              && m.phase.Committing? && Pending(ms, db.version, m.target) != []
              && db' == Db(exec(db.schema, Pending(ms, db.version, m.target)[0].sql),
                           Pending(ms, db.version, m.target)[0].version)
  {
    var a := if step.Issue? then Arrive(CallOf(m)) else step.a;
    assert MachineNext(m, step, ms, exec).scope == Next(m.scope, a, Sql(exec));
    hide MachineNext, EngineStep, Pending, Migrated, Archived, Ascending;
    if a.StmtDone? {
      StatementKeeps(m, a.spill, a.w, base, ms, exec);
    } else if Next(m.scope, a, Sql(exec)).committed != m.scope.committed {
      CommittedMoves(m.scope, a, exec);
      LandingCommits(m, base, ms, exec, a.outcome);
    }
  }

  lemma LandingCommits<X>(m: Machine<X>, base: Db<X>, ms: seq<Migration>, exec: (X, string) -> X, outcome: Outcome)
    requires Inv(m, base, ms, exec) && m.scope.running.None?
    requires m.scope.chain != [] && m.scope.chain[0].Commit? && Lands(m.scope, outcome)
    ensures m.phase.Committing? && m.scope.working == Db(exec(m.scope.committed.schema, m.todo[0].sql), m.todo[0].version)
  {
    hide Pending, Migrated, Archived, Ascending, Consistent;
    assert Mine(m.scope.chain)[0] == m.scope.chain[0];
    assert m.waiting && m.scope.chain[0] == CallOf(m);
  }

  /** A statement never moves the committed database: a migration's own run inside its transaction. */
  lemma StatementKeeps<X>(m: Machine<X>, spill: Db<X>, w: nat, base: Db<X>, ms: seq<Migration>, exec: (X, string) -> X)
    requires Inv(m, base, ms, exec) && Enabled(m.scope, StmtDone(spill, w), Sql(exec))
    ensures Next(m.scope, StmtDone(spill, w), Sql(exec)).committed == m.scope.committed
  {
    var s := m.scope;
    assert s.running.Some? && s.running.value.rest == [Data(OpOf(m))];
    assert s.tx == TokenOf(m) && (s.autocommit ==> s.committed == s.working);
    hide Pending, Migrated, Archived, Ascending, Consistent, Mine, Next, Enabled;
    OpRuns(s, spill, w, OpOf(m), exec);
  }
}
