/**
 * One SQL scope of the data engine as a concurrent step machine: a first-come
 * statement mutex, a transaction gate with tokens and idle expiry, and a
 * write-behind persister driven by a dirty counter.
 *
 * Every nondeterministic choice (what SQLite spills, which statement fails,
 * who arrives when) is carried by the action, so a run is a list of actions.
 */
module SqlScope {
  import opened Wrappers

  /** A statement of a script; the last three are transaction control in the text. */
  datatype Stmt<S> = Data(s: S) | TextBegin | TextCommit | TextRollback

  /** A call on the scope; expiries and persist snapshots queue like any other. */
  datatype Call<S> =
    | Exec(token: Option<nat>, script: seq<Stmt<S>>)
    | Begin
    | Commit(tx: nat)
    | Rollback(tx: nat)
    | Snapshot
    | Expire(tx: nat)
    | PersistSnapshot

  /** A call without a token, parked until the transaction it saw has closed. */
  datatype Waiting<S> = Waiting(call: Call<S>, awaited: nat)

  /** The exec holding the mutex: its ticket, token, and statements still to run. */
  datatype Running<S> = Running(ticket: nat, token: Option<nat>, rest: seq<Stmt<S>>)

  /** One link of the persist chain. */
  datatype Persist<D> = Scheduled | AwaitingMutex | Delivering(bytes: D)

  /**
   * `file` is what the in-memory VFS holds: outside a transaction it is the
   * committed database, inside one it may contain spilled uncommitted pages.
   * Tickets and tokens are drawn from `next`, so they never repeat.
   */
  datatype Scope<D, S> = Scope(
    committed: D, working: D, file: D, autocommit: bool,
    tx: Option<nat>, next: nat,
    gate: seq<Waiting<S>>, chain: seq<Call<S>>, running: Option<Running<S>>,
    writes: nat, persistedWrites: nat, persistQueued: bool,
    persists: seq<Persist<D>>, stored: D)

  datatype Outcome = Succeeds | Refused | RolledBack

  datatype Action<D, S> =
    | Arrive(call: Call<S>)
    | Recheck(k: nat)
    | Grant(outcome: Outcome, w: nat)
    | StmtDone(spill: D, w: nat)
    | StmtFailed(rolledBack: bool, spill: D, w: nat)
    | Finish
    | PersistStart
    | Deliver(ok: bool)

  /** A freshly opened scope holding the bytes that were loaded for it. */
  function Opened<D, S>(db: D): Scope<D, S> {
    Scope(db, db, db, true, None, 0, [], [], None, 0, 0, false, [], db)
  }

  predicate NeedsGate<S>(c: Call<S>) {
    c.Begin? || c.Snapshot? || (c.Exec? && c.token.None?)
  }

  // ------------------------------------------------------------ small pieces

  /** At most one persist waits; nothing is scheduled while clean or mid-transaction. */
  function SchedulePersist<D, S>(s: Scope<D, S>): Scope<D, S> {
    if s.persistQueued || s.writes == s.persistedWrites || !s.autocommit then s
    else s.(persistQueued := true, persists := s.persists + [Scheduled])
  }

  /** SQLite's own rollback: pages and file return to the committed database. */
  function RollBack<D, S>(s: Scope<D, S>, w: nat): Scope<D, S> {
    if s.autocommit then s
    else s.(working := s.committed, file := s.committed, autocommit := true, writes := s.writes + w)
  }

  function CommitWork<D, S>(s: Scope<D, S>, w: nat): Scope<D, S> {
    s.(committed := s.working, file := s.working, autocommit := true, writes := s.writes + w)
  }

  /** Any change of the file moves the VFS write counter. */
  predicate Counted<D(==), S>(s: Scope<D, S>, file: D, w: nat) {
    file != s.file ==> w > 0
  }

  /** If SQLite ended the transaction by itself, the token ends with it. */
  function Reconcile<D, S>(s: Scope<D, S>): Scope<D, S> {
    if s.autocommit then s.(tx := None) else s
  }

  /** The end of an exec that raised no SQL error: manual transaction control is refused. */
  function EndExec<D, S>(s: Scope<D, S>, token: Option<nat>): Scope<D, S> {
    if token.None? && s.tx.None? && !s.autocommit then RollBack(s, 1)
    else if token.Some? && s.autocommit then s.(tx := None)
    else SchedulePersist(s)
  }

  // ------------------------------------------------------------- transitions

  predicate GrantEnabled<D(==), S>(s: Scope<D, S>, outcome: Outcome, w: nat) {
    s.running.None? && s.chain != [] &&
    match s.chain[0]
    case Commit(_) =>
      Counted(s, match outcome case Succeeds => s.working case RolledBack => s.committed case Refused => s.file, w)
    case Begin => outcome == Refused || (outcome == Succeeds && (s.tx.None? ==> s.autocommit))
    case Rollback(_) => outcome == Succeeds && Counted(s, s.committed, w)
    case Expire(_) => outcome == Succeeds && Counted(s, s.committed, w)
    case _ => outcome == Succeeds
  }

  predicate StmtEnabled<D(==), S>(s: Scope<D, S>, spill: D, w: nat, ap: (D, S) -> D) {
    s.running.Some? && s.running.value.rest != [] &&
    match s.running.value.rest[0]
    case Data(x) => Counted(s, if s.autocommit then ap(s.working, x) else spill, w)
    case TextBegin => s.autocommit
    case TextCommit => !s.autocommit && Counted(s, s.working, w)
    case TextRollback => !s.autocommit && Counted(s, s.committed, w)
  }

  predicate Enabled<D(==), S>(s: Scope<D, S>, a: Action<D, S>, ap: (D, S) -> D) {
    match a
    case Arrive(c) => !c.PersistSnapshot?
    case Recheck(k) => k < |s.gate| && s.tx != Some(s.gate[k].awaited)
    case Grant(outcome, w) => GrantEnabled(s, outcome, w)
    case StmtDone(spill, w) => StmtEnabled(s, spill, w, ap)
    case StmtFailed(rolledBack, spill, w) =>
      && s.running.Some? && s.running.value.rest != []
      && Counted(s, if s.autocommit then s.file else if rolledBack then s.committed else spill, w)
    case Finish => s.running.Some? && s.running.value.rest == []
    case PersistStart => s.persists != [] && s.persists[0] == Scheduled
    case Deliver(_) => s.persists != [] && s.persists[0].Delivering?
  }

  /** Pass the gate: queue for the mutex, or park behind the open transaction. */
  function PassGate<D, S>(s: Scope<D, S>, c: Call<S>): Scope<D, S> {
    match s.tx
    case Some(t) => s.(gate := s.gate + [Waiting(c, t)])
    case None => s.(chain := s.chain + [c])
  }

  /** Whether the call at the head of the mutex queue does its work or is turned away. */
  predicate Admitted<D, S>(s: Scope<D, S>, c: Call<S>) {
    match c
    case Exec(Some(t), _) => s.tx == Some(t)
    case Exec(None, _) => s.tx.None?
    case Begin => s.tx.None?
    case Snapshot => s.tx.None?
    case Commit(t) => s.tx == Some(t)
    case Rollback(t) => s.tx == Some(t)
    case Expire(t) => s.tx == Some(t)
    case PersistSnapshot => s.tx.None? && s.autocommit
  }

  function GrantNext<D, S>(s0: Scope<D, S>, outcome: Outcome, w: nat): Scope<D, S>
    requires s0.chain != []
  {
    var c := s0.chain[0];
    var s := s0.(chain := s0.chain[1..]);
    if !Admitted(s, c) then
      if NeedsGate(c) then PassGate(s, c)
      else if c.PersistSnapshot? then s.(persists := if s.persists == [] then [] else s.persists[1..])
      else s
    else match c
      case Exec(token, script) => s.(running := Some(Running(s.next, token, script)), next := s.next + 1)
      case Begin =>
        if outcome == Refused then s
        else s.(autocommit := false, tx := Some(s.next), next := s.next + 1)
      case Commit(_) =>
        if s.autocommit then s.(tx := None)
        else if outcome == Succeeds then SchedulePersist(CommitWork(s, w).(tx := None))
        else if outcome == RolledBack then Reconcile(RollBack(s, w))
        else s
      case Rollback(_) => SchedulePersist(RollBack(s, w).(tx := None))
      case Expire(_) => RollBack(s, w).(tx := None)
      case Snapshot => s
      case PersistSnapshot =>
        s.(persistedWrites := s.writes,
           persists := if s.persists == [] then [] else [Delivering(s.file)] + s.persists[1..])
  }

  function StmtNext<D, S>(s: Scope<D, S>, spill: D, w: nat, ap: (D, S) -> D): Scope<D, S>
    requires s.running.Some? && s.running.value.rest != []
  {
    var r := s.running.value;
    var s' := s.(running := Some(r.(rest := r.rest[1..])));
    match r.rest[0]
    case Data(x) =>
      var db := ap(s.working, x);
      if s.autocommit then s'.(committed := db, working := db, file := db, writes := s.writes + w)
      else s'.(working := db, file := spill, writes := s.writes + w)
    case TextBegin => s'.(autocommit := false)
    case TextCommit => CommitWork(s', w)
    case TextRollback => RollBack(s', w)
  }

  function Next<D, S>(s: Scope<D, S>, a: Action<D, S>, ap: (D, S) -> D): Scope<D, S>
    requires Enabled(s, a, ap)
  {
    match a
    case Arrive(c) => if NeedsGate(c) then PassGate(s, c) else s.(chain := s.chain + [c])
    case Recheck(k) => PassGate(s.(gate := s.gate[..k] + s.gate[k + 1..]), s.gate[k].call)
    case Grant(outcome, w) => GrantNext(s, outcome, w)
    case StmtDone(spill, w) => StmtNext(s, spill, w, ap)
    case StmtFailed(rolledBack, spill, w) =>
      var s' := if s.autocommit then s.(writes := s.writes + w)
                else if rolledBack then RollBack(s, w)
                else s.(file := spill, writes := s.writes + w);
      SchedulePersist(Reconcile(s').(running := None))
    case Finish => EndExec(s, s.running.value.token).(running := None)
    case PersistStart =>
      s.(persistQueued := false, persists := [AwaitingMutex] + s.persists[1..], chain := s.chain + [PersistSnapshot])
    case Deliver(ok) =>
      s.(stored := if ok then s.persists[0].bytes else s.stored, persists := s.persists[1..])
  }

  // --------------------------------------------------------------------- runs

  predicate ValidRun<D(==), S>(s: Scope<D, S>, run: seq<Action<D, S>>, ap: (D, S) -> D)
    decreases |run|
  {
    run == [] || (Enabled(s, run[0], ap) && ValidRun(Next(s, run[0], ap), run[1..], ap))
  }

  function After<D, S>(s: Scope<D, S>, run: seq<Action<D, S>>, ap: (D, S) -> D): Scope<D, S>
    requires ValidRun(s, run, ap)
    decreases |run|
  {
    if run == [] then s else After(Next(s, run[0], ap), run[1..], ap)
  }

  lemma {:induction false} RunSnoc<D, S>(s: Scope<D, S>, run: seq<Action<D, S>>, a: Action<D, S>, ap: (D, S) -> D)
    ensures ValidRun(s, run + [a], ap) <==> ValidRun(s, run, ap) && Enabled(After(s, run, ap), a, ap)
    ensures ValidRun(s, run + [a], ap) ==> After(s, run + [a], ap) == Next(After(s, run, ap), a, ap)
    decreases |run|
  {
    hide Enabled, Next;
    if run == [] {
      assert ([a])[1..] == [];
      assert run + [a] == [a];
    } else {
      assert (run + [a])[0] == run[0] && (run + [a])[1..] == run[1..] + [a];
      if Enabled(s, run[0], ap) {
        RunSnoc(Next(s, run[0], ap), run[1..], a, ap);
      }
    }
  }

  lemma {:induction false} RunPrefix<D, S>(s: Scope<D, S>, run: seq<Action<D, S>>, k: nat, ap: (D, S) -> D)
    requires ValidRun(s, run, ap) && k <= |run|
    ensures ValidRun(s, run[..k], ap)
    decreases |run| - k
  {
    if k == |run| {
      assert run[..k] == run;
    } else {
      RunPrefix(s, run, k + 1, ap);
      assert run[..k + 1] == run[..k] + [run[k]];
      RunSnoc(s, run[..k], run[k], ap);
    }
  }
}
