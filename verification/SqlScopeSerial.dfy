/**
 * Serializability: whatever the interleaving, the committed database is the
 * result of running whole units one after another, in the order they ended.
 * A unit is a call without a token, or a transaction that was committed.
 */
module SqlScopeSerial {
  import opened Wrappers
  import opened SqlScope
  import opened SqlScopeSafety

  // -------------------------------------------------- what a client could log

  datatype Event<S> =
    | Wrote(ticket: nat, token: Option<nat>, s: S)
    | Returned(ticket: nat)
    | Committed(tx: nat)

  function EventsOf<D, S>(s: Scope<D, S>, a: Action<D, S>, ap: (D, S) -> D): seq<Event<S>>
    requires Enabled(s, a, ap)
  {
    match a
    case StmtDone(_, _) =>
      var r := s.running.value;
      if r.rest[0].Data? then [Wrote(r.ticket, r.token, r.rest[0].s)] else []
    case StmtFailed(_, _, _) => if s.running.value.token.None? then [Returned(s.running.value.ticket)] else []
    case Finish => if s.running.value.token.None? then [Returned(s.running.value.ticket)] else []
    case Grant(outcome, _) =>
      var c := s.chain[0];
      if c.Commit? && Admitted(s, c) && !s.autocommit && outcome == Succeeds then [Committed(c.tx)] else []
    case _ => []
  }

  function Log<D, S>(s: Scope<D, S>, run: seq<Action<D, S>>, ap: (D, S) -> D): seq<Event<S>>
    requires ValidRun(s, run, ap)
    decreases |run|
  {
    if run == [] then [] else EventsOf(s, run[0], ap) + Log(Next(s, run[0], ap), run[1..], ap)
  }

  /** The statements one call without a token wrote. */
  function WritesBy<S>(log: seq<Event<S>>, ticket: nat): seq<S> {
    if log == [] then []
    else
      var e := log[|log| - 1];
      WritesBy(log[..|log| - 1], ticket) +
      if WroteAlone(e, ticket) then [e.s] else []
  }

  /** The statements all calls carrying one token wrote. */
  function WritesUnder<S>(log: seq<Event<S>>, tx: nat): seq<S> {
    if log == [] then []
    else
      var e := log[|log| - 1];
      WritesUnder(log[..|log| - 1], tx) +
      if WroteWithin(e, tx) then [e.s] else []
  }

  /** The units of a log, in the order they ended. */
  function Units<S>(log: seq<Event<S>>): seq<seq<S>> {
    if log == [] then []
    else
      var before, e := log[..|log| - 1], log[|log| - 1];
      Units(before) + Ended(before, e)
  }

  /** The unit an event ends, if it ends one. */
  function Ended<S>(before: seq<Event<S>>, e: Event<S>): seq<seq<S>> {
    match e
    case Returned(ticket) => [WritesBy(before, ticket)]
    case Committed(tx) => [WritesUnder(before, tx)]
    case Wrote(_, _, _) => []
  }

  predicate WroteAlone<S>(e: Event<S>, ticket: nat) {
    e.Wrote? && e.ticket == ticket && e.token.None?
  }

  predicate WroteWithin<S>(e: Event<S>, tx: nat) {
    e.Wrote? && e.token == Some(tx)
  }

  function Apply<D, S>(db: D, unit: seq<S>, ap: (D, S) -> D): D {
    if unit == [] then db else ap(Apply(db, unit[..|unit| - 1], ap), unit[|unit| - 1])
  }

  /** One unit after another. */
  function Serial<D, S>(db: D, units: seq<seq<S>>, ap: (D, S) -> D): D {
    if units == [] then db else Apply(Serial(db, units[..|units| - 1], ap), units[|units| - 1], ap)
  }

  // ------------------------------------------------------ scripts without BEGIN

  predicate PlainScript<S>(script: seq<Stmt<S>>) {
    forall k :: 0 <= k < |script| ==> script[k].Data?
  }

  predicate PlainCall<S>(c: Call<S>) {
    c.Exec? ==> PlainScript(c.script)
  }

  /** No call of the run carries transaction control in its SQL text. */
  predicate PlainRun<D, S>(run: seq<Action<D, S>>) {
    forall k :: 0 <= k < |run| && run[k].Arrive? ==> PlainCall(run[k].call)
  }

  ghost predicate PlainScope<D, S>(s: Scope<D, S>) {
    && (forall k :: 0 <= k < |s.chain| ==> PlainCall(s.chain[k]))
    && (forall k :: 0 <= k < |s.gate| ==> PlainCall(s.gate[k].call))
    && (s.running.Some? ==> PlainScript(s.running.value.rest))
    && (s.autocommit <==> s.tx.None?)
  }

  // ---------------------------------------------------------------- invariant

  ghost predicate Older<S>(log: seq<Event<S>>, next: nat) {
    forall k :: 0 <= k < |log| && log[k].Wrote? ==>
      log[k].ticket < next && (log[k].token.Some? ==> log[k].token.value < next)
  }

  ghost predicate Explains<D, S>(s: Scope<D, S>, log: seq<Event<S>>, db: D, ap: (D, S) -> D) {
    var base := Serial(db, Units(log), ap);
    && Older(log, s.next)
    && s.committed == (if s.running.Some? && s.running.value.token.None?
                       then Apply(base, WritesBy(log, s.running.value.ticket), ap)
                       else base)
    && (s.tx.Some? ==> s.working == Apply(s.committed, WritesUnder(log, s.tx.value), ap))
  }

  lemma {:induction false} FreshWroteNothing<S>(log: seq<Event<S>>, next: nat)
    requires Older(log, next)
    ensures WritesBy(log, next) == [] && WritesUnder(log, next) == []
  {
    if log != [] {
      FreshWroteNothing(log[..|log| - 1], next);
    }
  }

  lemma LogSnoc<S>(log: seq<Event<S>>, e: Event<S>)
    ensures Units(log + [e]) == Units(log) + Ended(log, e)
    ensures forall t: nat ::
              WritesBy(log + [e], t) == WritesBy(log, t) + (if WroteAlone(e, t) then [e.s] else [])
    ensures forall t: nat ::
              WritesUnder(log + [e], t) == WritesUnder(log, t) + (if WroteWithin(e, t) then [e.s] else [])
  {
    assert (log + [e])[..|log|] == log;
  }

  lemma ApplySnoc<D, S>(db: D, unit: seq<S>, x: S, ap: (D, S) -> D)
    ensures Apply(db, unit + [x], ap) == ap(Apply(db, unit, ap), x)
  {
    assert (unit + [x])[..|unit|] == unit;
  }

  lemma SerialSnoc<D, S>(db: D, units: seq<seq<S>>, unit: seq<S>, ap: (D, S) -> D)
    ensures Serial(db, units + [unit], ap) == Apply(Serial(db, units, ap), unit, ap)
  {
    assert (units + [unit])[..|units|] == units;
  }

  // -------------------------------------------------------------------- steps

  lemma PassGatePlain<D, S>(s: Scope<D, S>, c: Call<S>)
    requires PlainScope(s) && PlainCall(c)
    ensures PlainScope(PassGate(s, c))
  {
  }

  lemma GrantPlain<D, S>(s: Scope<D, S>, outcome: Outcome, w: nat)
    requires Consistent(s) && PlainScope(s) && GrantEnabled(s, outcome, w)
    ensures PlainScope(GrantNext(s, outcome, w))
  {
    hide Counted, SnapshotCount, PlainScript;
    var c, s1 := s.chain[0], s.(chain := s.chain[1..]);
    assert PlainScope(s1);
    if NeedsGate(c) {
      PassGatePlain(s1, c);
    }
  }

  lemma StaysPlain<D, S>(s: Scope<D, S>, a: Action<D, S>, ap: (D, S) -> D)
    requires Consistent(s) && PlainScope(s) && Enabled(s, a, ap)
    requires a.Arrive? ==> PlainCall(a.call)
    ensures PlainScope(Next(s, a, ap))
  {
    hide Counted, SnapshotCount, GrantNext, GrantEnabled;
    match a {
      case Arrive(c) => PassGatePlain(s, c);
      case Recheck(k) => PassGatePlain(s.(gate := s.gate[..k] + s.gate[k + 1..]), s.gate[k].call);
      case Grant(outcome, w) => GrantPlain(s, outcome, w);
      case StmtDone(spill, w) =>
        assert s.running.value.rest[0].Data?;
      case _ =>
    }
  }

  /** What a plain statement does to the scope, alone or inside the open transaction. */
  lemma StmtWrites<D, S>(s: Scope<D, S>, spill: D, w: nat, ap: (D, S) -> D)
    requires Consistent(s) && PlainScope(s) && Enabled(s, StmtDone(spill, w), ap)
    ensures var s', r := Next(s, StmtDone(spill, w), ap), s.running.value;
            && r.rest[0].Data? && s.tx == r.token && r.ticket < s.next
            && s'.running == Some(r.(rest := r.rest[1..])) && s'.tx == s.tx && s'.next == s.next
            && s'.working == ap(s.working, r.rest[0].s)
            && s'.committed == (if r.token.None? then s'.working else s.committed)
            && (r.token.None? ==> s.working == s.committed)
            && (s.tx.Some? ==> s.tx.value < s.next)
  {
    hide SnapshotCount;
    assert s.running.value.rest[0].Data?;
  }

  lemma OlderGrows<S>(log: seq<Event<S>>, e: Event<S>, next: nat)
    requires Older(log, next)
    requires e.Wrote? ==> e.ticket < next && (e.token.Some? ==> e.token.value < next)
    ensures Older(log + [e], next)
  {
  }

  /** A statement: it extends the open unit it belongs to. */
  lemma StmtExplained<D, S>(s: Scope<D, S>, spill: D, w: nat, log: seq<Event<S>>, db: D, ap: (D, S) -> D)
    requires Consistent(s) && PlainScope(s) && Explains(s, log, db, ap)
    requires Enabled(s, StmtDone(spill, w), ap)
    ensures Explains(Next(s, StmtDone(spill, w), ap), log + EventsOf(s, StmtDone(spill, w), ap), db, ap)
  {
    StmtWrites(s, spill, w, ap);
    var r := s.running.value;
    var e := Wrote(r.ticket, r.token, r.rest[0].s);
    assert EventsOf(s, StmtDone(spill, w), ap) == [e];
    hide Consistent, PlainScope, Next, Enabled, EventsOf, Units, WritesBy, WritesUnder, Serial, Older;
    LogSnoc(log, e);
    OlderGrows(log, e, s.next);
    assert Units(log) + [] == Units(log);
    match r.token {
      case None => ApplySnoc(Serial(db, Units(log), ap), WritesBy(log, r.ticket), e.s, ap);
      case Some(t) => ApplySnoc(s.committed, WritesUnder(log, t), e.s, ap);
    }
  }

  /** The end of an exec: a call without a token becomes a unit of its own. */
  lemma EndExplained<D, S>(s: Scope<D, S>, a: Action<D, S>, log: seq<Event<S>>, db: D, ap: (D, S) -> D)
    requires Consistent(s) && PlainScope(s) && Explains(s, log, db, ap)
    requires a.StmtFailed? || a.Finish?
    requires Enabled(s, a, ap)
    ensures Explains(Next(s, a, ap), log + EventsOf(s, a, ap), db, ap)
  {
    hide SnapshotCount, Units, WritesBy, WritesUnder, Serial;
    var r := s.running.value;
    if r.token.None? {
      LogSnoc(log, Returned(r.ticket));
      SerialSnoc(db, Units(log), WritesBy(log, r.ticket), ap);
    } else {
      assert log + [] == log;
    }
  }

  lemma GrantExplained<D, S>(s: Scope<D, S>, outcome: Outcome, w: nat, log: seq<Event<S>>, db: D, ap: (D, S) -> D)
    requires Consistent(s) && PlainScope(s) && Explains(s, log, db, ap)
    requires Enabled(s, Grant(outcome, w), ap)
    ensures Explains(Next(s, Grant(outcome, w), ap), log + EventsOf(s, Grant(outcome, w), ap), db, ap)
  {
    hide SnapshotCount, Units, WritesBy, WritesUnder, Serial;
    FreshWroteNothing(log, s.next);
    var c := s.chain[0];
    if c.Commit? && Admitted(s, c) && outcome == Succeeds {
      LogSnoc(log, Committed(c.tx));
      SerialSnoc(db, Units(log), WritesUnder(log, c.tx), ap);
    } else {
      assert log + [] == log;
    }
  }

  lemma StepExplained<D, S>(s: Scope<D, S>, a: Action<D, S>, log: seq<Event<S>>, db: D, ap: (D, S) -> D)
    requires Consistent(s) && PlainScope(s) && Explains(s, log, db, ap)
    requires Enabled(s, a, ap)
    ensures Explains(Next(s, a, ap), log + EventsOf(s, a, ap), db, ap)
  {
    hide SnapshotCount, Units, WritesBy, WritesUnder, Serial, GrantNext, StmtNext, Consistent, PlainScope;
    match a {
      case StmtDone(spill, w) => StmtExplained(s, spill, w, log, db, ap);
      case StmtFailed(_, _, _) => EndExplained(s, a, log, db, ap);
      case Finish => EndExplained(s, a, log, db, ap);
      case Grant(outcome, w) => GrantExplained(s, outcome, w, log, db, ap);
      case _ => assert log + [] == log;
    }
  }

  lemma {:induction false} LogAppend<D, S>(s: Scope<D, S>, run: seq<Action<D, S>>, a: Action<D, S>, ap: (D, S) -> D)
    requires ValidRun(s, run + [a], ap)
    ensures ValidRun(s, run, ap) && Enabled(After(s, run, ap), a, ap)
    ensures Log(s, run + [a], ap) == Log(s, run, ap) + EventsOf(After(s, run, ap), a, ap)
    decreases |run|
  {
    hide Enabled, Next, EventsOf;
    RunSnoc(s, run, a, ap);
    if run == [] {
      assert run + [a] == [a] && [a][1..] == [];
    } else {
      assert (run + [a])[0] == run[0] && (run + [a])[1..] == run[1..] + [a];
      LogAppend(Next(s, run[0], ap), run[1..], a, ap);
    }
  }

  /** The invariant of every run whose scripts hold no transaction control. */
  lemma {:induction false} RunExplained<D, S>(db: D, run: seq<Action<D, S>>, ap: (D, S) -> D)
    requires ValidRun(Opened(db), run, ap) && PlainRun(run)
    ensures var s := After(Opened(db), run, ap);
            Consistent(s) && PlainScope(s) && Explains(s, Log(Opened(db), run, ap), db, ap)
    decreases |run|
  {
    hide Enabled, Next, EventsOf;
    if run != [] {
      var last := |run| - 1;
      var prefix, a := run[..last], run[last];
      assert prefix + [a] == run;
      LogAppend(Opened(db), prefix, a, ap);
      RunSnoc(Opened(db), prefix, a, ap);
      RunExplained(db, prefix, ap);
      var s := After(Opened(db), prefix, ap);
      StepKeeps(s, a, ap);
      StaysPlain(s, a, ap);
      StepExplained(s, a, Log(Opened(db), prefix, ap), db, ap);
    }
  }

  // ------------------------------------------------------------- main results

  /**
   * Serializability. In every interleaving of plain calls the committed database
   * is the serial fold of the units so far; only the unit now running adds to it.
   */
  lemma Serializable<D, S>(db: D, run: seq<Action<D, S>>, ap: (D, S) -> D)
    requires ValidRun(Opened(db), run, ap) && PlainRun(run)
    ensures var s, log := After(Opened(db), run, ap), Log(Opened(db), run, ap);
            && (s.running.None? || s.running.value.token.Some? ==> s.committed == Serial(db, Units(log), ap))
            && (s.running.Some? && s.running.value.token.None? ==>
                  s.committed == Serial(db, Units(log) + [WritesBy(log, s.running.value.ticket)], ap))
            && (s.tx.Some? ==> s.working == Serial(db, Units(log) + [WritesUnder(log, s.tx.value)], ap))
  {
    RunExplained(db, run, ap);
    var s, log := After(Opened(db), run, ap), Log(Opened(db), run, ap);
    if s.running.Some? {
      SerialSnoc(db, Units(log), WritesBy(log, s.running.value.ticket), ap);
    }
    if s.tx.Some? {
      SerialSnoc(db, Units(log), WritesUnder(log, s.tx.value), ap);
    }
  }

  /** While a transaction is open, whatever holds the mutex holds its token. */
  lemma NobodyElseInside<D, S>(db: D, run: seq<Action<D, S>>, ap: (D, S) -> D)
    requires ValidRun(Opened(db), run, ap)
    ensures var s := After(Opened(db), run, ap);
            s.tx.Some? && s.running.Some? ==> s.running.value.token == s.tx
  {
    RunKeeps(db, run, ap);
  }

  /** The log with one transaction's statements struck out. */
  function Erase<S>(log: seq<Event<S>>, tx: nat): seq<Event<S>> {
    if log == [] then []
    else
      var e := log[|log| - 1];
      Erase(log[..|log| - 1], tx) + if WroteWithin(e, tx) then [] else [e]
  }

  lemma {:induction false} EraseKeepsWrites<S>(log: seq<Event<S>>, tx: nat, t: nat)
    ensures WritesBy(Erase(log, tx), t) == WritesBy(log, t)
    ensures t != tx ==> WritesUnder(Erase(log, tx), t) == WritesUnder(log, t)
  {
    if log != [] {
      var before, e := log[..|log| - 1], log[|log| - 1];
      EraseKeepsWrites(before, tx, t);
      if WroteWithin(e, tx) {
        assert Erase(log, tx) == Erase(before, tx);
      } else {
        assert Erase(log, tx)[..|Erase(before, tx)|] == Erase(before, tx);
      }
    }
  }

  lemma {:induction false} EraseKeepsUnits<S>(log: seq<Event<S>>, tx: nat)
    requires Committed(tx) !in log
    ensures Units(Erase(log, tx)) == Units(log)
  {
    hide WritesBy, WritesUnder;
    if log != [] {
      var before, e := log[..|log| - 1], log[|log| - 1];
      assert e in log;
      EraseKeepsUnits(before, tx);
      if WroteWithin(e, tx) {
        assert Erase(log, tx) == Erase(before, tx);
        assert Units(before) + [] == Units(before);
      } else {
        assert Erase(log, tx)[..|Erase(before, tx)|] == Erase(before, tx);
        match e {
          case Returned(t) => EraseKeepsWrites(before, tx, t);
          case Committed(t) => EraseKeepsWrites(before, tx, t);
          case Wrote(_, _, _) =>
        }
      }
    }
  }

  /** A transaction that was rolled back, expired or failed leaves no trace. */
  lemma DroppedLeavesNoTrace<D, S>(db: D, run: seq<Action<D, S>>, tx: nat, ap: (D, S) -> D)
    requires ValidRun(Opened(db), run, ap) && PlainRun(run)
    requires Committed(tx) !in Log(Opened(db), run, ap)
    requires var s := After(Opened(db), run, ap); s.running.None? || s.running.value.token.Some?
    ensures After(Opened(db), run, ap).committed == Serial(db, Units(Erase(Log(Opened(db), run, ap), tx)), ap)
  {
    Serializable(db, run, ap);
    EraseKeepsUnits(Log(Opened(db), run, ap), tx);
  }
}
