/**
 * No call on the scope is lost, served twice or overtaken in the mutex queue, and one
 * parked behind a transaction comes back once that transaction has closed.
 */
module SqlScopeQueue {
  import opened Wrappers
  import opened SqlScope
  import opened SqlScopeSafety

  // ---------------------------------------------------------------- conservation

  ghost function Parked<S>(gate: seq<Waiting<S>>): multiset<Call<S>> {
    if gate == [] then multiset{} else multiset{gate[0].call} + Parked(gate[1..])
  }

  /** The calls that have arrived and have not been served yet. */
  ghost function Unserved<D, S>(s: Scope<D, S>): multiset<Call<S>> {
    Parked(s.gate) + multiset(s.chain)
  }

  /** What joins them in one step: a new call, or the persister's snapshot. */
  ghost function Joining<D, S>(a: Action<D, S>): multiset<Call<S>> {
    match a
    case Arrive(c) => multiset{c}
    case PersistStart => multiset{PersistSnapshot}
    case _ => multiset{}
  }

  /** The head of the mutex queue is let in, and does not have to wait for a transaction. */
  predicate Serves<D, S>(s: Scope<D, S>, a: Action<D, S>) {
    a.Grant? && s.chain != [] && (NeedsGate(s.chain[0]) ==> s.tx.None?)
  }

  ghost function Leaving<D, S>(s: Scope<D, S>, a: Action<D, S>): multiset<Call<S>> {
    if Serves(s, a) then multiset{s.chain[0]} else multiset{}
  }

  lemma {:induction false} ParkedAppend<S>(gate: seq<Waiting<S>>, w: Waiting<S>)
    ensures Parked(gate + [w]) == Parked(gate) + multiset{w.call}
  {
    if gate == [] {
      assert (gate + [w])[1..] == [];
    } else {
      assert (gate + [w])[1..] == gate[1..] + [w];
      ParkedAppend(gate[1..], w);
    }
  }

  lemma {:induction false} ParkedWithout<S>(gate: seq<Waiting<S>>, k: nat)
    requires k < |gate|
    ensures Parked(gate) == Parked(gate[..k] + gate[k + 1..]) + multiset{gate[k].call}
  {
    var less := gate[..k] + gate[k + 1..];
    if k == 0 {
      assert less == gate[1..];
    } else {
      assert less[0] == gate[0] && less[1..] == gate[1..][..k - 1] + gate[1..][k..];
      ParkedWithout(gate[1..], k - 1);
    }
  }

  lemma HeadLeaves<S>(chain: seq<Call<S>>)
    requires chain != []
    ensures multiset(chain) == multiset(chain[1..]) + multiset{chain[0]}
  {
    assert chain == [chain[0]] + chain[1..];
  }

  /**
   * Every step of any scope moves calls in one way only: what arrives joins, the head of
   * the mutex queue leaves when it is served, and a head turned away by an open
   * transaction is parked behind exactly that transaction.
   */
  lemma StepKeepsCalls<D, S>(s: Scope<D, S>, a: Action<D, S>, ap: (D, S) -> D)
    requires Enabled(s, a, ap)
    ensures var s' := Next(s, a, ap);
            && Unserved(s') + Leaving(s, a) == Unserved(s) + Joining(a)
            && (a.Grant? && !Serves(s, a) ==>
                  s' == s.(chain := s.chain[1..], gate := s.gate + [Waiting(s.chain[0], s.tx.value)]))
  {
    hide Unserved, GrantNext, StmtNext, EndExec, SchedulePersist, RollBack;
    match a {
      case Arrive(c) => ArrivalJoins(s, c, ap);
      case Recheck(k) => RecheckKeeps(s, k, ap);
      case Grant(outcome, w) => GrantServes(s, outcome, w, ap);
      case PersistStart =>
        assert Next(s, a, ap).gate == s.gate && Next(s, a, ap).chain == s.chain + [PersistSnapshot];
        SameGate(s, Next(s, a, ap), multiset{PersistSnapshot});
      case _ =>
        OtherStepsKeep(s, a, ap);
        SameGate(s, Next(s, a, ap), multiset{});
    }
  }

  lemma SameGate<D, S>(s: Scope<D, S>, s': Scope<D, S>, joining: multiset<Call<S>>)
    requires s'.gate == s.gate && multiset(s'.chain) == multiset(s.chain) + joining
    ensures Unserved(s') == Unserved(s) + joining
  {
  }

  lemma OtherStepsKeep<D, S>(s: Scope<D, S>, a: Action<D, S>, ap: (D, S) -> D)
    requires Enabled(s, a, ap) && (a.StmtDone? || a.StmtFailed? || a.Finish? || a.Deliver?)
    ensures Next(s, a, ap).gate == s.gate && Next(s, a, ap).chain == s.chain
  {
  }

  lemma ArrivalJoins<D, S>(s: Scope<D, S>, c: Call<S>, ap: (D, S) -> D)
    requires Enabled(s, Arrive(c), ap)
    ensures Unserved(Next(s, Arrive(c), ap)) == Unserved(s) + multiset{c}
  {
    if NeedsGate(c) && s.tx.Some? {
      ParkedAppend(s.gate, Waiting(c, s.tx.value));
    }
  }

  lemma RecheckKeeps<D, S>(s: Scope<D, S>, k: nat, ap: (D, S) -> D)
    requires Enabled(s, Recheck(k), ap)
    ensures Unserved(Next(s, Recheck(k), ap)) == Unserved(s)
  {
    ParkedWithout(s.gate, k);
    if s.tx.Some? {
      ParkedAppend(s.gate[..k] + s.gate[k + 1..], Waiting(s.gate[k].call, s.tx.value));
    }
  }

  lemma GrantServes<D, S>(s: Scope<D, S>, outcome: Outcome, w: nat, ap: (D, S) -> D)
    requires Enabled(s, Grant(outcome, w), ap)
    ensures var s', served := GrantNext(s, outcome, w), NeedsGate(s.chain[0]) ==> s.tx.None?;
            && Unserved(s') + (if served then multiset{s.chain[0]} else multiset{}) == Unserved(s)
            && (!served ==> s' == s.(chain := s.chain[1..], gate := s.gate + [Waiting(s.chain[0], s.tx.value)]))
  {
    HeadLeaves(s.chain);
    hide GrantNext, GrantEnabled, NeedsGate, Parked;
    if NeedsGate(s.chain[0]) && s.tx.Some? {
      GrantParks(s, outcome, w);
      ParkedAppend(s.gate, Waiting(s.chain[0], s.tx.value));
    } else {
      GrantLeavesRest(s, outcome, w);
    }
  }

  lemma GrantParks<D, S>(s: Scope<D, S>, outcome: Outcome, w: nat)
    requires s.chain != [] && NeedsGate(s.chain[0]) && s.tx.Some?
    ensures GrantNext(s, outcome, w) == s.(chain := s.chain[1..], gate := s.gate + [Waiting(s.chain[0], s.tx.value)])
  {
    hide RollBack, CommitWork, SchedulePersist;
  }

  lemma GrantLeavesRest<D, S>(s: Scope<D, S>, outcome: Outcome, w: nat)
    requires s.chain != [] && (NeedsGate(s.chain[0]) ==> s.tx.None?)
    ensures GrantNext(s, outcome, w).chain == s.chain[1..] && GrantNext(s, outcome, w).gate == s.gate
  {
  }

  /** The mutex queue is first come, first served: only its head leaves, and only its end grows. */
  lemma FirstCome<D, S>(s: Scope<D, S>, a: Action<D, S>, ap: (D, S) -> D)
    requires Enabled(s, a, ap)
    ensures (if a.Grant? then s.chain[1..] else s.chain) <= Next(s, a, ap).chain
  {
    hide GrantNext, StmtNext, EndExec, SchedulePersist, RollBack, NeedsGate;
    match a {
      case Grant(outcome, w) =>
        if NeedsGate(s.chain[0]) && s.tx.Some? {
          GrantParks(s, outcome, w);
        } else {
          GrantLeavesRest(s, outcome, w);
        }
      case Arrive(_) =>
      case Recheck(_) =>
      case PersistStart =>
      case _ => OtherStepsKeep(s, a, ap);
    }
  }

  ghost function JoiningIn<D, S>(run: seq<Action<D, S>>): multiset<Call<S>> {
    if run == [] then multiset{} else Joining(run[0]) + JoiningIn(run[1..])
  }

  ghost function ServedIn<D, S>(s: Scope<D, S>, run: seq<Action<D, S>>, ap: (D, S) -> D): multiset<Call<S>>
    requires ValidRun(s, run, ap)
    decreases |run|
  {
    if run == [] then multiset{} else Leaving(s, run[0]) + ServedIn(Next(s, run[0], ap), run[1..], ap)
  }

  lemma Balance<T>(start: multiset<T>, middle: multiset<T>, end: multiset<T>,
                   left: multiset<T>, leaving: multiset<T>, joined: multiset<T>, joining: multiset<T>)
    requires middle + left == start + joined && end + leaving == middle + joining
    ensures end + (left + leaving) == start + (joined + joining)
  {
    forall x ensures (end + (left + leaving))[x] == (start + (joined + joining))[x] {
      assert (middle + left)[x] == (start + joined)[x] && (end + leaving)[x] == (middle + joining)[x];
    }
  }

  /** Over every run, whatever arrived has been served, as often as it arrived, or still waits. */
  lemma {:induction false} NothingLost<D, S>(s: Scope<D, S>, run: seq<Action<D, S>>, ap: (D, S) -> D)
    requires ValidRun(s, run, ap)
    ensures Unserved(After(s, run, ap)) + ServedIn(s, run, ap) == Unserved(s) + JoiningIn(run)
    decreases |run|
  {
    hide Enabled, Next, Unserved, Leaving, Joining;
    if run != [] {
      StepKeepsCalls(s, run[0], ap);
      NothingLost(Next(s, run[0], ap), run[1..], ap);
      var s' := Next(s, run[0], ap);
      Balance(Unserved(s), Unserved(s'), Unserved(After(s, run, ap)), Leaving(s, run[0]), ServedIn(s', run[1..], ap),
              Joining(run[0]), JoiningIn(run[1..]));
    }
  }

  // ------------------------------------------------------------ what being served is

  /** A served exec runs its own script under its own token, or its token names no open transaction and nothing happens. */
  lemma ServedExec<D, S>(s: Scope<D, S>, outcome: Outcome, w: nat, ap: (D, S) -> D)
    requires Enabled(s, Grant(outcome, w), ap) && Serves(s, Action<D, S>.Grant(outcome, w)) && s.chain[0].Exec?
    ensures var s', c := Next(s, Grant(outcome, w), ap), s.chain[0];
            if c.token == s.tx
            then s'.running == Some(Running(s.next, c.token, c.script)) && s' == s.(chain := s'.chain, running := s'.running, next := s.next + 1)
            else c.token.Some? && s' == s.(chain := s.chain[1..])
  {
  }

  /** A served begin opens a transaction under a token never used before, unless SQLite refuses. */
  lemma ServedBegin<D, S>(s: Scope<D, S>, outcome: Outcome, w: nat, ap: (D, S) -> D)
    requires Enabled(s, Grant(outcome, w), ap) && Serves(s, Action<D, S>.Grant(outcome, w)) && s.chain[0].Begin?
    ensures Next(s, Grant(outcome, w), ap) ==
            if outcome.Refused? then s.(chain := s.chain[1..])
            else s.(chain := s.chain[1..], tx := Some(s.next), next := s.next + 1, autocommit := false)
  {
  }

  /** A commit, rollback or expiry of anything but the open transaction does nothing. */
  lemma ServedLate<D, S>(s: Scope<D, S>, outcome: Outcome, w: nat, ap: (D, S) -> D)
    requires Enabled(s, Grant(outcome, w), ap)
    requires var c := s.chain[0]; (c.Commit? || c.Rollback? || c.Expire?) && s.tx != Some(c.tx)
    ensures Next(s, Grant(outcome, w), ap) == s.(chain := s.chain[1..])
  {
  }

  // ------------------------------------------------------------------ coming back

  /** Every parked call waits for a transaction that has been opened. */
  ghost predicate AwaitedKnown<D, S>(s: Scope<D, S>) {
    forall w :: w in s.gate ==> w.awaited < s.next
  }

  lemma TokensAreNew<D, S>(s: Scope<D, S>, a: Action<D, S>, ap: (D, S) -> D)
    requires Enabled(s, a, ap)
    ensures var s' := Next(s, a, ap);
            s'.next >= s.next && (s'.tx == s.tx || s'.tx == None || (s'.tx == Some(s.next) && s'.next > s.next))
  {
    hide GrantNext, StmtNext;
    match a {
      case Grant(outcome, w) => GrantTokens(s, outcome, w);
      case StmtDone(spill, w) => StmtTokens(s, spill, w, ap);
      case _ =>
    }
  }

  lemma GrantTokens<D, S>(s: Scope<D, S>, outcome: Outcome, w: nat)
    requires s.chain != []
    ensures var s' := GrantNext(s, outcome, w);
            s'.next >= s.next && (s'.tx == s.tx || s'.tx == None || (s'.tx == Some(s.next) && s'.next > s.next))
  {
  }

  lemma StmtTokens<D, S>(s: Scope<D, S>, spill: D, w: nat, ap: (D, S) -> D)
    requires s.running.Some? && s.running.value.rest != []
    ensures StmtNext(s, spill, w, ap).next == s.next && StmtNext(s, spill, w, ap).tx == s.tx
  {
  }

  lemma StepAwaited<D, S>(s: Scope<D, S>, a: Action<D, S>, ap: (D, S) -> D)
    requires Consistent(s) && AwaitedKnown(s) && Enabled(s, a, ap)
    ensures AwaitedKnown(Next(s, a, ap))
  {
    hide SnapshotCount, StmtNext, EndExec;
    TokensAreNew(s, a, ap);
    match a {
      case Grant(outcome, w) =>
        if Serves(s, a) {
          GrantLeavesRest(s, outcome, w);
        } else {
          StepKeepsCalls(s, a, ap);
        }
      case StmtDone(spill, w) => StmtKeepsGate(s, spill, w, ap);
      case Finish => FinishKeepsGate(s, ap);
      case _ =>
    }
  }

  lemma StmtKeepsGate<D, S>(s: Scope<D, S>, spill: D, w: nat, ap: (D, S) -> D)
    requires Enabled(s, StmtDone(spill, w), ap)
    ensures Next(s, StmtDone(spill, w), ap).gate == s.gate
  {
  }

  lemma FinishKeepsGate<D, S>(s: Scope<D, S>, ap: (D, S) -> D)
    requires Enabled(s, Finish, ap)
    ensures Next(s, Finish, ap).gate == s.gate
  {
  }

  lemma {:induction false} RunAwaited<D, S>(db: D, run: seq<Action<D, S>>, ap: (D, S) -> D)
    requires ValidRun(Opened(db), run, ap)
    ensures AwaitedKnown(After(Opened(db), run, ap))
    decreases |run|
  {
    hide Enabled, Next, Consistent;
    if run != [] {
      var last := |run| - 1;
      assert run[..last] + [run[last]] == run;
      RunSnoc(Opened(db), run[..last], run[last], ap);
      RunAwaited(db, run[..last], ap);
      RunKeeps(db, run[..last], ap);
      StepAwaited(After(Opened(db), run[..last], ap), run[last], ap);
    }
  }

  /** A transaction once closed never opens again. */
  lemma {:induction false} ClosedStaysClosed<D, S>(s: Scope<D, S>, t: nat, run: seq<Action<D, S>>, ap: (D, S) -> D)
    requires ValidRun(s, run, ap) && t < s.next && s.tx != Some(t)
    ensures After(s, run, ap).tx != Some(t)
    decreases |run|
  {
    hide Enabled, Next;
    if run != [] {
      TokensAreNew(s, run[0], ap);
      ClosedStaysClosed(Next(s, run[0], ap), t, run[1..], ap);
    }
  }

  /**
   * In any run: once the transaction a parked call waits for has closed, the call can be
   * taken up again at every later moment at which it is still parked, wherever it then
   * stands; it goes to the end of the mutex queue, or waits for the transaction open then.
   */
  lemma ParkedReturns<D, S>(db: D, before: seq<Action<D, S>>, later: seq<Action<D, S>>, k: nat, ap: (D, S) -> D)
    requires ValidRun(Opened(db), before, ap) && ValidRun(After(Opened(db), before, ap), later, ap)
    requires var s, s' := After(Opened(db), before, ap), After(After(Opened(db), before, ap), later, ap);
             k < |s'.gate| && s'.gate[k] in s.gate && s.tx != Some(s'.gate[k].awaited)
    ensures var s' := After(After(Opened(db), before, ap), later, ap);
            var w, others := s'.gate[k], s'.gate[..k] + s'.gate[k + 1..];
            && Enabled(s', Recheck(k), ap)
            && Next(s', Recheck(k), ap) ==
               (match s'.tx
                case None => s'.(gate := others, chain := s'.chain + [w.call])
                case Some(t) => s'.(gate := others + [Waiting(w.call, t)]))
  {
    var s := After(Opened(db), before, ap);
    RunAwaited(db, before, ap);
    ClosedStaysClosed(s, After(s, later, ap).gate[k].awaited, later, ap);
  }

  // ------------------------------------------------------------------- no deadlock

  /** Nothing is under way, and what waits, waits for the open transaction. */
  predicate Resting<D, S>(s: Scope<D, S>) {
    s.running.None? && s.chain == [] && s.persists == [] && forall k :: 0 <= k < |s.gate| ==> s.tx == Some(s.gate[k].awaited)
  }

  /** The scope never locks itself up: short of resting, some step other than an arrival can be taken. */
  lemma NeverStuck<D, S>(s: Scope<D, S>, ap: (D, S) -> D) returns (a: Action<D, S>)
    requires Consistent(s) && !Resting(s)
    ensures !a.Arrive? && Enabled(s, a, ap)
  {
    match s.running {
      case Some(r) =>
        a := if r.rest == [] then Finish else StmtFailed(false, s.working, 1);
      case None =>
        if s.chain != [] {
          a := Grant(if s.chain[0].Begin? then Refused else Succeeds, 1);
        } else if s.persists != [] {
          assert SnapshotCount(s.chain) == 0;
          a := if s.persists[0] == Scheduled then PersistStart else Deliver(true);
        } else {
          var k :| 0 <= k < |s.gate| && s.tx != Some(s.gate[k].awaited);
          a := Recheck(k);
        }
    }
  }

  /**
   * And even at rest behind a transaction that its owner has abandoned, the idle expiry
   * frees every parked call: each exec among them can be brought to run its whole script.
   */
  lemma ParkedExecRuns<D, S>(s: Scope<D, S>, k: nat, ap: (D, S) -> D)
    requires Consistent(s) && Resting(s) && k < |s.gate| && s.gate[k].call.Exec?
    ensures s.tx.Some?
    ensures var run: seq<Action<D, S>> := [Arrive(Expire(s.tx.value)), Grant(Succeeds, 1), Recheck(k), Grant(Succeeds, 1)];
            && ValidRun(s, run, ap)
            && var f := After(s, run, ap);
               && f.running == Some(Running(s.next, None, s.gate[k].call.script))
               && f.committed == s.committed && f.working == s.committed && f.tx == None && f.autocommit
               && Parked(s.gate) == Parked(f.gate) + multiset{s.gate[k].call}
  {
    var t := s.tx.value;
    assert s.gate[k] in s.gate;
    ParkedWithout(s.gate, k);
    var freed := RollBack(s, 1).(tx := None);
    ExpiryCloses(s, t, ap);
    ParkedEnters(freed, k, ap);
    hide Enabled, Next, Consistent, RollBack, Resting;
    var first: seq<Action<D, S>> := [Arrive(Expire(t)), Grant(Succeeds, 1)];
    var second: seq<Action<D, S>> := [Recheck(k), Grant(Succeeds, 1)];
    assert first + second == [Arrive(Expire(t)), Grant(Succeeds, 1), Recheck(k), Grant(Succeeds, 1)];
    RunsJoin(s, first, second, ap);
  }

  lemma {:induction false} RunsJoin<D, S>(s: Scope<D, S>, first: seq<Action<D, S>>, second: seq<Action<D, S>>, ap: (D, S) -> D)
    requires ValidRun(s, first, ap) && ValidRun(After(s, first, ap), second, ap)
    ensures ValidRun(s, first + second, ap) && After(s, first + second, ap) == After(After(s, first, ap), second, ap)
    decreases |first|
  {
    hide Enabled, Next;
    if first == [] {
      assert first + second == second;
    } else {
      assert (first + second)[1..] == first[1..] + second;
      RunsJoin(Next(s, first[0], ap), first[1..], second, ap);
    }
  }

  lemma TwoSteps<D, S>(s: Scope<D, S>, a: Action<D, S>, b: Action<D, S>, ap: (D, S) -> D)
    requires Enabled(s, a, ap) && Enabled(Next(s, a, ap), b, ap)
    ensures ValidRun(s, [a, b], ap) && After(s, [a, b], ap) == Next(Next(s, a, ap), b, ap)
  {
    hide Enabled, Next;
    assert [a, b][1..] == [b] && [b][1..] == [];
    assert ValidRun(Next(s, a, ap), [b], ap) && After(Next(s, a, ap), [b], ap) == Next(Next(s, a, ap), b, ap);
  }

  lemma ExpiryCloses<D, S>(s: Scope<D, S>, t: nat, ap: (D, S) -> D)
    requires s.running.None? && s.chain == [] && s.tx == Some(t)
    ensures var run: seq<Action<D, S>> := [Arrive(Expire(t)), Grant(Succeeds, 1)];
            ValidRun(s, run, ap) && After(s, run, ap) == RollBack(s, 1).(tx := None)
  {
    var s1 := s.(chain := [Expire(t)]);
    assert Next(s, Arrive(Expire(t)), ap) == s1;
    assert Next(s1, Grant(Succeeds, 1), ap) == RollBack(s, 1).(tx := None);
    TwoSteps(s, Arrive(Expire(t)), Grant(Succeeds, 1), ap);
  }

  lemma ParkedEnters<D, S>(s: Scope<D, S>, k: nat, ap: (D, S) -> D)
    requires s.running.None? && s.chain == [] && s.tx.None? && k < |s.gate|
    requires s.gate[k].call.Exec? && s.gate[k].call.token.None?
    ensures var run: seq<Action<D, S>> := [Recheck(k), Grant(Succeeds, 1)];
            ValidRun(s, run, ap) &&
            After(s, run, ap) == s.(gate := s.gate[..k] + s.gate[k + 1..], next := s.next + 1,
                                    running := Some(Running(s.next, None, s.gate[k].call.script)))
  {
    var s1 := s.(gate := s.gate[..k] + s.gate[k + 1..], chain := [s.gate[k].call]);
    assert Next(s, Recheck(k), ap) == s1;
    assert Next(s1, Grant(Succeeds, 1), ap) ==
           s1.(chain := [], next := s.next + 1, running := Some(Running(s.next, None, s.gate[k].call.script)));
    TwoSteps(s, Recheck(k), Grant(Succeeds, 1), ap);
  }
}
