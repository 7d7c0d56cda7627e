/**
 * Applying migrations on one connection: the loop itself, with every call of it
 * free to fail.
 */
module MigrationLoop {
  import opened Wrappers
  import opened Migrations
  import opened MigrationRuns

  /** Which call of a migration's transaction fails, if any. */
  datatype Fault = NoFault | BeginFails | ScriptFails | StampFails | CommitFails

  datatype MigrateError = NewerData(found: int) | NotBegun | RolledBack(version: nat)

  /** A database connection nobody else uses meanwhile. */
  class Connection<X> {
    var committed: Db<X>
    var working: Db<X>
    var open: bool

    ghost predicate AtRest()
      reads this
    {
      !open && working == committed
    }

    constructor (db: Db<X>)
      ensures AtRest() && committed == db
    {
      committed, working, open := db, db, false;
    }

    method Begin(ok: bool) returns (began: bool)
      requires AtRest()
      modifies this
      ensures began == ok && open == ok && working == committed == old(committed)
    {
      open := ok;
      return ok;
    }

    method Exec(op: Op, exec: (X, string) -> X, ok: bool) returns (done: bool)
      requires open
      modifies this`working
      ensures done == ok
      ensures ok ==> working == ApplyOp(old(working), op, exec)
    {
      if ok {
        working := ApplyOp(working, op, exec);
      }
      return ok;
    }

    method Commit(ok: bool) returns (done: bool)
      requires open
      modifies this
      ensures done == ok && working == old(working) && open == !ok
      ensures committed == if ok then old(working) else old(committed)
    {
      if ok {
        committed, open := working, false;
      }
      return ok;
    }

    method Rollback()
      modifies this
      ensures AtRest() && committed == old(committed)
    {
      working, open := committed, false;
    }
  }

  function Versions(ms: seq<Migration>): (vs: seq<nat>)
    ensures |vs| == |ms| && forall k :: 0 <= k < |ms| ==> vs[k] == ms[k].version
  {
    seq(|ms|, k requires 0 <= k < |ms| => ms[k].version)
  }

  /** The database after exactly these migrations, each with its version stamp. */
  function Brought<X>(db: Db<X>, ms: seq<Migration>, exec: (X, string) -> X): Db<X> {
    Db(Upgrade(db.schema, ms, exec), if ms == [] then db.version else ms[|ms| - 1].version)
  }

  /** The migrations before the first that fails. */
  ghost predicate FirstFault(faults: nat -> Fault, k: nat) {
    faults(k) != NoFault && forall j: nat :: j < k ==> faults(j) == NoFault
  }

  /** One migration, script and stamp together or not at all. */
  method ApplyOne<X>(db: Connection<X>, m: Migration, exec: (X, string) -> X, fault: Fault) returns (ok: bool)
    requires db.AtRest()
    modifies db
    ensures db.AtRest() && (ok <==> fault == NoFault)
    ensures db.committed == if ok then Db(exec(old(db.committed).schema, m.sql), m.version) else old(db.committed)
  {
    var began := db.Begin(fault != BeginFails);
    if !began { return false; }
    var done := db.Exec(Script(m.sql), exec, fault != ScriptFails);
    if done {
      done := db.Exec(SetVersion(m.version), exec, fault != StampFails);
      if done {
        done := db.Commit(fault != CommitFails);
        if done { return true; }
      }
    }
    db.Rollback();
    return false;
  }

  lemma NoneYet<X>(db: Db<X>, todo: seq<Migration>, exec: (X, string) -> X)
    ensures Versions(todo[..0]) == [] && Brought(db, todo[..0], exec) == db
  {
  }

  lemma OneMore<X>(db: Db<X>, todo: seq<Migration>, k: nat, exec: (X, string) -> X)
    requires k < |todo|
    ensures Versions(todo[..k + 1]) == Versions(todo[..k]) + [todo[k].version]
    ensures Brought(db, todo[..k + 1], exec) ==
            Db(exec(Brought(db, todo[..k], exec).schema, todo[k].sql), todo[k].version)
  {
    assert todo[..k + 1][..k] == todo[..k];
  }

  /**
   * Brings the database from its recorded version up to `target`, whatever the order
   * of `migrations`, and stops at the first migration that fails, with every earlier
   * one in place. Newer data is refused and left alone.
   */
  method ApplyMigrations<X>(db: Connection<X>, target: int, migrations: seq<Migration>, exec: (X, string) -> X,
                            faults: nat -> Fault) returns (r: Result<seq<nat>, MigrateError>)
    requires db.AtRest()
    modifies db
    ensures db.AtRest()
    ensures var start := old(db.committed);
            var todo := Sorted(Pending(migrations, start.version, target));
            match r
            case Ok(applied) =>
              start.version <= target && applied == Versions(todo) && db.committed == Brought(start, todo, exec)
            case Err(NewerData(found)) =>
              target < start.version && found == start.version && db.committed == start
            case Err(error) =>
              exists k: nat :: k < |todo| && FirstFault(faults, k) && start.version <= target &&
                               error == (if faults(k) == BeginFails then NotBegun else RolledBack(todo[k].version)) &&
                               db.committed == Brought(start, todo[..k], exec)
  {
    hide Pending, Sorted, Brought, Versions;
    var current := db.committed.version;
    if target < current {
      return Err(NewerData(current));
    }
    var todo := Sorted(Pending(migrations, current, target));
    var applied: seq<nat> := [];
    NoneYet(db.committed, todo, exec);
    var k := 0;
    while k < |todo|
      invariant k <= |todo| && applied == Versions(todo[..k])
      invariant forall j: nat :: j < k ==> faults(j) == NoFault
      invariant db.AtRest() && db.committed == Brought(old(db.committed), todo[..k], exec)
    {
      var ok := ApplyOne(db, todo[k], exec, faults(k));
      if !ok {
        assert FirstFault(faults, k);
        return Err(if faults(k) == BeginFails then NotBegun else RolledBack(todo[k].version));
      }
      OneMore(old(db.committed), todo, k, exec);
      applied := applied + [todo[k].version];
      k := k + 1;
    }
    assert todo[..|todo|] == todo;
    return Ok(applied);
  }

  /** Migrating in two hops or in one gives the same database. */
  lemma HopsCompose<X>(db: Db<X>, ms: seq<Migration>, middle: int, target: int, exec: (X, string) -> X)
    requires Ascending(ms) && db.version <= middle <= target
    ensures var hop := Brought(db, Pending(ms, db.version, middle), exec);
            && hop.version <= middle
            && Brought(hop, Pending(ms, hop.version, target), exec) == Brought(db, Pending(ms, db.version, target), exec)
  {
    hide Pending, Ascending, Upgrade;
    var first := Pending(ms, db.version, middle);
    var reached := if first == [] then db.version else first[|first| - 1].version;
    if first != [] {
      assert first[|first| - 1] in first;
      PendingUpToLast(ms, db.version, middle);
    } else {
      NothingPending(ms, db.version, db.version);
    }
    assert Brought(db, first, exec).version == reached;
    hide Brought;
    PendingSplits(ms, db.version, reached, target);
    BroughtSplits(db, first, Pending(ms, reached, target), exec);
  }

  lemma BroughtSplits<X>(db: Db<X>, a: seq<Migration>, b: seq<Migration>, exec: (X, string) -> X)
    ensures Brought(Brought(db, a, exec), b, exec) == Brought(db, a + b, exec)
  {
    hide Upgrade;
    UpgradeSplits(db.schema, a, b, exec);
  }

  lemma {:induction false} PendingUpToLast(ms: seq<Migration>, current: int, target: int)
    requires Ascending(ms) && Pending(ms, current, target) != []
    ensures var p := Pending(ms, current, target); Pending(ms, current, p[|p| - 1].version) == p
  {
    var p := Pending(ms, current, target);
    var last := p[|p| - 1];
    assert last in p;
    PendingSplits(ms, current, last.version, target);
    PendingAscends(ms, current, target);
    var beyond := Pending(ms, last.version, target);
    assert p == Pending(ms, current, last.version) + beyond;
  }

  lemma {:induction false} UpgradeSplits<X>(schema: X, a: seq<Migration>, b: seq<Migration>, exec: (X, string) -> X)
    ensures Upgrade(schema, a + b, exec) == Upgrade(Upgrade(schema, a, exec), b, exec)
    decreases |b|
  {
    if b == [] {
      assert a + b == a;
    } else {
      assert (a + b)[..|a + b| - 1] == a + b[..|b| - 1];
      UpgradeSplits(schema, a, b[..|b| - 1], exec);
    }
  }
}
