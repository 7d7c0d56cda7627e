/**
 * Copy detection: opens classified against an index of known paths, the user's
 * fork / move / share decision, and a filesystem where files are copied, renamed
 * and deleted behind the application's back.
 */
module CopyDetection {
  import opened Wrappers

  type Path = string
  type Id = nat

  // -------------------------------------------------------------------- index

  type Index = map<Id, seq<Path>>

  datatype Disposition = Register | Open | Moved | Copy(existing: Path)

  /** The filesystem as the index sees it: which paths exist. */
  function Classify(index: Index, id: Id, path: Path, files: set<Path>): Disposition {
    if id !in index then Register
    else if path in index[id] then Open
    else if FirstExisting(index[id], files).Some? then Copy(FirstExisting(index[id], files).value)
    else Moved
  }

  function FirstExisting(paths: seq<Path>, files: set<Path>): (r: Option<Path>)
    ensures r.Some? ==> r.value in paths && r.value in files
    ensures r.None? <==> forall p :: p in paths ==> p !in files
  {
    if paths == [] then None
    else if paths[0] in files then Some(paths[0])
    else FirstExisting(paths[1..], files)
  }

  function Registered(index: Index, id: Id, path: Path): Index {
    index[id := [path]]
  }

  function MoveRecorded(index: Index, id: Id, path: Path): Index {
    if id in index then index[id := [path]] else index
  }

  function ShareAdded(index: Index, id: Id, path: Path): Index {
    if id in index && path !in index[id] then index[id := index[id] + [path]] else index
  }

  /** The index the reader keeps, edited in place. */
  class InstanceIndex {
    var entries: Index

    constructor ()
      ensures entries == map[]
    {
      entries := map[];
    }

    method Resolve(id: Id, path: Path, files: set<Path>) returns (d: Disposition)
      ensures d == Classify(entries, id, path, files)
    {
      if id !in entries { return Disposition.Register; }
      var paths := entries[id];
      if path in paths { return Open; }
      var k := 0;
      while k < |paths|
        invariant k <= |paths|
        invariant FirstExisting(paths[k..], files) == FirstExisting(paths, files)
      {
        assert paths[k..][1..] == paths[k + 1..];
        if paths[k] in files { return Copy(paths[k]); }
        k := k + 1;
      }
      return Moved;
    }

    method Register(id: Id, path: Path)
      modifies this
      ensures entries == Registered(old(entries), id, path)
    {
      entries := entries[id := [path]];
    }

    method RecordMove(id: Id, path: Path)
      modifies this
      ensures entries == MoveRecorded(old(entries), id, path)
    {
      if id in entries {
        entries := entries[id := [path]];
      }
    }

    method AddSharedPath(id: Id, path: Path)
      modifies this
      ensures entries == ShareAdded(old(entries), id, path)
    {
      if id in entries && path !in entries[id] {
        entries := entries[id := entries[id] + [path]];
      }
    }
  }

  // -------------------------------------------------------------------- world

  datatype Doc = Doc(id: Option<Id>, vaulted: bool)

  datatype Window = Window(path: Path, conflict: bool, bound: Option<Id>)

  /** `next` is a bound on every identity seen, standing for randomly drawn new ones. */
  datatype World = World(files: map<Path, Doc>, index: Index, windows: map<nat, Window>, next: Id)

  datatype Choice = Fork | Move | Share

  /**
   * `written` says whether saving the file succeeds, `saved` whether saving the index
   * does; an index that cannot be saved still keeps the change in memory.
   */
  datatype Step =
    | OpenFile(win: nat, path: Path, written: bool, saved: bool)
    | Choose(win: nat, choice: Choice, written: bool, saved: bool)
    | Close(win: nat)
    | CopyFile(from: Path, to: Path)
    | RenameFile(from: Path, to: Path)
    | DeleteFile(path: Path)
    | Arrive(path: Path, doc: Doc)

  const Empty: World := World(map[], map[], map[], 0)

  /** What an open decides about a vaulted file that has an identity; a failing index reads as Open. */
  function DispositionOf(w: World, id: Id, path: Path, saved: bool): Disposition {
    if saved then Classify(w.index, id, path, w.files.Keys) else Open
  }

  function OpenedIndex(w: World, path: Path, saved: bool): Index
    requires path in w.files && w.files[path].id.Some?
  {
    var id := w.files[path].id.value;
    if !w.files[path].vaulted then w.index
    else match DispositionOf(w, id, path, saved)
      case Register => Registered(w.index, id, path)
      case Moved => MoveRecorded(w.index, id, path)
      case Open => w.index
      case Copy(_) => w.index
  }

  predicate Conflicts(w: World, path: Path, saved: bool)
    requires path in w.files
  {
    var doc := w.files[path];
    doc.vaulted && doc.id.Some? && DispositionOf(w, doc.id.value, path, saved).Copy?
  }

  /** Open a file in a new window: first opens are given an identity, copies are left unbound. */
  function AfterOpen(w: World, win: nat, path: Path, written: bool, saved: bool): World
    requires path in w.files
  {
    var doc := w.files[path];
    match doc.id
    case None =>
      var id := w.next;
      w.(files := if written then w.files[path := doc.(id := Some(id))] else w.files,
         index := if written && doc.vaulted then Registered(w.index, id, path) else w.index,
         windows := w.windows[win := Window(path, false, Some(id))],
         next := id + 1)
    case Some(id) =>
      var conflict := Conflicts(w, path, saved);
      w.(index := OpenedIndex(w, path, saved),
         windows := w.windows[win := Window(path, conflict, if conflict then None else Some(id))])
  }

  function BindWindow(w: World, win: nat, path: Path, id: Id, saved: bool): World {
    if saved then w.(windows := w.windows[win := Window(path, false, Some(id))]) else w
  }

  /** The user's decision, applied to whatever the file holds now. */
  function AfterChoice(w: World, win: nat, choice: Choice, written: bool, saved: bool): World
    requires win in w.windows
  {
    var path := w.windows[win].path;
    if path !in w.files || w.files[path].id.None? then w
    else
      var id := w.files[path].id.value;
      match choice
      case Fork =>
        if !written then w.(next := w.next + 1)
        else BindWindow(w.(files := w.files[path := w.files[path].(id := Some(w.next))],
                           index := Registered(w.index, w.next, path), next := w.next + 1),
                        win, path, w.next, saved)
      case Move => BindWindow(w.(index := MoveRecorded(w.index, id, path)), win, path, id, saved)
      case Share => BindWindow(w.(index := ShareAdded(w.index, id, path)), win, path, id, saved)
  }

  predicate Enabled(w: World, step: Step) {
    match step
    case OpenFile(win, path, _, _) => win !in w.windows && path in w.files
    case Choose(win, _, _, _) => win in w.windows
    case Close(win) => win in w.windows
    case CopyFile(from, to) => from in w.files
    case RenameFile(from, to) => from in w.files
    case DeleteFile(path) => path in w.files
    case Arrive(_, _) => true
  }

  function Next(w: World, step: Step): World
    requires Enabled(w, step)
  {
    match step
    case OpenFile(win, path, written, saved) => AfterOpen(w, win, path, written, saved)
    case Choose(win, choice, written, saved) => AfterChoice(w, win, choice, written, saved)
    case Close(win) => w.(windows := w.windows - {win})
    case CopyFile(from, to) => w.(files := w.files[to := w.files[from]])
    case RenameFile(from, to) => w.(files := (w.files - {from})[to := w.files[from]])
    case DeleteFile(path) => w.(files := w.files - {path})
    case Arrive(path, doc) =>
      w.(files := w.files[path := doc],
         next := if doc.id.Some? && doc.id.value >= w.next then doc.id.value + 1 else w.next)
  }

  predicate ValidRun(run: seq<Step>)
    decreases |run|, 0
  {
    run == [] || (ValidRun(run[..|run| - 1]) && Enabled(After(run[..|run| - 1]), run[|run| - 1]))
  }

  function After(run: seq<Step>): World
    requires ValidRun(run)
    decreases |run|, 1
  {
    if run == [] then Empty else Next(After(run[..|run| - 1]), run[|run| - 1])
  }

  // ---------------------------------------------------------------- invariant

  ghost predicate Fresh(w: World) {
    && (forall id :: id in w.index ==> id < w.next && w.index[id] != [])
    && (forall p :: p in w.files && w.files[p].id.Some? ==> w.files[p].id.value < w.next)
  }

  /** No window is bound while its conflict is unresolved. */
  ghost predicate BoundOnlyResolved(w: World) {
    forall l :: l in w.windows && w.windows[l].conflict ==> w.windows[l].bound.None?
  }

  lemma StepFresh(w: World, step: Step)
    requires Fresh(w) && Enabled(w, step)
    ensures Fresh(Next(w, step)) && w.next <= Next(w, step).next
  {
  }

  lemma StepBinds(w: World, step: Step)
    requires BoundOnlyResolved(w) && Enabled(w, step)
    ensures BoundOnlyResolved(Next(w, step))
  {
  }

  /** Another file, or one from elsewhere, takes this path. */
  predicate Overwrites(step: Step, path: Path) {
    match step
    case CopyFile(_, to) => to == path
    case RenameFile(_, to) => to == path
    case Arrive(to, _) => to == path
    case _ => false
  }

  /** The reader writes a new identity into the file: its first open, or the user's choice to fork it. */
  predicate Adopts(w: World, step: Step, path: Path)
    requires Enabled(w, step) && path in w.files
  {
    match step
    case OpenFile(_, at, written, _) => at == path && written && w.files[path].id.None?
    case Choose(win, Fork, written, _) => w.windows[win].path == path && written && w.files[path].id.Some?
    case _ => false
  }

  /**
   * A file keeps its identity through everything but its first open and a fork, and what
   * it is then given is an identity that no file has, nor any entry of the index.
   */
  lemma IdentitiesStay(w: World, step: Step, path: Path)
    requires Fresh(w) && Enabled(w, step) && path in w.files && !Overwrites(step, path)
    ensures path !in Next(w, step).files <==>
            (step.DeleteFile? && step.path == path) || (step.RenameFile? && step.from == path)
    ensures path in Next(w, step).files ==>
              var now, was := Next(w, step).files[path], w.files[path];
              && now.vaulted == was.vaulted
              && (now.id != was.id <==> Adopts(w, step, path))
              && (now.id != was.id ==> now.id.Some? && now.id.value !in w.index && forall p :: p in w.files ==> w.files[p].id != now.id)
  {
  }

  /** Opening binds the new window to the file's identity, old or new, unless that identity is in conflict. */
  lemma OpeningBinds(w: World, win: nat, path: Path, written: bool, saved: bool)
    requires Fresh(w) && Enabled(w, OpenFile(win, path, written, saved))
    ensures var w' := Next(w, OpenFile(win, path, written, saved));
            && w'.windows == w.windows[win := w'.windows[win]] && w'.windows[win].path == path
            && w'.windows[win].conflict == Conflicts(w, path, saved)
            && (w'.windows[win].bound.None? <==> Conflicts(w, path, saved))
            && (written && !Conflicts(w, path, saved) ==> w'.windows[win].bound == w'.files[path].id)
            && (w.files[path].id.None? && w.files[path].vaulted ==>
                  (written <==> w'.windows[win].bound.value in w'.index) &&
                  (written ==> w'.index == w.index[w'.windows[win].bound.value := [path]]))
  {
  }

  /** The identity whose registration this step replaces by a single path, if any. */
  function Resets(w: World, step: Step): Option<(Id, Path)>
    requires Enabled(w, step)
  {
    match step
    case OpenFile(_, path, written, saved) =>
      var doc := w.files[path];
      if doc.id.None? then (if written && doc.vaulted then Some((w.next, path)) else None)
      else if doc.vaulted && DispositionOf(w, doc.id.value, path, saved) in {Register, Moved}
      then Some((doc.id.value, path)) else None
    case Choose(win, choice, written, _) =>
      var path := w.windows[win].path;
      if path !in w.files || w.files[path].id.None? then None
      else if choice == Fork then (if written then Some((w.next, path)) else None)
      else if choice == Move && w.files[path].id.value in w.index then Some((w.files[path].id.value, path))
      else None
    case _ => None
  }

  function Shares(w: World, step: Step): Option<Id>
    requires Enabled(w, step)
  {
    match step
    case Choose(win, Share, _, _) =>
      var path := w.windows[win].path;
      if path in w.files && w.files[path].id.Some? then w.files[path].id else None
    case _ => None
  }

  /** Identities for which the user chose Share since they were last registered or moved. */
  function SharedSince(run: seq<Step>): set<Id>
    requires ValidRun(run)
    decreases |run|
  {
    if run == [] then {}
    else
      var before, w, step := SharedSince(run[..|run| - 1]), After(run[..|run| - 1]), run[|run| - 1];
      if Resets(w, step).Some? then before - {Resets(w, step).value.0}
      else if Shares(w, step).Some? then before + {Shares(w, step).value}
      else before
  }

  /** How one step changes the index: at most one identity, reset to one path or extended by a share. */
  lemma StepIndex(w: World, step: Step)
    requires Fresh(w) && Enabled(w, step)
    ensures var index := Next(w, step).index;
            match Resets(w, step)
            case Some((id, path)) => index == w.index[id := [path]]
            case None =>
              || index == w.index
              || (Shares(w, step).Some? && Shares(w, step).value in w.index &&
                  exists path :: index == ShareAdded(w.index, Shares(w, step).value, path))
  {
    if Shares(w, step).Some? && Shares(w, step).value in w.index {
      assert Next(w, step).index == ShareAdded(w.index, Shares(w, step).value, w.windows[step.win].path);
    }
  }

  ghost predicate OnlySharedAreMany(index: Index, shared: set<Id>) {
    forall id :: id in index && |index[id]| >= 2 ==> id in shared
  }

  /** Over every run, an identity has several paths only because the user chose Share. */
  lemma {:induction false} SeveralPathsMeanShared(run: seq<Step>)
    requires ValidRun(run)
    ensures Fresh(After(run)) && BoundOnlyResolved(After(run)) && OnlySharedAreMany(After(run).index, SharedSince(run))
    decreases |run|
  {
    hide Next, Enabled, Resets, Shares, Fresh, BoundOnlyResolved;
    if run == [] {
      EmptyWorld();
    } else {
      var before, step := run[..|run| - 1], run[|run| - 1];
      SeveralPathsMeanShared(before);
      StepFresh(After(before), step);
      StepBinds(After(before), step);
      StepIndex(After(before), step);
    }
  }

  lemma EmptyWorld()
    ensures Fresh(Empty) && BoundOnlyResolved(Empty)
  {
  }

  // ------------------------------------------------------------- main results

  predicate HoldsInstance(w: World, path: Path, id: Id) {
    path in w.files && w.files[path] == Doc(Some(id), true)
  }

  /** Opening `path` in a new window with a working index does not prompt. */
  predicate OpensQuietly(w: World, path: Path)
    requires path in w.files
  {
    !Conflicts(w, path, true)
  }

  /** After a quiet open the opened path is registered. */
  lemma QuietOpenRegisters(w: World, win: nat, path: Path, id: Id)
    requires HoldsInstance(w, path, id) && win !in w.windows && OpensQuietly(w, path)
    ensures var w' := Next(w, OpenFile(win, path, true, true));
            && id in w'.index && path in w'.index[id] && w'.files == w.files
            && w'.windows[win] == Window(path, false, Some(id))
  {
  }

  /**
   * Two files that exist side by side with one identity never open one after the other
   * without a prompt, unless the user decided that they share their memory: both are
   * registered, and Share was chosen since the identity was last registered or moved.
   */
  lemma QuietCopiesAreShared(run: seq<Step>, p: Path, q: Path, id: Id, win: nat)
    requires ValidRun(run) && p != q && win !in After(run).windows
    requires HoldsInstance(After(run), p, id) && HoldsInstance(After(run), q, id)
    requires OpensQuietly(After(run), p)
    requires OpensQuietly(Next(After(run), OpenFile(win, p, true, true)), q)
    ensures var run' := run + [OpenFile(win, p, true, true)];
            && ValidRun(run')
            && id in After(run').index && p in After(run').index[id] && q in After(run').index[id]
            && id in SharedSince(run')
  {
    var run' := run + [OpenFile(win, p, true, true)];
    assert run'[..|run|] == run;
    var w' := After(run');
    QuietOpenRegisters(After(run), win, p, id);
    SeveralPathsMeanShared(run');
    hide Fresh, BoundOnlyResolved, Next, Enabled, SharedSince;
    assert Classify(w'.index, id, q, w'.files.Keys) == Open;
    TwoPaths(w'.index[id], p, q);
  }

  lemma TwoPaths(paths: seq<Path>, p: Path, q: Path)
    requires p in paths && q in paths && p != q
    ensures |paths| >= 2
  {
  }

  /**
   * A genuine copy: at some point of some run the file's identity is registered, but
   * under other paths, one of which still exists. Opening it prompts, and leaves the
   * window unbound, exactly if the index can be saved; otherwise the failure reads as an
   * ordinary open and the copy is bound to the original's identity.
   */
  lemma CopyPromptsIfSaved(run: seq<Step>, win: nat, path: Path, id: Id, written: bool, saved: bool)
    requires ValidRun(run) && HoldsInstance(After(run), path, id) && win !in After(run).windows
    requires Classify(After(run).index, id, path, After(run).files.Keys).Copy?
    ensures var run' := run + [OpenFile(win, path, written, saved)];
            && ValidRun(run')
            && After(run').windows[win] == Window(path, saved, if saved then None else Some(id))
            && After(run').index == After(run).index
            && exists other :: other != path && other in After(run).files && other in After(run).index[id]
  {
    OneStep(run, OpenFile(win, path, written, saved));
    var other := Classify(After(run).index, id, path, After(run).files.Keys).existing;
    assert other != path && other in After(run).files && other in After(run).index[id];
  }

  /** A file with an identity arrives, is opened, and is copied behind the application's back. */
  function CopyMade(p: Path, q: Path): seq<Step> {
    [Arrive(p, Doc(Some(0), true)), OpenFile(0, p, true, true), CopyFile(p, q)]
  }

  /** Such a run makes a genuine copy, so the case above does arise. */
  lemma CopiesArise(p: Path, q: Path)
    requires p != q
    ensures ValidRun(CopyMade(p, q)) && HoldsInstance(After(CopyMade(p, q)), q, 0)
    ensures var w := After(CopyMade(p, q)); 1 !in w.windows && Classify(w.index, 0, q, w.files.Keys) == Copy(p)
  {
    var doc := Doc(Some(0), true);
    var w1 := World(map[p := doc], map[], map[], 1);
    var w2 := World(map[p := doc], map[0 := [p]], map[0 := Window(p, false, Some(0))], 1);
    var w3 := w2.(files := map[p := doc, q := doc]);
    assert Next(Empty, Arrive(p, doc)) == w1 && Next(w1, OpenFile(0, p, true, true)) == w2;
    assert Next(w2, CopyFile(p, q)) == w3;
    assert FirstExisting([p], w3.files.Keys) == Some(p);
    hide Next;
    assert [] + [Arrive(p, doc)] == [Arrive(p, doc)];
    OneStep([], Arrive(p, doc));
    OneStep([Arrive(p, doc)], OpenFile(0, p, true, true));
    var two := [Arrive(p, doc)] + [OpenFile(0, p, true, true)];
    OneStep(two, CopyFile(p, q));
    assert two + [CopyFile(p, q)] == CopyMade(p, q);
  }

  lemma OneStep(run: seq<Step>, step: Step)
    requires ValidRun(run) && Enabled(After(run), step)
    ensures ValidRun(run + [step]) && After(run + [step]) == Next(After(run), step)
  {
    assert (run + [step])[..|run|] == run;
  }

  /** Every choice leaves the window bound to an identity under which its path is registered. */
  lemma ChoiceSettles(w: World, win: nat, choice: Choice)
    requires Fresh(w) && win in w.windows
    requires w.windows[win].path in w.files && w.files[w.windows[win].path].id.Some?
    requires w.files[w.windows[win].path].id.value in w.index
    ensures var w', path := Next(w, Choose(win, choice, true, true)), w.windows[win].path;
            && w'.windows[win].bound.Some? && !w'.windows[win].conflict && w'.windows[win].path == path
            && var id := w'.windows[win].bound.value;
               && w'.files[path].id == Some(id) && id in w'.index && path in w'.index[id]
               && (choice == Fork ==> id !in w.index && forall p :: p in w.files ==> w.files[p].id != Some(id))
  {
  }

  /** This step takes the identity away from the path: another path is recorded as its move. */
  predicate Displaces(w: World, step: Step, id: Id, path: Path)
    requires Enabled(w, step)
  {
    Resets(w, step).Some? && Resets(w, step).value.0 == id && Resets(w, step).value.1 != path
  }

  lemma StepStays(w: World, step: Step, id: Id, path: Path)
    requires Fresh(w) && Enabled(w, step) && id in w.index && path in w.index[id] && !Displaces(w, step, id, path)
    ensures id in Next(w, step).index && path in Next(w, step).index[id]
  {
    StepIndex(w, step);
    hide Next, Enabled, Resets, Shares;
  }

  /** Another file with this identity is taken for its new place: by the user's choice, or silently as a move. */
  predicate MovesAway(w: World, step: Step, id: Id, path: Path)
    requires Enabled(w, step)
  {
    match step
    case Choose(win, Move, _, _) =>
      var other := w.windows[win].path;
      other != path && other in w.files && w.files[other].id == Some(id)
    case OpenFile(_, other, _, saved) =>
      other != path && HoldsInstance(w, other, id) && saved && Classify(w.index, id, other, w.files.Keys) == Moved
    case _ => false
  }

  /** An identity is never re-registered from scratch while it is known: exactly a move displaces a path. */
  lemma OnlyMovesDisplace(w: World, step: Step, id: Id, path: Path)
    requires Fresh(w) && Enabled(w, step) && id in w.index
    ensures Displaces(w, step, id, path) <==> MovesAway(w, step, id, path)
  {
  }

  ghost predicate NeverMovedAway(run: seq<Step>, from: nat, id: Id, path: Path)
    requires ValidRun(run)
  {
    forall k :: from <= k < |run| ==> ValidRun(run[..k]) && Enabled(After(run[..k]), run[k]) &&
                                      !MovesAway(After(run[..k]), run[k], id, path)
  }

  /** Once registered, a path reopens without a prompt for as long as no other file is moved into its place. */
  lemma {:induction false} RegisteredReopens(run: seq<Step>, from: nat, id: Id, path: Path)
    requires ValidRun(run) && from <= |run| && ValidRun(run[..from])
    requires id in After(run[..from]).index && path in After(run[..from]).index[id]
    requires NeverMovedAway(run, from, id, path)
    ensures id in After(run).index && path in After(run).index[id]
    ensures Classify(After(run).index, id, path, After(run).files.Keys) == Open
    decreases |run|
  {
    hide Next, Enabled, Displaces, MovesAway, Fresh, BoundOnlyResolved, OnlySharedAreMany;
    if from == |run| {
      assert run[..from] == run;
    } else {
      var last := |run| - 1;
      assert run[..last][..from] == run[..from];
      assert NeverMovedAway(run[..last], from, id, path) by {
        forall k | from <= k < last ensures run[..last][..k] == run[..k] {
        }
      }
      RegisteredReopens(run[..last], from, id, path);
      SeveralPathsMeanShared(run[..last]);
      OnlyMovesDisplace(After(run[..last]), run[last], id, path);
      StepStays(After(run[..last]), run[last], id, path);
    }
  }

  /** The decision in a window whose file has a registered identity. */
  predicate Decides(w: World, win: nat) {
    win in w.windows && w.windows[win].path in w.files && w.files[w.windows[win].path].id.Some? &&
    w.files[w.windows[win].path].id.value in w.index
  }

  /**
   * Whatever the user decides, the window is bound, and its path reopens under the bound
   * identity without a prompt from then on, until another file is moved into its place.
   */
  lemma DecisionLasts(run: seq<Step>, from: nat, win: nat, choice: Choice)
    requires ValidRun(run) && from < |run| && run[from] == Choose(win, choice, true, true)
    requires ValidRun(run[..from]) && Decides(After(run[..from]), win) && ValidRun(run[..from + 1])
    ensures var w := After(run[..from + 1]); win in w.windows && w.windows[win].bound.Some? && !w.windows[win].conflict
    ensures var w := After(run[..from + 1]);
            var id, path := w.windows[win].bound.value, w.windows[win].path;
            NeverMovedAway(run, from + 1, id, path) ==>
              Classify(After(run).index, id, path, After(run).files.Keys) == Open
  {
    SeveralPathsMeanShared(run[..from]);
    ChoiceSettles(After(run[..from]), win, choice);
    assert run[..from + 1] == run[..from] + [run[from]];
    OneStep(run[..from], run[from]);
    var w := After(run[..from + 1]);
    var id, path := w.windows[win].bound.value, w.windows[win].path;
    hide Next, Enabled, Fresh, BoundOnlyResolved, OnlySharedAreMany, Classify, MovesAway;
    if NeverMovedAway(run, from + 1, id, path) {
      RegisteredReopens(run, from + 1, id, path);
    }
  }
}
