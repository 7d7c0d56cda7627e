/**
 * Opening files and settling copy conflicts as the desktop application does it, on
 * an index, a window table and files that are edited in place.
 */
module CopyReader {
  import opened Wrappers
  import opened CopyDetection

  class Reader {
    const index: InstanceIndex
    var files: map<Path, Doc>
    var windows: map<nat, Window>
    var next: Id

    ghost function View(): World
      reads this, index
    {
      World(files, index.entries, windows, next)
    }

    constructor ()
      ensures View() == Empty && fresh(index)
    {
      index := new InstanceIndex();
      files, windows, next := map[], map[], 0;
    }

    /** Reads the file, runs the identity algorithm, and says what the window may bind to. */
    method Load(path: Path, written: bool, saved: bool) returns (conflict: bool, bind: Option<Id>)
      requires path in files
      modifies this`files, this`next, index
      ensures windows == old(windows)
      ensures forall win :: View().(windows := old(windows)[win := Window(path, conflict, bind)]) ==
                            AfterOpen(old(View()), win, path, written, saved)
    {
      var doc := files[path];
      match doc.id
      case None =>
        var id := next;
        next := next + 1;
        if written {
          files := files[path := doc.(id := Some(id))];
          if doc.vaulted {
            index.Register(id, path);
          }
        }
        return false, Some(id);
      case Some(id) =>
        conflict := false;
        if doc.vaulted {
          var d := Disposition.Open;
          if saved {
            d := index.Resolve(id, path, files.Keys);
          }
          match d
          case Register => index.Register(id, path);
          case Moved => index.RecordMove(id, path);
          case Copy(_) => conflict := true;
          case Open =>
        }
        return conflict, if conflict then None else Some(id);
    }

    /** A new window for a file; it stays unbound while a conflict is open. */
    method OpenReader(win: nat, path: Path, written: bool, saved: bool)
      requires win !in windows && path in files
      modifies this, index
      ensures View() == Next(old(View()), OpenFile(win, path, written, saved))
    {
      hide AfterOpen;
      var conflict, bind := Load(path, written, saved);
      windows := windows[win := Window(path, conflict, bind)];
    }

    /** Applies the user's choice and re-binds the window, or fails without binding it. */
    method ResolveCopyConflict(win: nat, choice: Choice, written: bool, saved: bool) returns (ok: bool)
      requires win in windows
      modifies this, index
      ensures View() == Next(old(View()), Choose(win, choice, written, saved))
      ensures ok ==> win in windows && windows[win].bound.Some? && !windows[win].conflict
      ensures !ok ==> windows == old(windows)
    {
      var path := windows[win].path;
      if path !in files || files[path].id.None? { return false; }
      var id := files[path].id.value;
      match choice {
        case Fork =>
          id := next;
          next := next + 1;
          if !written { return false; }
          files := files[path := files[path].(id := Some(id))];
          index.Register(id, path);
        case Move => index.RecordMove(id, path);
        case Share => index.AddSharedPath(id, path);
      }
      if !saved { return false; }
      windows := windows[win := Window(path, false, Some(id))];
      return true;
    }
  }
}
