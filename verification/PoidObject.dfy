/**
 * The opened container as the code keeps it: an object whose methods edit the
 * manifest and the file map in place, each carrying out one step of the value model.
 */
module PoidObject {
  import opened Wrappers
  import opened FileTree
  import opened Poid
  import opened PoidLaws
  import opened PoidUpdate

  class OpenPoid {
    var manifest: Manifest
    var files: Poid.Files

    ghost function View(): Container
      reads this
    {
      Container(manifest, files)
    }

    ghost predicate Valid()
      reads this
    {
      Ordered(files)
    }

    constructor (c: Container)
      requires WellFormed(c)
      ensures Valid() && View() == c
    {
      manifest, files := c.manifest, c.files;
    }

    // ---------------------------------------------------------------- integrity

    /** Where the range of a prefix starts: at the first path not before it. */
    method RangeStart(prefix: string) returns (k: nat)
      requires Valid()
      ensures k <= |files| && Under(files[k..], prefix) == Under(files, prefix)
      ensures k < |files| ==> !Less(files[k].path, prefix)
    {
      hide Ordered, Less;
      k := 0;
      while k < |files| && Less(files[k].path, prefix)
        invariant k <= |files| && Under(files[k..], prefix) == Under(files, prefix)
      {
        BeforePrefix(files[k].path, prefix);
        assert files[k..][1..] == files[k + 1..];
        k := k + 1;
      }
    }

    /** Hashes the files from the prefix on, until the first without it. */
    method DigestOf(prefix: string) returns (digest: Option<Digest>)
      requires Valid()
      ensures digest == TreeDigest(files, prefix)
    {
      hide Ordered, Less, FileHash, FileHashes;
      var k := RangeStart(prefix);
      var outer: seq<Atom> := [];
      var any := false;
      ghost var seen: Poid.Files := [];
      HashNone();
      while k < |files| && prefix <= files[k].path
        invariant k <= |files| && seen + Under(files[k..], prefix) == Under(files, prefix)
        invariant k < |files| ==> !Less(files[k].path, prefix)
        invariant outer == FileHashes(seen) && (any <==> seen != [])
      {
        assert files[k..][1..] == files[k + 1..];
        HashOneMore(seen, files[k]);
        NextNotBefore(files, k, prefix);
        outer := outer + [Inner(FileHash(files[k]))];
        any := true;
        seen := seen + [files[k]];
        k := k + 1;
      }
      if k < |files| {
        NothingBeyond(files, k, prefix);
      } else {
        assert files[k..] == [];
      }
      assert seen == Under(files, prefix);
      return if any then Some(Hex(Sha(outer))) else None;
    }

    method RefreshIntegrity()
      requires Valid()
      modifies this`manifest
      ensures manifest == Refresh(old(manifest), files)
    {
      var extra := if manifest.integrity.Some? then manifest.integrity.value.extra else "";
      var app := DigestOf(AppDir());
      var deps := DigestOf(DepsDir());
      manifest := manifest.(integrity := Some(Integrity(app, deps, extra)));
    }

    method Verify() returns (r: Result<(), PoidError>)
      requires Valid()
      ensures r.Ok? <==> Verifies(View())
    {
      var app := DigestOf(AppDir());
      if app != StoredApp(manifest) { return Err(IntegrityMismatch); }
      var deps := DigestOf(DepsDir());
      if deps != StoredDeps(manifest) { return Err(IntegrityMismatch); }
      return Ok(());
    }

    method Sign(key: nat, codec: Codec)
      requires Valid() && Faithful(codec)
      modifies this
      ensures Valid() && View() == SignedWith(old(View()), key, codec) && Sealed(View(), key, codec)
    {
      SigningSeals(View(), key, codec);
      hide Sealed, Refresh, Faithful;
      RefreshIntegrity();
      var block := Block(1, true, PublicKey(key), Signed(key, PayloadOf(manifest)));
      files := Put(files, SignaturePath(), codec.write(block));
    }

    // ------------------------------------------------------------- reader steps

    method SetInstanceId(id: nat)
      modifies this`manifest
      ensures View() == Apply(old(View()), Op.SetInstanceId(id))
    {
      manifest := WithInstance(manifest, id);
    }

    method Insert(path: string, bytes: Bytes)
      requires Valid()
      modifies this`files
      ensures Valid() && files == Put(old(files), path, bytes)
    {
      PutOrdered(files, path, bytes);
      files := Put(files, path, bytes);
    }

    method SetData(bytes: Bytes)
      requires Valid()
      modifies this`files
      ensures Valid() && View() == Apply(old(View()), Op.SetData(bytes))
    {
      Insert(DataStore(), bytes);
    }

    method SetSqlData(bytes: Bytes)
      requires Valid()
      modifies this`files
      ensures Valid() && View() == Apply(old(View()), Op.SetSqlData(bytes))
    {
      Insert(DataSql(), bytes);
    }

    method SetSlotData(slot: string, bytes: Bytes) returns (r: Result<(), PoidError>)
      requires Valid()
      modifies this`files
      ensures Valid() && View() == Apply(old(View()), Op.SetSlotData(slot, bytes))
      ensures r.Ok? <==> PlainSlot(slot)
    {
      if !PlainSlot(slot) { return Err(InvalidPath); }
      Insert(SlotStore(slot), bytes);
      return Ok(());
    }

    method SetCurrentSlotPointer(pointer: Bytes)
      requires Valid()
      modifies this`files
      ensures Valid() && View() == Apply(old(View()), SetCurrentSlot(pointer))
    {
      Insert(CurrentSlot(), pointer);
    }

    /** Replaces one data file by the other and records whether the data is guarded. */
    method Exchange(gone: string, path: string, bytes: Bytes, on: bool)
      requires Valid()
      modifies this
      ensures Valid() && View() == Guarded(old(View()).(files := Put(Remove(old(files), gone), path, bytes)), on)
    {
      hide Lookup;
      LookupRemove(files, gone, path);
      files := Remove(files, gone);
      Insert(path, bytes);
      manifest := manifest.(storage := Some(StorageOf(manifest).(guarded := Some(on))));
    }

    method SetProtectedBlob(envelope: Bytes)
      requires Valid()
      modifies this
      ensures Valid() && View() == Apply(old(View()), Protect(envelope))
    {
      Exchange(DataStore(), DataStoreEnc(), envelope, true);
    }

    method SetPlainData(bytes: Bytes)
      requires Valid()
      modifies this
      ensures Valid() && View() == Apply(old(View()), Unprotect(bytes))
    {
      Exchange(DataStoreEnc(), DataStore(), bytes, false);
    }

    method RemoveStateTrees()
      requires Valid()
      modifies this`files
      ensures Valid() && files == DropState(old(files))
    {
      RetainKeeps(files, (p: string) => !IsState(p), "");
      files := DropState(files);
    }

    method ClearData()
      requires Valid()
      modifies this
      ensures Valid() && View() == Apply(old(View()), Op.ClearData)
    {
      hide DropState;
      RemoveStateTrees();
      if manifest.instance.Some? {
        manifest := manifest.(instance := Some(manifest.instance.value.(id := None)));
      }
    }

    method ConvertStorageMode(mode: Mode)
      requires Valid()
      modifies this
      ensures Valid() && View() == Apply(old(View()), ConvertMode(mode))
    {
      hide DropState;
      var storage := StorageOf(manifest);
      var leaving := storage.mode == Embedded && mode != Embedded;
      manifest := manifest.(storage := Some(storage.(mode := mode)));
      if leaving {
        RemoveStateTrees();
      }
    }

    // ------------------------------------------------------------------- update

    /** Swaps the program and keeps the data, or refuses and changes nothing. */
    method UpdateProgram(newer: Container) returns (r: Result<bool, PoidError>)
      requires Valid() && WellFormed(newer)
      modifies this
      ensures Valid() && (r.Ok? <==> SameApp(old(View()), newer))
      ensures View() == if SameApp(old(View()), newer) then Updated(old(View()), newer) else old(View())
      ensures r.Ok? ==> (r.value <==> Widens(old(View()), newer))
    {
      hide Asks, IsState, Refresh;
      if manifest.app.None? || newer.manifest.app.None? || manifest.app.value.id != newer.manifest.app.value.id {
        return Err(UpdateMismatch);
      }
      var widened := PermissionsWidened(manifest.permissions, newer.manifest.permissions);
      var m := newer.manifest.(instance := manifest.instance,
                               storage := Placed(newer.manifest.storage, manifest.storage));
      SwappedLookup(files, newer.files);
      var program := Retain(newer.files, (p: string) => !IsState(p));
      files := Retain(files, (p: string) => IsState(p));
      ghost var kept := files;
      var k := 0;
      while k < |program|
        invariant k <= |program| && manifest == old(manifest)
        invariant files == PutAll(kept, program[..k])
      {
        assert program[..k + 1][..k] == program[..k];
        files := Put(files, program[k].path, program[k].content);
        k := k + 1;
      }
      assert program[..k] == program;
      assert files == SwappedFiles(old(files), newer.files);
      manifest := m;
      RefreshIntegrity();
      return Ok(widened);
    }
  }

  lemma HashNone()
    ensures FileHashes([]) == []
  {
  }

  lemma HashOneMore(seen: Poid.Files, f: File<Bytes>)
    ensures FileHashes(seen + [f]) == FileHashes(seen) + [Inner(FileHash(f))]
  {
    assert (seen + [f])[..|seen|] == seen;
  }

  lemma NextNotBefore(t: Poid.Files, k: nat, prefix: string)
    requires Ordered(t) && k < |t| && !Less(t[k].path, prefix)
    ensures k + 1 < |t| ==> !Less(t[k + 1].path, prefix)
  {
    if k + 1 < |t| && Less(t[k + 1].path, prefix) {
      LessTransitive(t[k].path, t[k + 1].path, prefix);
    }
  }
}
