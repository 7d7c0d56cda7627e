/**
 * What digests and signatures promise: the digest of a tree identifies it, and
 * nothing a reader does to a signed container breaks its seal.
 */
module PoidLaws {
  import opened Wrappers
  import opened FileTree
  import opened Poid
  import opened Texts
  import ContainerPath

  // ------------------------------------------------- a digest identifies its tree

  predicate NulFree(path: string) {
    '\0' !in path
  }

  ghost predicate NulFreeTree(t: Files) {
    forall k :: 0 <= k < |t| ==> NulFree(t[k].path)
  }

  /** Where the path of a hashed file ends: at the first zero. */
  function FirstZero(atoms: seq<Atom>): nat {
    if atoms == [] || atoms[0] == Octet(0) then 0 else 1 + FirstZero(atoms[1..])
  }

  lemma {:induction false} PathEnds(path: string, rest: seq<Atom>)
    requires NulFree(path)
    ensures FirstZero(PathAtoms(path) + [Octet(0)] + rest) == |path|
  {
    var atoms := PathAtoms(path) + [Octet(0)] + rest;
    if path != "" {
      assert atoms[0] == Octet(path[0] as nat) && path[0] in path;
      assert path[0] as nat != 0;
      assert PathAtoms(path)[1..] == PathAtoms(path[1..]);
      assert atoms[1..] == PathAtoms(path[1..]) + [Octet(0)] + rest;
      PathEnds(path[1..], rest);
    }
  }

  lemma PathAtomsInjective(p: string, q: string)
    requires PathAtoms(p) == PathAtoms(q)
    ensures p == q
  {
    forall k | 0 <= k < |p| ensures p[k] == q[k] {
      assert PathAtoms(p)[k] == PathAtoms(q)[k];
    }
  }

  lemma ByteAtomsInjective(a: Bytes, b: Bytes)
    requires ByteAtoms(a) == ByteAtoms(b)
    ensures a == b
  {
    forall k | 0 <= k < |a| ensures a[k] == b[k] {
      assert ByteAtoms(a)[k] == ByteAtoms(b)[k];
    }
  }

  lemma FileHashInjective(f: File<Bytes>, g: File<Bytes>)
    requires NulFree(f.path) && NulFree(g.path) && FileHash(f) == FileHash(g)
    ensures f == g
  {
    var a, b := ByteAtoms(f.content), ByteAtoms(g.content);
    PathEnds(f.path, a);
    PathEnds(g.path, b);
    var x, y := PathAtoms(f.path) + [Octet(0)] + a, PathAtoms(g.path) + [Octet(0)] + b;
    var n := |f.path|;
    hide PathAtoms, ByteAtoms, FirstZero, NulFree;
    assert x == y && n == |g.path|;
    assert x[..n] == PathAtoms(f.path) && y[..n] == PathAtoms(g.path);
    assert x[n + 1..] == a && y[n + 1..] == b;
    PathAtomsInjective(f.path, g.path);
    ByteAtomsInjective(f.content, g.content);
  }

  lemma {:induction false} FileHashesInjective(s: Files, t: Files)
    requires NulFreeTree(s) && NulFreeTree(t) && FileHashes(s) == FileHashes(t)
    ensures s == t
    decreases |s|
  {
    hide FileHash, NulFree;
    if s != [] && t != [] {
      var a, b := FileHashes(s), FileHashes(t);
      assert a[|a| - 1] == b[|b| - 1] && a[..|a| - 1] == b[..|b| - 1];
      FileHashInjective(s[|s| - 1], t[|t| - 1]);
      FileHashesInjective(s[..|s| - 1], t[..|t| - 1]);
      assert s == s[..|s| - 1] + [s[|s| - 1]] && t == t[..|t| - 1] + [t[|t| - 1]];
    }
  }

  /** No two combinations of paths and contents share a digest. */
  lemma DigestIdentifies(a: Files, b: Files, prefix: string)
    requires Ordered(a) && Ordered(b) && NulFreeTree(a) && NulFreeTree(b)
    ensures TreeDigest(a, prefix) == TreeDigest(b, prefix) <==> Under(a, prefix) == Under(b, prefix)
  {
    if TreeDigest(a, prefix) == TreeDigest(b, prefix) {
      UnderNulFree(a, prefix);
      UnderNulFree(b, prefix);
      hide NulFreeTree, Under;
      if Under(a, prefix) != [] && Under(b, prefix) != [] {
        FileHashesInjective(Under(a, prefix), Under(b, prefix));
      }
    }
  }

  lemma {:induction false} UnderNulFree(t: Files, prefix: string)
    requires NulFreeTree(t)
    ensures NulFreeTree(Under(t, prefix))
  {
    hide NulFree;
    if t != [] {
      UnderNulFree(t[1..], prefix);
    }
  }

  // --------------------------------------------------- the seal over whole runs

  /** Nothing outside `data/` and `slots/` differs. */
  ghost predicate OnlyState(a: Files, b: Files) {
    Ordered(a) && Ordered(b) && forall p :: !IsState(p) ==> Lookup(a, p) == Lookup(b, p)
  }

  lemma ProgramIsNotState(path: string)
    requires AppDir() <= path || DepsDir() <= path || path == SignaturePath()
    ensures !IsState(path)
  {
    assert DepsDir()[..2] == "de" && SignaturePath()[..2] == "si";
    assert path[0] == 'a' || path[..2] == "de" || path[..2] == "si";
    if IsState(path) {
      StateStart(path);
    }
  }

  lemma StateStart(path: string)
    requires IsState(path)
    ensures |path| >= 2 && (path[..2] == "da" || path[..2] == "sl")
  {
    assert DataDir()[..2] == "da" && SlotsDir()[..2] == "sl";
  }

  lemma StatePaths(slot: string)
    ensures IsState(DataStore()) && IsState(DataStoreEnc()) && IsState(DataSql())
    ensures IsState(CurrentSlot()) && IsState(SlotStore(slot))
  {
    assert DataStore()[..5] == DataDir() && DataStoreEnc()[..5] == DataDir() && DataSql()[..5] == DataDir();
    assert CurrentSlot()[..6] == SlotsDir() && SlotStore(slot)[..6] == SlotsDir();
  }

  lemma SameProgram(a: Files, b: Files)
    requires OnlyState(a, b)
    ensures TreeDigest(a, AppDir()) == TreeDigest(b, AppDir()) && TreeDigest(a, DepsDir()) == TreeDigest(b, DepsDir())
    ensures Lookup(a, SignaturePath()) == Lookup(b, SignaturePath())
  {
    hide AppDir, DepsDir, SignaturePath, IsState, Lookup;
    forall p | AppDir() <= p ensures Lookup(a, p) == Lookup(b, p) { ProgramIsNotState(p); }
    forall p | DepsDir() <= p ensures Lookup(a, p) == Lookup(b, p) { ProgramIsNotState(p); }
    SameUnder(a, b, AppDir());
    SameUnder(a, b, DepsDir());
    ProgramIsNotState(SignaturePath());
  }

  lemma PutState(t: Files, path: string, bytes: Bytes)
    requires Ordered(t) && IsState(path)
    ensures OnlyState(t, Put(t, path, bytes))
  {
    hide IsState, Lookup;
    PutOrdered(t, path, bytes);
    forall p | !IsState(p) ensures Lookup(t, p) == Lookup(Put(t, path, bytes), p) {
      LookupPut(t, path, bytes, p);
    }
  }

  lemma RemoveThenPutState(t: Files, gone: string, path: string, bytes: Bytes)
    requires Ordered(t) && IsState(path) && IsState(gone)
    ensures OnlyState(t, Put(Remove(t, gone), path, bytes))
  {
    hide IsState, Lookup;
    forall p ensures Ordered(Remove(t, gone)) && (!IsState(p) ==> Lookup(Remove(t, gone), p) == Lookup(t, p)) {
      LookupRemove(t, gone, p);
    }
    LookupRemove(t, gone, "");
    PutState(Remove(t, gone), path, bytes);
  }

  lemma DropStateOnly(t: Files)
    requires Ordered(t)
    ensures OnlyState(t, DropState(t))
  {
    hide Lookup;
    forall p | !IsState(p) ensures Lookup(t, p) == Lookup(DropState(t), p) {
      RetainKeeps(t, (q: string) => !IsState(q), p);
    }
    RetainKeeps(t, (q: string) => !IsState(q), "");
  }

  /** Every step a reader takes leaves the program files and the attested fields alone. */
  lemma StepOnlyState(c: Container, op: Op)
    requires WellFormed(c)
    ensures OnlyState(c.files, Apply(c, op).files)
    ensures op.Repack? || PayloadOf(Apply(c, op).manifest) == PayloadOf(c.manifest)
  {
    hide IsState, DataStore, DataStoreEnc, DataSql, CurrentSlot, SlotStore, PlainSlot, Put, Remove, DropState, Lookup;
    StatePaths("");
    match op {
      case SetSlotData(slot, bytes) =>
        StatePaths(slot);
        PutState(c.files, SlotStore(slot), bytes);
      case SetData(bytes) => PutState(c.files, DataStore(), bytes);
      case SetSqlData(bytes) => PutState(c.files, DataSql(), bytes);
      case SetCurrentSlot(pointer) => PutState(c.files, CurrentSlot(), pointer);
      case Protect(envelope) => RemoveThenPutState(c.files, DataStore(), DataStoreEnc(), envelope);
      case Unprotect(bytes) => RemoveThenPutState(c.files, DataStoreEnc(), DataStore(), bytes);
      case ClearData => DropStateOnly(c.files);
      case ConvertMode(mode) => DropStateOnly(c.files);
      case SetInstanceId(_) =>
      case Repack =>
    }
  }

  lemma StepKeepsSeal(c: Container, op: Op, key: nat, codec: Codec)
    requires WellFormed(c) && Sealed(c, key, codec)
    ensures WellFormed(Apply(c, op)) && Sealed(Apply(c, op), key, codec)
  {
    hide TreeDigest, VerifyBlock, Lookup, IsState, AppDir, DepsDir, SignaturePath;
    StepOnlyState(c, op);
    SameProgram(c.files, Apply(c, op).files);
    if op.Repack? {
      assert PayloadOf(Refresh(c.manifest, c.files)) == PayloadOf(c.manifest);
      SamePayload(c.manifest, Refresh(c.manifest, c.files), codec);
    } else {
      SamePayload(c.manifest, Apply(c, op).manifest, codec);
    }
  }

  /** A signature cannot tell apart manifests with the same attested part. */
  lemma SamePayload(m: Manifest, n: Manifest, codec: Codec)
    requires PayloadOf(m) == PayloadOf(n)
    ensures StoredApp(m) == StoredApp(n) && StoredDeps(m) == StoredDeps(n)
    ensures forall bytes :: VerifyBlock(m, bytes, codec) == VerifyBlock(n, bytes, codec)
  {
  }

  /** Over every run of reader steps, a signed container keeps its integrity and its signature. */
  lemma {:induction false} RunKeepsSeal(c: Container, ops: seq<Op>, key: nat, codec: Codec)
    requires WellFormed(c) && Sealed(c, key, codec)
    ensures WellFormed(ApplyAll(c, ops)) && Sealed(ApplyAll(c, ops), key, codec)
    decreases |ops|
  {
    hide Sealed, WellFormed, Apply;
    if ops != [] {
      RunKeepsSeal(c, ops[..|ops| - 1], key, codec);
      StepKeepsSeal(ApplyAll(c, ops[..|ops| - 1]), ops[|ops| - 1], key, codec);
    }
  }

  /** Signing seals, whatever the stored digests or an earlier signature said. */
  lemma SigningSeals(c: Container, key: nat, codec: Codec)
    requires WellFormed(c) && Faithful(codec)
    ensures WellFormed(SignedWith(c, key, codec)) && Sealed(SignedWith(c, key, codec), key, codec)
  {
    var m := Refresh(c.manifest, c.files);
    var block := Block(1, true, PublicKey(key), Signed(key, PayloadOf(m)));
    var bytes := codec.write(block);
    assert VerifyBlock(m, bytes, codec) == Ok(Valid(key));
    hide TreeDigest, VerifyBlock, Lookup, Put, Faithful;
    PutOrdered(c.files, SignaturePath(), bytes);
    LookupPut(c.files, SignaturePath(), bytes, SignaturePath());
    var signed := Put(c.files, SignaturePath(), bytes);
    SignatureOutside();
    hide AppDir, DepsDir, SignaturePath;
    forall p | p != SignaturePath() ensures Lookup(c.files, p) == Lookup(signed, p) {
      LookupPut(c.files, SignaturePath(), bytes, p);
    }
    SameDigest(c.files, signed, AppDir());
    SameDigest(c.files, signed, DepsDir());
  }

  lemma SameDigest(a: Files, b: Files, prefix: string)
    requires Ordered(a) && Ordered(b) && !(prefix <= SignaturePath())
    requires forall p :: p != SignaturePath() ==> Lookup(a, p) == Lookup(b, p)
    ensures TreeDigest(a, prefix) == TreeDigest(b, prefix)
  {
    hide Lookup, SignaturePath;
    SameUnder(a, b, prefix);
  }

  lemma SignatureOutside()
    ensures !(AppDir() <= SignaturePath()) && !(DepsDir() <= SignaturePath())
  {
    assert AppDir()[0] == 'a' && DepsDir()[0] == 'd' && SignaturePath()[0] == 's';
  }

  /** The stored digest of a tree, if the manifest has an integrity block that names one. */
  function StoredDigest(m: Manifest, app: bool): Option<Digest> {
    match m.integrity
    case None => None
    case Some(i) => if app then i.app else i.deps
  }

  /** The fields the signature is over. The instance, the storage block and the draft flag are not among them. */
  predicate SameAttested(m: Manifest, n: Manifest) {
    && m.poid == n.poid && m.kind == n.kind && m.app == n.app && m.runtime == n.runtime && m.entry == n.entry
    && m.permissions == n.permissions && m.sharedScope == n.sharedScope && m.dataRef == n.dataRef
    && StoredDigest(m, true) == StoredDigest(n, true) && StoredDigest(m, false) == StoredDigest(n, false)
  }

  /**
   * A signature goes on verifying exactly over the manifests that agree with the signed one
   * on every attested field; any other manifest makes it invalid, and nothing else does.
   */
  lemma TamperingShows(c: Container, d: Container, key: nat, codec: Codec)
    requires SignatureStatus(c, codec) == Ok(Valid(key))
    requires Lookup(d.files, SignaturePath()) == Lookup(c.files, SignaturePath())
    ensures SignatureStatus(d, codec) == Ok(if SameAttested(c.manifest, d.manifest) then Valid(key) else Invalid)
  {
    hide Lookup, SignaturePath;
  }

  /**
   * A valid signature over intact digests attests every byte of both trees: two
   * containers carrying the same signature file agree on them, and on every signed field.
   */
  lemma SignatureAttests(c: Container, d: Container, key: nat, codec: Codec)
    requires WellFormed(c) && WellFormed(d) && NulFreeTree(c.files) && NulFreeTree(d.files)
    requires Sealed(c, key, codec) && Sealed(d, key, codec)
    requires Lookup(c.files, SignaturePath()) == Lookup(d.files, SignaturePath())
    ensures SameAttested(c.manifest, d.manifest)
    ensures Under(c.files, AppDir()) == Under(d.files, AppDir()) && Under(c.files, DepsDir()) == Under(d.files, DepsDir())
  {
    hide TreeDigest, Lookup, NulFreeTree, AppDir, DepsDir, SignaturePath;
    DigestIdentifies(c.files, d.files, AppDir());
    DigestIdentifies(c.files, d.files, DepsDir());
  }

  // ------------------------------------------------------- what the steps undo

  lemma StoreNames()
    ensures DataStore() != DataStoreEnc() && DataStore() != DataSql() && DataStoreEnc() != DataSql()
  {
    assert |DataStore()| == 15 && |DataStoreEnc()| == 14 && |DataSql()| == 17;
  }

  /** Taking the protection off with the data that was there undoes putting it on, file by file. */
  lemma UnprotectUndoesProtect(c: Container, envelope: Bytes, data: Bytes)
    requires WellFormed(c) && Lookup(c.files, DataStore()) == Some(data) && Lookup(c.files, DataStoreEnc()) == None
    ensures var on := Apply(c, Protect(envelope));
            && Lookup(on.files, DataStore()) == None && Lookup(on.files, DataStoreEnc()) == Some(envelope)
            && Apply(on, Unprotect(data)).files == c.files
  {
    StoreNames();
    var plain, enc := DataStore(), DataStoreEnc();
    hide DataStore, DataStoreEnc, Lookup;
    var removed := Remove(c.files, plain);
    var on := Put(removed, enc, envelope);
    LookupRemove(c.files, plain, plain);
    PutOrdered(removed, enc, envelope);
    var gone := Remove(on, enc);
    LookupRemove(on, enc, plain);
    var off := Put(gone, plain, data);
    PutOrdered(gone, plain, data);
    forall p ensures Lookup(on, p) == if p == enc then Some(envelope) else if p == plain then None else Lookup(c.files, p) {
      LookupPut(removed, enc, envelope, p);
      LookupRemove(c.files, plain, p);
    }
    forall p ensures Lookup(off, p) == Lookup(c.files, p) {
      LookupPut(gone, plain, data, p);
      LookupRemove(on, enc, p);
    }
    SameLookups(off, c.files);
  }

  /** Clearing, and leaving embedded mode, remove every state file and keep every other one. */
  lemma StateIsDropped(t: Files, path: string)
    requires Ordered(t)
    ensures Lookup(DropState(t), path) == if IsState(path) then None else Lookup(t, path)
  {
    RetainKeeps(t, (p: string) => !IsState(p), path);
  }

  /** Slot data is read back from the slot's own store; a name that is not plain changes nothing. */
  lemma SlotDataReadsBack(c: Container, slot: string, bytes: Bytes, other: string)
    requires WellFormed(c)
    ensures var r, store := Apply(c, SetSlotData(slot, bytes)), "slots/" + slot + "/store.json";
            if PlainSlot(slot) then
              && r.manifest == c.manifest && Lookup(r.files, store) == Some(bytes)
              && (other != store ==> Lookup(r.files, other) == Lookup(c.files, other))
            else r == c
  {
    hide Lookup, Put;
    LookupPut(c.files, SlotStore(slot), bytes, SlotStore(slot));
    LookupPut(c.files, SlotStore(slot), bytes, other);
  }

  /** The plain slot names are those, `current` aside, under which the store has a container path of its own. */
  lemma PlainSlotsExactly(slot: string)
    ensures PlainSlot(slot) <==>
            slot != "current" && '/' !in slot && ContainerPath.GoodPath("slots/" + slot + "/store.json")
  {
    NamesSlot(slot);
    var path := "slots/" + slot + "/store.json";
    SlotSegments(slot);
    SlotCharacters(slot);
    NoSlash();
    hide ContainerPath.GoodPath, ContainerPath.NamesSomething, PlainSlot, Join;
    if '/' !in slot {
      SlotPathGood(path, "slots", slot, "store.json");
    }
  }

  lemma NamesSlot(slot: string)
    ensures PlainSlot(slot) <==>
            ContainerPath.NamesSomething(slot) && '\\' !in slot && '\0' !in slot && slot != "current"
    ensures PlainSlot(slot) ==> '/' !in slot
  {
  }

  lemma SlotPathGood(path: string, dir: string, slot: string, file: string)
    requires Join([dir, slot, file], '/') == path && |path| >= 2 && path[1] != ':'
    requires ContainerPath.NamesSomething(dir) && '/' !in slot && ContainerPath.NamesSomething(file)
    requires ('\0' in path <==> '\0' in slot) && ('\\' in path <==> '\\' in slot)
    ensures ContainerPath.GoodPath(path) <==> ContainerPath.NamesSomething(slot) && '\\' !in slot && '\0' !in slot
  {
    hide ContainerPath.GoodPath, Join;
    ContainerPath.GoodPathExactly(path);
    var segments := [dir, slot, file];
    forall k | 0 <= k < 3 ensures '/' !in segments[k] {
    }
    hide ContainerPath.NamesSomething;
    if ContainerPath.GoodPath(path) {
      var others: seq<string> :| |others| >= 1 && Join(others, '/') == path &&
                                 forall k :: 0 <= k < |others| ==> ContainerPath.NamesSomething(others[k]);
      NamesNoSlash(others);
      JoinPieces(others, '/');
      JoinPieces(segments, '/');
      assert others[1] == slot;
    } else if ContainerPath.NamesSomething(slot) {
      assert forall k :: 0 <= k < 3 ==> ContainerPath.NamesSomething(segments[k]);
    }
  }

  lemma NamesNoSlash(segments: seq<string>)
    requires forall k :: 0 <= k < |segments| ==> ContainerPath.NamesSomething(segments[k])
    ensures forall k :: 0 <= k < |segments| ==> '/' !in segments[k]
  {
  }

  lemma NoSlash()
    ensures ContainerPath.NamesSomething("slots") && ContainerPath.NamesSomething("store.json")
  {
  }

  lemma SlotSegments(slot: string)
    ensures Join(["slots", slot, "store.json"], '/') == "slots/" + slot + "/store.json"
  {
    assert ["slots", slot, "store.json"][1..] == [slot, "store.json"] && [slot, "store.json"][1..] == ["store.json"];
    assert Join([slot, "store.json"], '/') == slot + ['/'] + "store.json";
    assert "slots" + ['/'] + (slot + ['/'] + "store.json") == "slots/" + slot + "/store.json";
  }

  lemma SlotCharacters(slot: string)
    ensures var path := "slots/" + slot + "/store.json";
            |path| >= 2 && path[1] == 'l' && ('\0' in path <==> '\0' in slot) && ('\\' in path <==> '\\' in slot)
  {
  }

  /** Each data step is read back from its own file and leaves the other state files alone. */
  lemma DataReadsBack(c: Container, bytes: Bytes, other: string)
    requires WellFormed(c)
    ensures Lookup(Apply(c, SetData(bytes)).files, DataStore()) == Some(bytes)
    ensures Lookup(Apply(c, SetSqlData(bytes)).files, DataSql()) == Some(bytes)
    ensures Lookup(Apply(c, SetCurrentSlot(bytes)).files, CurrentSlot()) == Some(bytes)
    ensures other != DataStore() ==> Lookup(Apply(c, SetData(bytes)).files, other) == Lookup(c.files, other)
    ensures other != DataSql() ==> Lookup(Apply(c, SetSqlData(bytes)).files, other) == Lookup(c.files, other)
    ensures other != CurrentSlot() ==> Lookup(Apply(c, SetCurrentSlot(bytes)).files, other) == Lookup(c.files, other)
  {
    hide DataStore, DataSql, CurrentSlot, Lookup, Put;
    LookupPut(c.files, DataStore(), bytes, DataStore());
    LookupPut(c.files, DataSql(), bytes, DataSql());
    LookupPut(c.files, CurrentSlot(), bytes, CurrentSlot());
    LookupPut(c.files, DataStore(), bytes, other);
    LookupPut(c.files, DataSql(), bytes, other);
    LookupPut(c.files, CurrentSlot(), bytes, other);
  }
}
