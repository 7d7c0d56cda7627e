/**
 * Updating the program in place while keeping the data: what one update keeps, what
 * chains of updates amount to, and what they may request without asking again.
 */
module PoidUpdate {
  import opened Wrappers
  import opened FileTree
  import opened Poid
  import opened PoidLaws

  // --------------------------------------------------------------- permissions

  datatype Grant = Reach(origin: string) | Call(server: string) | Files | Clipboard | Print | Notify

  function NoPermissions(): Permissions {
    Permissions(None, None, None, None, None, None, "")
  }

  function Listed(list: Option<seq<string>>): seq<string> {
    if list.Some? then list.value else []
  }

  function PermissionsOf(p: Option<Permissions>): Permissions {
    if p.Some? then p.value else NoPermissions()
  }

  /** Everything a permissions block asks for; what is absent asks for nothing. */
  ghost predicate Asks(p: Option<Permissions>, g: Grant) {
    var q := PermissionsOf(p);
    match g
    case Reach(origin) => origin in Listed(q.network)
    case Call(server) => server in Listed(q.mcp)
    case Files => q.filesystem == Some(UserInitiated)
    case Clipboard => q.clipboard == Some(true)
    case Print => q.printing == Some(true)
    case Notify => q.notifications == Some(true)
  }

  predicate FlagWidened(was: Option<bool>, newer: Option<bool>) {
    newer == Some(true) && was != Some(true)
  }

  method AnyMissing(wanted: seq<string>, have: seq<string>) returns (missing: bool)
    ensures missing <==> exists x :: x in wanted && x !in have
  {
    var k := 0;
    while k < |wanted|
      invariant k <= |wanted|
      invariant forall j :: 0 <= j < k ==> wanted[j] in have
    {
      if wanted[k] !in have { return true; }
      k := k + 1;
    }
    return false;
  }

  /** Widened exactly when something is asked for that was not asked for before. */
  method PermissionsWidened(was: Option<Permissions>, newer: Option<Permissions>) returns (widened: bool)
    ensures widened <==> exists g :: Asks(newer, g) && !Asks(was, g)
  {
    if newer.None? { return false; }
    var o, n := PermissionsOf(was), newer.value;
    var network := AnyMissing(Listed(n.network), Listed(o.network));
    if network {
      ghost var x :| x in Listed(n.network) && x !in Listed(o.network);
      assert Asks(newer, Reach(x)) && !Asks(was, Reach(x));
      return true;
    }
    var mcp := AnyMissing(Listed(n.mcp), Listed(o.mcp));
    if mcp {
      ghost var x :| x in Listed(n.mcp) && x !in Listed(o.mcp);
      assert Asks(newer, Call(x)) && !Asks(was, Call(x));
      return true;
    }
    var fs := n.filesystem == Some(UserInitiated) && o.filesystem != Some(UserInitiated);
    assert fs <==> Asks(newer, Files) && !Asks(was, Files);
    assert FlagWidened(o.clipboard, n.clipboard) <==> Asks(newer, Clipboard) && !Asks(was, Clipboard);
    assert FlagWidened(o.printing, n.printing) <==> Asks(newer, Print) && !Asks(was, Print);
    assert FlagWidened(o.notifications, n.notifications) <==> Asks(newer, Notify) && !Asks(was, Notify);
    return fs || FlagWidened(o.clipboard, n.clipboard) || FlagWidened(o.printing, n.printing) ||
           FlagWidened(o.notifications, n.notifications);
  }

  // -------------------------------------------------------------------- update

  predicate SameApp(was: Container, newer: Container) {
    was.manifest.app.Some? && newer.manifest.app.Some? && was.manifest.app.value.id == newer.manifest.app.value.id
  }

  function SwappedFiles(was: Poid.Files, newer: Poid.Files): Poid.Files {
    PutAll(Retain(was, (p: string) => IsState(p)), Retain(newer, (p: string) => !IsState(p)))
  }

  function Placed(newer: Option<Storage>, was: Option<Storage>): Option<Storage> {
    if newer.None? then None
    else
      var s := newer.value;
      Some(s.(mode := if was.Some? then was.value.mode else s.mode,
              guarded := if was.Some? then was.value.guarded else None,
              slots := if was.Some? && was.value.slots == Some(true) then Some(true) else s.slots))
  }

  /** The result of a successful update. */
  function Updated(was: Container, newer: Container): Container {
    var m := newer.manifest.(instance := was.manifest.instance, storage := Placed(newer.manifest.storage, was.manifest.storage));
    var files := SwappedFiles(was.files, newer.files);
    Container(Refresh(m, files), files)
  }

  lemma SwappedLookup(was: Poid.Files, newer: Poid.Files)
    requires Ordered(was) && Ordered(newer)
    ensures Ordered(SwappedFiles(was, newer))
    ensures forall p :: Lookup(SwappedFiles(was, newer), p) == if IsState(p) then Lookup(was, p) else Lookup(newer, p)
  {
    var kept := Retain(was, (p: string) => IsState(p));
    var program := Retain(newer, (p: string) => !IsState(p));
    forall p ensures Ordered(SwappedFiles(was, newer)) &&
                     Lookup(SwappedFiles(was, newer), p) == if IsState(p) then Lookup(was, p) else Lookup(newer, p) {
      RetainKeeps(was, (q: string) => IsState(q), p);
      RetainKeeps(newer, (q: string) => !IsState(q), p);
      LookupPutAll(kept, program, p);
    }
    assert Ordered(SwappedFiles(was, newer)) by {
      RetainKeeps(was, (q: string) => IsState(q), "");
      RetainKeeps(newer, (q: string) => !IsState(q), "");
      LookupPutAll(kept, program, "");
    }
  }

  /** The user's placement choices are the same after an update as before. */
  predicate KeepsPlacement(was: Option<Storage>, now: Option<Storage>) {
    was.Some? ==>
      && now.Some? && now.value.mode == was.value.mode && now.value.guarded == was.value.guarded
      && (was.value.slots == Some(true) ==> now.value.slots == Some(true))
  }

  /**
   * Apart from the placement choices, the instance and the digests, every field of the
   * manifest, and of its storage block, is the new program's.
   */
  lemma UpdateTakesProgram(was: Container, newer: Container)
    ensures var m, n := Updated(was, newer).manifest, newer.manifest;
            && m.poid == n.poid && m.kind == n.kind && m.app == n.app && m.draft == n.draft && m.runtime == n.runtime
            && m.entry == n.entry && m.permissions == n.permissions && m.sharedScope == n.sharedScope
            && m.dataRef == n.dataRef && m.extra == n.extra
            && (m.storage.Some? <==> n.storage.Some?)
            && (n.storage.Some? ==>
                  && m.storage.value.quota == n.storage.value.quota && m.storage.value.schema == n.storage.value.schema
                  && m.storage.value.needs == n.storage.value.needs && m.storage.value.extra == n.storage.value.extra
                  && (m.storage.value.slots == n.storage.value.slots || m.storage.value.slots == Some(true))
                  && (was.manifest.storage.None? ==>
                        m.storage.value.mode == n.storage.value.mode && m.storage.value.guarded == None &&
                        m.storage.value.slots == n.storage.value.slots))
  {
    hide SwappedFiles, TreeDigest;
  }

  /**
   * One update keeps every byte of state and the instance; all else is the new program's.
   * The user's mode, protection and slots are kept exactly if there is nothing to keep or
   * the new program carries a storage block to put them in.
   */
  lemma UpdateKeepsData(was: Container, newer: Container)
    requires WellFormed(was) && WellFormed(newer)
    ensures var r := Updated(was, newer);
            && WellFormed(r)
            && Under(r.files, DataDir()) == Under(was.files, DataDir())
            && Under(r.files, SlotsDir()) == Under(was.files, SlotsDir())
            && (forall p :: !IsState(p) ==> Lookup(r.files, p) == Lookup(newer.files, p))
            && r.manifest.instance == was.manifest.instance
            && (KeepsPlacement(was.manifest.storage, r.manifest.storage) <==>
                was.manifest.storage.None? || newer.manifest.storage.Some?)
  {
    SwappedLookup(was.files, newer.files);
    var files := SwappedFiles(was.files, newer.files);
    hide SwappedFiles, Lookup, Refresh;
    forall p | DataDir() <= p ensures Lookup(files, p) == Lookup(was.files, p) { assert IsState(p); }
    forall p | SlotsDir() <= p ensures Lookup(files, p) == Lookup(was.files, p) { assert IsState(p); }
    hide IsState, DataDir, SlotsDir;
    SameUnder(files, was.files, DataDir());
    SameUnder(files, was.files, SlotsDir());
    RefreshKeeps(newer.manifest.(instance := was.manifest.instance,
                                 storage := Placed(newer.manifest.storage, was.manifest.storage)), files);
  }

  /** Which blocks manifest validation demands for each type of container. */
  predicate Complete(m: Manifest) {
    && m.integrity.Some?
    && match m.kind
       case Data => m.dataRef.Some?
       case Workspace => m.app.Some? && m.instance.Some? && m.runtime.Some? && m.storage.Some? && m.permissions.Some?
       case App => m.app.Some? && m.instance.Some? && m.runtime.Some? && m.storage.Some? && m.permissions.Some? && m.entry.Some?
  }

  /** Between complete application or workspace containers the choices are always kept. */
  lemma ApplicationsKeepPlacement(was: Container, newer: Container)
    requires WellFormed(was) && WellFormed(newer) && Complete(newer.manifest) && !newer.manifest.kind.Data?
    ensures KeepsPlacement(was.manifest.storage, Updated(was, newer).manifest.storage)
  {
    hide Updated, KeepsPlacement;
    UpdateKeepsData(was, newer);
  }

  /** A complete data container that names an application and brings no storage block. */
  function DataOnly(app: AppInfo): Container {
    Container(Manifest("1.0", Data, Some(app), None, None, None, None, None, None, None, Some(""),
                       Some(Integrity(None, None, "")), ""), [])
  }

  /** It is accepted as the source of an update, and the user's mode and protection are lost. */
  lemma DataContainerLosesPlacement(was: Container)
    requires WellFormed(was) && was.manifest.app.Some? && was.manifest.storage.Some?
    ensures var newer := DataOnly(was.manifest.app.value);
            && WellFormed(newer) && Complete(newer.manifest) && Verifies(newer) && SameApp(was, newer)
            && Updated(was, newer).manifest.storage == None
  {
    hide SwappedFiles, TreeDigest;
    NoTree(AppDir());
    NoTree(DepsDir());
  }

  lemma NoTree(prefix: string)
    ensures TreeDigest([], prefix) == None
  {
  }

  lemma RefreshKeeps(m: Manifest, files: Poid.Files)
    ensures Refresh(m, files).instance == m.instance && Refresh(m, files).storage == m.storage
    ensures Refresh(m, files).permissions == m.permissions && Refresh(m, files).app == m.app
  {
  }

  /** The result carries the signature status of a verified source, and verifies itself. */
  lemma UpdateCarriesSignature(was: Container, newer: Container, codec: Codec)
    requires WellFormed(was) && WellFormed(newer) && Verifies(newer)
    ensures Verifies(Updated(was, newer))
    ensures SignatureStatus(Updated(was, newer), codec) == SignatureStatus(newer, codec)
  {
    var r := Updated(was, newer);
    SwappedLookup(was.files, newer.files);
    SameProgram(newer.files, r.files);
    hide Lookup, SwappedFiles, TreeDigest, Placed, VerifyBlock, AppDir, DepsDir, SignaturePath, IsState;
    SamePayload(newer.manifest, r.manifest, codec);
  }

  /** Hence updating to a sealed program seals the container, whatever was in it. */
  lemma UpdateSeals(was: Container, newer: Container, key: nat, codec: Codec)
    requires WellFormed(was) && WellFormed(newer) && Sealed(newer, key, codec)
    ensures Sealed(Updated(was, newer), key, codec)
  {
    hide Updated, Verifies, SignatureStatus;
    UpdateCarriesSignature(was, newer, codec);
  }

  /** The storage rules of manifest validation: a connection names what it needs, a quota is not zero. */
  predicate ValidStorage(s: Storage) {
    (s.mode == Connection ==> s.needs.Some?) && s.quota != Some(0)
  }

  predicate StorageValidates(m: Manifest) {
    m.storage.Some? ==> ValidStorage(m.storage.value)
  }

  /**
   * Keeping the user's mode can leave a container that no longer validates, and so cannot
   * be saved: exactly when the user is on a connection and the new program, which has a
   * storage block, declares no backend.
   */
  lemma UpdateStaysValid(was: Container, newer: Container)
    requires StorageValidates(was.manifest) && StorageValidates(newer.manifest)
    ensures var s, t := was.manifest.storage, newer.manifest.storage;
            StorageValidates(Updated(was, newer).manifest) <==>
            !(s.Some? && s.value.mode == Connection && t.Some? && t.value.needs.None?)
  {
    hide SwappedFiles, TreeDigest;
  }

  // -------------------------------------------------------------------- chains

  function StickySlots(v1: Option<Storage>, v2: Option<Storage>, v3: Option<Storage>): Option<Storage> {
    if v2.Some? && v2.value.slots == Some(true) && v3.Some? then Some(Placed(v3, v1).value.(slots := Some(true)))
    else Placed(v3, v1)
  }

  /** What an intermediate version must not have dropped for the storage block to come out as if it had not been there. */
  predicate Transparent(v1: Option<Storage>, v2: Option<Storage>, v3: Option<Storage>) {
    v3.Some? ==>
      && (v1.Some? && v2.None? ==> v1.value.mode == v3.value.mode && v1.value.guarded.None? &&
                                   (v1.value.slots == Some(true) ==> v3.value.slots == Some(true)))
      && (v1.None? && v2.Some? ==> v2.value.mode == v3.value.mode)
  }

  lemma StorageComposes(v1: Option<Storage>, v2: Option<Storage>, v3: Option<Storage>)
    ensures Placed(v3, Placed(v2, v1)) == StickySlots(v1, v2, v3) <==> Transparent(v1, v2, v3)
    ensures v1.Some? && v2.Some? ==> Transparent(v1, v2, v3)
  {
  }

  /**
   * For any three containers, going through an intermediate version changes nothing
   * outside the storage block. The block, too, is that of the direct update but for
   * `storage.slots`, which sticks once on, exactly if the intermediate version did not
   * drop or invent placement choices; with storage blocks in the first two it never does.
   */
  lemma UpdatesCompose(v1: Container, v2: Container, v3: Container)
    requires WellFormed(v1) && WellFormed(v2) && WellFormed(v3)
    ensures var direct, chained := Updated(v1, v3), Updated(Updated(v1, v2), v3);
            var s1, s2, s3 := v1.manifest.storage, v2.manifest.storage, v3.manifest.storage;
            && chained.(manifest := chained.manifest.(storage := None)) == direct.(manifest := direct.manifest.(storage := None))
            && (chained == direct.(manifest := direct.manifest.(storage := StickySlots(s1, s2, s3))) <==>
                Transparent(s1, s2, s3))
            && (s1.Some? && s2.Some? ==> Transparent(s1, s2, s3))
  {
    var middle := SwappedFiles(v1.files, v2.files);
    SwappedLookup(v1.files, v2.files);
    SwappedLookup(middle, v3.files);
    SwappedLookup(v1.files, v3.files);
    hide SwappedFiles, Lookup, IsState;
    SameLookups(SwappedFiles(middle, v3.files), SwappedFiles(v1.files, v3.files));
    hide TreeDigest, AppDir, DepsDir, Placed, StickySlots, Transparent;
    StorageComposes(v1.manifest.storage, v2.manifest.storage, v3.manifest.storage);
  }

  /** Updates applied one after another. */
  function UpdateAll(c: Container, versions: seq<Container>): Container {
    if versions == [] then c
    else Updated(UpdateAll(c, versions[..|versions| - 1]), versions[|versions| - 1])
  }

  ghost predicate Widens(was: Container, newer: Container) {
    exists g :: Asks(newer.manifest.permissions, g) && !Asks(was.manifest.permissions, g)
  }

  /** No update of the chain is reported as widening. */
  ghost predicate NeverWidens(c: Container, versions: seq<Container>) {
    forall k :: 0 <= k < |versions| ==> !Widens(UpdateAll(c, versions[..k]), versions[k])
  }

  /** Without a widening report along the way, a chain never ends up asking for more than it started with. */
  lemma {:induction false} ChainNeverWidens(c: Container, versions: seq<Container>, g: Grant)
    requires NeverWidens(c, versions) && Asks(UpdateAll(c, versions).manifest.permissions, g)
    ensures Asks(c.manifest.permissions, g)
    decreases |versions|
  {
    hide Asks;
    if versions != [] {
      var last := |versions| - 1;
      var before := UpdateAll(c, versions[..last]);
      assert Updated(before, versions[last]).manifest.permissions == versions[last].manifest.permissions;
      hide Updated;
      assert !Widens(before, versions[last]);
      forall k | 0 <= k < last ensures !Widens(UpdateAll(c, versions[..last][..k]), versions[..last][k]) {
        assert versions[..last][..k] == versions[..k];
      }
      ChainNeverWidens(c, versions[..last], g);
    }
  }

  /** Data survives any chain of updates, byte for byte, and so does the identity of the copy. */
  lemma {:induction false} ChainKeepsData(c: Container, versions: seq<Container>)
    requires WellFormed(c) && forall k :: 0 <= k < |versions| ==> WellFormed(versions[k])
    ensures var r := UpdateAll(c, versions);
            && WellFormed(r)
            && Under(r.files, DataDir()) == Under(c.files, DataDir())
            && Under(r.files, SlotsDir()) == Under(c.files, SlotsDir())
            && r.manifest.instance == c.manifest.instance
    decreases |versions|
  {
    hide WellFormed, Updated, Under;
    if versions != [] {
      var last := |versions| - 1;
      ChainKeepsData(c, versions[..last]);
      UpdateKeepsData(UpdateAll(c, versions[..last]), versions[last]);
    }
  }
}
