/**
 * What storage conversion there and back does to the files themselves, outside the
 * slots' values: exactly which containers come back file for file.
 */
module VaultTree {
  import opened Wrappers
  import opened Texts
  import opened FileTree
  import opened VaultConvert
  import opened VaultRoundTrip
  import opened VaultFailure
  import P = Poid
  import D = VaultDoc

  /** A state file in the form a move back would write it; no other state file is written back at all. */
  predicate InForm<V>(bytes: Bytes, codec: Codec<V>) {
    var obj := codec.readObject(bytes);
    obj.Some? && obj.value != [] && bytes == codec.writeObject(obj.value)
  }

  predicate ComesBack<V>(path: string, bytes: Bytes, codec: Codec<V>) {
    if path == P.DataStore() then InForm(bytes, codec)
    else if SlotName(path).Some? then SlotName(path).value != D.DefaultSlot && InForm(bytes, codec)
    else path == P.CurrentSlot() && PointedSlot(bytes, codec) != D.DefaultSlot && bytes == codec.encode(PointedSlot(bytes, codec))
  }

  /** Everything under `data/` and `slots/` is a non-empty canonical store under its proper name, or a tidy pointer. */
  ghost predicate AllComeBack<V>(files: P.Files, codec: Codec<V>) {
    forall p :: P.IsState(p) && Lookup(files, p).Some? ==> ComesBack(p, Lookup(files, p).value, codec)
  }

  // ------------------------------------------------------------ files not written

  /** Files that are neither stores nor the pointer are as the container had them. */
  lemma MovedInOthers<V>(c: P.Container, doc: D.Doc, codec: Codec<V>, path: string)
    requires Ordered(P.Converted(c, P.Embedded).files) && Ordered(doc.slots) && MovedIn(c, doc, codec).Some?
    requires Lookup(P.Converted(c, P.Embedded).files, P.CurrentSlot()) == None
    requires SlotName(path).None? && path != P.DataStore() && path != P.CurrentSlot()
    ensures Lookup(MovedIn(c, doc, codec).value.files, path) == Lookup(P.Converted(c, P.Embedded).files, path)
  {
    var c1, kv := P.Converted(c, P.Embedded), D.KvOf(doc, D.DefaultSlot);
    var first := WithDefault(c1, kv, codec).value;
    var all := WithSlots(first, doc.slots, codec).value;
    assert MovedIn(c, doc, codec).value == WithPointer(all, doc, codec);
    hide MovedIn, WithDefault, WithSlots, WithPointer, Lookup, SlotName, StorePath, P.DataStore, P.CurrentSlot, P.Converted;
    hide D.KvOf, D.CurrentSlot, ExportTree, Exported, Ordered, Written;
    OtherPaths();
    DefaultAlone(c1, kv, codec);
    WithSlotsEffect(first, doc.slots, codec);
    PointerWritten(all, doc, codec);
  }

  /** Outside the state trees a container is not touched by going out and back. */
  lemma OutsideReturns<V>(c: P.Container, doc: D.Doc, id: nat, codec: Codec<V>, path: string)
    requires Ordered(c.files) && P.StorageOf(c.manifest).mode == P.Embedded && Ordered(doc.slots)
    requires MovedIn(MovedOut(c, id), doc, codec).Some?
    requires SlotName(path).None? && path != P.DataStore() && path != P.CurrentSlot()
    ensures Lookup(MovedIn(MovedOut(c, id), doc, codec).value.files, path) ==
            if P.IsState(path) then None else Lookup(c.files, path)
  {
    MovedOutStateless(c, id);
    assert P.Converted(MovedOut(c, id), P.Embedded).files == P.DropState(c.files);
    hide MovedIn, Lookup, SlotName, P.DataStore, P.CurrentSlot, P.IsState, MovedOut;
    RetainKeeps(c.files, (q: string) => !P.IsState(q), path);
    MovedInOthers(MovedOut(c, id), doc, codec, path);
  }

  // ------------------------------------------------------------------ file by file

  /** The circumstances: an empty vault entry, and a move out and back that both succeed. */
  ghost predicate ThereAndBack<V(!new)>(c: P.Container, doc: D.Doc, id: nat, quota: nat, codec: Codec<V>) {
    && Ordered(c.files) && P.StorageOf(c.manifest).mode == P.Embedded && D.WellFormed(doc) && Faithful(codec)
    && Nothing(doc) && D.CurrentSlot(doc) == D.DefaultSlot
    && Seeded(doc, c.files, quota, codec).Some? && PlainNames(c.files, codec)
  }

  function Back<V(!new)>(c: P.Container, doc: D.Doc, id: nat, quota: nat, codec: Codec<V>): Option<P.Container> {
    var d := Seeded(doc, c.files, quota, codec);
    if d.Some? then MovedIn(MovedOut(c, id), d.value, codec) else None
  }

  lemma BackExists<V(!new)>(c: P.Container, doc: D.Doc, id: nat, quota: nat, codec: Codec<V>)
    requires ThereAndBack(c, doc, id, quota, codec)
    ensures Back(c, doc, id, quota, codec).Some?
  {
    hide Seeded, MovedIn, MovedOut, Faithful, D.WellFormed, Ordered, PlainNames, Returns, Nothing, D.CurrentSlot;
    EmptyVaultReturns(c.files, doc, codec);
    ReturnSucceeds(c, doc, id, quota, codec);
  }

  /** All state files afterwards, in terms of the document in between. */
  lemma BackFiles<V(!new)>(c: P.Container, doc: D.Doc, id: nat, quota: nat, codec: Codec<V>)
    requires ThereAndBack(c, doc, id, quota, codec)
    ensures Back(c, doc, id, quota, codec).Some?
    ensures var r, d := Back(c, doc, id, quota, codec).value.files, Seeded(doc, c.files, quota, codec).value;
            && Ordered(r) && D.WellFormed(d)
            && (forall s :: s != D.DefaultSlot ==>
                  var kv := D.KvOf(d, s);
                  && (kv != [] ==> ExportTree(kv, codec).Some?)
                  && Lookup(r, StorePath(s)) == (if kv == [] then None else Exported(kv, codec)))
            && Lookup(r, StorePath(D.DefaultSlot)) == None
            && ExportTree(D.KvOf(d, D.DefaultSlot), codec).Some?
            && Lookup(r, P.DataStore()) ==
               (if D.KvOf(d, D.DefaultSlot) == [] then None else Exported(D.KvOf(d, D.DefaultSlot), codec))
  {
    hide Seeded, MovedIn, MovedOut, Faithful, Ordered, PlainNames, Nothing, D.CurrentSlot, Stateless;
    hide Lookup, StorePath, P.DataStore, P.CurrentSlot, ExportTree, Exported, Embedded, D.RawGet, D.WellFormed;
    BackExists(c, doc, id, quota, codec);
    MovedOutStateless(c, id);
    SeededOverlays(doc, c.files, quota, codec);
    var d := Seeded(doc, c.files, quota, codec).value;
    MovedInFiles(MovedOut(c, id), d, codec);
    forall s | s != D.DefaultSlot ensures Written(d.slots, s) == D.KvOf(d, s) {
    }
    assert Written(d.slots, D.DefaultSlot) == [];
  }

  /** A slot the container says nothing about has nothing in the vault either. */
  lemma EmptySlot<V(!new)>(c: P.Container, doc: D.Doc, id: nat, quota: nat, codec: Codec<V>, slot: string)
    requires ThereAndBack(c, doc, id, quota, codec)
    requires forall k :: Embedded(c.files, slot, k, codec).None?
    ensures D.KvOf(Seeded(doc, c.files, quota, codec).value, slot) == []
  {
    hide Seeded, Faithful, Ordered, PlainNames, D.CurrentSlot, Embedded, Lookup, D.KvOf, D.WellFormed;
    SeededOverlays(doc, c.files, quota, codec);
    var d := Seeded(doc, c.files, quota, codec).value;
    var kv := D.KvOf(d, slot);
    assert forall k :: D.RawGet(d, slot, k).None?;
    assert forall k :: D.RawGet(d, slot, k) == Lookup(kv, k);
    SomeKey(kv);
  }

  lemma SomeKey(kv: D.Kv)
    ensures kv != [] ==> Lookup(kv, kv[0].path).Some?
  {
  }

  lemma NoStore<V>(files: P.Files, slot: string, codec: Codec<V>)
    requires Lookup(files, StorePath(slot)).None?
    requires slot == D.DefaultSlot ==> Lookup(files, P.DataStore()).None?
    ensures forall k :: Embedded(files, slot, k, codec).None?
  {
    hide Lookup, StorePath, P.DataStore;
  }

  /** An exported store is in written form. */
  lemma ExportedIsWritten<V(!new)>(kv: D.Kv, codec: Codec<V>)
    requires Ordered(kv) && kv != [] && ExportTree(kv, codec).Some? && Faithful(codec)
    ensures Exported(kv, codec).Some? && InForm(Exported(kv, codec).value, codec)
  {
    ExportTreeEffect(kv, codec);
    hide ExportTree, Lookup, Ordered;
  }

  lemma SlotOfDoc(d: D.Doc, slot: string)
    requires D.WellFormed(d)
    ensures Ordered(D.KvOf(d, slot))
  {
    D.KvOrdered(d.slots, slot);
  }

  /** A state file that is the same afterwards was in the form it is written in. */
  lemma SameComesBack<V(!new)>(c: P.Container, doc: D.Doc, id: nat, quota: nat, codec: Codec<V>, path: string)
    requires ThereAndBack(c, doc, id, quota, codec) && P.IsState(path) && Lookup(c.files, path).Some?
    requires Back(c, doc, id, quota, codec).Some?
    requires Lookup(Back(c, doc, id, quota, codec).value.files, path) == Lookup(c.files, path)
    ensures ComesBack(path, Lookup(c.files, path).value, codec)
  {
    hide Seeded, MovedIn, MovedOut, Ordered, PlainNames, Nothing, D.CurrentSlot, D.KvOf, Returns, Faithful;
    hide Lookup, StorePath, SlotName, P.DataStore, P.CurrentSlot, P.IsState, ExportTree, Exported, D.WellFormed, InForm, PointedSlot;
    var d := Seeded(doc, c.files, quota, codec).value;
    BackFiles(c, doc, id, quota, codec);
    OtherPaths();
    SlotPaths(path);
    if path == P.DataStore() {
      SlotOfDoc(d, D.DefaultSlot);
      ExportedIsWritten(D.KvOf(d, D.DefaultSlot), codec);
    } else if SlotName(path).Some? {
      var s := SlotName(path).value;
      SlotOfDoc(d, s);
      ExportedIsWritten(D.KvOf(d, s), codec);
    } else if path == P.CurrentSlot() {
      PointerBack(c, doc, id, quota, codec);
    } else {
      SlotsOrdered(d);
      OutsideReturns(c, d, id, codec, path);
    }
  }

  lemma SlotsOrdered(d: D.Doc)
    requires D.WellFormed(d)
    ensures Ordered(d.slots)
  {
  }

  lemma PointerBack<V(!new)>(c: P.Container, doc: D.Doc, id: nat, quota: nat, codec: Codec<V>)
    requires ThereAndBack(c, doc, id, quota, codec)
    ensures Back(c, doc, id, quota, codec).Some?
    ensures var pointer := Lookup(c.files, P.CurrentSlot());
            Lookup(Back(c, doc, id, quota, codec).value.files, P.CurrentSlot()) ==
            if pointer.None? || PointedSlot(pointer.value, codec) == D.DefaultSlot then None
            else Some(codec.encode(PointedSlot(pointer.value, codec)))
  {
    hide Seeded, MovedIn, MovedOut, Ordered, PlainNames, D.CurrentSlot, Returns, Faithful, Lookup, P.CurrentSlot, D.WellFormed, Nothing;
    hide PointedSlot;
    EmptyVaultReturns(c.files, doc, codec);
    PointerReturns(c, doc, id, quota, codec);
  }

  /** A store in written form, and the only one of its slot, comes back. */
  lemma StoreReturns<V(!new)>(c: P.Container, doc: D.Doc, id: nat, quota: nat, codec: Codec<V>, slot: string)
    requires ThereAndBack(c, doc, id, quota, codec) && SoleStore(c.files, slot).Some?
    requires InForm(SoleStore(c.files, slot).value, codec)
    ensures Back(c, doc, id, quota, codec).Some?
    ensures SoleStore(Back(c, doc, id, quota, codec).value.files, slot) == SoleStore(c.files, slot)
  {
    var obj := codec.readObject(SoleStore(c.files, slot).value).value;
    assert Ordered(obj);
    hide Seeded, MovedIn, MovedOut, Ordered, PlainNames, D.CurrentSlot, SoleStore, Faithful, D.WellFormed, Nothing;
    RoundTripBytes(c, doc, id, quota, codec, slot, obj);
  }

  /** File by file: in written form, or not there at all, and it is the same afterwards. */
  lemma ComesBackSame<V(!new)>(c: P.Container, doc: D.Doc, id: nat, quota: nat, codec: Codec<V>, path: string)
    requires ThereAndBack(c, doc, id, quota, codec) && AllComeBack(c.files, codec)
    ensures Back(c, doc, id, quota, codec).Some?
    ensures Lookup(Back(c, doc, id, quota, codec).value.files, path) == Lookup(c.files, path)
  {
    hide Seeded, MovedIn, MovedOut, Ordered, PlainNames, Nothing, D.CurrentSlot, D.KvOf, Returns, Faithful, ThereAndBack;
    hide Lookup, StorePath, SlotName, P.DataStore, P.CurrentSlot, P.IsState, ExportTree, Exported, D.WellFormed, InForm, PointedSlot;
    hide SoleStore, Embedded, AllComeBack;
    var d := Seeded(doc, c.files, quota, codec);
    BackFiles(c, doc, id, quota, codec);
    OtherPaths();
    SlotPaths(path);
    if path == P.DataStore() {
      StoreSame(c, doc, id, quota, codec, D.DefaultSlot);
    } else if SlotName(path).Some? {
      StoreSame(c, doc, id, quota, codec, SlotName(path).value);
    } else if path == P.CurrentSlot() {
      PointerSame(c, doc, id, quota, codec);
    } else {
      OtherSame(c, doc, id, quota, codec, path);
    }
  }

  lemma StoreSame<V(!new)>(c: P.Container, doc: D.Doc, id: nat, quota: nat, codec: Codec<V>, slot: string)
    requires ThereAndBack(c, doc, id, quota, codec) && AllComeBack(c.files, codec)
    ensures Back(c, doc, id, quota, codec).Some?
    ensures var r := Back(c, doc, id, quota, codec).value.files;
            && Lookup(r, StorePath(slot)) == Lookup(c.files, StorePath(slot))
            && (slot == D.DefaultSlot ==> Lookup(r, P.DataStore()) == Lookup(c.files, P.DataStore()))
  {
    StoresAreState(slot);
    var mine := SoleStore(c.files, slot);
    assert slot == D.DefaultSlot ==> Lookup(c.files, StorePath(slot)).None? by {
      OtherPaths();
      SlotPaths("");
    }
    assert mine == if slot == D.DefaultSlot then Lookup(c.files, P.DataStore()) else Lookup(c.files, StorePath(slot));
    assert mine.Some? ==> InForm(mine.value, codec) by {
      OtherPaths();
      SlotPaths("");
    }
    hide Seeded, MovedIn, MovedOut, Ordered, PlainNames, Nothing, D.CurrentSlot, D.KvOf, Returns, Faithful, ThereAndBack;
    hide Lookup, StorePath, P.DataStore, P.IsState, ExportTree, Exported, D.WellFormed, InForm, AllComeBack, Embedded;
    BackFiles(c, doc, id, quota, codec);
    if mine.Some? {
      StoreReturns(c, doc, id, quota, codec, slot);
    } else {
      NoStore(c.files, slot, codec);
      EmptySlot(c, doc, id, quota, codec, slot);
    }
  }

  lemma StoresAreState(slot: string)
    ensures P.IsState(StorePath(slot)) && P.IsState(P.DataStore()) && P.IsState(P.CurrentSlot())
    ensures StorePath(slot) != P.DataStore() && StorePath(slot) != P.CurrentSlot()
  {
    IsStore(slot);
    OtherPaths();
    SlotPaths("");
    DataIsState();
  }

  lemma DataIsState()
    ensures P.IsState(P.DataStore()) && P.IsState(P.CurrentSlot())
  {
    assert P.DataStore()[..5] == P.DataDir() && P.CurrentSlot()[..6] == P.SlotsDir();
  }

  lemma PointerSame<V(!new)>(c: P.Container, doc: D.Doc, id: nat, quota: nat, codec: Codec<V>)
    requires ThereAndBack(c, doc, id, quota, codec) && AllComeBack(c.files, codec)
    ensures Back(c, doc, id, quota, codec).Some?
    ensures Lookup(Back(c, doc, id, quota, codec).value.files, P.CurrentSlot()) == Lookup(c.files, P.CurrentSlot())
  {
    OtherPaths();
    DataIsState();
    hide ThereAndBack, Back, Lookup, P.DataStore, P.CurrentSlot, P.IsState, SlotName, PointedSlot, InForm;
    PointerBack(c, doc, id, quota, codec);
  }

  lemma OtherSame<V(!new)>(c: P.Container, doc: D.Doc, id: nat, quota: nat, codec: Codec<V>, path: string)
    requires ThereAndBack(c, doc, id, quota, codec) && AllComeBack(c.files, codec)
    requires SlotName(path).None? && path != P.DataStore() && path != P.CurrentSlot()
    ensures Back(c, doc, id, quota, codec).Some?
    ensures Lookup(Back(c, doc, id, quota, codec).value.files, path) == Lookup(c.files, path)
  {
    hide Seeded, MovedIn, MovedOut, Ordered, PlainNames, Nothing, D.CurrentSlot, Faithful, D.WellFormed;
    hide Lookup, P.DataStore, P.CurrentSlot, P.IsState, SlotName, InForm;
    BackFiles(c, doc, id, quota, codec);
    SlotsOrdered(Seeded(doc, c.files, quota, codec).value);
    OutsideReturns(c, Seeded(doc, c.files, quota, codec).value, id, codec, path);
  }

  /**
   * Out to an empty vault entry and back, the file map is the same again exactly if every
   * file under `data/` and `slots/` is a non-empty canonical store under its proper name
   * or a tidy pointer. So the encrypted store, the SQL dump and anything else there is lost.
   */
  lemma TreeReturns<V(!new)>(c: P.Container, doc: D.Doc, id: nat, quota: nat, codec: Codec<V>)
    requires ThereAndBack(c, doc, id, quota, codec)
    ensures Back(c, doc, id, quota, codec).Some?
    ensures Back(c, doc, id, quota, codec).value.files == c.files <==> AllComeBack(c.files, codec)
  {
    assert Ordered(c.files);
    hide ThereAndBack, Back, Lookup, ComesBack, P.IsState, Ordered;
    BackFiles(c, doc, id, quota, codec);
    var r := Back(c, doc, id, quota, codec).value.files;
    if r == c.files {
      forall p | P.IsState(p) && Lookup(c.files, p).Some? ensures ComesBack(p, Lookup(c.files, p).value, codec) {
        SameComesBack(c, doc, id, quota, codec, p);
      }
    }
    if AllComeBack(c.files, codec) {
      forall p ensures Lookup(r, p) == Lookup(c.files, p) {
        ComesBackSame(c, doc, id, quota, codec, p);
      }
      SameLookups(r, c.files);
    }
  }

  /** In particular the encrypted store and the SQL dump never come back. */
  lemma OtherStateIsLost<V(!new)>(c: P.Container, doc: D.Doc, id: nat, quota: nat, codec: Codec<V>)
    requires ThereAndBack(c, doc, id, quota, codec)
    requires Lookup(c.files, P.DataStoreEnc()).Some? || Lookup(c.files, P.DataSql()).Some?
    ensures Back(c, doc, id, quota, codec).Some? && Back(c, doc, id, quota, codec).value.files != c.files
  {
    OddPaths();
    hide ThereAndBack, Back, Lookup, P.IsState, P.DataStore, P.DataStoreEnc, P.DataSql, P.CurrentSlot, SlotName;
    TreeReturns(c, doc, id, quota, codec);
  }

  lemma OddPaths()
    ensures P.IsState(P.DataStoreEnc()) && SlotName(P.DataStoreEnc()).None?
    ensures P.IsState(P.DataSql()) && SlotName(P.DataSql()).None?
    ensures P.DataStoreEnc() != P.DataStore() && P.DataStoreEnc() != P.CurrentSlot()
    ensures P.DataSql() != P.DataStore() && P.DataSql() != P.CurrentSlot()
  {
    assert P.DataStoreEnc()[..5] == P.DataDir() && P.DataSql()[..5] == P.DataDir() && P.SlotsDir()[0] == 's';
    assert P.CurrentSlot()[0] == 's' && |P.DataStore()| == 15 && |P.DataStoreEnc()| == 14 && |P.DataSql()| == 17;
  }
}
