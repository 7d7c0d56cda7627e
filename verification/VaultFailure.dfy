/**
 * What a failing move out of the vault leaves behind: when the container is
 * unchanged, decided from the container and the document alone.
 */
module VaultFailure {
  import opened Wrappers
  import opened FileTree
  import opened VaultConvert
  import opened VaultRoundTrip
  import opened VaultMove
  import P = Poid
  import D = VaultDoc

  /** A slot that cannot be written: a text in it is not JSON, or it is in use under a name that cannot name a file. */
  predicate Unwritable<V>(s: File<D.Kv>, codec: Codec<V>) {
    s.path != D.DefaultSlot && (ExportTree(s.content, codec).None? || (s.content != [] && !P.PlainSlot(s.path)))
  }

  /** The first slot that cannot be written, or the number of slots. */
  function FirstUnwritable<V>(slots: D.Slots, codec: Codec<V>): (k: nat)
    ensures k <= |slots|
    ensures forall j :: 0 <= j < k ==> !Unwritable(slots[j], codec)
    ensures k < |slots| ==> Unwritable(slots[k], codec)
  {
    if slots == [] || Unwritable(slots[0], codec) then 0
    else
      var k := FirstUnwritable(slots[1..], codec);
      assert forall j :: 0 <= j < k + 1 ==> slots[j] == (if j == 0 then slots[0] else slots[1..][j - 1]);
      1 + k
  }

  lemma {:induction false} WritableGoIn<V>(c: P.Container, slots: D.Slots, codec: Codec<V>)
    requires forall j :: 0 <= j < |slots| ==> !Unwritable(slots[j], codec)
    ensures WithSlots(c, slots, codec).Some?
    decreases |slots|
  {
    hide P.PlainSlot, ExportTree;
    if slots != [] {
      WritableGoIn(c, slots[..|slots| - 1], codec);
    }
  }

  /** The slots before the failing one are all in, and nothing after it. */
  lemma SoFarIsPrefix<V>(c: P.Container, slots: D.Slots, codec: Codec<V>)
    ensures var k := FirstUnwritable(slots, codec);
            WithSlots(c, slots[..k], codec).Some? && SlotsSoFar(c, slots, codec) == WithSlots(c, slots[..k], codec).value
  {
    var k := FirstUnwritable(slots, codec);
    hide Unwritable, FirstUnwritable;
    forall j | 0 <= j < k ensures !Unwritable(slots[..k][j], codec) {
      assert slots[..k][j] == slots[j];
    }
    WritableGoIn(c, slots[..k], codec);
    assert slots[..|slots|] == slots;
    if k < |slots| {
      UnwritableStops(WithSlots(c, slots[..k], codec).value, slots[k], codec);
      SoFarWhenStopped(c, slots, k, |slots|, codec);
    } else {
      SoFarWhenAllIn(c, slots, codec);
    }
  }

  lemma UnwritableStops<V>(c: P.Container, s: File<D.Kv>, codec: Codec<V>)
    requires Unwritable(s, codec)
    ensures WithSlot(c, s.path, s.content, codec).None?
  {
  }

  lemma SoFarWhenAllIn<V>(c: P.Container, slots: D.Slots, codec: Codec<V>)
    requires WithSlots(c, slots, codec).Some?
    ensures SlotsSoFar(c, slots, codec) == WithSlots(c, slots, codec).value
  {
  }

  // ------------------------------------------------------------- nothing changed

  /** The store file of a slot, if it has to be written, is already there as it would be written. */
  predicate StoreThere<V>(files: P.Files, path: string, kv: D.Kv, codec: Codec<V>) {
    kv == [] || (ExportTree(kv, codec).Some? && Lookup(files, path) == Exported(kv, codec))
  }

  /** Every store written before the failure is already there. */
  predicate StoresThere<V>(files: P.Files, doc: D.Doc, codec: Codec<V>) {
    var kv := D.KvOf(doc, D.DefaultSlot);
    ExportTree(kv, codec).Some? ==>
      && StoreThere(files, P.DataStore(), kv, codec)
      && forall j :: 0 <= j < FirstUnwritable(doc.slots, codec) && doc.slots[j].path != D.DefaultSlot ==>
                       StoreThere(files, StorePath(doc.slots[j].path), doc.slots[j].content, codec)
  }

  lemma WrittenSlots(slots: D.Slots, n: nat)
    requires Ordered(slots) && n <= |slots|
    ensures Ordered(slots[..n])
    ensures forall j :: 0 <= j < n && slots[j].path != D.DefaultSlot ==> Written(slots[..n], slots[j].path) == slots[j].content
    ensures forall s :: Written(slots[..n], s) != [] ==>
              exists j :: 0 <= j < n && slots[j].path == s && s != D.DefaultSlot && slots[j].content == Written(slots[..n], s)
  {
    var some := slots[..n];
    assert Ordered(some);
    hide Lookup;
    forall j | 0 <= j < n && slots[j].path != D.DefaultSlot ensures Written(some, slots[j].path) == slots[j].content {
      LookupAt(some, j);
    }
    forall s | Written(some, s) != []
      ensures exists j :: 0 <= j < n && slots[j].path == s && s != D.DefaultSlot && slots[j].content == Written(some, s) {
      LookupFound(some, s);
      var j :| 0 <= j < |some| && some[j].path == s;
      LookupAt(some, j);
      assert slots[j].path == s;
    }
  }

  /** What the stores written before the failure make of the files. */
  ghost predicate FilesAfter<V>(r: P.Files, files: P.Files, doc: D.Doc, codec: Codec<V>) {
    var n, kv := FirstUnwritable(doc.slots, codec), D.KvOf(doc, D.DefaultSlot);
    && Ordered(r)
    && (forall s :: var w := Written(doc.slots[..n], s);
          && (w != [] ==> ExportTree(w, codec).Some?)
          && Lookup(r, StorePath(s)) == (if w == [] then Lookup(files, StorePath(s)) else Exported(w, codec)))
    && (kv != [] ==> ExportTree(kv, codec).Some?)
    && Lookup(r, P.DataStore()) == (if kv == [] then Lookup(files, P.DataStore()) else Exported(kv, codec))
    && (forall p :: SlotName(p).None? && p != P.DataStore() ==> Lookup(r, p) == Lookup(files, p))
  }

  lemma DefaultAlone<V>(c: P.Container, kv: D.Kv, codec: Codec<V>)
    requires Ordered(c.files) && WithDefault(c, kv, codec).Some?
    ensures var r := WithDefault(c, kv, codec).value;
            && Ordered(r.files) && r.manifest == c.manifest
            && Lookup(r.files, P.DataStore()) == (if kv == [] then Lookup(c.files, P.DataStore()) else Exported(kv, codec))
            && forall p :: p != P.DataStore() ==> Lookup(r.files, p) == Lookup(c.files, p)
  {
    hide Lookup, ExportTree, P.DataStore;
    if kv != [] {
      var bytes := Exported(kv, codec).value;
      PutOrdered(c.files, P.DataStore(), bytes);
      forall p ensures Lookup(Put(c.files, P.DataStore(), bytes), p) ==
                       if p == P.DataStore() then Some(bytes) else Lookup(c.files, p) {
        LookupPut(c.files, P.DataStore(), bytes, p);
      }
    }
  }

  lemma StoppedFiles<V>(c: P.Container, doc: D.Doc, codec: Codec<V>)
    requires Ordered(P.Converted(c, P.Embedded).files) && Ordered(doc.slots)
    requires ExportTree(D.KvOf(doc, D.DefaultSlot), codec).Some?
    ensures FilesAfter(Stopped(c, doc, codec).files, P.Converted(c, P.Embedded).files, doc, codec)
    ensures Stopped(c, doc, codec).manifest == P.Converted(c, P.Embedded).manifest
  {
    hide P.Converted, Lookup, StorePath, SlotName, P.DataStore, P.CurrentSlot, ExportTree, Exported, WithDefault, D.KvOf;
    hide FirstUnwritable, Ordered, Written, SlotsSoFar, WithSlots, FilesAfter;
    var converted := P.Converted(c, P.Embedded);
    DefaultGoesIn(converted, D.KvOf(doc, D.DefaultSlot), codec);
    SlotsAfterDefault(converted, doc, codec);
  }

  lemma DefaultGoesIn<V>(c: P.Container, kv: D.Kv, codec: Codec<V>)
    requires ExportTree(kv, codec).Some?
    ensures WithDefault(c, kv, codec).Some?
  {
  }

  lemma SlotsAfterDefault<V>(c: P.Container, doc: D.Doc, codec: Codec<V>)
    requires Ordered(c.files) && Ordered(doc.slots) && ExportTree(D.KvOf(doc, D.DefaultSlot), codec).Some?
    requires WithDefault(c, D.KvOf(doc, D.DefaultSlot), codec).Some?
    ensures var r := SlotsSoFar(WithDefault(c, D.KvOf(doc, D.DefaultSlot), codec).value, doc.slots, codec);
            FilesAfter(r.files, c.files, doc, codec) && r.manifest == c.manifest
  {
    hide Lookup, StorePath, SlotName, P.DataStore, P.CurrentSlot, ExportTree, Exported, WithDefault, D.KvOf;
    hide FirstUnwritable, Ordered, Written, SlotsSoFar, WithSlots;
    var kv, n := D.KvOf(doc, D.DefaultSlot), FirstUnwritable(doc.slots, codec);
    var first := WithDefault(c, kv, codec).value;
    OtherPaths();
    SlotPaths("");
    DefaultAlone(c, kv, codec);
    SoFarIsPrefix(first, doc.slots, codec);
    WrittenSlots(doc.slots, n);
    WithSlotsEffect(first, doc.slots[..n], codec);
  }

  /** Those files are the ones that were there exactly if every store was already there as written. */
  lemma FilesAfterSame<V>(r: P.Files, files: P.Files, doc: D.Doc, codec: Codec<V>)
    requires Ordered(files) && Ordered(doc.slots) && FilesAfter(r, files, doc, codec)
    requires ExportTree(D.KvOf(doc, D.DefaultSlot), codec).Some?
    ensures r == files <==> StoresThere(files, doc, codec)
  {
    var n := FirstUnwritable(doc.slots, codec);
    hide Lookup, StorePath, SlotName, P.DataStore, ExportTree, Exported, D.KvOf, FirstUnwritable, Ordered, Written;
    WrittenSlots(doc.slots, n);
    if r == files {
      forall j | 0 <= j < n && doc.slots[j].path != D.DefaultSlot
        ensures StoreThere(files, StorePath(doc.slots[j].path), doc.slots[j].content, codec) {
        assert Written(doc.slots[..n], doc.slots[j].path) == doc.slots[j].content;
      }
    }
    if StoresThere(files, doc, codec) {
      forall p ensures Lookup(r, p) == Lookup(files, p) {
        SlotPaths(p);
        if SlotName(p).Some? {
          var s := SlotName(p).value;
          var w := Written(doc.slots[..n], s);
          if w != [] {
            var j :| 0 <= j < n && doc.slots[j].path == s && s != D.DefaultSlot && doc.slots[j].content == w;
            assert StoreThere(files, StorePath(doc.slots[j].path), doc.slots[j].content, codec);
          }
        }
      }
      SameLookups(r, files);
    }
  }

  /** Converting to embedded changes nothing exactly in a container that says so already. */
  lemma ConvertedSame(c: P.Container)
    ensures P.Converted(c, P.Embedded).files == c.files
    ensures P.Converted(c, P.Embedded).manifest == c.manifest <==>
            c.manifest.storage.Some? && c.manifest.storage.value.mode == P.Embedded
    ensures P.StorageOf(P.Converted(c, P.Embedded).manifest).mode == P.Embedded
  {
  }

  /**
   * A failing move back leaves the container in embedded mode. It is unchanged exactly if
   * it was in that mode and every store written before the failing slot was already there
   * as it was written; if already the default slot cannot be exported, none is.
   */
  lemma FailureIsPartial<V>(c: P.Container, doc: D.Doc, codec: Codec<V>)
    requires Ordered(c.files) && D.WellFormed(doc) && MovedIn(c, doc, codec).None?
    ensures P.StorageOf(Stopped(c, doc, codec).manifest).mode == P.Embedded
    ensures Stopped(c, doc, codec) == c <==>
            && c.manifest.storage.Some? && c.manifest.storage.value.mode == P.Embedded
            && StoresThere(c.files, doc, codec)
  {
    ConvertedSame(c);
    var kv := D.KvOf(doc, D.DefaultSlot);
    if ExportTree(kv, codec).None? {
      assert Stopped(c, doc, codec) == P.Converted(c, P.Embedded);
    } else {
      assert Ordered(doc.slots);
      hide P.Converted, ExportTree, Stopped, D.KvOf, StoresThere, FilesAfter, Ordered, MovedIn;
      StoppedFiles(c, doc, codec);
      FilesAfterSame(Stopped(c, doc, codec).files, c.files, doc, codec);
    }
  }

  /** It fails exactly if the default slot cannot be exported or some slot cannot be written. */
  lemma FailsExactly<V>(c: P.Container, doc: D.Doc, codec: Codec<V>)
    ensures MovedIn(c, doc, codec).None? <==>
            ExportTree(D.KvOf(doc, D.DefaultSlot), codec).None? || FirstUnwritable(doc.slots, codec) < |doc.slots|
  {
    hide MovedIn, P.PlainSlot, ExportTree, D.KvOf;
    MovesInWhen(c, doc, codec);
    assert forall k :: 0 <= k < |doc.slots| ==> (SlotExports(doc.slots[k], codec) <==> !Unwritable(doc.slots[k], codec));
  }
}
