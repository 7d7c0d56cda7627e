/**
 * Storage conversion there and back, and the conversion itself as the code
 * performs it on an open container and a stored vault.
 */
module VaultRoundTrip {
  import opened Wrappers
  import opened Texts
  import opened FileTree
  import opened VaultConvert
  import P = Poid
  import D = VaultDoc
  import L = PoidLaws
  import O = PoidObject

  // ------------------------------------------------------------- out of the vault

  lemma {:induction false} ExportTreeEffect<V>(kv: D.Kv, codec: Codec<V>)
    requires Ordered(kv) && ExportTree(kv, codec).Some?
    ensures var t := ExportTree(kv, codec).value;
            && Ordered(t) && |t| == |kv| && (forall k :: 0 <= k < |t| ==> t[k].path == kv[k].path)
            && forall k :: Lookup(t, k) ==
                 if Lookup(kv, k).Some? then codec.json.parse(Lookup(kv, k).value) else None
  {
    if kv != [] {
      ExportTreeEffect(kv[1..], codec);
    }
  }

  /** What a written slot file says about its slot. */
  lemma ExportedReads<V(!new)>(kv: D.Kv, codec: Codec<V>)
    requires Ordered(kv) && kv != [] && ExportTree(kv, codec).Some? && Faithful(codec)
    ensures Exported(kv, codec).Some?
    ensures forall k :: InObject(codec.readObject(Exported(kv, codec).value), k) ==
              if Lookup(kv, k).Some? then codec.json.parse(Lookup(kv, k).value) else None
  {
    ExportTreeEffect(kv, codec);
    hide ExportTree, Lookup, Ordered;
  }

  function Written(slots: D.Slots, slot: string): D.Kv {
    if slot != D.DefaultSlot && Lookup(slots, slot).Some? then Lookup(slots, slot).value else []
  }

  ghost predicate SlotsWritten<V>(r: P.Container, c: P.Container, slots: D.Slots, codec: Codec<V>) {
    && Ordered(r.files) && r.manifest == c.manifest
    && (forall s :: var kv := Written(slots, s);
          && (kv != [] ==> ExportTree(kv, codec).Some?)
          && Lookup(r.files, StorePath(s)) == (if kv == [] then Lookup(c.files, StorePath(s)) else Exported(kv, codec)))
    && (forall p :: SlotName(p).None? ==> Lookup(r.files, p) == Lookup(c.files, p))
  }

  lemma PutStore(t: P.Files, slot: string, bytes: Bytes)
    requires Ordered(t)
    ensures var r := Put(t, StorePath(slot), bytes);
            && Ordered(r)
            && (forall s :: Lookup(r, StorePath(s)) == if s == slot then Some(bytes) else Lookup(t, StorePath(s)))
            && (forall p :: SlotName(p).None? ==> Lookup(r, p) == Lookup(t, p))
  {
    hide Lookup, StorePath, SlotName, Put;
    PutOrdered(t, StorePath(slot), bytes);
    SlotPaths("");
    forall p ensures Lookup(Put(t, StorePath(slot), bytes), p) == if p == StorePath(slot) then Some(bytes) else Lookup(t, p) {
      LookupPut(t, StorePath(slot), bytes, p);
    }
    assert forall s :: StorePath(s) == StorePath(slot) ==> s == slot;
  }

  lemma StepWritten<V>(before: P.Container, c: P.Container, slots: D.Slots, codec: Codec<V>)
    requires Ordered(slots) && slots != [] && SlotsWritten(before, c, slots[..|slots| - 1], codec)
    requires WithSlot(before, slots[|slots| - 1].path, slots[|slots| - 1].content, codec).Some?
    ensures SlotsWritten(WithSlot(before, slots[|slots| - 1].path, slots[|slots| - 1].content, codec).value, c, slots, codec)
  {
    var slot, kv := slots[|slots| - 1].path, slots[|slots| - 1].content;
    hide Lookup, StorePath, SlotName, ExportTree, P.PlainSlot;
    forall s ensures Written(slots, s) ==
                     (if s == slot then (if s == D.DefaultSlot then [] else kv) else Written(slots[..|slots| - 1], s)) {
      LookupLast(slots, s);
    }
    LookupLast(slots, slot);
    assert Written(slots[..|slots| - 1], slot) == [];
    hide Written, Exported;
    if slot != D.DefaultSlot && kv != [] {
      PutStore(before.files, slot, Exported(kv, codec).value);
    }
  }

  lemma {:induction false} WithSlotsEffect<V>(c: P.Container, slots: D.Slots, codec: Codec<V>)
    requires Ordered(c.files) && Ordered(slots) && WithSlots(c, slots, codec).Some?
    ensures SlotsWritten(WithSlots(c, slots, codec).value, c, slots, codec)
    decreases |slots|
  {
    if slots != [] {
      hide SlotsWritten, WithSlot;
      WithSlotsEffect(c, slots[..|slots| - 1], codec);
      StepWritten(WithSlots(c, slots[..|slots| - 1], codec).value, c, slots, codec);
    }
  }

  predicate SlotExports<V>(s: File<D.Kv>, codec: Codec<V>) {
    s.path == D.DefaultSlot || (ExportTree(s.content, codec).Some? && (s.content == [] || P.PlainSlot(s.path)))
  }

  /** Moving back succeeds exactly when every stored text is JSON and every named slot in use can name a file. */
  lemma {:induction false} MovesInWhen<V>(c: P.Container, doc: D.Doc, codec: Codec<V>)
    ensures MovedIn(c, doc, codec).Some? <==>
            && ExportTree(D.KvOf(doc, D.DefaultSlot), codec).Some?
            && forall k :: 0 <= k < |doc.slots| ==> SlotExports(doc.slots[k], codec)
  {
    var first := WithDefault(P.Converted(c, P.Embedded), D.KvOf(doc, D.DefaultSlot), codec);
    if first.Some? {
      SlotsMoveWhen(first.value, doc.slots, codec);
    }
  }

  lemma {:induction false} SlotsMoveWhen<V>(c: P.Container, slots: D.Slots, codec: Codec<V>)
    ensures WithSlots(c, slots, codec).Some? <==> forall k :: 0 <= k < |slots| ==> SlotExports(slots[k], codec)
    decreases |slots|
  {
    hide P.PlainSlot, ExportTree;
    if slots != [] {
      SlotsMoveWhen(c, slots[..|slots| - 1], codec);
    }
  }

  /** A container without state files of its own. */
  ghost predicate Stateless(c: P.Container) {
    Ordered(c.files) && (forall s :: Lookup(c.files, StorePath(s)) == None) &&
    Lookup(c.files, P.DataStore()) == None && Lookup(c.files, P.CurrentSlot()) == None
  }

  lemma DefaultWritten<V>(c: P.Container, kv: D.Kv, codec: Codec<V>)
    requires Stateless(c) && WithDefault(c, kv, codec).Some?
    ensures var r := WithDefault(c, kv, codec).value;
            && Ordered(r.files) && (forall s :: Lookup(r.files, StorePath(s)) == None)
            && Lookup(r.files, P.CurrentSlot()) == None
            && Lookup(r.files, P.DataStore()) == (if kv == [] then None else Exported(kv, codec))
  {
    hide Lookup, ExportTree, StorePath, P.DataStore, P.CurrentSlot, SlotName;
    if kv != [] {
      var bytes := Exported(kv, codec).value;
      OtherPaths();
      SlotPaths("");
      PutOrdered(c.files, P.DataStore(), bytes);
      forall p ensures Lookup(Put(c.files, P.DataStore(), bytes), p) ==
                       if p == P.DataStore() then Some(bytes) else Lookup(c.files, p) {
        LookupPut(c.files, P.DataStore(), bytes, p);
      }
    }
  }

  /** The pointer file is written last, and only for a slot other than the default one. */
  lemma PointerWritten<V>(c: P.Container, doc: D.Doc, codec: Codec<V>)
    requires Ordered(c.files) && Lookup(c.files, P.CurrentSlot()) == None
    ensures var r := WithPointer(c, doc, codec);
            && Ordered(r.files)
            && (forall p :: p != P.CurrentSlot() ==> Lookup(r.files, p) == Lookup(c.files, p))
            && Lookup(r.files, P.CurrentSlot()) ==
               (if D.CurrentSlot(doc) == D.DefaultSlot then None else Some(codec.encode(D.CurrentSlot(doc))))
  {
    hide Lookup, P.CurrentSlot;
    var bytes := codec.encode(D.CurrentSlot(doc));
    PutOrdered(c.files, P.CurrentSlot(), bytes);
    forall p ensures Lookup(Put(c.files, P.CurrentSlot(), bytes), p) ==
                     if p == P.CurrentSlot() then Some(bytes) else Lookup(c.files, p) {
      LookupPut(c.files, P.CurrentSlot(), bytes, p);
    }
  }

  /** Every state file of a container that has just been moved into. */
  lemma MovedInFiles<V>(c: P.Container, doc: D.Doc, codec: Codec<V>)
    requires Stateless(P.Converted(c, P.Embedded)) && D.WellFormed(doc) && MovedIn(c, doc, codec).Some?
    ensures var r := MovedIn(c, doc, codec).value.files;
            && Ordered(r)
            && (forall s :: var kv := Written(doc.slots, s);
                  && (kv != [] ==> ExportTree(kv, codec).Some?)
                  && Lookup(r, StorePath(s)) == (if kv == [] then None else Exported(kv, codec)))
            && Lookup(r, P.CurrentSlot()) ==
               (if D.CurrentSlot(doc) == D.DefaultSlot then None else Some(codec.encode(D.CurrentSlot(doc))))
    ensures var r, kv := MovedIn(c, doc, codec).value.files, D.KvOf(doc, D.DefaultSlot);
            && ExportTree(kv, codec).Some?
            && Lookup(r, P.DataStore()) == (if kv == [] then None else Exported(kv, codec))
  {
    var c1 := P.Converted(c, P.Embedded);
    var kv := D.KvOf(doc, D.DefaultSlot);
    var first := WithDefault(c1, kv, codec).value;
    var all := WithSlots(first, doc.slots, codec).value;
    assert Ordered(doc.slots) && ExportTree(kv, codec).Some?;
    OtherPaths();
    SlotPaths("");
    hide Lookup, StorePath, SlotName, P.CurrentSlot, P.DataStore, P.Converted, ExportTree, Exported, Ordered, Written;
    hide WithDefault, WithPointer, WithSlots, D.CurrentSlot, D.KvOf, D.WellFormed;
    DefaultWritten(c1, kv, codec);
    WithSlotsEffect(first, doc.slots, codec);
    PointerWritten(all, doc, codec);
  }

  /** After the move back, the container's files say exactly what the vault said. */
  lemma MovedInShows<V(!new)>(c: P.Container, doc: D.Doc, codec: Codec<V>, slot: string, key: string)
    requires Stateless(P.Converted(c, P.Embedded)) && D.WellFormed(doc) && MovedIn(c, doc, codec).Some? && Faithful(codec)
    ensures Embedded(MovedIn(c, doc, codec).value.files, slot, key, codec) == Vaulted(doc, slot, key, codec)
  {
    MovedInFiles(c, doc, codec);
    D.KvOrdered(doc.slots, slot);
    hide Lookup, StorePath, P.DataStore, P.CurrentSlot, MovedIn, P.Converted, ExportTree, Exported, Faithful, Ordered;
    var kv := D.KvOf(doc, slot);
    NothingThere<string>();
    assert slot != D.DefaultSlot ==> Written(doc.slots, slot) == kv;
    if kv != [] {
      assert ExportTree(kv, codec).Some?;
      ExportedReads(kv, codec);
    }
  }

  // --------------------------------------------------------------- emptied first

  lemma MovedOutStateless(c: P.Container, id: nat)
    requires Ordered(c.files) && P.StorageOf(c.manifest).mode == P.Embedded
    ensures Stateless(P.Converted(MovedOut(c, id), P.Embedded))
  {
    var files := P.DropState(c.files);
    assert MovedOut(c, id).files == files && P.Converted(MovedOut(c, id), P.Embedded).files == files;
    L.StatePaths("");
    hide Lookup, P.IsState, StorePath, P.DataStore, P.CurrentSlot;
    forall p | P.IsState(p) ensures Lookup(files, p) == None {
      RetainKeeps(c.files, (q: string) => !P.IsState(q), p);
    }
    RetainKeeps(c.files, (q: string) => !P.IsState(q), "");
    forall s ensures P.IsState(StorePath(s)) {
      IsStore(s);
    }
  }

  lemma IsStore(slot: string)
    ensures P.IsState(StorePath(slot))
  {
    L.StatePaths(slot);
  }

  // ------------------------------------------------------ when the way back works

  /** This entry can go back: its text is JSON, and its slot is the default one or has a plain name. */
  predicate EntryReturns<V>(slot: string, raw: Option<string>, codec: Codec<V>) {
    raw.Some? ==> codec.json.parse(raw.value).Some? && (slot != D.DefaultSlot ==> P.PlainSlot(slot))
  }

  ghost predicate KvReturns<V>(slot: string, kv: D.Kv, codec: Codec<V>) {
    forall k :: EntryReturns(slot, Lookup(kv, k), codec)
  }

  /** Slot by slot: exportable, and plainly named if named and in use. */
  lemma {:induction false} KvReturnsWhen<V>(slot: string, kv: D.Kv, codec: Codec<V>)
    requires Ordered(kv)
    ensures KvReturns(slot, kv, codec) <==>
            ExportTree(kv, codec).Some? && (slot == D.DefaultSlot || kv == [] || P.PlainSlot(slot))
  {
    hide P.PlainSlot;
    if kv != [] {
      var rest := kv[1..];
      LessStrict(kv[0].path, kv[0].path);
      HeadFirst(kv, kv[0].path);
      KvReturnsWhen(slot, rest, codec);
      assert Lookup(kv, kv[0].path) == Some(kv[0].content) && Lookup(rest, kv[0].path) == None;
      if KvReturns(slot, kv, codec) {
        assert EntryReturns(slot, Lookup(kv, kv[0].path), codec);
        forall k ensures EntryReturns(slot, Lookup(rest, k), codec) {
          assert EntryReturns(slot, Lookup(kv, k), codec);
        }
      }
      if EntryReturns(slot, Some(kv[0].content), codec) && KvReturns(slot, rest, codec) {
        forall k ensures EntryReturns(slot, Lookup(kv, k), codec) {
          assert EntryReturns(slot, Lookup(rest, k), codec);
        }
      }
    }
  }

  /** The way back works exactly when every entry can go back. */
  lemma ReturnsExactly<V>(c: P.Container, doc: D.Doc, codec: Codec<V>)
    requires D.WellFormed(doc)
    ensures MovedIn(c, doc, codec).Some? <==> forall s, k :: EntryReturns(s, D.RawGet(doc, s, k), codec)
  {
    assert Ordered(doc.slots);
    hide MovedIn, EntryReturns, P.PlainSlot, ExportTree, Lookup, Ordered, D.WellFormed, D.KvOf;
    MovesInWhen(c, doc, codec);
    forall s ensures KvReturns(s, D.KvOf(doc, s), codec) <==>
                     && ExportTree(D.KvOf(doc, s), codec).Some?
                     && (s == D.DefaultSlot || D.KvOf(doc, s) == [] || P.PlainSlot(s)) {
      SlotOrdered(doc, s);
      KvReturnsWhen(s, D.KvOf(doc, s), codec);
    }
    forall k | 0 <= k < |doc.slots| ensures D.KvOf(doc, doc.slots[k].path) == doc.slots[k].content {
      SlotListed(doc, k);
    }
    if MovedIn(c, doc, codec).Some? {
      forall s ensures KvReturns(s, D.KvOf(doc, s), codec) {
        UnknownOrListed(doc, s, codec);
      }
    }
    assert forall s, k :: D.RawGet(doc, s, k) == Lookup(D.KvOf(doc, s), k);
  }

  lemma SlotOrdered(doc: D.Doc, slot: string)
    requires D.WellFormed(doc)
    ensures Ordered(D.KvOf(doc, slot))
  {
    D.KvOrdered(doc.slots, slot);
  }

  lemma SlotListed(doc: D.Doc, k: nat)
    requires D.WellFormed(doc) && k < |doc.slots|
    ensures D.KvOf(doc, doc.slots[k].path) == doc.slots[k].content
  {
    LookupAt(doc.slots, k);
  }

  lemma UnknownOrListed<V>(doc: D.Doc, slot: string, codec: Codec<V>)
    ensures (ExportTree(D.KvOf(doc, slot), codec).Some? && D.KvOf(doc, slot) == []) ||
            exists k :: 0 <= k < |doc.slots| && doc.slots[k].path == slot
  {
    if Lookup(doc.slots, slot).Some? {
      LookupFound(doc.slots, slot);
    }
  }

  /** What the vault will hold there: the container's value in text form, or its own text. */
  function Moved<V>(files: P.Files, doc: D.Doc, slot: string, key: string, codec: Codec<V>): Option<string> {
    var mine := Embedded(files, slot, key, codec);
    if mine.Some? then Some(codec.json.text(mine.value)) else D.RawGet(doc, slot, key)
  }

  /** Every named slot in use, on either side, has a plain name, and the vault's own surviving texts are JSON. */
  ghost predicate Returns<V>(files: P.Files, doc: D.Doc, codec: Codec<V>) {
    forall s, k :: EntryReturns(s, Moved(files, doc, s, k, codec), codec)
  }

  /** After a move out, the move back succeeds exactly then. */
  lemma ReturnSucceeds<V(!new)>(c: P.Container, doc: D.Doc, id: nat, quota: nat, codec: Codec<V>)
    requires Ordered(c.files) && D.WellFormed(doc) && Faithful(codec) && Seeded(doc, c.files, quota, codec).Some?
    ensures MovedIn(MovedOut(c, id), Seeded(doc, c.files, quota, codec).value, codec).Some? <==>
            Returns(c.files, doc, codec)
  {
    hide MovedIn, MovedOut, Seeded, Embedded, D.RawGet, D.WellFormed, D.CurrentSlot, Faithful, Ordered, EntryReturns;
    var d := Seeded(doc, c.files, quota, codec).value;
    SeededOverlays(doc, c.files, quota, codec);
    ReturnsExactly(MovedOut(c, id), d, codec);
    assert forall s, k :: D.RawGet(d, s, k) == Moved(c.files, doc, s, k, codec);
  }

  // ---------------------------------------------------------------- there and back

  /**
   * Embedded to vault and back: every slot ends up with what the vault held before,
   * overlaid by what the container held, whatever else the two contained.
   */
  lemma RoundTripOverlays<V(!new)>(c: P.Container, doc: D.Doc, id: nat, quota: nat, codec: Codec<V>, slot: string, key: string)
    requires Ordered(c.files) && P.StorageOf(c.manifest).mode == P.Embedded && D.WellFormed(doc) && Faithful(codec)
    requires Seeded(doc, c.files, quota, codec).Some? && Returns(c.files, doc, codec)
    ensures MovedIn(MovedOut(c, id), Seeded(doc, c.files, quota, codec).value, codec).Some?
    ensures var back := MovedIn(MovedOut(c, id), Seeded(doc, c.files, quota, codec).value, codec).value;
            var mine := Embedded(c.files, slot, key, codec);
            Embedded(back.files, slot, key, codec) == if mine.Some? then mine else Vaulted(doc, slot, key, codec)
  {
    assert forall v :: codec.json.parse(codec.json.text(v)) == Some(v);
    hide Stateless, MovedOut, Embedded, MovedIn, Seeded, Faithful, D.WellFormed, D.RawGet, D.CurrentSlot, Ordered, Returns;
    ReturnSucceeds(c, doc, id, quota, codec);
    MovedOutStateless(c, id);
    SeededOverlays(doc, c.files, quota, codec);
    var d := Seeded(doc, c.files, quota, codec).value;
    MovedInShows(MovedOut(c, id), d, codec, slot, key);
  }

  ghost predicate Nothing(doc: D.Doc) {
    forall s, k :: D.RawGet(doc, s, k).None?
  }

  /** Every named slot the container uses can name a file. */
  ghost predicate PlainNames<V>(files: P.Files, codec: Codec<V>) {
    forall s, k :: s != D.DefaultSlot && Embedded(files, s, k, codec).Some? ==> P.PlainSlot(s)
  }

  lemma EmptyVaultReturns<V(!new)>(files: P.Files, doc: D.Doc, codec: Codec<V>)
    requires Nothing(doc) && Faithful(codec)
    ensures Returns(files, doc, codec) <==> PlainNames(files, codec)
  {
    assert forall v :: codec.json.parse(codec.json.text(v)) == Some(v);
    hide Embedded, P.PlainSlot, D.RawGet, Faithful;
    forall s, k ensures EntryReturns(s, Moved(files, doc, s, k, codec), codec) <==>
                        (s != D.DefaultSlot && Embedded(files, s, k, codec).Some? ==> P.PlainSlot(s)) {
    }
  }

  /** Into an empty vault entry and back: it works exactly for plain slot names, and is the identity on every value. */
  lemma RoundTripIdentity<V(!new)>(c: P.Container, doc: D.Doc, id: nat, quota: nat, codec: Codec<V>, slot: string, key: string)
    requires Ordered(c.files) && P.StorageOf(c.manifest).mode == P.Embedded && D.WellFormed(doc) && Faithful(codec)
    requires Nothing(doc) && Seeded(doc, c.files, quota, codec).Some?
    ensures var back := MovedIn(MovedOut(c, id), Seeded(doc, c.files, quota, codec).value, codec);
            && (back.Some? <==> PlainNames(c.files, codec))
            && (back.Some? ==> Embedded(back.value.files, slot, key, codec) == Embedded(c.files, slot, key, codec))
  {
    hide Embedded, MovedIn, Seeded, Faithful, Ordered, D.WellFormed, MovedOut, D.RawGet, Returns, PlainNames;
    EmptyVaultReturns(c.files, doc, codec);
    ReturnSucceeds(c, doc, id, quota, codec);
    if Returns(c.files, doc, codec) {
      RoundTripOverlays(c, doc, id, quota, codec, slot, key);
    }
  }

  /** The pointer file of a container that has been there and back. */
  lemma PointerReturns<V(!new)>(c: P.Container, doc: D.Doc, id: nat, quota: nat, codec: Codec<V>)
    requires Ordered(c.files) && P.StorageOf(c.manifest).mode == P.Embedded && D.WellFormed(doc) && Faithful(codec)
    requires Seeded(doc, c.files, quota, codec).Some? && Returns(c.files, doc, codec)
    ensures MovedIn(MovedOut(c, id), Seeded(doc, c.files, quota, codec).value, codec).Some?
    ensures var back := MovedIn(MovedOut(c, id), Seeded(doc, c.files, quota, codec).value, codec).value;
            var pointer := Lookup(c.files, P.CurrentSlot());
            var current := if pointer.Some? then PointedSlot(pointer.value, codec) else D.CurrentSlot(doc);
            Lookup(back.files, P.CurrentSlot()) ==
            if current == D.DefaultSlot then None else Some(codec.encode(current))
  {
    hide Stateless, MovedOut, Embedded, MovedIn, Seeded, Faithful, D.WellFormed, D.RawGet, D.CurrentSlot, Ordered, Returns;
    hide Lookup, ExportTree, Exported, Written, PointedSlot;
    ReturnSucceeds(c, doc, id, quota, codec);
    MovedOutStateless(c, id);
    SeededOverlays(doc, c.files, quota, codec);
    MovedInFiles(MovedOut(c, id), Seeded(doc, c.files, quota, codec).value, codec);
  }

  /** The slot a container's pointer makes active. */
  function ActiveSlot<V>(files: P.Files, codec: Codec<V>): string {
    var pointer := Lookup(files, P.CurrentSlot());
    if pointer.Some? then PointedSlot(pointer.value, codec) else D.DefaultSlot
  }

  /**
   * With an empty vault entry the active slot is the same afterwards, always. The pointer
   * file itself comes back byte for byte exactly when it is absent, or names a slot other
   * than the default one without white space around it.
   */
  lemma RoundTripPointer<V(!new)>(c: P.Container, doc: D.Doc, id: nat, quota: nat, codec: Codec<V>, text: string)
    requires Ordered(c.files) && P.StorageOf(c.manifest).mode == P.Embedded && D.WellFormed(doc) && Faithful(codec)
    requires Utf8(codec) && D.CurrentSlot(doc) == D.DefaultSlot
    requires Seeded(doc, c.files, quota, codec).Some? && Returns(c.files, doc, codec)
    requires var pointer := Lookup(c.files, P.CurrentSlot()); pointer.Some? ==> pointer.value == codec.encode(text)
    ensures MovedIn(MovedOut(c, id), Seeded(doc, c.files, quota, codec).value, codec).Some?
    ensures var back := MovedIn(MovedOut(c, id), Seeded(doc, c.files, quota, codec).value, codec).value;
            && ActiveSlot(back.files, codec) == ActiveSlot(c.files, codec)
            && (Lookup(back.files, P.CurrentSlot()) == Lookup(c.files, P.CurrentSlot()) <==>
                (Lookup(c.files, P.CurrentSlot()).Some? ==> Trimmed(text) && text != D.DefaultSlot))
  {
    assert codec.decode(codec.encode(text)) == text;
    assert codec.decode(codec.encode(Trim(text))) == Trim(text);
    assert D.CurrentSlot(doc) == D.DefaultSlot;
    hide MovedOut, Embedded, MovedIn, Seeded, Faithful, D.WellFormed, D.RawGet, D.CurrentSlot, Ordered, Returns, Lookup, Trim, Utf8;
    PointerReturns(c, doc, id, quota, codec);
    assert Trim(Trim(text)) == Trim(text);
  }

  /** A store file of a slot, as far as it is the only source of that slot's values. */
  function SoleStore(files: P.Files, slot: string): Option<Bytes> {
    if slot == D.DefaultSlot then (if Lookup(files, StorePath(slot)).None? then Lookup(files, P.DataStore()) else None)
    else Lookup(files, StorePath(slot))
  }

  lemma SoleStoreHolds<V>(files: P.Files, slot: string, obj: Obj<V>, codec: Codec<V>)
    requires SoleStore(files, slot).Some? && codec.readObject(SoleStore(files, slot).value) == Some(obj)
    ensures forall k :: Embedded(files, slot, k, codec) == Lookup(obj, k)
  {
    hide Lookup, StorePath, P.DataStore;
  }

  /** A store file written canonically, `data/store.json` included, comes back byte for byte. */
  lemma RoundTripBytes<V(!new)>(c: P.Container, doc: D.Doc, id: nat, quota: nat, codec: Codec<V>, slot: string, obj: Obj<V>)
    requires Ordered(c.files) && P.StorageOf(c.manifest).mode == P.Embedded && D.WellFormed(doc) && Faithful(codec)
    requires Nothing(doc) && Seeded(doc, c.files, quota, codec).Some? && PlainNames(c.files, codec)
    requires Ordered(obj) && obj != [] && SoleStore(c.files, slot) == Some(codec.writeObject(obj))
    ensures MovedIn(MovedOut(c, id), Seeded(doc, c.files, quota, codec).value, codec).Some?
    ensures var back := MovedIn(MovedOut(c, id), Seeded(doc, c.files, quota, codec).value, codec).value;
            SoleStore(back.files, slot) == SoleStore(c.files, slot)
  {
    var d := Seeded(doc, c.files, quota, codec).value;
    assert forall v :: codec.json.parse(codec.json.text(v)) == Some(v);
    assert codec.readObject(codec.writeObject(obj)) == Some(obj);
    hide Embedded, MovedIn, Seeded, Faithful, Ordered, D.WellFormed, MovedOut, D.RawGet, D.CurrentSlot, Returns, PlainNames;
    hide SoleStore, Stateless, ExportTree, Exported, Lookup, Nothing;
    EmptyVaultReturns(c.files, doc, codec);
    ReturnSucceeds(c, doc, id, quota, codec);
    SoleStoreHolds(c.files, slot, obj, codec);
    MovedOutStateless(c, id);
    SeededOverlays(doc, c.files, quota, codec);
    SlotHolds(d, doc, c.files, slot, obj, codec);
    MovedInSole(MovedOut(c, id), d, slot, codec);
  }

  /** The vault's slot after the move out is the object, in text form. */
  lemma SlotHolds<V(!new)>(d: D.Doc, doc: D.Doc, files: P.Files, slot: string, obj: Obj<V>, codec: Codec<V>)
    requires D.WellFormed(d) && Nothing(doc) && Ordered(obj) && obj != []
    requires forall v :: codec.json.parse(codec.json.text(v)) == Some(v)
    requires forall k :: Embedded(files, slot, k, codec) == Lookup(obj, k)
    requires forall s, k :: D.RawGet(d, s, k) ==
               var v := Embedded(files, s, k, codec);
               if v.Some? then Some(codec.json.text(v.value)) else D.RawGet(doc, s, k)
    ensures var kv := D.KvOf(d, slot);
            kv != [] && (ExportTree(kv, codec).Some? ==> Exported(kv, codec) == Some(codec.writeObject(obj)))
  {
    D.KvOrdered(d.slots, slot);
    var kv := D.KvOf(d, slot);
    hide Embedded, Ordered, D.WellFormed, ExportTree, Lookup;
    assert forall k :: D.RawGet(d, slot, k) == Lookup(kv, k);
    SameTree(kv, obj, codec);
  }

  lemma MovedInSole<V>(c: P.Container, doc: D.Doc, slot: string, codec: Codec<V>)
    requires Stateless(P.Converted(c, P.Embedded)) && D.WellFormed(doc) && MovedIn(c, doc, codec).Some?
    requires D.KvOf(doc, slot) != []
    ensures var kv := D.KvOf(doc, slot);
            ExportTree(kv, codec).Some? && SoleStore(MovedIn(c, doc, codec).value.files, slot) == Exported(kv, codec)
  {
    hide MovedIn, D.WellFormed, ExportTree, Exported, Lookup, Stateless, P.Converted, D.CurrentSlot;
    MovedInFiles(c, doc, codec);
    assert slot != D.DefaultSlot ==> Written(doc.slots, slot) == D.KvOf(doc, slot);
    assert Written(doc.slots, D.DefaultSlot) == [];
  }

  lemma SameTree<V>(kv: D.Kv, obj: Obj<V>, codec: Codec<V>)
    requires Ordered(kv) && Ordered(obj) && obj != []
    requires forall k :: Lookup(kv, k) ==
               if Lookup(obj, k).Some? then Some(codec.json.text(Lookup(obj, k).value)) else None
    requires forall v :: codec.json.parse(codec.json.text(v)) == Some(v)
    ensures kv != [] && (ExportTree(kv, codec).Some? ==> ExportTree(kv, codec).value == obj)
  {
    assert Lookup(obj, obj[0].path).Some?;
    assert Lookup(kv, obj[0].path).Some?;
    if ExportTree(kv, codec).Some? {
      ExportTreeEffect(kv, codec);
      hide Lookup, ExportTree;
      SameLookups(ExportTree(kv, codec).value, obj);
    }
  }
}
