/**
 * Moving a container's state between its own `data/` and `slots/` files and the
 * vault, in both directions.
 */
module VaultConvert {
  import opened Wrappers
  import opened Texts
  import opened FileTree
  import P = Poid
  import D = VaultDoc

  type Obj<V> = seq<File<V>>

  /** How store files are read as JSON objects and written canonically, and texts as UTF-8. */
  datatype Codec<!V> = Codec(
    json: D.Json<V>,
    readObject: Bytes -> Option<Obj<V>>, writeObject: Obj<V> -> Bytes,
    decode: Bytes -> string, encode: string -> Bytes)

  /** JSON objects are ordered maps, and canonical files read back as what was written. */
  ghost predicate Faithful<V(!new)>(codec: Codec<V>) {
    && D.Faithful(codec.json)
    && (forall bytes :: codec.readObject(bytes).Some? ==> Ordered(codec.readObject(bytes).value))
    && (forall obj :: Ordered(obj) ==> codec.readObject(codec.writeObject(obj)) == Some(obj))
  }

  /** Text survives being written as UTF-8. */
  ghost predicate Utf8<V>(codec: Codec<V>) {
    forall text :: codec.decode(codec.encode(text)) == text
  }

  /** The slot a pointer file names: its text without surrounding white space. */
  function PointedSlot<V>(bytes: Bytes, codec: Codec<V>): string {
    Trim(codec.decode(bytes))
  }

  function StorePath(slot: string): string {
    P.SlotStore(slot)
  }

  // ----------------------------------------------------------- what a file holds

  /** The object a store file of the container holds, if it is there and readable. */
  function ObjectAt<V>(files: P.Files, path: string, codec: Codec<V>): Option<Obj<V>> {
    match Lookup(files, path)
    case None => None
    case Some(bytes) => codec.readObject(bytes)
  }

  function InObject<V>(obj: Option<Obj<V>>, key: string): Option<V> {
    if obj.Some? then Lookup(obj.value, key) else None
  }

  /** The value a container's state files give a key of a slot. */
  function Embedded<V>(files: P.Files, slot: string, key: string, codec: Codec<V>): Option<V> {
    var named := InObject(ObjectAt(files, StorePath(slot), codec), key);
    if named.Some? then named
    else if slot == D.DefaultSlot then InObject(ObjectAt(files, P.DataStore(), codec), key)
    else None
  }

  /** The value the vault gives it. */
  function Vaulted<V>(doc: D.Doc, slot: string, key: string, codec: Codec<V>): Option<V> {
    var raw := D.RawGet(doc, slot, key);
    if raw.Some? then codec.json.parse(raw.value) else None
  }

  // ---------------------------------------------------------- embedded to vault

  function SeedObject<V>(doc: D.Doc, slot: string, obj: Obj<V>, quota: nat, codec: Codec<V>): Option<D.Doc> {
    if obj == [] then Some(doc)
    else
      var before := SeedObject(doc, slot, obj[..|obj| - 1], quota, codec);
      var e := obj[|obj| - 1];
      if before.None? || D.Projected(before.value, slot, e.path, e.content, codec.json) > quota then None
      else Some(D.WithKey(before.value, slot, e.path, codec.json.text(e.content)))
  }

  function SeedSlot<V>(doc: D.Doc, slot: string, bytes: Bytes, quota: nat, codec: Codec<V>): Option<D.Doc> {
    var obj := codec.readObject(bytes);
    if obj.None? then None else SeedObject(doc, slot, obj.value, quota, codec)
  }

  /** The slot a path is the store of. */
  function SlotName(path: string): Option<string> {
    var tail := "/store.json";
    if P.SlotsDir() <= path && |P.SlotsDir()| + |tail| <= |path| && path[|path| - |tail|..] == tail
    then Some(path[|P.SlotsDir()|..|path| - |tail|])
    else None
  }

  function NamedStores(files: P.Files): seq<File<Bytes>> {
    if files == [] then []
    else
      var f, before := files[|files| - 1], NamedStores(files[..|files| - 1]);
      if SlotName(f.path).Some? then before + [File(SlotName(f.path).value, f.content)] else before
  }

  function SeedStores<V>(doc: D.Doc, stores: seq<File<Bytes>>, quota: nat, codec: Codec<V>): Option<D.Doc> {
    if stores == [] then Some(doc)
    else
      var before := SeedStores(doc, stores[..|stores| - 1], quota, codec);
      var f := stores[|stores| - 1];
      if before.None? then None else SeedSlot(before.value, f.path, f.content, quota, codec)
  }

  function SeedDefault<V>(doc: D.Doc, files: P.Files, quota: nat, codec: Codec<V>): Option<D.Doc> {
    var data := Lookup(files, P.DataStore());
    if data.Some? then SeedSlot(doc, D.DefaultSlot, data.value, quota, codec) else Some(doc)
  }

  function PointedBy<V>(doc: D.Doc, files: P.Files, codec: Codec<V>): D.Doc {
    var pointer := Lookup(files, P.CurrentSlot());
    if pointer.Some? then doc.(current := Some(PointedSlot(pointer.value, codec))) else doc
  }

  /** The document the vault holds after the container's state has been moved in. */
  function Seeded<V>(doc: D.Doc, files: P.Files, quota: nat, codec: Codec<V>): Option<D.Doc> {
    var first := SeedDefault(doc, files, quota, codec);
    if first.None? then None
    else
      var all := SeedStores(first.value, NamedStores(files), quota, codec);
      if all.None? then None else Some(PointedBy(all.value, files, codec))
  }

  function InstanceId(c: P.Container, newId: nat): nat {
    if c.manifest.instance.Some? && c.manifest.instance.value.id.Some? then c.manifest.instance.value.id.value else newId
  }

  function MovedOut(c: P.Container, id: nat): P.Container {
    P.Converted(P.Apply(c, P.SetInstanceId(id)), P.Vault)
  }

  // ---------------------------------------------------------- vault to embedded

  /** The values of a slot as an object; None when a stored text is not JSON. */
  function ExportTree<V>(kv: D.Kv, codec: Codec<V>): Option<Obj<V>> {
    if kv == [] then Some([])
    else
      var rest := ExportTree(kv[1..], codec);
      var value := codec.json.parse(kv[0].content);
      if rest.None? || value.None? then None else Some([File(kv[0].path, value.value)] + rest.value)
  }

  function Exported<V>(kv: D.Kv, codec: Codec<V>): Option<Bytes>
    requires ExportTree(kv, codec).Some?
  {
    if kv == [] then None else Some(codec.writeObject(ExportTree(kv, codec).value))
  }

  function WithDefault<V>(c: P.Container, kv: D.Kv, codec: Codec<V>): Option<P.Container> {
    if ExportTree(kv, codec).None? then None
    else if kv == [] then Some(c)
    else Some(P.PutFile(c, P.DataStore(), Exported(kv, codec).value))
  }

  function WithSlot<V>(c: P.Container, slot: string, kv: D.Kv, codec: Codec<V>): Option<P.Container> {
    if slot == D.DefaultSlot then Some(c)
    else if ExportTree(kv, codec).None? then None
    else if kv == [] then Some(c)
    else if !P.PlainSlot(slot) then None
    else Some(P.PutFile(c, StorePath(slot), Exported(kv, codec).value))
  }

  function WithSlots<V>(c: P.Container, slots: D.Slots, codec: Codec<V>): Option<P.Container> {
    if slots == [] then Some(c)
    else
      var before := WithSlots(c, slots[..|slots| - 1], codec);
      var s := slots[|slots| - 1];
      if before.None? then None else WithSlot(before.value, s.path, s.content, codec)
  }

  function WithPointer<V>(c: P.Container, doc: D.Doc, codec: Codec<V>): P.Container {
    var current := D.CurrentSlot(doc);
    if current == D.DefaultSlot then c else P.PutFile(c, P.CurrentSlot(), codec.encode(current))
  }

  /** The container after the vault's state has been written back into it; None when a slot cannot be. */
  function MovedIn<V>(c: P.Container, doc: D.Doc, codec: Codec<V>): Option<P.Container> {
    var first := WithDefault(P.Converted(c, P.Embedded), D.KvOf(doc, D.DefaultSlot), codec);
    if first.None? then None
    else
      var all := WithSlots(first.value, doc.slots, codec);
      if all.None? then None else Some(WithPointer(all.value, doc, codec))
  }

  // ------------------------------------------------------------ into the vault

  lemma {:induction false} SeedObjectEffect<V>(doc: D.Doc, slot: string, obj: Obj<V>, quota: nat, codec: Codec<V>)
    requires D.WellFormed(doc) && Ordered(obj) && SeedObject(doc, slot, obj, quota, codec).Some?
    ensures var d := SeedObject(doc, slot, obj, quota, codec).value;
            && D.WellFormed(d) && d.current == doc.current
            && forall s, k :: D.RawGet(d, s, k) ==
                 if s == slot && Lookup(obj, k).Some? then Some(codec.json.text(Lookup(obj, k).value))
                 else D.RawGet(doc, s, k)
    decreases |obj|
  {
    hide D.WellFormed, D.RawGet, D.WithKey, D.Projected, Lookup;
    if obj == [] {
      NothingThere<V>();
    } else {
      var e := obj[|obj| - 1];
      SeedObjectEffect(doc, slot, obj[..|obj| - 1], quota, codec);
      var before := SeedObject(doc, slot, obj[..|obj| - 1], quota, codec).value;
      D.KvSetEffect(before, slot, e.path, codec.json.text(e.content));
      forall k ensures Lookup(obj, k) == if e.path == k then Some(e.content) else Lookup(obj[..|obj| - 1], k) {
        LookupLast(obj, k);
      }
    }
  }

  lemma NothingThere<C>()
    ensures forall k :: Lookup<C>([], k) == None
  {
  }

  lemma SlotPaths(path: string)
    ensures SlotName(path).Some? ==> StorePath(SlotName(path).value) == path
    ensures forall s :: SlotName(StorePath(s)) == Some(s)
  {
    var dir, tail := P.SlotsDir(), "/store.json";
    hide P.SlotsDir;
    if SlotName(path).Some? {
      assert path == dir + path[|dir|..|path| - |tail|] + tail;
    }
    forall s ensures SlotName(StorePath(s)) == Some(s) {
      var p := StorePath(s);
      assert p == dir + s + tail;
      assert p[..|dir|] == dir && p[|p| - |tail|..] == tail && p[|dir|..|p| - |tail|] == s;
    }
  }

  lemma OtherPaths()
    ensures SlotName(P.DataStore()) == None && SlotName(P.CurrentSlot()) == None
    ensures P.DataStore() != P.CurrentSlot()
  {
    assert P.DataStore()[0] == 'd' && P.SlotsDir()[0] == 's' && P.CurrentSlot()[0] == 's';
    assert |P.CurrentSlot()| == 13 && |P.SlotsDir()| == 6;
  }

  /** Over what `doc` held, `d` holds what the named stores of the files give. */
  ghost predicate Overlays<V>(d: D.Doc, doc: D.Doc, files: P.Files, codec: Codec<V>) {
    && D.WellFormed(d) && d.current == doc.current
    && forall s, k :: D.RawGet(d, s, k) ==
         var v := InObject(ObjectAt(files, StorePath(s), codec), k);
         if v.Some? then Some(codec.json.text(v.value)) else D.RawGet(doc, s, k)
  }

  lemma LastPath(files: P.Files)
    requires Ordered(files) && files != []
    ensures var init, f := files[..|files| - 1], files[|files| - 1];
            forall p :: Lookup(files, p) == if f.path == p then Some(f.content) else Lookup(init, p)
  {
    forall p ensures Lookup(files, p) ==
                     if files[|files| - 1].path == p then Some(files[|files| - 1].content)
                     else Lookup(files[..|files| - 1], p) {
      LookupLast(files, p);
    }
  }

  lemma StoresAfter<V>(files: P.Files, codec: Codec<V>)
    requires Ordered(files) && files != [] && SlotName(files[|files| - 1].path).Some?
    ensures var f := files[|files| - 1];
            forall s :: ObjectAt(files, StorePath(s), codec) ==
                        if s == SlotName(f.path).value then codec.readObject(f.content)
                        else ObjectAt(files[..|files| - 1], StorePath(s), codec)
    ensures ObjectAt(files[..|files| - 1], StorePath(SlotName(files[|files| - 1].path).value), codec) == None
  {
    hide SlotName, StorePath, Lookup, Ordered;
    var f := files[|files| - 1];
    SlotPaths(f.path);
    LastPath(files);
    LookupLast(files, f.path);
    assert forall s :: f.path == StorePath(s) <==> s == SlotName(f.path).value;
  }

  lemma StepStore<V>(before: D.Doc, doc: D.Doc, files: P.Files, quota: nat, codec: Codec<V>)
    requires Ordered(files) && files != []
    requires var obj := codec.readObject(files[|files| - 1].content); obj.Some? && Ordered(obj.value)
    requires Overlays(before, doc, files[..|files| - 1], codec)
    requires var f := files[|files| - 1];
             SlotName(f.path).Some? && SeedSlot(before, SlotName(f.path).value, f.content, quota, codec).Some?
    ensures var f := files[|files| - 1];
            Overlays(SeedSlot(before, SlotName(f.path).value, f.content, quota, codec).value, doc, files, codec)
  {
    var f := files[|files| - 1];
    var name := SlotName(f.path).value;
    var init, obj := files[..|files| - 1], codec.readObject(f.content).value;
    hide Ordered, D.WellFormed, D.RawGet, SeedObject, SlotName, StorePath, Lookup, ObjectAt;
    StoresAfter(files, codec);
    SeedObjectEffect(before, name, obj, quota, codec);
    var d := SeedSlot(before, name, f.content, quota, codec).value;
    forall s, k ensures D.RawGet(d, s, k) ==
                        var v := InObject(ObjectAt(files, StorePath(s), codec), k);
                        if v.Some? then Some(codec.json.text(v.value)) else D.RawGet(doc, s, k) {
      if s == name {
        assert InObject(ObjectAt(files, StorePath(s), codec), k) == Lookup(obj, k);
        assert D.RawGet(before, s, k) == D.RawGet(doc, s, k);
      }
    }
  }

  lemma StepOther<V>(before: D.Doc, doc: D.Doc, files: P.Files, codec: Codec<V>)
    requires Ordered(files) && files != [] && SlotName(files[|files| - 1].path).None?
    requires Overlays(before, doc, files[..|files| - 1], codec)
    ensures Overlays(before, doc, files, codec)
  {
    hide D.WellFormed, D.RawGet, SlotName, StorePath, Lookup;
    SlotPaths("");
    LastPath(files);
  }

  /** Seeding the named slots overlays, slot by slot, what their files hold. */
  lemma {:induction false} SeedStoresEffect<V(!new)>(doc: D.Doc, files: P.Files, quota: nat, codec: Codec<V>)
    requires D.WellFormed(doc) && Ordered(files) && Faithful(codec)
    requires SeedStores(doc, NamedStores(files), quota, codec).Some?
    ensures Overlays(SeedStores(doc, NamedStores(files), quota, codec).value, doc, files, codec)
    decreases |files|
  {
    if files != [] {
      var init, f := files[..|files| - 1], files[|files| - 1];
      var stores := NamedStores(files);
      if SlotName(f.path).Some? {
        assert stores[..|stores| - 1] == NamedStores(init);
        hide Overlays, SeedSlot, SlotName;
        SeedStoresEffect(doc, init, quota, codec);
        StepStore(SeedStores(doc, NamedStores(init), quota, codec).value, doc, files, quota, codec);
      } else {
        hide Overlays, SeedSlot, SlotName;
        SeedStoresEffect(doc, init, quota, codec);
        StepOther(SeedStores(doc, stores, quota, codec).value, doc, files, codec);
      }
    }
  }

  /** After the move the vault holds the container's values over its own earlier ones. */
  lemma SeededOverlays<V(!new)>(doc: D.Doc, files: P.Files, quota: nat, codec: Codec<V>)
    requires D.WellFormed(doc) && Ordered(files) && Faithful(codec) && Seeded(doc, files, quota, codec).Some?
    ensures var d := Seeded(doc, files, quota, codec).value;
            && D.WellFormed(d)
            && (forall s, k :: D.RawGet(d, s, k) ==
                  var v := Embedded(files, s, k, codec);
                  if v.Some? then Some(codec.json.text(v.value)) else D.RawGet(doc, s, k))
            && D.CurrentSlot(d) == (if Lookup(files, P.CurrentSlot()).Some?
                                    then PointedSlot(Lookup(files, P.CurrentSlot()).value, codec) else D.CurrentSlot(doc))
  {
    var data := Lookup(files, P.DataStore());
    var first := SeedDefault(doc, files, quota, codec).value;
    hide D.WellFormed, D.RawGet, Lookup, SeedObject, SeedStores, NamedStores, StorePath, P.DataStore, P.CurrentSlot;
    if data.Some? {
      SeedObjectEffect(doc, D.DefaultSlot, codec.readObject(data.value).value, quota, codec);
    }
    SeedStoresEffect(first, files, quota, codec);
    var all := SeedStores(first, NamedStores(files), quota, codec).value;
    hide SeedDefault, ObjectAt;
    PointerOnly(all, files, codec);
  }

  lemma PointerOnly<V>(doc: D.Doc, files: P.Files, codec: Codec<V>)
    requires D.WellFormed(doc)
    ensures D.WellFormed(PointedBy(doc, files, codec))
    ensures forall s, k :: D.RawGet(PointedBy(doc, files, codec), s, k) == D.RawGet(doc, s, k)
  {
  }
}
