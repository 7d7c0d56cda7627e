/**
 * Storage conversion as the code performs it: an open container edited in place,
 * an instance document filled entry by entry, and a vault that changes only when
 * the document is flushed.
 */
module VaultMove {
  import opened Wrappers
  import opened FileTree
  import opened VaultConvert
  import P = Poid
  import D = VaultDoc
  import O = PoidObject

  datatype VaultError = InvalidValue | NoInstanceId | NotExportable

  /** The documents stored on disk, by instance. */
  class Vault {
    var stored: map<nat, D.Doc>

    ghost predicate Valid()
      reads this
    {
      forall id :: id in stored ==> D.WellFormed(stored[id])
    }

    constructor ()
      ensures Valid() && stored == map[]
    {
      stored := map[];
    }

    function Holds(id: nat): D.Doc
      reads this
    {
      if id in stored then stored[id] else D.Doc([], None)
    }

    method Flush(id: nat, doc: D.Doc)
      requires Valid() && D.WellFormed(doc)
      modifies this
      ensures Valid() && stored == old(stored)[id := doc]
    {
      stored := stored[id := doc];
    }
  }

  /** Writes an object's entries one by one, each against the quota. */
  method SeedInto<V>(instance: D.VaultInstance<V>, slot: string, bytes: Bytes, codec: Codec<V>) returns (ok: bool)
    requires D.WellFormed(instance.doc)
    requires codec.readObject(bytes).Some? ==> Ordered(codec.readObject(bytes).value)
    modifies instance`doc
    ensures ok <==> SeedSlot(old(instance.doc), slot, bytes, instance.quota, codec).Some?
    ensures ok ==> instance.doc == SeedSlot(old(instance.doc), slot, bytes, instance.quota, codec).value
    ensures D.WellFormed(instance.doc)
  {
    hide D.Projected, D.Canonical, D.WellFormed, D.WithKey, D.TotalUsage;
    var parsed := codec.readObject(bytes);
    if parsed.None? { return false; }
    var obj := parsed.value;
    ghost var start := instance.doc;
    var k := 0;
    while k < |obj|
      invariant k <= |obj| && D.WellFormed(instance.doc)
      invariant SeedObject(start, slot, obj[..k], instance.quota, codec) == Some(instance.doc)
    {
      assert obj[..k + 1][..k] == obj[..k];
      ghost var before := instance.doc;
      D.KvSetEffect(before, slot, obj[k].path, codec.json.text(obj[k].content));
      var r := instance.KvSet(slot, obj[k].path, obj[k].content, codec.json);
      if r.Err? {
        SeedStopped(start, slot, obj, k + 1, instance.quota, codec);
        return false;
      }
      k := k + 1;
    }
    assert obj[..k] == obj;
    return true;
  }

  lemma {:induction false} SeedStopped<V>(doc: D.Doc, slot: string, obj: Obj<V>, k: nat, quota: nat, codec: Codec<V>)
    requires k <= |obj| && SeedObject(doc, slot, obj[..k], quota, codec).None?
    ensures SeedObject(doc, slot, obj, quota, codec).None?
    decreases |obj| - k
  {
    if k == |obj| {
      assert obj[..k] == obj;
    } else {
      assert obj[..k + 1][..k] == obj[..k];
      SeedStopped(doc, slot, obj, k + 1, quota, codec);
    }
  }

  lemma {:induction false} StoresStopped<V>(doc: D.Doc, stores: seq<File<Bytes>>, k: nat, quota: nat, codec: Codec<V>)
    requires k <= |stores| && SeedStores(doc, stores[..k], quota, codec).None?
    ensures SeedStores(doc, stores, quota, codec).None?
    decreases |stores| - k
  {
    if k == |stores| {
      assert stores[..k] == stores;
    } else {
      assert stores[..k + 1][..k] == stores[..k];
      StoresStopped(doc, stores, k + 1, quota, codec);
    }
  }

  method CollectStores(files: P.Files) returns (stores: seq<File<Bytes>>)
    ensures stores == NamedStores(files)
  {
    hide SlotName;
    stores := [];
    var k := 0;
    while k < |files|
      invariant k <= |files| && stores == NamedStores(files[..k])
    {
      assert files[..k + 1][..k] == files[..k];
      var name := SlotName(files[k].path);
      if name.Some? {
        stores := stores + [File(name.value, files[k].content)];
      }
      k := k + 1;
    }
    assert files[..k] == files;
  }

  method SeedAllInto<V>(instance: D.VaultInstance<V>, stores: seq<File<Bytes>>, codec: Codec<V>) returns (ok: bool)
    requires D.WellFormed(instance.doc)
    requires forall bytes :: codec.readObject(bytes).Some? ==> Ordered(codec.readObject(bytes).value)
    modifies instance`doc
    ensures ok <==> SeedStores(old(instance.doc), stores, instance.quota, codec).Some?
    ensures ok ==> instance.doc == SeedStores(old(instance.doc), stores, instance.quota, codec).value
    ensures D.WellFormed(instance.doc)
  {
    hide D.WellFormed, SeedSlot, Ordered;
    ghost var start := instance.doc;
    var k := 0;
    while k < |stores|
      invariant k <= |stores| && D.WellFormed(instance.doc)
      invariant SeedStores(start, stores[..k], instance.quota, codec) == Some(instance.doc)
    {
      assert stores[..k + 1][..k] == stores[..k];
      var ok := SeedInto(instance, stores[k].path, stores[k].content, codec);
      if !ok {
        StoresStopped(start, stores, k + 1, instance.quota, codec);
        return false;
      }
      k := k + 1;
    }
    assert stores[..k] == stores;
    return true;
  }

  /** Fills an instance from a container's state files, or stops at the first that will not go in. */
  method FillInstance<V>(instance: D.VaultInstance<V>, files: P.Files, codec: Codec<V>) returns (ok: bool)
    requires D.WellFormed(instance.doc)
    requires forall bytes :: codec.readObject(bytes).Some? ==> Ordered(codec.readObject(bytes).value)
    modifies instance`doc
    ensures ok <==> Seeded(old(instance.doc), files, instance.quota, codec).Some?
    ensures ok ==> instance.doc == Seeded(old(instance.doc), files, instance.quota, codec).value
    ensures D.WellFormed(instance.doc)
  {
    hide SeedStores, SeedSlot, NamedStores, P.DataStore, P.CurrentSlot, Lookup, Ordered, D.WellFormed;
    var data := Lookup(files, P.DataStore());
    if data.Some? {
      ok := SeedInto(instance, D.DefaultSlot, data.value, codec);
      if !ok { return; }
    }
    var stores := CollectStores(files);
    ok := SeedAllInto(instance, stores, codec);
    if !ok { return; }
    var pointer := Lookup(files, P.CurrentSlot());
    Repointed(instance.doc, files, codec);
    if pointer.Some? {
      instance.SetCurrentSlot(PointedSlot(pointer.value, codec));
    }
  }

  lemma Repointed<V>(doc: D.Doc, files: P.Files, codec: Codec<V>)
    requires D.WellFormed(doc)
    ensures D.WellFormed(PointedBy(doc, files, codec))
  {
  }

  /**
   * Moves the container's state into the vault. It succeeds exactly when every store
   * file is an object that fits the quota, and then both sides are as specified; a
   * failure leaves the container and the stored vault exactly as they were.
   */
  method EmbeddedToVault<V(!new)>(poid: O.OpenPoid, vault: Vault, newId: nat, quota: nat, codec: Codec<V>)
    returns (r: Result<nat, VaultError>)
    requires poid.Valid() && vault.Valid() && Faithful(codec)
    modifies poid, vault
    ensures poid.Valid() && vault.Valid()
    ensures var c, id := old(poid.View()), InstanceId(old(poid.View()), newId);
            var seeded := Seeded(old(vault.Holds(InstanceId(poid.View(), newId))), c.files, quota, codec);
            && (r.Ok? <==> seeded.Some?)
            && (r.Ok? ==> r.value == id && poid.View() == MovedOut(c, id) && vault.stored == old(vault.stored)[id := seeded.value])
            && (r.Err? ==> poid.View() == c && vault.stored == old(vault.stored))
  {
    assert forall bytes :: codec.readObject(bytes).Some? ==> Ordered(codec.readObject(bytes).value);
    assert D.WellFormed(D.Doc([], None));
    hide Faithful, Seeded, Ordered, D.WellFormed, P.Converted;
    var c := P.Container(poid.manifest, poid.files);
    var id := InstanceId(c, newId);
    var instance := new D.VaultInstance<V>(if id in vault.stored then Some(vault.stored[id]) else None, quota);
    var ok := FillInstance(instance, poid.files, codec);
    if !ok { return Err(InvalidValue); }
    vault.Flush(id, instance.doc);
    poid.SetInstanceId(id);
    poid.ConvertStorageMode(P.Vault);
    return Ok(id);
  }

  /** One slot as a canonical store file; nothing for an empty slot, an error for a text that is not JSON. */
  method ExportSlot<V>(kv: D.Kv, codec: Codec<V>) returns (r: Result<Option<Bytes>, VaultError>)
    ensures r.Ok? <==> ExportTree(kv, codec).Some?
    ensures r.Ok? ==> r.value == Exported(kv, codec)
    ensures r.Err? ==> r.error == NotExportable
  {
    var tree: Obj<V> := [];
    var k := 0;
    while k < |kv|
      invariant k <= |kv| && ExportTree(kv[..k], codec) == Some(tree)
    {
      ExportPrefix(kv, k, codec);
      var value := codec.json.parse(kv[k].content);
      if value.None? { return Err(NotExportable); }
      tree := tree + [File(kv[k].path, value.value)];
      k := k + 1;
    }
    assert kv[..k] == kv;
    return Ok(if kv == [] then None else Some(codec.writeObject(tree)));
  }

  lemma ExportOne<V>(f: File<string>, codec: Codec<V>)
    ensures var value := codec.json.parse(f.content);
            ExportTree([f], codec) == if value.None? then None else Some([] + [File(f.path, value.value)])
  {
    var none: Obj<V> := [];
    assert [f][1..] == [] && ExportTree([f][1..], codec) == Some(none);
    var value := codec.json.parse(f.content);
    if value.Some? {
      var one := [File(f.path, value.value)];
      assert one + none == one && none + one == one;
      assert ExportTree([f], codec) == Some(one + none);
    }
  }

  /** Exporting goes entry by entry, and stops at the first text that is not JSON. */
  lemma {:induction false} ExportPrefix<V>(kv: D.Kv, k: nat, codec: Codec<V>)
    requires k < |kv|
    ensures var before, value := ExportTree(kv[..k], codec), codec.json.parse(kv[k].content);
            && ExportTree(kv[..k + 1], codec) ==
               (if before.None? || value.None? then None else Some(before.value + [File(kv[k].path, value.value)]))
            && (value.None? ==> ExportTree(kv, codec).None?)
    decreases k
  {
    if k == 0 {
      assert kv[..1] == [kv[0]] && kv[..0] == [];
      ExportOne(kv[0], codec);
    } else {
      ExportPrefix(kv[1..], k - 1, codec);
      var rest := kv[1..];
      assert kv[..k + 1][1..] == rest[..k] && kv[..k][1..] == rest[..k - 1] && rest[k - 1] == kv[k];
      var init := ExportTree(rest[..k - 1], codec);
      if init.Some? && codec.json.parse(kv[0].content).Some? && codec.json.parse(kv[k].content).Some? {
        var head := [File(kv[0].path, codec.json.parse(kv[0].content).value)];
        var last := [File(kv[k].path, codec.json.parse(kv[k].content).value)];
        assert head + (init.value + last) == (head + init.value) + last;
      }
    }
  }

  /** Writes one named slot of the vault into the container. */
  method WriteSlot<V>(poid: O.OpenPoid, slot: string, kv: D.Kv, codec: Codec<V>) returns (r: Result<(), VaultError>)
    requires poid.Valid()
    modifies poid
    ensures poid.Valid()
    ensures r.Ok? <==> WithSlot(old(poid.View()), slot, kv, codec).Some?
    ensures r.Err? ==> r.error == NotExportable
    ensures poid.View() == if r.Ok? then WithSlot(old(poid.View()), slot, kv, codec).value else old(poid.View())
  {
    hide P.PlainSlot, Exported, ExportTree;
    if slot == D.DefaultSlot { return Ok(()); }
    var json := ExportSlot(kv, codec);
    if json.Err? { return Err(json.error); }
    if kv != [] {
      assert json.value.Some? by { ExportedNonEmpty(kv, codec); }
      var written := poid.SetSlotData(slot, json.value.value);
      if written.Err? { return Err(NotExportable); }
    } else {
      assert json.value.None? by { ExportedNonEmpty(kv, codec); }
    }
    return Ok(());
  }

  lemma ExportedNonEmpty<V>(kv: D.Kv, codec: Codec<V>)
    requires ExportTree(kv, codec).Some?
    ensures Exported(kv, codec).Some? <==> kv != []
  {
  }

  /** The container after the slots up to the first that cannot be written. */
  function SlotsSoFar<V>(c: P.Container, slots: D.Slots, codec: Codec<V>): P.Container {
    if slots == [] then c
    else
      var init, s := slots[..|slots| - 1], slots[|slots| - 1];
      var before := WithSlots(c, init, codec);
      if before.None? then SlotsSoFar(c, init, codec)
      else if WithSlot(before.value, s.path, s.content, codec).None? then before.value
      else WithSlot(before.value, s.path, s.content, codec).value
  }

  /** Where a move back that fails leaves the container: converted, with every store written up to the failing slot. */
  function Stopped<V>(c: P.Container, doc: D.Doc, codec: Codec<V>): P.Container {
    var converted := P.Converted(c, P.Embedded);
    var first := WithDefault(converted, D.KvOf(doc, D.DefaultSlot), codec);
    if first.None? then converted else SlotsSoFar(first.value, doc.slots, codec)
  }

  lemma {:induction false} SoFarWhenStopped<V>(c: P.Container, slots: D.Slots, k: nat, n: nat, codec: Codec<V>)
    requires k < n <= |slots| && WithSlots(c, slots[..k], codec).Some?
    requires WithSlot(WithSlots(c, slots[..k], codec).value, slots[k].path, slots[k].content, codec).None?
    ensures WithSlots(c, slots[..n], codec).None?
    ensures SlotsSoFar(c, slots[..n], codec) == WithSlots(c, slots[..k], codec).value
    decreases n
  {
    hide WithSlot;
    assert slots[..n][..n - 1] == slots[..n - 1];
    if k < n - 1 {
      SoFarWhenStopped(c, slots, k, n - 1, codec);
    }
  }

  /**
   * Pulls the vault's state back into the container; the vault keeps its entry. It
   * succeeds exactly when the specified result exists; otherwise the container is left
   * where the first slot that cannot be written stopped it.
   */
  method VaultToEmbedded<V>(poid: O.OpenPoid, vault: Vault, codec: Codec<V>) returns (r: Result<(), VaultError>)
    requires poid.Valid() && vault.Valid()
    modifies poid
    ensures poid.Valid()
    ensures var c, doc := old(poid.View()), vault.Holds(InstanceId(old(poid.View()), 0));
            var known := c.manifest.instance.Some? && c.manifest.instance.value.id.Some?;
            && (r.Ok? <==> known && MovedIn(c, doc, codec).Some?)
            && (r.Ok? ==> poid.View() == MovedIn(c, doc, codec).value)
            && (r.Err? && known ==> r == Err(NotExportable) && poid.View() == Stopped(c, doc, codec))
            && (!known ==> r == Err(NoInstanceId) && poid.View() == c)
  {
    if poid.manifest.instance.None? || poid.manifest.instance.value.id.None? { return Err(NoInstanceId); }
    var doc := vault.Holds(poid.manifest.instance.value.id.value);
    hide P.Converted, ExportTree, Exported, WithSlot, SlotsSoFar, D.KvOf, D.CurrentSlot, D.WellFormed;
    poid.ConvertStorageMode(P.Embedded);
    var kv := D.KvOf(doc, D.DefaultSlot);
    var json := ExportSlot(kv, codec);
    if json.Err? { return Err(json.error); }
    ExportedNonEmpty(kv, codec);
    if json.value.Some? {
      poid.SetData(json.value.value);
    }
    ghost var first := poid.View();
    r := WriteSlots(poid, doc.slots, codec);
    if r.Err? { return; }
    var current := D.CurrentSlot(doc);
    if current != D.DefaultSlot {
      poid.SetCurrentSlotPointer(codec.encode(current));
    }
  }

  method WriteSlots<V>(poid: O.OpenPoid, slots: D.Slots, codec: Codec<V>) returns (r: Result<(), VaultError>)
    requires poid.Valid()
    modifies poid
    ensures poid.Valid() && (r.Err? ==> r.error == NotExportable)
    ensures r.Ok? <==> WithSlots(old(poid.View()), slots, codec).Some?
    ensures poid.View() == if r.Ok? then WithSlots(old(poid.View()), slots, codec).value
                           else SlotsSoFar(old(poid.View()), slots, codec)
  {
    hide WithSlot;
    var k := 0;
    while k < |slots|
      invariant k <= |slots| && poid.Valid()
      invariant WithSlots(old(poid.View()), slots[..k], codec) == Some(poid.View())
    {
      assert slots[..k + 1][..k] == slots[..k];
      r := WriteSlot(poid, slots[k].path, slots[k].content, codec);
      if r.Err? {
        assert slots[..|slots|] == slots;
        SoFarWhenStopped(old(poid.View()), slots, k, |slots|, codec);
        return;
      }
      k := k + 1;
    }
    assert slots[..k] == slots;
    return Ok(());
  }

  // ------------------------------------------------------------ a failure is partial

  /** A document with a value in the default slot and one in a slot that cannot name a file. */
  function Unreturnable(raw: string): D.Doc {
    D.Doc([File(P.CurrentName(), [File("k", raw)]), File(D.DefaultSlot, [File("k", raw)])], None)
  }

  /** Moving it back fails with the default store already written. */
  lemma FailureWritesDefault<V>(c: P.Container, raw: string, codec: Codec<V>)
    requires codec.json.parse(raw).Some?
    ensures MovedIn(c, Unreturnable(raw), codec).None?
    ensures var stopped := Stopped(c, Unreturnable(raw), codec);
            && stopped.manifest == P.Converted(c, P.Embedded).manifest
            && stopped.files == Put(P.Converted(c, P.Embedded).files, P.DataStore(),
                                    codec.writeObject([File("k", codec.json.parse(raw).value)]))
  {
    var doc, kv := Unreturnable(raw), [File("k", raw)];
    var converted := P.Converted(c, P.Embedded);
    assert P.CurrentName() != D.DefaultSlot by { assert P.CurrentName()[0] == 'c' && D.DefaultSlot[0] == 'd'; }
    assert !P.PlainSlot(P.CurrentName());
    assert doc.slots[1..] == [File(D.DefaultSlot, kv)] && Lookup(doc.slots[1..], D.DefaultSlot) == Some(kv);
    assert D.KvOf(doc, D.DefaultSlot) == kv;
    OneExported(raw, codec);
    hide P.CurrentName, P.PlainSlot, P.Converted, P.DataStore, ExportTree, D.KvOf;
    var first := WithDefault(converted, kv, codec).value;
    assert doc.slots[..0] == [] && WithSlots(first, doc.slots[..0], codec) == Some(first);
    assert doc.slots[..2] == doc.slots;
    SoFarWhenStopped(first, doc.slots, 0, 2, codec);
  }

  lemma OneExported<V>(raw: string, codec: Codec<V>)
    requires codec.json.parse(raw).Some?
    ensures ExportTree([File("k", raw)], codec) == Some([File("k", codec.json.parse(raw).value)])
  {
    ExportOne(File("k", raw), codec);
    var one := [File("k", codec.json.parse(raw).value)];
    assert [] + one == one;
  }
}
