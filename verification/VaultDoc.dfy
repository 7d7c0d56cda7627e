/**
 * One instance's memory in the vault, as one replica sees it: named slots of
 * key-value pairs, a pointer to the active slot, and a quota over all of them.
 *
 * Values are kept in the text form their serializer gives them; texts are measured
 * by their length.
 */
module VaultDoc {
  import opened Wrappers
  import opened FileTree

  type Kv = seq<File<string>>
  type Slots = seq<File<Kv>>

  datatype Doc = Doc(slots: Slots, current: Option<string>)

  /** The serializer of values, and what it parses back. */
  datatype Json<!V> = Json(text: V -> string, parse: string -> Option<V>)

  ghost predicate Faithful<V(!new)>(json: Json<V>) {
    forall v :: json.parse(json.text(v)) == Some(v)
  }

  const DefaultSlot: string := "default"

  ghost predicate WellFormed(doc: Doc) {
    Ordered(doc.slots) && forall k :: 0 <= k < |doc.slots| ==> Ordered(doc.slots[k].content)
  }

  function KvOf(doc: Doc, slot: string): Kv {
    if Lookup(doc.slots, slot).Some? then Lookup(doc.slots, slot).value else []
  }

  function RawGet(doc: Doc, slot: string, key: string): Option<string> {
    Lookup(KvOf(doc, slot), key)
  }

  /** The value under a key; a stored text that does not parse is an error. */
  function KvGet<V>(doc: Doc, slot: string, key: string, json: Json<V>): Result<Option<V>, ()> {
    match RawGet(doc, slot, key)
    case None => Ok(None)
    case Some(raw) => if json.parse(raw).Some? then Ok(json.parse(raw)) else Err(())
  }

  function CurrentSlot(doc: Doc): string {
    if doc.current.Some? then doc.current.value else DefaultSlot
  }

  // --------------------------------------------------------------------- usage

  function Usage(kv: Kv): nat {
    if kv == [] then 0 else |kv[0].path| + |kv[0].content| + Usage(kv[1..])
  }

  function TotalUsage(slots: Slots): nat {
    if slots == [] then 0 else Usage(slots[0].content) + TotalUsage(slots[1..])
  }

  /** Every key and every text of every slot, one after another. */
  function Everything(slots: Slots): string {
    if slots == [] then "" else EverythingIn(slots[0].content) + Everything(slots[1..])
  }

  function EverythingIn(kv: Kv): string {
    if kv == [] then "" else kv[0].path + kv[0].content + EverythingIn(kv[1..])
  }

  /** Usage is the length of all that is stored. */
  lemma {:induction false} UsageIsLength(slots: Slots)
    ensures TotalUsage(slots) == |Everything(slots)|
  {
    if slots != [] {
      SlotUsageIsLength(slots[0].content);
      UsageIsLength(slots[1..]);
    }
  }

  lemma {:induction false} SlotUsageIsLength(kv: Kv)
    ensures Usage(kv) == |EverythingIn(kv)|
  {
    if kv != [] {
      SlotUsageIsLength(kv[1..]);
    }
  }

  function EntryUsage(kv: Kv, key: string): nat {
    if Lookup(kv, key).Some? then |key| + |Lookup(kv, key).value| else 0
  }

  lemma {:induction false} UsagePut(kv: Kv, key: string, raw: string)
    requires Ordered(kv)
    ensures Usage(Put(kv, key, raw)) == Usage(kv) - EntryUsage(kv, key) + |key| + |raw|
    ensures EntryUsage(kv, key) <= Usage(kv)
  {
    if kv != [] && kv[0].path != key {
      UsagePut(kv[1..], key, raw);
      if Less(key, kv[0].path) {
        LessStrict(key, kv[0].path);
        HeadFirst(kv, key);
      }
    }
  }

  lemma {:induction false} UsageRemove(kv: Kv, key: string)
    ensures Usage(Remove(kv, key)) == Usage(kv) - EntryUsage(kv, key)
  {
    if kv != [] && kv[0].path != key {
      UsageRemove(kv[1..], key);
    }
  }

  lemma {:induction false} TotalPut(slots: Slots, slot: string, kv: Kv)
    requires Ordered(slots)
    ensures var before := if Lookup(slots, slot).Some? then Usage(Lookup(slots, slot).value) else 0;
            before <= TotalUsage(slots) && TotalUsage(Put(slots, slot, kv)) == TotalUsage(slots) - before + Usage(kv)
  {
    if slots != [] && slots[0].path != slot {
      TotalPut(slots[1..], slot, kv);
      if Less(slot, slots[0].path) {
        LessStrict(slot, slots[0].path);
        HeadFirst(slots, slot);
      }
    }
  }

  // ---------------------------------------------------------------- operations

  function WithKey(doc: Doc, slot: string, key: string, raw: string): Doc {
    doc.(slots := Put(doc.slots, slot, Put(KvOf(doc, slot), key, raw)))
  }

  function WithoutKey(doc: Doc, slot: string, key: string): Doc {
    if RawGet(doc, slot, key).None? then doc
    else doc.(slots := Put(doc.slots, slot, Remove(KvOf(doc, slot), key)))
  }

  function WithoutKeys(doc: Doc, slot: string): Doc {
    if Lookup(doc.slots, slot).None? then doc else doc.(slots := Put(doc.slots, slot, []))
  }

  /** What the quota check expects the total to become, from the value it reads back and prints again. */
  function Projected<V>(doc: Doc, slot: string, key: string, value: V, json: Json<V>): int {
    var got := KvGet(doc, slot, key, json);
    var entry := if got.Ok? && got.value.Some? then |key| + |json.text(got.value.value)| else 0;
    TotalUsage(doc.slots) - entry + |key| + |json.text(value)|
  }

  /** Every stored text is what the serializer writes for the value it reads back as. */
  ghost predicate Canonical<V>(doc: Doc, json: Json<V>) {
    forall slot, key :: RawGet(doc, slot, key).Some? ==>
      var raw := RawGet(doc, slot, key).value;
      json.parse(raw).Some? && json.text(json.parse(raw).value) == raw
  }

  lemma {:induction false} KvOrdered(slots: Slots, slot: string)
    requires forall k :: 0 <= k < |slots| ==> Ordered(slots[k].content)
    ensures Lookup(slots, slot).Some? ==> Ordered(Lookup(slots, slot).value)
  {
    if slots != [] && slots[0].path != slot {
      KvOrdered(slots[1..], slot);
    }
  }

  lemma PutSlot(doc: Doc, slot: string, kv: Kv)
    requires WellFormed(doc) && Ordered(kv)
    ensures WellFormed(doc.(slots := Put(doc.slots, slot, kv)))
    ensures forall s :: KvOf(doc.(slots := Put(doc.slots, slot, kv)), s) == if s == slot then kv else KvOf(doc, s)
    ensures TotalUsage(Put(doc.slots, slot, kv)) == TotalUsage(doc.slots) - Usage(KvOf(doc, slot)) + Usage(kv)
    ensures Usage(KvOf(doc, slot)) <= TotalUsage(doc.slots)
  {
    PutOrdered(doc.slots, slot, kv);
    PutPaths(doc.slots, slot, kv);
    TotalPut(doc.slots, slot, kv);
    var t := Put(doc.slots, slot, kv);
    hide Put, Usage, TotalUsage;
    forall k | 0 <= k < |t| ensures Ordered(t[k].content) {
      assert t[k] in t;
    }
    forall s ensures KvOf(doc.(slots := t), s) == if s == slot then kv else KvOf(doc, s) {
      LookupPut(doc.slots, slot, kv, s);
    }
  }

  /** The whole effect of a write: one key of one slot, and the totals to the byte. */
  lemma KvSetEffect(doc: Doc, slot: string, key: string, raw: string)
    requires WellFormed(doc)
    ensures var doc' := WithKey(doc, slot, key, raw);
            && WellFormed(doc') && doc'.current == doc.current
            && (forall s, k :: RawGet(doc', s, k) == if s == slot && k == key then Some(raw) else RawGet(doc, s, k))
            && EntryUsage(KvOf(doc, slot), key) <= TotalUsage(doc.slots)
            && TotalUsage(doc'.slots) ==
               TotalUsage(doc.slots) - EntryUsage(KvOf(doc, slot), key) + |key| + |raw|
  {
    KvOrdered(doc.slots, slot);
    var kv := KvOf(doc, slot);
    hide Put, Usage, TotalUsage, Lookup;
    PutOrdered(kv, key, raw);
    UsagePut(kv, key, raw);
    PutSlot(doc, slot, Put(kv, key, raw));
    forall k ensures Lookup(Put(kv, key, raw), k) == if k == key then Some(raw) else Lookup(kv, k) {
      LookupPut(kv, key, raw, k);
    }
  }

  lemma KvDeleteEffect(doc: Doc, slot: string, key: string)
    requires WellFormed(doc)
    ensures var doc' := WithoutKey(doc, slot, key);
            && WellFormed(doc') && doc'.current == doc.current
            && (forall s, k :: RawGet(doc', s, k) == if s == slot && k == key then None else RawGet(doc, s, k))
            && TotalUsage(doc'.slots) == TotalUsage(doc.slots) - EntryUsage(KvOf(doc, slot), key)
  {
    KvOrdered(doc.slots, slot);
    var kv := KvOf(doc, slot);
    hide Put, Usage, TotalUsage, Lookup, Remove;
    LookupRemove(kv, key, key);
    UsageRemove(kv, key);
    PutSlot(doc, slot, Remove(kv, key));
    forall k ensures Lookup(Remove(kv, key), k) == if k == key then None else Lookup(kv, k) {
      LookupRemove(kv, key, k);
    }
  }

  lemma KvClearEffect(doc: Doc, slot: string)
    requires WellFormed(doc)
    ensures var doc' := WithoutKeys(doc, slot);
            && WellFormed(doc') && doc'.current == doc.current
            && (forall s, k :: RawGet(doc', s, k) == if s == slot then None else RawGet(doc, s, k))
            && TotalUsage(doc'.slots) == TotalUsage(doc.slots) - Usage(KvOf(doc, slot))
  {
    PutSlot(doc, slot, []);
    hide Put;
  }

  /** Without foreign texts in the store, the projection is exact and its subtraction never underflows. */
  lemma ProjectionExact<V>(doc: Doc, slot: string, key: string, value: V, json: Json<V>)
    requires WellFormed(doc) && Canonical(doc, json)
    ensures Projected(doc, slot, key, value, json) ==
            TotalUsage(WithKey(doc, slot, key, json.text(value)).slots)
    ensures Projected(doc, slot, key, value, json) >= |key| + |json.text(value)|
  {
    KvSetEffect(doc, slot, key, json.text(value));
    hide TotalUsage, WithKey, Lookup;
    assert RawGet(doc, slot, key).Some? ==> json.parse(RawGet(doc, slot, key).value).Some?;
  }

  /** A value set is the value read, and every other key of every slot reads as before. */
  lemma GetAfterSet<V(!new)>(doc: Doc, slot: string, key: string, value: V, json: Json<V>, s: string, k: string)
    requires WellFormed(doc) && Faithful(json)
    ensures KvGet(WithKey(doc, slot, key, json.text(value)), s, k, json) ==
            if s == slot && k == key then Ok(Some(value)) else KvGet(doc, s, k, json)
  {
    KvSetEffect(doc, slot, key, json.text(value));
    hide WithKey, RawGet;
  }

  /** In general, after merges too, it is exact precisely when the entry replaced prints at its stored length. */
  lemma ProjectionExactWhen<V>(doc: Doc, slot: string, key: string, value: V, json: Json<V>)
    requires WellFormed(doc)
    ensures Projected(doc, slot, key, value, json) == TotalUsage(WithKey(doc, slot, key, json.text(value)).slots) <==>
            (RawGet(doc, slot, key).Some? ==>
               var raw := RawGet(doc, slot, key).value;
               if json.parse(raw).Some? then |json.text(json.parse(raw).value)| == |raw| else |key| + |raw| == 0)
  {
    KvSetEffect(doc, slot, key, json.text(value));
    hide TotalUsage, WithKey, Lookup;
  }

  // ----------------------------------------------------------------- whole runs

  datatype Op<V> =
    | Set(slot: string, key: string, value: V)
    | Delete(slot: string, key: string)
    | Clear(slot: string)
    | Switch(slot: string)

  /** A write over the quota is refused and changes nothing. */
  function Apply<V>(doc: Doc, op: Op<V>, quota: nat, json: Json<V>): Doc {
    match op
    case Set(slot, key, value) =>
      if Projected(doc, slot, key, value, json) > quota then doc else WithKey(doc, slot, key, json.text(value))
    case Delete(slot, key) => WithoutKey(doc, slot, key)
    case Clear(slot) => WithoutKeys(doc, slot)
    case Switch(slot) => doc.(current := Some(slot))
  }

  function ApplyAll<V>(doc: Doc, ops: seq<Op<V>>, quota: nat, json: Json<V>): Doc {
    if ops == [] then doc else Apply(ApplyAll(doc, ops[..|ops| - 1], quota, json), ops[|ops| - 1], quota, json)
  }

  ghost predicate Sound<V>(doc: Doc, quota: nat, json: Json<V>) {
    WellFormed(doc) && Canonical(doc, json) && TotalUsage(doc.slots) <= quota
  }

  lemma StepSound<V(!new)>(doc: Doc, op: Op<V>, quota: nat, json: Json<V>)
    requires Sound(doc, quota, json) && Faithful(json)
    ensures Sound(Apply(doc, op, quota, json), quota, json)
  {
    hide WithKey, WithoutKey, WithoutKeys, RawGet, TotalUsage, WellFormed, Usage, EntryUsage;
    match op {
      case Set(slot, key, value) =>
        ProjectionExact(doc, slot, key, value, json);
        KvSetEffect(doc, slot, key, json.text(value));
      case Delete(slot, key) => KvDeleteEffect(doc, slot, key);
      case Clear(slot) => KvClearEffect(doc, slot);
      case Switch(slot) => SwitchEffect(doc, slot);
    }
  }

  lemma SwitchEffect(doc: Doc, slot: string)
    requires WellFormed(doc)
    ensures var doc' := doc.(current := Some(slot));
            WellFormed(doc') && forall s, k :: RawGet(doc', s, k) == RawGet(doc, s, k)
  {
  }

  /** Over every run that starts within quota, the total over all slots stays within it. */
  lemma {:induction false} QuotaHolds<V(!new)>(doc: Doc, ops: seq<Op<V>>, quota: nat, json: Json<V>)
    requires Sound(doc, quota, json) && Faithful(json)
    ensures Sound(ApplyAll(doc, ops, quota, json), quota, json)
    decreases |ops|
  {
    hide Sound, Apply;
    if ops != [] {
      QuotaHolds(doc, ops[..|ops| - 1], quota, json);
      StepSound(ApplyAll(doc, ops[..|ops| - 1], quota, json), ops[|ops| - 1], quota, json);
    }
  }

  /** An open instance: the document in memory and the quota it is held to. */
  class VaultInstance<V> {
    var doc: Doc
    var quota: nat

    constructor (stored: Option<Doc>, quota: nat)
      ensures doc == (if stored.Some? then stored.value else Doc([], None)) && this.quota == quota
    {
      doc := if stored.Some? then stored.value else Doc([], None);
      this.quota := quota;
    }

    /**
     * Refuses, leaving everything untouched, when the projected total exceeds the quota;
     * with canonical texts that is exactly when the written total would.
     */
    method KvSet(slot: string, key: string, value: V, json: Json<V>) returns (r: Result<(), nat>)
      requires WellFormed(doc)
      modifies this`doc
      ensures doc == Apply(old(doc), Set(slot, key, value), quota, json)
      ensures r.Ok? <==> Projected(old(doc), slot, key, value, json) <= quota
      ensures Canonical(old(doc), json) ==>
                var total := TotalUsage(WithKey(old(doc), slot, key, json.text(value)).slots);
                (r.Ok? <==> total <= quota) && (r.Err? ==> r.error == total)
    {
      ghost var before := doc;
      if Canonical(before, json) {
        ProjectionExact(before, slot, key, value, json);
      }
      hide Canonical, WithKey;
      var rawLen := |json.text(value)|;
      var got := KvGet(doc, slot, key, json);
      var entry := if got.Ok? && got.value.Some? then |key| + |json.text(got.value.value)| else 0;
      var projected := TotalUsage(doc.slots) - entry + |key| + rawLen;
      if projected > quota { return Err(projected); }
      doc := WithKey(doc, slot, key, json.text(value));
      return Ok(());
    }

    method KvDelete(slot: string, key: string)
      modifies this`doc
      ensures doc == WithoutKey(old(doc), slot, key)
    {
      if RawGet(doc, slot, key).Some? {
        doc := doc.(slots := Put(doc.slots, slot, Remove(KvOf(doc, slot), key)));
      }
    }

    /** Deletes the slot's keys one by one. */
    method KvClear(slot: string)
      requires WellFormed(doc)
      modifies this`doc
      ensures doc == WithoutKeys(old(doc), slot)
    {
      if Lookup(doc.slots, slot).Some? {
        var kv := KvOf(doc, slot);
        while kv != []
          decreases |kv|
        {
          kv := Remove(kv, kv[0].path);
        }
        doc := doc.(slots := Put(doc.slots, slot, kv));
      }
    }

    method SetCurrentSlot(slot: string)
      modifies this`doc
      ensures doc == old(doc).(current := Some(slot))
    {
      doc := doc.(current := Some(slot));
    }
  }
}
