/**
 * Which queries compile, and where the compiled meaning leaves the documented one.
 */
module DocsQueryLaws {
  import opened Wrappers
  import Texts
  import FieldPath
  import opened SqlExpr
  import opened DocsQuery
  import opened MongoSpec
  import DocsQueryProof

  // ------------------------------------------------------------- fail closed

  lemma {:induction false} EqFragsAccept(path: string, values: seq<Js>)
    requires forall v :: v in values ==> IsScalar(v)
    ensures EqFrags(path, values).Ok? <==> forall v :: v in values ==> QueryableScalar(v)
  {
    if values != [] {
      EqFragsAccept(path, values[1..]);
      assert IsScalar(values[0]);
      assert EqFrag(path, values[0]).Ok? <==> QueryableScalar(values[0]);
      assert values == [values[0]] + values[1..];
    }
  }

  lemma OpAccepts(path: string, op: FieldOp, v: Js, host: Host)
    ensures OpFrag(path, op, v, host).Ok? <==> OpAccepted(op, v, host)
  {
    if (op == OpIn || op == OpNin) && v.Array? && forall x :: x in v.items ==> IsScalar(x) {
      EqFragsAccept(path, v.items);
    }
  }

  lemma {:induction false} OpsAccept(path: string, entries: seq<Entry>, host: Host)
    ensures OpFrags(path, entries, host).Ok? <==>
            forall e :: e in entries ==> KeyAccepted(e.key, e.value, host)
  {
    hide OpFrag, OpAccepted, KeyAccepted, FieldOpOf;
    if entries != [] {
      OpAccepts(path, FieldOpOf(entries[0].key), entries[0].value, host);
      KeyAccepts(entries[0].key, entries[0].value, host);
      OpsAccept(path, entries[1..], host);
      assert entries == [entries[0]] + entries[1..];
    }
  }

  lemma FieldAccepts(field: string, spec: Js, host: Host)
    ensures FieldFrag(field, spec, host).Ok? <==> FieldAccepted(field, spec, host)
  {
    hide OpFrags, KeyAccepted, FieldPath.Accepted, FieldPath.PathOf;
    if spec.Object? {
      OpsAccept(FieldPath.PathOf(field), spec.entries, host);
    }
  }

  /** A query compiles exactly when every operator and operand in it is a known, translatable one. */
  lemma {:induction false} CompilesExactly(query: Js, host: Host)
    ensures QueryFrag(query, host).Ok? <==> QueryAccepted(query, host)
    decreases query, 1
  {
    if query.Object? {
      EntriesAccept(query.entries, host);
    }
  }

  lemma {:induction false} EntriesAccept(entries: seq<Entry>, host: Host)
    ensures EntryFrags(entries, host).Ok? <==> forall e :: e in entries ==> EntryAccepted(e, host)
    decreases entries, 0
  {
    hide EntryFrag, EntryAccepted;
    if entries != [] {
      EntryAccepts(entries[0], host);
      EntriesAccept(entries[1..], host);
      assert entries == [entries[0]] + entries[1..];
    }
  }

  lemma {:induction false} EntryAccepts(entry: Entry, host: Host)
    ensures EntryFrag(entry, host).Ok? <==> EntryAccepted(entry, host)
    decreases entry, 2
  {
    hide KeyKindOf, FieldFrag, FieldAccepted, QueryFrags, Join;
    KeyKinds(entry.key);
    FieldAccepts(entry.key, entry.value, host);
    if entry.value.Array? {
      QueriesAccept(entry.value.items, host);
    }
  }

  lemma {:induction false} QueriesAccept(queries: seq<Js>, host: Host)
    ensures QueryFrags(queries, host).Ok? <==> forall q :: q in queries ==> QueryAccepted(q, host)
    decreases queries, 0
  {
    hide QueryFrag, QueryAccepted;
    if queries != [] {
      CompilesExactly(queries[0], host);
      QueriesAccept(queries[1..], host);
      assert queries == [queries[0]] + queries[1..];
    }
  }

  // --------------------------------------- where the documented reading differs

  /** Somewhere along the path a numeric segment names a key of an object. */
  predicate MeetsNumericKey(doc: Json, segments: seq<string>)
    decreases |segments|
  {
    segments != [] &&
    match doc
    case JObject(fields) =>
      segments[0] in fields &&
      (FieldPath.AllDigits(segments[0]) || MeetsNumericKey(fields[segments[0]], segments[1..]))
    case JArray(items) =>
      FieldPath.AllDigits(segments[0]) && Texts.Number(segments[0]) < |items| &&
      MeetsNumericKey(items[Texts.Number(segments[0])], segments[1..])
    case _ => false
  }

  /** SQLite finds what the documented reading finds, except through a numeric object key. */
  lemma {:induction false} LookupsDiffer(doc: Json, segments: seq<string>)
    ensures Walk(doc, FieldPath.StepsOf(segments)) != LookupSegments(doc, segments) <==>
            MeetsNumericKey(doc, segments) && LookupSegments(doc, segments).Some?
    ensures Walk(doc, FieldPath.StepsOf(segments)).Some? ==>
            Walk(doc, FieldPath.StepsOf(segments)) == LookupSegments(doc, segments)
    decreases |segments|
  {
    if segments != [] {
      assert FieldPath.StepsOf(segments)[1..] == FieldPath.StepsOf(segments[1..]);
      var s := segments[0];
      match doc {
        case JObject(fields) =>
          if s in fields {
            LookupsDiffer(fields[s], segments[1..]);
          }
        case JArray(items) =>
          if FieldPath.AllDigits(s) && Texts.Number(s) < |items| {
            LookupsDiffer(items[Texts.Number(s)], segments[1..]);
          }
        case _ =>
      }
    }
  }

  /** A segment that writes out a number, with or without leading zeros, addresses that item of an array. */
  lemma IndexAddresses(items: seq<Json>, n: nat, digits: string, rest: seq<string>)
    requires Texts.Numeral(digits, n)
    ensures LookupSegments(JArray(items), [digits] + rest) == if n < |items| then LookupSegments(items[n], rest) else None
    ensures Walk(JArray(items), FieldPath.StepsOf([digits] + rest)) ==
            if n < |items| then Walk(items[n], FieldPath.StepsOf(rest)) else None
  {
    hide Texts.Number, Texts.Numeral, Texts.Digital, FieldPath.StepsOf;
    Texts.NumeralDigits(digits, n);
    assert ([digits] + rest)[1..] == rest;
    FieldPath.StepsOfHead([digits] + rest);
    assert FieldPath.AllDigits(digits) && Texts.Number(digits) == n;
  }

  /** String equality differs exactly on an array or object whose serialized text is that string. */
  lemma EqualsDiffers(found: Option<Json>, v: Js, host: Host)
    ensures Equals(found, v, host, true) != Equals(found, v, host, false) <==>
            v.String? && found.Some? && IsContainer(found.value) && host.serialize(found.value) == v.s
  {
  }

  /** The strings an operator object, or a bare value, compares for equality. */
  function ComparedStrings(spec: Js): set<string> {
    match spec
    case String(s) => {s}
    case Object(entries) =>
      (set e | e in entries && e.value.String? :: e.value.s) +
      (set e, x | e in entries && e.value.Array? && x in e.value.items && x.String? :: x.s)
    case _ => {}
  }

  /** Nothing in the field's condition falls into either gap on this document. */
  predicate FieldPlain(field: string, spec: Js, doc: Json, host: Host) {
    var found := Lookup(doc, field, true);
    && !(found.Some? && MeetsNumericKey(doc, FieldPath.Split(field)))
    && (found.Some? && IsContainer(found.value) ==> host.serialize(found.value) !in ComparedStrings(spec))
  }

  predicate Plain(query: Js, doc: Json, host: Host)
    decreases query
  {
    query.Object? ==> forall e :: e in query.entries ==> EntryPlain(e, doc, host)
  }

  predicate EntryPlain(e: Entry, doc: Json, host: Host)
    decreases e
  {
    if e.key == "$and" || e.key == "$or" then
      e.value.Array? ==> forall q :: q in e.value.items ==> Plain(q, doc, host)
    else e.key == "" || e.key[0] != '$' ==> FieldPlain(e.key, e.value, doc, host)
  }

  lemma FieldPlainAgrees(field: string, spec: Js, doc: Json, host: Host)
    requires FieldPlain(field, spec, doc, host)
    ensures FieldMatches(Lookup(doc, field, true), spec, host, true) ==
            FieldMatches(Lookup(doc, field, false), spec, host, false)
  {
    hide Walk, LookupSegments, FieldPath.Split, FieldPath.StepsOf, MeetsNumericKey, FieldOpOf, KeyMatches;
    LookupsDiffer(doc, FieldPath.Split(field));
    var found := Lookup(doc, field, true);
    assert Lookup(doc, field, false) == found;
    if spec.Object? {
      forall e | e in spec.entries
        ensures KeyMatches(found, e.key, e.value, host, true) == KeyMatches(found, e.key, e.value, host, false) {
        KeyMeans(found, e.key, e.value, host, true);
        KeyMeans(found, e.key, e.value, host, false);
        OpPlainAgrees(found, FieldOpOf(e.key), e.value, ComparedStrings(spec), host);
      }
    }
  }

  lemma OpPlainAgrees(found: Option<Json>, op: FieldOp, v: Js, compared: set<string>, host: Host)
    requires v.String? ==> v.s in compared
    requires v.Array? ==> forall x :: x in v.items && x.String? ==> x.s in compared
    requires found.Some? && IsContainer(found.value) ==> host.serialize(found.value) !in compared
    ensures OpMatches(found, op, v, host, true) == OpMatches(found, op, v, host, false)
  {
    if v.Array? {
      forall x | x in v.items ensures Equals(found, x, host, true) == Equals(found, x, host, false) {
        EqualsDiffers(found, x, host);
      }
    }
  }

  lemma {:induction false} PlainAgrees(query: Js, doc: Json, host: Host)
    requires Plain(query, doc, host)
    ensures Matches(query, doc, host, true) == Matches(query, doc, host, false)
    decreases query
  {
    if query.Object? {
      forall e | e in query.entries
        ensures EntryMatches(e, doc, host, true) == EntryMatches(e, doc, host, false) {
        EntryPlainAgrees(e, doc, host);
      }
    }
  }

  lemma {:induction false} EntryPlainAgrees(e: Entry, doc: Json, host: Host)
    requires EntryPlain(e, doc, host)
    ensures EntryMatches(e, doc, host, true) == EntryMatches(e, doc, host, false)
    decreases e
  {
    hide FieldMatches, Lookup, FieldPlain;
    if e.key == "$and" || e.key == "$or" {
      if e.value.Array? {
        forall q | q in e.value.items
          ensures Matches(q, doc, host, true) == Matches(q, doc, host, false) {
          PlainAgrees(q, doc, host);
        }
      }
    } else if e.key == "" || e.key[0] != '$' {
      FieldPlainAgrees(e.key, e.value, doc, host);
    }
  }

  /** On documents that avoid both gaps, the compiled clause has the documented meaning. */
  lemma DocumentedMeaning(query: Js, doc: Json, host: Host)
    requires QueryAccepted(query, host) && Plain(query, doc, host)
    ensures QueryFrag(query, host).Ok?
    ensures var f := QueryFrag(query, host).value;
            var r := ParseOr(f.ts, 0, 0);
            r.Some? && (TruthOf(Eval(r.value.e, f.ps, doc, host)) == T <==> Matches(query, doc, host, true))
  {
    hide QueryFrag, Matches, ParseOr, Eval, Plain;
    CompilesExactly(query, host);
    DocsQueryProof.CompilePreservesMeaning(query, doc, host);
    PlainAgrees(query, doc, host);
  }

  /** Whether the compiled clause of an accepted query selects a document. */
  predicate Selects(query: Js, doc: Json, host: Host) {
    QueryFrag(query, host).Ok? &&
    var f := QueryFrag(query, host).value;
    var r := ParseOr(f.ts, 0, 0);
    r.Some? && TruthOf(Eval(r.value.e, f.ps, doc, host)) == T
  }

  lemma SelectsMatches(query: Js, doc: Json, host: Host)
    requires QueryAccepted(query, host)
    ensures Selects(query, doc, host) <==> Matches(query, doc, host, false)
  {
    hide QueryFrag, Matches, ParseOr, Eval, QueryAccepted;
    CompilesExactly(query, host);
    DocsQueryProof.CompilePreservesMeaning(query, doc, host);
  }

  /** A key that names a field and no operator. */
  predicate IsField(key: string) {
    key == "" || key[0] != '$'
  }

  /** A query for one field compared with a value. */
  function FieldIs(field: string, v: Js): Js {
    Object([Entry(field, v)])
  }

  lemma FieldIsMatches(field: string, v: Js, doc: Json, host: Host, documented: bool)
    requires IsField(field) && !v.Object?
    ensures Matches(FieldIs(field, v), doc, host, documented) <==>
            Equals(Lookup(doc, field, documented), v, host, documented)
  {
    hide Lookup, Equals;
    var e := Entry(field, v);
    assert FieldIs(field, v).entries == [e] && e in [e];
    assert EntryMatches(e, doc, host, documented) <==> Equals(Lookup(doc, field, documented), v, host, documented);
  }

  /**
   * The compiled equality of one field and one value selects otherwise than documented in
   * exactly two ways. Where the path meets a numeric object key it sees a missing field;
   * elsewhere a string also selects the array or object whose serialized text it is.
   */
  lemma EqualityDiffersExactly(field: string, v: Js, doc: Json, host: Host)
    requires QueryAccepted(FieldIs(field, v), host) && IsField(field) && !v.Object?
    ensures var found := Lookup(doc, field, true);
            Selects(FieldIs(field, v), doc, host) != Matches(FieldIs(field, v), doc, host, true) <==>
            if MeetsNumericKey(doc, FieldPath.Split(field)) && found.Some? then v.Null? != Equals(found, v, host, true)
            else v.String? && found.Some? && IsContainer(found.value) && host.serialize(found.value) == v.s
  {
    hide Selects, Matches, QueryAccepted, IsField, FieldIs, LookupSegments, MeetsNumericKey, Walk;
    SelectsMatches(FieldIs(field, v), doc, host);
    FieldIsMatches(field, v, doc, host, false);
    FieldIsMatches(field, v, doc, host, true);
    LookupsDiffer(doc, FieldPath.Split(field));
    EqualsDiffers(Lookup(doc, field, true), v, host);
  }

  /** A query that applies one operator, by its name, to one field. */
  function FieldHas(field: string, key: string, v: Js): Js {
    Object([Entry(field, Object([Entry(key, v)]))])
  }

  lemma FieldHasAccepted(field: string, key: string, v: Js, host: Host)
    requires FieldPath.Accepted(field) && KeyAccepted(key, v, host)
    ensures QueryAccepted(FieldHas(field, key, v), host)
  {
    hide KeyAccepted, FieldPath.GoodSegments;
    var inner, outer := Entry(key, v), Entry(field, Object([Entry(key, v)]));
    assert outer.value.entries == [inner];
    assert FieldAccepted(field, outer.value, host);
  }

  lemma FieldHasMatches(field: string, key: string, v: Js, doc: Json, host: Host)
    requires IsField(field)
    ensures Matches(FieldHas(field, key, v), doc, host, false) <==>
            KeyMatches(Lookup(doc, field, false), key, v, host, false)
  {
    hide KeyMatches, Lookup;
    var inner, outer := Entry(key, v), Entry(field, Object([Entry(key, v)]));
    assert FieldHas(field, key, v).entries == [outer] && outer.value.entries == [inner];
    assert inner in outer.value.entries && outer in [outer];
    assert EntryMatches(outer, doc, host, false) <==> KeyMatches(Lookup(doc, field, false), key, v, host, false);
  }

  lemma OperatorSelects(field: string, key: string, v: Js, doc: Json, host: Host)
    requires FieldPath.Accepted(field) && KeyAccepted(key, v, host)
    ensures Selects(FieldHas(field, key, v), doc, host) <==> KeyMatches(Lookup(doc, field, false), key, v, host, false)
  {
    hide Selects, Matches, QueryAccepted, KeyAccepted, KeyMatches, Lookup, FieldHas, FieldPath.GoodSegments;
    FieldHasAccepted(field, key, v, host);
    SelectsMatches(FieldHas(field, key, v), doc, host);
    FieldHasMatches(field, key, v, doc, host);
  }

  /** `{field: {$gt: r}}` and its kin select exactly the documents whose field is a number so related to `r`. */
  lemma ComparisonsSelect(field: string, r: real, doc: Json, host: Host)
    requires FieldPath.Accepted(field)
    ensures var found := Lookup(doc, field, false);
            var number := found.Some? && (found.value.JInt? || found.value.JReal?);
            && (Selects(FieldHas(field, "$gt", Number(r)), doc, host) <==> number && NumberOf(found.value) > r)
            && (Selects(FieldHas(field, "$gte", Number(r)), doc, host) <==> number && NumberOf(found.value) >= r)
            && (Selects(FieldHas(field, "$lt", Number(r)), doc, host) <==> number && NumberOf(found.value) < r)
            && (Selects(FieldHas(field, "$lte", Number(r)), doc, host) <==> number && NumberOf(found.value) <= r)
  {
    hide Selects, Lookup, FieldPath.Accepted, FieldHas;
    OperatorSelects(field, "$gt", Number(r), doc, host);
    OperatorSelects(field, "$gte", Number(r), doc, host);
    OperatorSelects(field, "$lt", Number(r), doc, host);
    OperatorSelects(field, "$lte", Number(r), doc, host);
  }

  lemma NamesAreFields()
    ensures FieldPath.Split("f") == ["f"] && !FieldPath.AllDigits("f") && FieldPath.Accepted("f")
  {
    assert FieldPath.Split("f"[1..]) == [""];
    assert "f" == ['f'] + "" && [""][1..] == [] && ["f"] == [['f'] + ""] + [];
    assert FieldPath.Split("f") == ["f"];
    assert !Texts.IsDigit("f"[0]);
    assert FieldPath.GoodSegment("f");
  }

  lemma PlainKey()
    ensures IsField("f")
  {
    assert "f"[0] != '$';
  }

  /** The text gap is real: the clause compiled from `{f: "[]"}` selects a document whose `f` is an empty array. */
  lemma SerializedTextMatches(host: Host)
    requires host.serialize(JArray([])) == "[]"
    ensures var doc, query := JObject(map["f" := JArray([])]), FieldIs("f", String("[]"));
            Selects(query, doc, host) && !Matches(query, doc, host, true)
  {
    var doc, v := JObject(map["f" := JArray([])]), String("[]");
    NamesAreFields();
    PlainKey();
    hide IsField, FieldPath.Split, FieldPath.AllDigits, FieldPath.Accepted, Selects, Matches, FieldIs;
    assert LookupSegments(doc, ["f"]) == Some(JArray([])) && !MeetsNumericKey(doc, ["f"]);
    assert Lookup(doc, "f", true) == Some(JArray([]));
    assert !Equals(Some(JArray([])), v, host, true);
    FieldIsAccepted("f", v, host);
    EqualityDiffersExactly("f", v, doc, host);
    FieldIsMatches("f", v, doc, host, true);
  }

  lemma FieldIsAccepted(field: string, v: Js, host: Host)
    requires IsField(field) && FieldPath.Accepted(field) && v.String?
    ensures QueryAccepted(FieldIs(field, v), host)
  {
    hide FieldPath.Accepted;
  }
}
