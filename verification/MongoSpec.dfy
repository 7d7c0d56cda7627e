/**
 * What a Mongo-style query means on a document, stated without SQL.
 *
 * `documented` picks between two readings that differ in two corners: the
 * documented one compares strings only with strings and lets a numeric segment
 * name an object key; the other is the one the compiled SQL computes.
 */
module MongoSpec {
  import opened Wrappers
  import Texts
  import FieldPath
  import opened SqlExpr
  import opened DocsQuery

  /** The value at the end of a dotted path, as the documented reading finds it. */
  function LookupSegments(doc: Json, segments: seq<string>): Option<Json>
    decreases |segments|
  {
    if segments == [] then Some(doc)
    else
      var s := segments[0];
      match doc
      case JObject(fields) => if s in fields then LookupSegments(fields[s], segments[1..]) else None
      case JArray(items) =>
        if FieldPath.AllDigits(s) && Texts.Number(s) < |items|
        then LookupSegments(items[Texts.Number(s)], segments[1..])
        else None
      case _ => None
  }

  function Lookup(doc: Json, field: string, documented: bool): Option<Json> {
    if documented then LookupSegments(doc, FieldPath.Split(field))
    else Walk(doc, FieldPath.StepsOf(FieldPath.Split(field)))
  }

  predicate IsContainer(j: Json) {
    j.JArray? || j.JObject?
  }

  function NumberOf(j: Json): real
    requires j.JInt? || j.JReal?
  {
    if j.JInt? then j.i as real else j.r
  }

  predicate Equals(found: Option<Json>, v: Js, host: Host, documented: bool) {
    match v
    case Null => found.None? || found.value.JNull?
    case Bool(b) => found == Some(JBool(b))
    case Number(r) => found.Some? && (found.value.JInt? || found.value.JReal?) && NumberOf(found.value) == r
    case String(s) =>
      found.Some? &&
      (found.value == JText(s) || (!documented && IsContainer(found.value) && host.serialize(found.value) == s))
    case _ => false
  }

  predicate Ordered(found: Option<Json>, cmp: Cmp, v: Js) {
    match v
    case Number(r) =>
      found.Some? && (found.value.JInt? || found.value.JReal?) &&
      (var x := NumberOf(found.value);
       match cmp case Eq => x == r case Lt => x < r case Le => x <= r case Gt => x > r case Ge => x >= r)
    case String(s) =>
      found.Some? && found.value.JText? &&
      (var x := found.value.s;
       match cmp
       case Eq => x == s
       case Lt => TextLess(x, s)
       case Le => TextLess(x, s) || x == s
       case Gt => TextLess(s, x)
       case Ge => TextLess(s, x) || x == s)
    case _ => false
  }

  /** What each operator, by its name, asks of the value found. */
  predicate KeyMatches(found: Option<Json>, key: string, v: Js, host: Host, documented: bool) {
    if key == "$eq" then Equals(found, v, host, documented)
    else if key == "$ne" then !Equals(found, v, host, documented)
    else if key == "$gt" then Ordered(found, Gt, v)
    else if key == "$gte" then Ordered(found, Ge, v)
    else if key == "$lt" then Ordered(found, Lt, v)
    else if key == "$lte" then Ordered(found, Le, v)
    else if key == "$in" then v.Array? && exists x :: x in v.items && Equals(found, x, host, documented)
    else if key == "$nin" then v.Array? && forall x :: x in v.items ==> !Equals(found, x, host, documented)
    else if key == "$exists" then v.Bool? && (v.b <==> found.Some?)
    else if key == "$regex" then
      v.String? && found.Some? && found.value.JText? && host.matches(v.s, found.value.s)
    else false
  }

  predicate FieldMatches(found: Option<Json>, spec: Js, host: Host, documented: bool) {
    if spec.Object? then forall e :: e in spec.entries ==> KeyMatches(found, e.key, e.value, host, documented)
    else Equals(found, spec, host, documented)
  }

  predicate Matches(query: Js, doc: Json, host: Host, documented: bool)
    decreases query
  {
    query.Object? ==> forall e :: e in query.entries ==> EntryMatches(e, doc, host, documented)
  }

  predicate EntryMatches(e: Entry, doc: Json, host: Host, documented: bool)
    decreases e
  {
    if e.key == "$and" then e.value.Array? && forall q :: q in e.value.items ==> Matches(q, doc, host, documented)
    else if e.key == "$or" then e.value.Array? && exists q :: q in e.value.items && Matches(q, doc, host, documented)
    else if e.key != "" && e.key[0] == '$' then false
    else FieldMatches(Lookup(doc, e.key, documented), e.value, host, documented)
  }

  // ------------------------------------------- the same by operator, not by name

  predicate OpMatches(found: Option<Json>, op: FieldOp, v: Js, host: Host, documented: bool) {
    match op
    case OpEq => Equals(found, v, host, documented)
    case OpNe => !Equals(found, v, host, documented)
    case OpCmp(cmp) => Ordered(found, cmp, v)
    case OpIn => v.Array? && exists x :: x in v.items && Equals(found, x, host, documented)
    case OpNin => v.Array? && forall x :: x in v.items ==> !Equals(found, x, host, documented)
    case OpExists => v.Bool? && (v.b <==> found.Some?)
    case OpRegex => v.String? && found.Some? && found.value.JText? && host.matches(v.s, found.value.s)
    case OpUnknown => false
  }

  /** The compiler reads each operator's name as the specification does. */
  lemma KeyMeans(found: Option<Json>, key: string, v: Js, host: Host, documented: bool)
    ensures KeyMatches(found, key, v, host, documented) == OpMatches(found, FieldOpOf(key), v, host, documented)
  {
    hide Equals, Ordered;
  }

  lemma KeyKinds(key: string)
    ensures KeyKindOf(key) == AndKey <==> key == "$and"
    ensures KeyKindOf(key) == OrKey <==> key == "$or"
    ensures KeyKindOf(key) == FieldKey <==> (key == "" || key[0] != '$')
  {
    assert "$and"[0] == '$' && "$or"[0] == '$' && |"$and"| == 4 && |"$or"| == 3;
  }

  // ------------------------------------------------------------- acceptance

  predicate QueryableScalar(v: Js) {
    IsScalar(v) && !v.NonFinite?
  }

  /** The values each operator, by its name, takes; other operators do not exist. */
  predicate KeyAccepted(key: string, v: Js, host: Host) {
    if key in ["$eq", "$ne"] then QueryableScalar(v)
    else if key in ["$gt", "$gte", "$lt", "$lte"] then v.Number? || v.String?
    else if key in ["$in", "$nin"] then v.Array? && forall x :: x in v.items ==> QueryableScalar(x)
    else if key == "$exists" then v.Bool?
    else key == "$regex" && v.String? && host.compiles(v.s)
  }

  predicate OpAccepted(op: FieldOp, v: Js, host: Host) {
    match op
    case OpEq => QueryableScalar(v)
    case OpNe => QueryableScalar(v)
    case OpCmp(_) => v.Number? || v.String?
    case OpIn => v.Array? && forall x :: x in v.items ==> QueryableScalar(x)
    case OpNin => v.Array? && forall x :: x in v.items ==> QueryableScalar(x)
    case OpExists => v.Bool?
    case OpRegex => v.String? && host.compiles(v.s)
    case OpUnknown => false
  }

  lemma KeyAccepts(key: string, v: Js, host: Host)
    ensures KeyAccepted(key, v, host) == OpAccepted(FieldOpOf(key), v, host)
  {
    hide QueryableScalar;
  }

  predicate FieldAccepted(field: string, spec: Js, host: Host) {
    && FieldPath.Accepted(field)
    && (QueryableScalar(spec) ||
        (spec.Object? && spec.entries != [] &&
         forall e :: e in spec.entries ==> KeyAccepted(e.key, e.value, host)))
  }

  /** The queries that compile; everything else is refused. */
  predicate QueryAccepted(query: Js, host: Host)
    decreases query
  {
    query.Undefined? || query.Null? ||
    (query.Object? && forall e :: e in query.entries ==> EntryAccepted(e, host))
  }

  predicate EntryAccepted(e: Entry, host: Host)
    decreases e
  {
    if e.key == "$and" || e.key == "$or" then
      e.value.Array? && e.value.items != [] && forall q :: q in e.value.items ==> QueryAccepted(q, host)
    else (e.key == "" || e.key[0] != '$') && FieldAccepted(e.key, e.value, host)
  }
}
