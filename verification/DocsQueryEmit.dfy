/**
 * The query compiler as the source runs it: loops collect parts while every
 * condition pushes its bindings onto one parameter list shared by all of them.
 */
module DocsQueryEmit {
  import opened Wrappers
  import FieldPath
  import opened SqlExpr
  import opened DocsQuery

  class ParamList {
    var items: seq<Value>

    constructor ()
      ensures items == []
    {
      items := [];
    }

    method Push(values: seq<Value>)
      modifies this
      ensures items == old(items) + values
    {
      items := items + values;
    }
  }

  /** The emitted text is the specified fragment's, and its bindings were appended. */
  predicate Emitted(spec: Result<Frag, Invalid>, r: Result<seq<Token>, Invalid>, before: seq<Value>, after: seq<Value>) {
    && (spec.Ok? <==> r.Ok?)
    && (r.Ok? ==> r.value == spec.value.ts && after == before + spec.value.ps)
  }

  // ------------------------------------------------------- parts and their joins

  function Texts(frags: seq<Frag>): seq<seq<Token>> {
    seq(|frags|, k requires 0 <= k < |frags| => frags[k].ts)
  }

  function Bindings(frags: seq<Frag>): seq<Value> {
    if frags == [] then [] else frags[0].ps + Bindings(frags[1..])
  }

  lemma {:induction false} BindingsAppend(frags: seq<Frag>, last: Frag)
    ensures Bindings(frags + [last]) == Bindings(frags) + last.ps
  {
    if frags != [] {
      assert (frags + [last])[1..] == frags[1..] + [last];
      BindingsAppend(frags[1..], last);
    }
  }

  /** `parts.join(sep)` */
  function JoinParts(parts: seq<seq<Token>>, sep: Token): seq<Token> {
    if parts == [] then []
    else if |parts| == 1 then parts[0]
    else parts[0] + [sep] + JoinParts(parts[1..], sep)
  }

  lemma {:induction false} RestBindings(frags: seq<Frag>, sep: Token)
    ensures Rest(frags, sep).ps == Bindings(frags)
    ensures frags != [] ==> Rest(frags, sep).ts == [sep] + JoinParts(Texts(frags), sep)
  {
    if frags != [] {
      RestBindings(frags[1..], sep);
      assert Texts(frags)[1..] == Texts(frags[1..]);
      if |frags| > 1 {
        assert [sep] + frags[0].ts + ([sep] + JoinParts(Texts(frags[1..]), sep))
            == [sep] + (frags[0].ts + [sep] + JoinParts(Texts(frags[1..]), sep));
      }
    }
  }

  lemma JoinIsJoin(frags: seq<Frag>, sep: Token)
    requires |frags| >= 1
    ensures Join(frags, sep) == Frag(JoinParts(Texts(frags), sep), Bindings(frags))
  {
    RestBindings(frags[1..], sep);
    assert Texts(frags)[1..] == Texts(frags[1..]);
    if |frags| > 1 {
      assert frags[0].ts + ([sep] + JoinParts(Texts(frags[1..]), sep))
          == frags[0].ts + [sep] + JoinParts(Texts(frags[1..]), sep);
    }
  }

  // ----------------------------------------------- fragment lists, item by item

  lemma {:induction false} EqFragsItems(path: string, values: seq<Js>)
    requires forall v :: v in values ==> IsScalar(v)
    ensures EqFrags(path, values).Ok? <==> forall k :: 0 <= k < |values| ==> EqFrag(path, values[k]).Ok?
    ensures EqFrags(path, values).Ok? ==>
            forall k :: 0 <= k < |values| ==> EqFrags(path, values).value[k] == EqFrag(path, values[k]).value
  {
    hide EqFrag;
    if values != [] {
      EqFragsItems(path, values[1..]);
      assert forall k :: 0 <= k < |values| ==> values[k] == if k == 0 then values[0] else values[1..][k - 1];
    }
  }

  function OpFragOf(path: string, e: Entry, host: Host): Result<Frag, Invalid> {
    OpFrag(path, FieldOpOf(e.key), e.value, host)
  }

  lemma {:induction false} OpFragsItems(path: string, entries: seq<Entry>, host: Host)
    ensures OpFrags(path, entries, host).Ok? <==>
            forall k :: 0 <= k < |entries| ==> OpFragOf(path, entries[k], host).Ok?
    ensures OpFrags(path, entries, host).Ok? ==>
            forall k :: 0 <= k < |entries| ==>
              OpFrags(path, entries, host).value[k] == OpFragOf(path, entries[k], host).value
  {
    hide OpFrag, FieldOpOf;
    if entries != [] {
      OpFragsItems(path, entries[1..], host);
      assert forall k :: 0 <= k < |entries| ==> entries[k] == if k == 0 then entries[0] else entries[1..][k - 1];
    }
  }

  lemma {:induction false} EntryFragsItems(entries: seq<Entry>, host: Host)
    ensures EntryFrags(entries, host).Ok? <==> forall k :: 0 <= k < |entries| ==> EntryFrag(entries[k], host).Ok?
    ensures EntryFrags(entries, host).Ok? ==>
            forall k :: 0 <= k < |entries| ==> EntryFrags(entries, host).value[k] == EntryFrag(entries[k], host).value
  {
    hide EntryFrag;
    if entries != [] {
      EntryFragsItems(entries[1..], host);
      assert forall k :: 0 <= k < |entries| ==> entries[k] == if k == 0 then entries[0] else entries[1..][k - 1];
    }
  }

  lemma {:induction false} QueryFragsItems(queries: seq<Js>, host: Host)
    ensures QueryFrags(queries, host).Ok? <==> forall k :: 0 <= k < |queries| ==> QueryFrag(queries[k], host).Ok?
    ensures QueryFrags(queries, host).Ok? ==>
            forall k :: 0 <= k < |queries| ==> QueryFrags(queries, host).value[k] == QueryFrag(queries[k], host).value
  {
    hide QueryFrag;
    if queries != [] {
      QueryFragsItems(queries[1..], host);
      assert forall k :: 0 <= k < |queries| ==> queries[k] == if k == 0 then queries[0] else queries[1..][k - 1];
    }
  }

  /** The parts collected so far and the bindings pushed for them are those of these fragments. */
  ghost predicate Gathered(parts: seq<seq<Token>>, before: seq<Value>, items: seq<Value>, frags: seq<Frag>) {
    parts == Texts(frags) && items == before + Bindings(frags)
  }

  lemma GatherNone(before: seq<Value>)
    ensures Gathered([], before, before, [])
  {
    assert Texts([]) == [];
  }

  lemma GatherOne(parts: seq<seq<Token>>, before: seq<Value>, items: seq<Value>, frags: seq<Frag>,
                  part: seq<Token>, after: seq<Value>, frag: Frag)
    requires Gathered(parts, before, items, frags) && Emitted(Ok(frag), Ok(part), items, after)
    ensures Gathered(parts + [part], before, after, frags + [frag])
  {
    BindingsAppend(frags, frag);
    assert Texts(frags + [frag]) == Texts(frags) + [frag.ts];
  }

  /** Parts joined in parentheses, or a single part as it is. */
  lemma GatheredGroup(parts: seq<seq<Token>>, before: seq<Value>, items: seq<Value>, frags: seq<Frag>)
    requires Gathered(parts, before, items, frags) && |frags| >= 1
    ensures |parts| >= 1 && Emitted(Ok(Group(frags)), Ok(Grouped(parts)), before, items)
  {
    GroupedParts(frags);
  }

  lemma GatheredJoin(parts: seq<seq<Token>>, sep: Token, before: seq<Value>, items: seq<Value>, frags: seq<Frag>)
    requires Gathered(parts, before, items, frags) && |frags| >= 1
    ensures Emitted(Ok(Paren(Join(frags, sep))), Ok([LPar] + JoinParts(parts, sep) + [RPar]), before, items)
  {
    JoinIsJoin(frags, sep);
  }

  // ------------------------------------------------------------------- methods

  method EqCondition(path: string, value: Js, params: ParamList) returns (r: Result<seq<Token>, Invalid>)
    requires IsScalar(value)
    modifies params
    ensures Emitted(EqFrag(path, value), r, old(params.items), params.items)
  {
    match value {
      case Null =>
        params.Push([VText(path)]);
        r := Ok(JsonCall(JsonExtract) + [TIs, TNull]);
      case Bool(b) =>
        params.Push([VText(path), VText(path), VNum(if b then 1.0 else 0.0)]);
        r := Ok(Guarded(InTypes("true", "false"), JsonCall(JsonExtract) + [TIs, Q]));
      case Number(x) =>
        params.Push([VText(path), VText(path), VNum(x)]);
        r := Ok(Guarded(InTypes("integer", "real"), JsonCall(JsonExtract) + [TIs, Q]));
      case NonFinite => r := Err(Invalid);
      case String(s) =>
        params.Push([VText(path), VText(s)]);
        r := Ok(JsonCall(JsonExtract) + [TIs, Q]);
    }
  }

  method OrderedCondition(path: string, cmp: Cmp, value: Js, params: ParamList) returns (r: Result<seq<Token>, Invalid>)
    modifies params
    ensures Emitted(OrderedFrag(path, cmp, value), r, old(params.items), params.items)
  {
    match value {
      case Number(x) =>
        params.Push([VText(path), VText(path), VNum(x)]);
        r := Ok(Guarded(InTypes("integer", "real"), JsonCall(JsonExtract) + [Op(cmp), Q]));
      case String(s) =>
        params.Push([VText(path), VText(path), VText(s)]);
        r := Ok(Guarded([Op(Eq), Str("text")], JsonCall(JsonExtract) + [Op(cmp), Q]));
      case _ => r := Err(Invalid);
    }
  }

  /** `scalarList`: every item is checked before any is compiled. */
  method ScalarList(value: Js) returns (r: Result<seq<Js>, Invalid>)
    ensures r.Ok? <==> value.Array? && forall v :: v in value.items ==> IsScalar(v)
    ensures r.Ok? ==> r.value == value.items
  {
    if !value.Array? {
      return Err(Invalid);
    }
    for k := 0 to |value.items|
      invariant forall j :: 0 <= j < k ==> IsScalar(value.items[j])
    {
      if !IsScalar(value.items[k]) {
        return Err(Invalid);
      }
    }
    return Ok(value.items);
  }

  /** `(` equalities joined by OR `)` over a non-empty list of scalars. */
  method AnyOfCondition(path: string, list: seq<Js>, params: ParamList) returns (r: Result<seq<Token>, Invalid>)
    requires list != [] && forall v :: v in list ==> IsScalar(v)
    modifies params
    ensures Emitted(AnyOfFrag(path, Array(list)), r, old(params.items), params.items)
  {
    hide EqFrag, Rest, Join, Gathered;
    EqFragsItems(path, list);
    var parts := [];
    ghost var frags: seq<Frag> := [];
    for k := 0 to |list|
      invariant |frags| == k && parts == Texts(frags)
      invariant forall j :: 0 <= j < k ==> EqFrag(path, list[j]) == Ok(frags[j])
      invariant params.items == old(params.items) + Bindings(frags)
    {
      var part := EqCondition(path, list[k], params);
      if part.Err? {
        return Err(Invalid);
      }
      var frag := EqFrag(path, list[k]).value;
      BindingsAppend(frags, frag);
      assert Texts(frags + [frag]) == Texts(frags) + [frag.ts];
      parts, frags := parts + [part.value], frags + [frag];
    }
    assert frags == EqFrags(path, list).value;
    JoinIsJoin(frags, TOr);
    r := Ok([LPar] + JoinParts(parts, TOr) + [RPar]);
  }

  /** One case of the operator switch. */
  method OpCondition(path: string, op: FieldOp, value: Js, host: Host, params: ParamList)
    returns (r: Result<seq<Token>, Invalid>)
    modifies params
    ensures Emitted(OpFrag(path, op, value, host), r, old(params.items), params.items)
  {
    hide EqFrag, OrderedFrag, Rest;
    match op {
      case OpEq =>
        if IsScalar(value) {
          r := EqCondition(path, value, params);
        } else {
          r := Err(Invalid);
        }
      case OpNe =>
        if IsScalar(value) {
          r := EqCondition(path, value, params);
          if r.Ok? {
            r := Ok([TNot] + r.value);
          }
        } else {
          r := Err(Invalid);
        }
      case OpCmp(cmp) => r := OrderedCondition(path, cmp, value, params);
      case OpIn =>
        var list := ScalarList(value);
        if list.Err? {
          r := Err(Invalid);
        } else if list.value == [] {
          r := Ok([Num(0)]);
        } else {
          r := AnyOfCondition(path, list.value, params);
        }
      case OpNin =>
        var list := ScalarList(value);
        if list.Err? {
          r := Err(Invalid);
        } else if list.value == [] {
          r := Ok([Num(1)]);
        } else {
          r := AnyOfCondition(path, list.value, params);
          if r.Ok? {
            r := Ok([TNot] + r.value);
          }
        }
      case OpExists =>
        if value.Bool? {
          params.Push([VText(path)]);
          r := Ok(JsonCall(JsonType) + (if value.b then [TIs, TNot, TNull] else [TIs, TNull]));
        } else {
          r := Err(Invalid);
        }
      case OpRegex =>
        if value.String? && host.compiles(value.s) {
          params.Push([VText(path), VText(value.s), VText(path)]);
          r := Ok(Guarded([Op(Eq), Str("text")], RegexpCall()));
        } else {
          r := Err(Invalid);
        }
      case OpUnknown => r := Err(Invalid);
    }
  }

  method FieldCondition(field: string, spec: Js, host: Host, params: ParamList) returns (r: Result<seq<Token>, Invalid>)
    modifies params
    ensures Emitted(FieldFrag(field, spec, host), r, old(params.items), params.items)
  {
    hide EqFrag, OpFrag, OpFrags, Rest, Group, Grouped, Gathered, FieldPath.Accepted, FieldPath.PathOf, FieldOpOf;
    var path := FieldPath.FieldPath(field);
    if path.Err? {
      return Err(Invalid);
    }
    if IsScalar(spec) {
      r := EqCondition(path.value, spec, params);
      return;
    }
    if !spec.Object? || spec.entries == [] {
      return Err(Invalid);
    }
    var parts, frags := OperatorParts(path.value, spec.entries, host, params);
    if parts.Err? {
      return Err(Invalid);
    }
    GatheredGroup(parts.value, old(params.items), params.items, frags);
    r := Ok(Grouped(parts.value));
  }

  /** The operator loop: one part for each entry of the operator object. */
  method OperatorParts(path: string, entries: seq<Entry>, host: Host, params: ParamList)
    returns (r: Result<seq<seq<Token>>, Invalid>, ghost frags: seq<Frag>)
    modifies params
    ensures r.Ok? ==> OpFrags(path, entries, host) == Ok(frags) && |frags| == |entries|
    ensures r.Ok? ==> Gathered(r.value, old(params.items), params.items, frags)
    ensures r.Err? ==> OpFrags(path, entries, host).Err?
  {
    hide OpFrag, FieldOpOf, OpFrags, Gathered;
    OpFragsItems(path, entries, host);
    GatherNone(params.items);
    var parts := [];
    frags := [];
    for k := 0 to |entries|
      invariant |frags| == k
      invariant forall j :: 0 <= j < k ==> OpFragOf(path, entries[j], host) == Ok(frags[j])
      invariant Gathered(parts, old(params.items), params.items, frags)
    {
      ghost var items := params.items;
      var part := OpCondition(path, FieldOpOf(entries[k].key), entries[k].value, host, params);
      if part.Err? {
        assert OpFragOf(path, entries[k], host).Err?;
        return Err(Invalid), [];
      }
      ghost var frag := OpFragOf(path, entries[k], host).value;
      GatherOne(parts, old(params.items), items, frags, part.value, params.items, frag);
      parts, frags := parts + [part.value], frags + [frag];
    }
    assert frags == OpFrags(path, entries, host).value;
    return Ok(parts), frags;
  }

  function Grouped(parts: seq<seq<Token>>): seq<Token>
    requires |parts| >= 1
  {
    if |parts| == 1 then parts[0] else [LPar] + JoinParts(parts, TAnd) + [RPar]
  }

  lemma GroupedParts(frags: seq<Frag>)
    requires |frags| >= 1
    ensures Group(frags) == Frag(Grouped(Texts(frags)), Bindings(frags))
  {
    JoinIsJoin(frags, TAnd);
    if |frags| == 1 {
      assert Bindings(frags) == frags[0].ps + Bindings([]);
    }
  }

  method ClauseList(sep: Token, value: Js, host: Host, params: ParamList) returns (r: Result<seq<Token>, Invalid>)
    modifies params
    ensures Emitted(ClauseFrag(sep, value, host), r, old(params.items), params.items)
    decreases value, 1
  {
    hide QueryFrag, Rest, Gathered;
    if !value.Array? || value.items == [] {
      return Err(Invalid);
    }
    var parts, frags := QueryParts(value.items, host, params);
    if parts.Err? {
      return Err(Invalid);
    }
    GatheredJoin(parts.value, sep, old(params.items), params.items, frags);
    r := Ok([LPar] + JoinParts(parts.value, sep) + [RPar]);
  }

  /** The queries of a clause list, compiled one after another. */
  method QueryParts(queries: seq<Js>, host: Host, params: ParamList)
    returns (r: Result<seq<seq<Token>>, Invalid>, ghost frags: seq<Frag>)
    modifies params
    ensures r.Ok? ==> QueryFrags(queries, host) == Ok(frags) && |frags| == |queries|
    ensures r.Ok? ==> Gathered(r.value, old(params.items), params.items, frags)
    ensures r.Err? ==> QueryFrags(queries, host).Err?
    decreases queries, 0
  {
    hide QueryFrag, QueryFrags, Gathered;
    QueryFragsItems(queries, host);
    GatherNone(params.items);
    var parts := [];
    frags := [];
    for k := 0 to |queries|
      invariant |frags| == k
      invariant forall j :: 0 <= j < k ==> QueryFrag(queries[j], host) == Ok(frags[j])
      invariant Gathered(parts, old(params.items), params.items, frags)
    {
      ghost var items := params.items;
      var part := CompileCondition(queries[k], host, params);
      if part.Err? {
        assert QueryFrag(queries[k], host).Err?;
        return Err(Invalid), [];
      }
      ghost var frag := QueryFrag(queries[k], host).value;
      GatherOne(parts, old(params.items), items, frags, part.value, params.items, frag);
      parts, frags := parts + [part.value], frags + [frag];
    }
    assert frags == QueryFrags(queries, host).value;
    return Ok(parts), frags;
  }

  method CompileEntry(e: Entry, host: Host, params: ParamList) returns (r: Result<seq<Token>, Invalid>)
    modifies params
    ensures Emitted(EntryFrag(e, host), r, old(params.items), params.items)
    decreases e, 2
  {
    hide KeyKindOf, FieldFrag, QueryFrags, Rest;
    match KeyKindOf(e.key) {
      case AndKey => r := ClauseList(TAnd, e.value, host, params);
      case OrKey => r := ClauseList(TOr, e.value, host, params);
      case DollarKey => r := Err(Invalid);
      case FieldKey => r := FieldCondition(e.key, e.value, host, params);
    }
  }

  method CompileCondition(query: Js, host: Host, params: ParamList) returns (r: Result<seq<Token>, Invalid>)
    modifies params
    ensures Emitted(QueryFrag(query, host), r, old(params.items), params.items)
    decreases query, 3
  {
    hide EntryFrag, Rest, Gathered;
    if query.Undefined? || query.Null? {
      return Ok([Num(1)]);
    }
    if !query.Object? {
      return Err(Invalid);
    }
    if query.entries == [] {
      return Ok([Num(1)]);
    }
    var parts, frags := ConditionParts(query.entries, host, params);
    if parts.Err? {
      return Err(Invalid);
    }
    GatheredGroup(parts.value, old(params.items), params.items, frags);
    r := Ok(Grouped(parts.value));
  }

  /** The entries of a query object, compiled one after another. */
  method ConditionParts(entries: seq<Entry>, host: Host, params: ParamList)
    returns (r: Result<seq<seq<Token>>, Invalid>, ghost frags: seq<Frag>)
    modifies params
    ensures r.Ok? ==> EntryFrags(entries, host) == Ok(frags) && |frags| == |entries|
    ensures r.Ok? ==> Gathered(r.value, old(params.items), params.items, frags)
    ensures r.Err? ==> EntryFrags(entries, host).Err?
    decreases entries, 3
  {
    hide EntryFrag, EntryFrags, Gathered;
    EntryFragsItems(entries, host);
    GatherNone(params.items);
    var parts := [];
    frags := [];
    for k := 0 to |entries|
      invariant |frags| == k
      invariant forall j :: 0 <= j < k ==> EntryFrag(entries[j], host) == Ok(frags[j])
      invariant Gathered(parts, old(params.items), params.items, frags)
    {
      ghost var items := params.items;
      var part := CompileEntry(entries[k], host, params);
      if part.Err? {
        assert EntryFrag(entries[k], host).Err?;
        return Err(Invalid), [];
      }
      ghost var frag := EntryFrag(entries[k], host).value;
      GatherOne(parts, old(params.items), items, frags, part.value, params.items, frag);
      parts, frags := parts + [part.value], frags + [frag];
    }
    assert frags == EntryFrags(entries, host).value;
    return Ok(parts), frags;
  }

  /** `compileQuery`: the WHERE fragment of a query with its bindings. */
  method CompileQuery(query: Js, host: Host) returns (r: Result<Frag, Invalid>)
    ensures r == QueryFrag(query, host)
  {
    var params := new ParamList();
    var sql := CompileCondition(query, host, params);
    match sql {
      case Err(_) =>
        r := Err(Invalid);
        assert QueryFrag(query, host).error == r.error;
      case Ok(ts) =>
        r := Ok(Frag(ts, params.items));
        assert [] + QueryFrag(query, host).value.ps == QueryFrag(query, host).value.ps;
    }
  }
}
