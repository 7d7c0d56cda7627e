/**
 * The `poid.db.docs` query compiler: Mongo-style queries to WHERE clauses with
 * bound parameters. The functions fix what is emitted; the methods emit it the
 * way the source does, pushing into one shared parameter list.
 */
module DocsQuery {
  import opened Wrappers
  import FieldPath
  import opened SqlExpr

  /** A JavaScript value as it reaches the compiler; object entries in order. */
  datatype Js =
    | Undefined
    | Null
    | Bool(b: bool)
    | Number(r: real)
    | NonFinite
    | String(s: string)
    | Array(items: seq<Js>)
    | Object(entries: seq<Entry>)

  datatype Entry = Entry(key: string, value: Js)

  datatype Invalid = Invalid

  /** A WHERE fragment: tokens with `?` placeholders, and their bindings in order. */
  datatype Frag = Frag(ts: seq<Token>, ps: seq<Value>)

  datatype FieldOp = OpEq | OpNe | OpCmp(cmp: Cmp) | OpIn | OpNin | OpExists | OpRegex | OpUnknown

  datatype KeyKind = AndKey | OrKey | DollarKey | FieldKey

  function FieldOpOf(key: string): FieldOp {
    if key == "$eq" then OpEq
    else if key == "$ne" then OpNe
    else if key == "$gt" then OpCmp(Gt)
    else if key == "$gte" then OpCmp(Ge)
    else if key == "$lt" then OpCmp(Lt)
    else if key == "$lte" then OpCmp(Le)
    else if key == "$in" then OpIn
    else if key == "$nin" then OpNin
    else if key == "$exists" then OpExists
    else if key == "$regex" then OpRegex
    else OpUnknown
  }

  function KeyKindOf(key: string): KeyKind {
    if key == "$and" then AndKey
    else if key == "$or" then OrKey
    else if key != "" && key[0] == '$' then DollarKey
    else FieldKey
  }

  predicate IsScalar(v: Js) {
    v.Null? || v.String? || v.Number? || v.NonFinite? || v.Bool?
  }

  // --------------------------------------------------------- emitted fragments

  function JsonCall(f: Ident): seq<Token> {
    [Id(f), LPar, Id(DocColumn), Comma, Q, RPar]
  }

  function InTypes(a: string, b: string): seq<Token> {
    [TIn, LPar, Str(a), Comma, Str(b), RPar]
  }

  /** `(json_type(doc, ?) <guard> AND <test>)` */
  function Guarded(guard: seq<Token>, test: seq<Token>): seq<Token> {
    [LPar] + (JsonCall(JsonType) + guard + [TAnd] + test) + [RPar]
  }

  function EqFrag(path: string, v: Js): Result<Frag, Invalid>
    requires IsScalar(v)
  {
    match v
    case Null => Ok(Frag(JsonCall(JsonExtract) + [TIs, TNull], [VText(path)]))
    case Bool(b) =>
      Ok(Frag(Guarded(InTypes("true", "false"), JsonCall(JsonExtract) + [TIs, Q]),
              [VText(path), VText(path), VNum(if b then 1.0 else 0.0)]))
    case Number(r) =>
      Ok(Frag(Guarded(InTypes("integer", "real"), JsonCall(JsonExtract) + [TIs, Q]),
              [VText(path), VText(path), VNum(r)]))
    case String(s) => Ok(Frag(JsonCall(JsonExtract) + [TIs, Q], [VText(path), VText(s)]))
    case _ => Err(Invalid)
  }

  function OrderedFrag(path: string, cmp: Cmp, v: Js): Result<Frag, Invalid> {
    match v
    case Number(r) =>
      Ok(Frag(Guarded(InTypes("integer", "real"), JsonCall(JsonExtract) + [Op(cmp), Q]),
              [VText(path), VText(path), VNum(r)]))
    case String(s) =>
      Ok(Frag(Guarded([Op(Eq), Str("text")], JsonCall(JsonExtract) + [Op(cmp), Q]),
              [VText(path), VText(path), VText(s)]))
    case _ => Err(Invalid)
  }

  function ExistsFrag(path: string, present: bool): Frag {
    Frag(JsonCall(JsonType) + (if present then [TIs, TNot, TNull] else [TIs, TNull]), [VText(path)])
  }

  function RegexpCall(): seq<Token> {
    [Id(Regexp), LPar, Q, Comma] + JsonCall(JsonExtract) + [RPar]
  }

  function RegexFrag(path: string, pattern: string): Frag {
    Frag(Guarded([Op(Eq), Str("text")], RegexpCall()), [VText(path), VText(pattern), VText(path)])
  }

  /** Every part preceded by the separator. */
  function Rest(frags: seq<Frag>, sep: Token): Frag {
    if frags == [] then Frag([], [])
    else
      var rest := Rest(frags[1..], sep);
      Frag([sep] + frags[0].ts + rest.ts, frags[0].ps + rest.ps)
  }

  /** The parts with the separator between neighbours. */
  function Join(frags: seq<Frag>, sep: Token): Frag
    requires |frags| >= 1
  {
    var rest := Rest(frags[1..], sep);
    Frag(frags[0].ts + rest.ts, frags[0].ps + rest.ps)
  }

  function Paren(f: Frag): Frag {
    Frag([LPar] + f.ts + [RPar], f.ps)
  }

  function Negated(f: Frag): Frag {
    Frag([TNot] + f.ts, f.ps)
  }

  /** A single part stands bare; several are joined by AND in parentheses. */
  function Group(frags: seq<Frag>): Frag
    requires |frags| >= 1
  {
    if |frags| == 1 then frags[0] else Paren(Join(frags, TAnd))
  }

  function EqFrags(path: string, values: seq<Js>): (r: Result<seq<Frag>, Invalid>)
    requires forall v :: v in values ==> IsScalar(v)
    ensures r.Ok? ==> |r.value| == |values|
  {
    if values == [] then Ok([])
    else match (EqFrag(path, values[0]), EqFrags(path, values[1..]))
      case (Ok(f), Ok(rest)) => Ok([f] + rest)
      case _ => Err(Invalid)
  }

  /** The parenthesised disjunction behind `$in` and `$nin` on a non-empty list. */
  function AnyOfFrag(path: string, value: Js): Result<Frag, Invalid>
    requires value.Array? && value.items != []
  {
    if exists v :: v in value.items && !IsScalar(v) then Err(Invalid)
    else match EqFrags(path, value.items)
      case Ok(frags) => Ok(Paren(Join(frags, TOr)))
      case Err(e) => Err(e)
  }

  function OpFrag(path: string, op: FieldOp, value: Js, host: Host): Result<Frag, Invalid> {
    match op
    case OpEq => if IsScalar(value) then EqFrag(path, value) else Err(Invalid)
    case OpNe =>
      if !IsScalar(value) then Err(Invalid)
      else (match EqFrag(path, value) case Ok(f) => Ok(Negated(f)) case Err(e) => Err(e))
    case OpCmp(cmp) => OrderedFrag(path, cmp, value)
    case OpIn =>
      if !value.Array? then Err(Invalid)
      else if value.items == [] then Ok(Frag([Num(0)], []))
      else AnyOfFrag(path, value)
    case OpNin =>
      if !value.Array? then Err(Invalid)
      else if value.items == [] then Ok(Frag([Num(1)], []))
      else (match AnyOfFrag(path, value) case Ok(f) => Ok(Negated(f)) case Err(e) => Err(e))
    case OpExists => if value.Bool? then Ok(ExistsFrag(path, value.b)) else Err(Invalid)
    case OpRegex =>
      if value.String? && host.compiles(value.s) then Ok(RegexFrag(path, value.s)) else Err(Invalid)
    case OpUnknown => Err(Invalid)
  }

  function OpFrags(path: string, entries: seq<Entry>, host: Host): (r: Result<seq<Frag>, Invalid>)
    ensures r.Ok? ==> |r.value| == |entries|
  {
    if entries == [] then Ok([])
    else match (OpFrag(path, FieldOpOf(entries[0].key), entries[0].value, host), OpFrags(path, entries[1..], host))
      case (Ok(f), Ok(rest)) => Ok([f] + rest)
      case _ => Err(Invalid)
  }

  function FieldFrag(field: string, spec: Js, host: Host): Result<Frag, Invalid> {
    if !FieldPath.Accepted(field) then Err(Invalid)
    else if IsScalar(spec) then EqFrag(FieldPath.PathOf(field), spec)
    else if !spec.Object? || spec.entries == [] then Err(Invalid)
    else match OpFrags(FieldPath.PathOf(field), spec.entries, host)
      case Ok(frags) => Ok(Group(frags))
      case Err(e) => Err(e)
  }

  function QueryFrag(query: Js, host: Host): Result<Frag, Invalid>
    decreases query, 1
  {
    match query
    case Undefined => Ok(Frag([Num(1)], []))
    case Null => Ok(Frag([Num(1)], []))
    case Object(entries) =>
      if entries == [] then Ok(Frag([Num(1)], []))
      else (match EntryFrags(entries, host)
            case Ok(frags) => Ok(Group(frags))
            case Err(e) => Err(e))
    case _ => Err(Invalid)
  }

  function EntryFrags(entries: seq<Entry>, host: Host): (r: Result<seq<Frag>, Invalid>)
    ensures r.Ok? ==> |r.value| == |entries|
    decreases entries, 0
  {
    if entries == [] then Ok([])
    else match (EntryFrag(entries[0], host), EntryFrags(entries[1..], host))
      case (Ok(f), Ok(rest)) => Ok([f] + rest)
      case _ => Err(Invalid)
  }

  function EntryFrag(entry: Entry, host: Host): Result<Frag, Invalid>
    decreases entry, 2
  {
    match KeyKindOf(entry.key)
    case AndKey => ClauseFrag(TAnd, entry.value, host)
    case OrKey => ClauseFrag(TOr, entry.value, host)
    case DollarKey => Err(Invalid)
    case FieldKey => FieldFrag(entry.key, entry.value, host)
  }

  function ClauseFrag(sep: Token, value: Js, host: Host): Result<Frag, Invalid>
    decreases value, 1
  {
    if !value.Array? || value.items == [] then Err(Invalid)
    else match QueryFrags(value.items, host)
      case Ok(frags) => Ok(Paren(Join(frags, sep)))
      case Err(e) => Err(e)
  }

  function QueryFrags(queries: seq<Js>, host: Host): (r: Result<seq<Frag>, Invalid>)
    ensures r.Ok? ==> |r.value| == |queries|
    decreases queries, 0
  {
    if queries == [] then Ok([])
    else match (QueryFrag(queries[0], host), QueryFrags(queries[1..], host))
      case (Ok(f), Ok(rest)) => Ok([f] + rest)
      case _ => Err(Invalid)
  }
}
