/**
 * The SQL expressions the document store's WHERE clauses are made of: JSON
 * values, tokens, a parser with SQLite's operator precedence that numbers `?`
 * placeholders in reading order, and evaluation in three-valued logic.
 */
module SqlExpr {
  import opened Wrappers
  import opened Texts
  import opened FieldPath

  // ------------------------------------------------------------------ values

  datatype Json =
    | JNull
    | JBool(b: bool)
    | JInt(i: int)
    | JReal(r: real)
    | JText(s: string)
    | JArray(items: seq<Json>)
    | JObject(fields: map<string, Json>)

  /** A stored or bound SQL value; integers and reals compare as numbers. */
  datatype Value = VNull | VNum(r: real) | VText(s: string)

  /** What SQLite and the registered `regexp` function do that is not modelled. */
  datatype Host = Host(
    serialize: Json -> string,
    compiles: string -> bool,
    matches: (string, string) -> bool)

  /** The element a decoded JSON path addresses, if it exists. */
  function Walk(doc: Json, steps: seq<Step>): Option<Json>
    decreases |steps|
  {
    if steps == [] then Some(doc)
    else match steps[0]
      case Key(name) =>
        if doc.JObject? && name in doc.fields then Walk(doc.fields[name], steps[1..]) else None
      case Index(digits) =>
        if doc.JArray? && AllDigits(digits) && Number(digits) < |doc.items|
        then Walk(doc.items[Number(digits)], steps[1..])
        else None
  }

  function ToValue(j: Json, host: Host): Value {
    match j
    case JNull => VNull
    case JBool(b) => VNum(if b then 1.0 else 0.0)
    case JInt(i) => VNum(i as real)
    case JReal(r) => VNum(r)
    case JText(s) => VText(s)
    case JArray(_) => VText(host.serialize(j))
    case JObject(_) => VText(host.serialize(j))
  }

  function TypeName(j: Json): string {
    match j
    case JNull => "null"
    case JBool(b) => if b then "true" else "false"
    case JInt(_) => "integer"
    case JReal(_) => "real"
    case JText(_) => "text"
    case JArray(_) => "array"
    case JObject(_) => "object"
  }

  // ------------------------------------------------------------------ tokens

  /** The identifiers a WHERE clause of this store can name. */
  datatype Ident = JsonExtract | JsonType | Regexp | DocColumn

  datatype Cmp = Eq | Lt | Le | Gt | Ge

  datatype Token =
    | TNot | TAnd | TOr | TIs | TIn | TNull
    | LPar | RPar | Comma | Q
    | Op(cmp: Cmp)
    | Num(n: nat)
    | Str(s: string)
    | Id(name: Ident)

  datatype Expr =
    | Or(l: Expr, r: Expr)
    | And(l: Expr, r: Expr)
    | Not(e: Expr)
    | Is(l: Expr, r: Expr)
    | IsNot(l: Expr, r: Expr)
    | In(e: Expr, items: seq<string>)
    | Compare(cmp: Cmp, l: Expr, r: Expr)
    | Call(f: Ident, a: Expr, b: Expr)
    | Column(name: Ident)
    | Param(k: nat)
    | Literal(v: Value)

  // ------------------------------------------------------------------ parser

  /** An expression, the position after it, and the placeholders numbered so far. */
  datatype Parsed = Parsed(e: Expr, next: nat, params: nat)

  // OR < AND < NOT < (IS, IN, =) < (<, <=, >, >=) < primary.

  function ParseOr(ts: seq<Token>, i: nat, n: nat): (r: Option<Parsed>)
    requires i <= |ts|
    ensures r.Some? ==> i < r.value.next <= |ts|
    decreases |ts| - i, 9
  {
    match ParseAnd(ts, i, n)
    case None => None
    case Some(p) => OrTail(ts, p.next, p.params, p.e)
  }

  function OrTail(ts: seq<Token>, i: nat, n: nat, left: Expr): (r: Option<Parsed>)
    requires i <= |ts|
    ensures r.Some? ==> i <= r.value.next <= |ts|
    decreases |ts| - i, 8
  {
    if i < |ts| && ts[i] == TOr then
      match ParseAnd(ts, i + 1, n)
      case None => None
      case Some(p) => OrTail(ts, p.next, p.params, Or(left, p.e))
    else Some(Parsed(left, i, n))
  }

  function ParseAnd(ts: seq<Token>, i: nat, n: nat): (r: Option<Parsed>)
    requires i <= |ts|
    ensures r.Some? ==> i < r.value.next <= |ts|
    decreases |ts| - i, 7
  {
    match ParseNot(ts, i, n)
    case None => None
    case Some(p) => AndTail(ts, p.next, p.params, p.e)
  }

  function AndTail(ts: seq<Token>, i: nat, n: nat, left: Expr): (r: Option<Parsed>)
    requires i <= |ts|
    ensures r.Some? ==> i <= r.value.next <= |ts|
    decreases |ts| - i, 6
  {
    if i < |ts| && ts[i] == TAnd then
      match ParseNot(ts, i + 1, n)
      case None => None
      case Some(p) => AndTail(ts, p.next, p.params, And(left, p.e))
    else Some(Parsed(left, i, n))
  }

  function ParseNot(ts: seq<Token>, i: nat, n: nat): (r: Option<Parsed>)
    requires i <= |ts|
    ensures r.Some? ==> i < r.value.next <= |ts|
    decreases |ts| - i, 5
  {
    if i < |ts| && ts[i] == TNot then
      match ParseNot(ts, i + 1, n)
      case None => None
      case Some(p) => Some(p.(e := Not(p.e)))
    else ParseEq(ts, i, n)
  }

  function ParseEq(ts: seq<Token>, i: nat, n: nat): (r: Option<Parsed>)
    requires i <= |ts|
    ensures r.Some? ==> i < r.value.next <= |ts|
    decreases |ts| - i, 4
  {
    match ParseRel(ts, i, n)
    case None => None
    case Some(p) => EqTail(ts, p.next, p.params, p.e)
  }

  function EqTail(ts: seq<Token>, i: nat, n: nat, left: Expr): (r: Option<Parsed>)
    requires i <= |ts|
    ensures r.Some? ==> i <= r.value.next <= |ts|
    decreases |ts| - i, 3
  {
    if i + 1 < |ts| && ts[i] == TIs && ts[i + 1] == TNot then
      match ParseRel(ts, i + 2, n)
      case None => None
      case Some(p) => EqTail(ts, p.next, p.params, IsNot(left, p.e))
    else if i < |ts| && ts[i] == TIs then
      match ParseRel(ts, i + 1, n)
      case None => None
      case Some(p) => EqTail(ts, p.next, p.params, Is(left, p.e))
    else if i < |ts| && ts[i] == Op(Eq) then
      match ParseRel(ts, i + 1, n)
      case None => None
      case Some(p) => EqTail(ts, p.next, p.params, Compare(Eq, left, p.e))
    else if i + 1 < |ts| && ts[i] == TIn && ts[i + 1] == LPar then
      match ParseStrings(ts, i + 2)
      case None => None
      case Some((items, next)) => EqTail(ts, next, n, In(left, items))
    else Some(Parsed(left, i, n))
  }

  /** String literals up to and including the closing parenthesis. */
  function ParseStrings(ts: seq<Token>, i: nat): (r: Option<(seq<string>, nat)>)
    requires i <= |ts|
    ensures r.Some? ==> i < r.value.1 <= |ts|
    decreases |ts| - i
  {
    if i + 1 < |ts| && ts[i].Str? && ts[i + 1] == RPar then Some(([ts[i].s], i + 2))
    else if i + 1 < |ts| && ts[i].Str? && ts[i + 1] == Comma then
      match ParseStrings(ts, i + 2)
      case None => None
      case Some((items, next)) => Some(([ts[i].s] + items, next))
    else None
  }

  function ParseRel(ts: seq<Token>, i: nat, n: nat): (r: Option<Parsed>)
    requires i <= |ts|
    ensures r.Some? ==> i < r.value.next <= |ts|
    decreases |ts| - i, 2
  {
    match ParsePrimary(ts, i, n)
    case None => None
    case Some(p) => RelTail(ts, p.next, p.params, p.e)
  }

  function RelTail(ts: seq<Token>, i: nat, n: nat, left: Expr): (r: Option<Parsed>)
    requires i <= |ts|
    ensures r.Some? ==> i <= r.value.next <= |ts|
    decreases |ts| - i, 1
  {
    if i < |ts| && ts[i].Op? && ts[i].cmp != Eq then
      match ParsePrimary(ts, i + 1, n)
      case None => None
      case Some(p) => RelTail(ts, p.next, p.params, Compare(ts[i].cmp, left, p.e))
    else Some(Parsed(left, i, n))
  }

  function ParsePrimary(ts: seq<Token>, i: nat, n: nat): (r: Option<Parsed>)
    requires i <= |ts|
    ensures r.Some? ==> i < r.value.next <= |ts|
    decreases |ts| - i, 0
  {
    if i == |ts| then None
    else match ts[i]
      case Q => Some(Parsed(Param(n), i + 1, n + 1))
      case Num(k) => Some(Parsed(Literal(VNum(k as real)), i + 1, n))
      case Str(s) => Some(Parsed(Literal(VText(s)), i + 1, n))
      case TNull => Some(Parsed(Literal(VNull), i + 1, n))
      case LPar =>
        (match ParseOr(ts, i + 1, n)
         case None => None
         case Some(p) => if p.next < |ts| && ts[p.next] == RPar then Some(p.(next := p.next + 1)) else None)
      case Id(name) =>
        if i + 1 < |ts| && ts[i + 1] == LPar then ParseCall(ts, i + 2, n, name)
        else Some(Parsed(Column(name), i + 1, n))
      case _ => None
  }

  /** Two comma-separated arguments and the closing parenthesis. */
  function ParseCall(ts: seq<Token>, i: nat, n: nat, name: Ident): (r: Option<Parsed>)
    requires i <= |ts|
    ensures r.Some? ==> i < r.value.next <= |ts|
    decreases |ts| - i, 10
  {
    match ParseOr(ts, i, n)
    case None => None
    case Some(a) =>
      if a.next < |ts| && ts[a.next] == Comma then
        match ParseOr(ts, a.next + 1, a.params)
        case None => None
        case Some(b) =>
          if b.next < |ts| && ts[b.next] == RPar
          then Some(Parsed(Call(name, a.e, b.e), b.next + 1, b.params))
          else None
      else None
  }

  // -------------------------------------------------------------- evaluation

  datatype Truth = T | F | U

  function TruthOf(v: Value): Truth {
    match v
    case VNull => U
    case VNum(r) => if r != 0.0 then T else F
    case VText(_) => F  // no compiled fragment puts text where a truth value is wanted
  }

  function OfBool(b: bool): Value {
    VNum(if b then 1.0 else 0.0)
  }

  function OfTruth(t: Truth): Value {
    match t case T => OfBool(true) case F => OfBool(false) case U => VNull
  }

  function NotT(t: Truth): Truth {
    match t case T => F case F => T case U => U
  }

  function AndT(a: Truth, b: Truth): Truth {
    if a == F || b == F then F else if a == T && b == T then T else U
  }

  function OrT(a: Truth, b: Truth): Truth {
    if a == T || b == T then T else if a == F && b == F then F else U
  }

  /** Text ordered by code point, as SQLite's BINARY collation orders UTF-8. */
  predicate TextLess(a: string, b: string) {
    b != "" && (a == "" || a[0] < b[0] || (a[0] == b[0] && TextLess(a[1..], b[1..])))
  }

  /** Code point by code point: a proper prefix comes first, else the first difference decides. */
  lemma {:induction false} TextLessExactly(a: string, b: string)
    ensures TextLess(a, b) <==>
            exists k: nat :: k <= |a| && k < |b| && a[..k] == b[..k] && (k == |a| || a[k] < b[k])
  {
    if a != "" && b != "" && a[0] == b[0] {
      TextLessExactly(a[1..], b[1..]);
      if TextLess(a, b) {
        var k: nat :| k <= |a| - 1 && k < |b| - 1 && a[1..][..k] == b[1..][..k] && (k == |a| - 1 || a[1..][k] < b[1..][k]);
        assert a[..k + 1] == [a[0]] + a[1..][..k] && b[..k + 1] == [b[0]] + b[1..][..k];
      }
      if k: nat :| k <= |a| && k < |b| && a[..k] == b[..k] && (k == |a| || a[k] < b[k]) {
        assert k > 0;
        assert a[1..][..k - 1] == a[..k][1..] && b[1..][..k - 1] == b[..k][1..];
      }
    } else if TextLess(a, b) {
      assert a[..0] == b[..0];
    }
  }

  /** SQLite's order across storage classes: numbers sort before text. */
  predicate Less(a: Value, b: Value) {
    match (a, b)
    case (VNum(x), VNum(y)) => x < y
    case (VText(x), VText(y)) => TextLess(x, y)
    case (VNum(_), VText(_)) => true
    case _ => false
  }

  function EvalCompare(cmp: Cmp, a: Value, b: Value): Value {
    if a.VNull? || b.VNull? then VNull
    else OfBool(match cmp
      case Eq => a == b
      case Lt => Less(a, b)
      case Le => Less(a, b) || a == b
      case Gt => Less(b, a)
      case Ge => Less(b, a) || a == b)
  }

  /** `json_extract(doc, path)` and `json_type(doc, path)`. */
  function EvalJson(f: Ident, path: Value, doc: Json, host: Host): Value {
    if !path.VText? || Decode(path.s).None? then VNull
    else match Walk(doc, Decode(path.s).value)
      case None => VNull
      case Some(j) => if f == JsonType then VText(TypeName(j)) else ToValue(j, host)
  }

  /** The registered `regexp(pattern, value)`; NULL unless both are text. */
  function EvalRegexp(a: Value, b: Value, host: Host): Value {
    if a.VText? && b.VText? && host.compiles(a.s) then OfBool(host.matches(a.s, b.s)) else VNull
  }

  function Eval(e: Expr, ps: seq<Value>, doc: Json, host: Host): Value {
    match e
    case Or(l, r) => OfTruth(OrT(TruthOf(Eval(l, ps, doc, host)), TruthOf(Eval(r, ps, doc, host))))
    case And(l, r) => OfTruth(AndT(TruthOf(Eval(l, ps, doc, host)), TruthOf(Eval(r, ps, doc, host))))
    case Not(x) => OfTruth(NotT(TruthOf(Eval(x, ps, doc, host))))
    case Is(l, r) => OfBool(Eval(l, ps, doc, host) == Eval(r, ps, doc, host))
    case IsNot(l, r) => OfBool(Eval(l, ps, doc, host) != Eval(r, ps, doc, host))
    case In(x, items) =>
      var v := Eval(x, ps, doc, host);
      if v.VNull? then VNull else OfBool(v.VText? && v.s in items)
    case Compare(cmp, l, r) => EvalCompare(cmp, Eval(l, ps, doc, host), Eval(r, ps, doc, host))
    case Call(f, a, b) =>
      if (f == JsonExtract || f == JsonType) && a == Column(DocColumn)
      then EvalJson(f, Eval(b, ps, doc, host), doc, host)
      else if f == Regexp then EvalRegexp(Eval(a, ps, doc, host), Eval(b, ps, doc, host), host)
      else VNull
    case Column(_) => VNull  // only the JSON functions read the document column
    case Param(k) => if k < |ps| then ps[k] else VNull
    case Literal(v) => v
  }
}
