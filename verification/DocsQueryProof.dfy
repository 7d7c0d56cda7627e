/**
 * Compiled queries keep their meaning: the emitted tokens re-parse under SQL
 * precedence, placeholder k is bound by parameter k, and the clause is TRUE
 * exactly on the documents the query matches.
 */
module DocsQueryProof {
  import opened Wrappers
  import FieldPath
  import opened SqlExpr
  import opened DocsQuery
  import opened MongoSpec

  predicate At<A(==)>(whole: seq<A>, i: nat, part: seq<A>) {
    i + |part| <= |whole| && whole[i..i + |part|] == part
  }

  /** Where a fragment may end: nothing after it can bind to it more tightly. */
  predicate Stops(ts: seq<Token>, j: nat) {
    j == |ts| || (j < |ts| && (ts[j] == RPar || ts[j] == Comma || ts[j] == TAnd || ts[j] == TOr))
  }

  datatype Row = Row(doc: Json, host: Host)

  function TruthAt(e: Expr, ps: seq<Value>, row: Row): Truth {
    TruthOf(Eval(e, ps, row.doc, row.host))
  }

  /** A condition's outcome: TRUE exactly when `b`, and never NULL when `exact`. */
  predicate Denotes(t: Truth, b: bool, exact: bool) {
    (t == T <==> b) && (exact ==> t != U)
  }

  predicate MeansAt(f: Frag, b: bool, exact: bool, row: Row, ts: seq<Token>, i: nat, ps: seq<Value>, n: nat) {
    At(ts, i, f.ts) && At(ps, n, f.ps) && Stops(ts, i + |f.ts|) ==>
      var r := ParseNot(ts, i, n);
      && r.Some? && r.value.next == i + |f.ts| && r.value.params == n + |f.ps|
      && Denotes(TruthAt(r.value.e, ps, row), b, exact)
  }

  /** Wherever the fragment stands, it is read as one NOT-level operand meaning `b`. */
  ghost predicate Means(f: Frag, b: bool, exact: bool, row: Row) {
    forall ts, i: nat, ps, n: nat :: MeansAt(f, b, exact, row, ts, i, ps, n)
  }

  lemma AtParts<A>(whole: seq<A>, i: nat, a: seq<A>, b: seq<A>)
    requires At(whole, i, a + b)
    ensures At(whole, i, a) && At(whole, i + |a|, b)
  {
    var s := whole[i..i + |a + b|];
    assert s[..|a|] == a && s[|a|..] == b;
    assert whole[i..i + |a|] == s[..|a|];
    assert whole[i + |a|..i + |a| + |b|] == s[|a|..];
  }

  lemma AtIndex<A>(whole: seq<A>, i: nat, part: seq<A>, k: nat)
    requires At(whole, i, part) && k < |part|
    ensures whole[i + k] == part[k]
  {
    assert whole[i..i + |part|][k] == whole[i + k];
  }

  // -------------------------------------------------- climbing the precedences

  lemma RelOfPrimary(ts: seq<Token>, i: nat, n: nat)
    requires i < |ts|
    requires ParsePrimary(ts, i, n).Some?
    requires var j := ParsePrimary(ts, i, n).value.next; j == |ts| || !ts[j].Op? || ts[j].cmp == Eq
    ensures ParseRel(ts, i, n) == ParsePrimary(ts, i, n)
  {
  }

  lemma NotOfPrimary(ts: seq<Token>, i: nat, n: nat)
    requires i < |ts| && ts[i] != TNot
    requires ParsePrimary(ts, i, n).Some? && Stops(ts, ParsePrimary(ts, i, n).value.next)
    ensures ParseNot(ts, i, n) == ParsePrimary(ts, i, n)
  {
    RelOfPrimary(ts, i, n);
    var p := ParsePrimary(ts, i, n).value;
    assert EqTail(ts, p.next, p.params, p.e) == Some(p);
    assert ParseEq(ts, i, n) == Some(p);
  }

  lemma OrOfPrimary(ts: seq<Token>, i: nat, n: nat)
    requires i < |ts| && ts[i] != TNot
    requires ParsePrimary(ts, i, n).Some?
    requires var j := ParsePrimary(ts, i, n).value.next; j < |ts| && (ts[j] == RPar || ts[j] == Comma)
    ensures ParseOr(ts, i, n) == ParsePrimary(ts, i, n)
  {
    NotOfPrimary(ts, i, n);
    var p := ParsePrimary(ts, i, n).value;
    assert AndTail(ts, p.next, p.params, p.e) == Some(p);
    assert ParseAnd(ts, i, n) == Some(p);
  }

  /** `f(doc, ?)` */
  lemma JsonCallParses(ts: seq<Token>, i: nat, n: nat, f: Ident)
    requires At(ts, i, JsonCall(f))
    ensures ParsePrimary(ts, i, n) == Some(Parsed(Call(f, Column(DocColumn), Param(n)), i + 6, n + 1))
  {
    var t := JsonCall(f);
    AtIndex(ts, i, t, 0); AtIndex(ts, i, t, 1); AtIndex(ts, i, t, 2);
    AtIndex(ts, i, t, 3); AtIndex(ts, i, t, 4); AtIndex(ts, i, t, 5);
    assert ParsePrimary(ts, i + 2, n) == Some(Parsed(Column(DocColumn), i + 3, n));
    OrOfPrimary(ts, i + 2, n);
    assert ParsePrimary(ts, i + 4, n) == Some(Parsed(Param(n), i + 5, n + 1));
    OrOfPrimary(ts, i + 4, n);
  }

  /** Parentheses turn anything that parses under OR into a NOT-level operand. */
  lemma ParenParses(ts: seq<Token>, i: nat, n: nat, p: Parsed)
    requires i < |ts| && ts[i] == LPar
    requires ParseOr(ts, i + 1, n) == Some(p)
    requires p.next < |ts| && ts[p.next] == RPar && Stops(ts, p.next + 1)
    ensures ParseNot(ts, i, n) == Some(p.(next := p.next + 1))
  {
    NotOfPrimary(ts, i, n);
  }

  // ------------------------------------------------------- atomic conditions

  /** `f(doc, ?) <tail>` for the right-hand sides the compiler emits. */
  function TestExpr(f: Ident, tail: seq<Token>, n: nat): Option<Expr> {
    var call := Call(f, Column(DocColumn), Param(n));
    if |tail| == 2 && tail[0] == TIs && tail[1] == TNull then Some(Is(call, Literal(VNull)))
    else if |tail| == 3 && tail[0] == TIs && tail[1] == TNot && tail[2] == TNull then Some(IsNot(call, Literal(VNull)))
    else if |tail| == 2 && tail[0] == TIs && tail[1] == Q then Some(Is(call, Param(n + 1)))
    else if |tail| == 2 && tail[0].Op? && tail[1] == Q then Some(Compare(tail[0].cmp, call, Param(n + 1)))
    else if |tail| == 2 && tail[0] == Op(Eq) && tail[1].Str? then Some(Compare(Eq, call, Literal(VText(tail[1].s))))
    else if |tail| == 6 && tail[2].Str? && tail[4].Str? && tail == InTypes(tail[2].s, tail[4].s)
    then Some(In(call, [tail[2].s, tail[4].s]))
    else None
  }

  function TestParams(tail: seq<Token>): nat {
    if |tail| == 2 && tail[1] == Q then 2 else 1
  }

  lemma TestParses(ts: seq<Token>, i: nat, n: nat, f: Ident, tail: seq<Token>)
    requires TestExpr(f, tail, n).Some?
    requires At(ts, i, JsonCall(f) + tail) && Stops(ts, i + 6 + |tail|)
    ensures ParseNot(ts, i, n) == Some(Parsed(TestExpr(f, tail, n).value, i + 6 + |tail|, n + TestParams(tail)))
  {
    AtParts(ts, i, JsonCall(f), tail);
    AtIndex(ts, i, JsonCall(f), 0);
    JsonCallParses(ts, i, n, f);
    var call := Call(f, Column(DocColumn), Param(n));
    AtIndex(ts, i + 6, tail, 0);
    AtIndex(ts, i + 6, tail, 1);
    var e := TestExpr(f, tail, n).value;
    var done := Parsed(e, i + 6 + |tail|, n + TestParams(tail));
    if tail[0].Op? && tail[0].cmp != Eq {
      assert ParsePrimary(ts, i + 7, n + 1) == Some(Parsed(Param(n + 1), i + 8, n + 2));
      assert RelTail(ts, i + 8, n + 2, e) == Some(done);
      assert ParseRel(ts, i, n) == Some(done);
    } else {
      RelOfPrimary(ts, i, n);
      TailParses(ts, i + 6, n, call, tail, done);
    }
    assert ParseEq(ts, i, n) == Some(done) by {
      assert EqTail(ts, done.next, done.params, done.e) == Some(done);
    }
  }

  /** The tail of an equality-level test, once its left operand is read. */
  /** Two string literals in a list. */
  lemma StringsParse(ts: seq<Token>, i: nat, a: string, b: string)
    requires i + 4 <= |ts| && ts[i] == Str(a) && ts[i + 1] == Comma && ts[i + 2] == Str(b) && ts[i + 3] == RPar
    ensures ParseStrings(ts, i) == Some(([a, b], i + 4))
  {
    assert ParseStrings(ts, i + 2) == Some(([b], i + 4));
    assert [a] + [b] == [a, b];
  }

  lemma TailParses(ts: seq<Token>, i: nat, n: nat, call: Expr, tail: seq<Token>, done: Parsed)
    requires call.Call? && call.a == Column(DocColumn) && call.b == Param(n)
    requires TestExpr(call.f, tail, n) == Some(done.e)
    requires !(tail[0].Op? && tail[0].cmp != Eq)
    requires done.next == i + |tail| && done.params == n + TestParams(tail)
    requires At(ts, i, tail) && Stops(ts, i + |tail|)
    ensures EqTail(ts, i, n + 1, call) == Some(done)
  {
    hide At, ParseStrings;
    AtIndex(ts, i, tail, 0);
    AtIndex(ts, i, tail, 1);
    assert EqTail(ts, done.next, done.params, done.e) == Some(done);
    if tail[0] == TIn {
      AtIndex(ts, i, tail, 2); AtIndex(ts, i, tail, 3); AtIndex(ts, i, tail, 4); AtIndex(ts, i, tail, 5);
      StringsParse(ts, i + 2, tail[2].s, tail[4].s);
    } else if tail[0] == TIs && tail[1] == TNot {
      AtIndex(ts, i, tail, 2);
      RelOfPrimary(ts, i + 2, n + 1);
    } else {
      RelOfPrimary(ts, i + 1, n + 1);
    }
  }

  /** What a JSON call returns on the value found at its path. */
  function Read(f: Ident, found: Option<Json>, host: Host): Value {
    match found
    case None => VNull
    case Some(j) => if f == JsonType then VText(TypeName(j)) else ToValue(j, host)
  }

  /** On this row, the JSON functions read `found` at `path`. */
  predicate Reads(path: string, found: Option<Json>, row: Row) {
    && EvalJson(JsonExtract, VText(path), row.doc, row.host) == Read(JsonExtract, found, row.host)
    && EvalJson(JsonType, VText(path), row.doc, row.host) == Read(JsonType, found, row.host)
  }

  lemma ReadsField(field: string, row: Row)
    requires FieldPath.Accepted(field)
    ensures Reads(FieldPath.PathOf(field), Lookup(row.doc, field, false), row)
  {
    FieldPath.DecodePath(field);
  }

  lemma CallReads(f: Ident, path: string, found: Option<Json>, n: nat, ps: seq<Value>, row: Row)
    requires f == JsonExtract || f == JsonType
    requires Reads(path, found, row) && n < |ps| && ps[n] == VText(path)
    ensures Eval(Call(f, Column(DocColumn), Param(n)), ps, row.doc, row.host) == Read(f, found, row.host)
  {
    hide EvalJson, Read;
    var e := Call(f, Column(DocColumn), Param(n));
    assert Eval(e, ps, row.doc, row.host) == EvalJson(f, Eval(Param(n), ps, row.doc, row.host), row.doc, row.host);
  }

  lemma IsTruth(l: Expr, r: Expr, ps: seq<Value>, row: Row)
    ensures TruthAt(Is(l, r), ps, row) ==
            if Eval(l, ps, row.doc, row.host) == Eval(r, ps, row.doc, row.host) then T else F
    ensures TruthAt(IsNot(l, r), ps, row) ==
            if Eval(l, ps, row.doc, row.host) == Eval(r, ps, row.doc, row.host) then F else T
  {
  }

  lemma TypeGuards(j: Json)
    ensures TypeName(j) in ["true", "false"] <==> j.JBool?
    ensures TypeName(j) in ["integer", "real"] <==> j.JInt? || j.JReal?
    ensures TypeName(j) == "text" <==> j.JText?
  {
    assert "null"[0] == 'n' && "true"[0] == 't' && "false"[0] == 'f' && "integer"[0] == 'i';
    assert "real"[0] == 'r' && "text"[0] == 't' && "array"[0] == 'a' && "object"[0] == 'o';
    assert "true"[1] == 'r' && "text"[1] == 'e';
  }

  /** `(` x AND y `)` is one operand, their conjunction. */
  lemma ConjParses(ts: seq<Token>, i: nat, n: nat, x: Parsed, y: Parsed)
    requires i < |ts| && ts[i] == LPar && ParseNot(ts, i + 1, n) == Some(x)
    requires x.next < |ts| && ts[x.next] == TAnd && ParseNot(ts, x.next + 1, x.params) == Some(y)
    requires y.next < |ts| && ts[y.next] == RPar && Stops(ts, y.next + 1)
    ensures ParseNot(ts, i, n) == Some(Parsed(And(x.e, y.e), y.next + 1, y.params))
  {
    var both := Parsed(And(x.e, y.e), y.next, y.params);
    assert AndTail(ts, y.next, y.params, both.e) == Some(both);
    assert AndTail(ts, x.next, x.params, x.e) == Some(both);
    assert ParseAnd(ts, i + 1, n) == Some(both);
    assert OrTail(ts, y.next, y.params, both.e) == Some(both);
    ParenParses(ts, i, n, both);
  }

  /** Where the pieces of a guarded condition stand. */
  lemma GuardedLayout(ts: seq<Token>, i: nat, guard: seq<Token>, test: seq<Token>)
    requires At(ts, i, Guarded(guard, test))
    ensures |Guarded(guard, test)| == |guard| + |test| + 9
    ensures ts[i] == LPar && ts[i + 7 + |guard|] == TAnd && ts[i + 8 + |guard| + |test|] == RPar
    ensures At(ts, i + 1, JsonCall(JsonType) + guard) && At(ts, i + 8 + |guard|, test)
  {
    var head := JsonCall(JsonType) + guard;
    var inner := head + [TAnd] + test;
    AtParts(ts, i, [LPar] + inner, [RPar]);
    AtParts(ts, i, [LPar], inner);
    AtIndex(ts, i, [LPar], 0);
    AtIndex(ts, i + 8 + |guard| + |test|, [RPar], 0);
    AtParts(ts, i + 1, head + [TAnd], test);
    AtParts(ts, i + 1, head, [TAnd]);
    AtIndex(ts, i + 1 + |head|, [TAnd], 0);
  }

  /** A guarded comparison parses as the conjunction of its type guard and its test. */
  lemma GuardedParses(ts: seq<Token>, i: nat, n: nat, guard: seq<Token>, tail: seq<Token>)
    requires TestExpr(JsonType, guard, n).Some? && TestParams(guard) == 1
    requires TestExpr(JsonExtract, tail, n + 1).Some? && TestParams(tail) == 2
    requires At(ts, i, Guarded(guard, JsonCall(JsonExtract) + tail))
    requires Stops(ts, i + |guard| + |tail| + 15)
    ensures ParseNot(ts, i, n) ==
            Some(Parsed(And(TestExpr(JsonType, guard, n).value, TestExpr(JsonExtract, tail, n + 1).value),
                        i + |guard| + |tail| + 15, n + 3))
  {
    GuardedLayout(ts, i, guard, JsonCall(JsonExtract) + tail);
    TestParses(ts, i + 1, n, JsonType, guard);
    TestParses(ts, i + 8 + |guard|, n + 1, JsonExtract, tail);
    ConjParses(ts, i, n, ParseNot(ts, i + 1, n).value, ParseNot(ts, i + 8 + |guard|, n + 1).value);
  }

  // ----------------------------------------------------------------- equality

  lemma Conclude(f: Frag, b: bool, exact: bool, row: Row, ts: seq<Token>, i: nat, ps: seq<Value>, n: nat, e: Expr)
    requires i <= |ts| && ParseNot(ts, i, n) == Some(Parsed(e, i + |f.ts|, n + |f.ps|))
    requires Denotes(TruthAt(e, ps, row), b, exact)
    ensures MeansAt(f, b, exact, row, ts, i, ps, n)
  {
  }

  lemma NullEval(path: string, found: Option<Json>, row: Row, ps: seq<Value>, n: nat)
    requires Reads(path, found, row) && At(ps, n, [VText(path)])
    ensures Denotes(TruthAt(Is(Call(JsonExtract, Column(DocColumn), Param(n)), Literal(VNull)), ps, row),
                    Equals(found, Null, row.host, false), true)
  {
    AtIndex(ps, n, [VText(path)], 0);
    CallReads(JsonExtract, path, found, n, ps, row);
    IsTruth(Call(JsonExtract, Column(DocColumn), Param(n)), Literal(VNull), ps, row);
  }

  lemma TextEval(path: string, s: string, found: Option<Json>, row: Row, ps: seq<Value>, n: nat)
    requires Reads(path, found, row) && At(ps, n, [VText(path), VText(s)])
    ensures Denotes(TruthAt(Is(Call(JsonExtract, Column(DocColumn), Param(n)), Param(n + 1)), ps, row),
                    Equals(found, String(s), row.host, false), true)
  {
    AtIndex(ps, n, [VText(path), VText(s)], 0);
    AtIndex(ps, n, [VText(path), VText(s)], 1);
    CallReads(JsonExtract, path, found, n, ps, row);
    IsTruth(Call(JsonExtract, Column(DocColumn), Param(n)), Param(n + 1), ps, row);
  }

  /** Truth of the type guard `json_type(doc, ?) <guard>`. */
  function GuardTruth(family: Family, found: Option<Json>): Truth {
    match found
    case None => U
    case Some(j) =>
      var ok := match family
        case Booleans => j.JBool?
        case Numbers => j.JInt? || j.JReal?
        case Texts => j.JText?;
      if ok then T else F
  }

  datatype Family = Booleans | Numbers | Texts

  function GuardOf(family: Family): seq<Token> {
    match family
    case Booleans => InTypes("true", "false")
    case Numbers => InTypes("integer", "real")
    case Texts => [Op(Eq), Str("text")]
  }

  function GuardExpr(family: Family, n: nat): Expr {
    var call := Call(JsonType, Column(DocColumn), Param(n));
    match family
    case Booleans => In(call, ["true", "false"])
    case Numbers => In(call, ["integer", "real"])
    case Texts => Compare(Eq, call, Literal(VText("text")))
  }

  lemma GuardShape(family: Family, n: nat)
    ensures TestExpr(JsonType, GuardOf(family), n) == Some(GuardExpr(family, n))
    ensures TestParams(GuardOf(family)) == 1
  {
  }

  lemma GuardEval(family: Family, path: string, found: Option<Json>, row: Row, ps: seq<Value>, n: nat)
    requires Reads(path, found, row) && n < |ps| && ps[n] == VText(path)
    ensures TruthAt(GuardExpr(family, n), ps, row) == GuardTruth(family, found)
  {
    var call := Call(JsonType, Column(DocColumn), Param(n));
    CallReads(JsonType, path, found, n, ps, row);
    assert Eval(call, ps, row.doc, row.host) == Read(JsonType, found, row.host);
    if found.Some? {
      TypeGuards(found.value);
    }
    match family {
      case Booleans => InTruth(call, ["true", "false"], ps, row);
      case Numbers => InTruth(call, ["integer", "real"], ps, row);
      case Texts => CompareTruth(Eq, call, Literal(VText("text")), ps, row);
    }
  }

  lemma InTruth(e: Expr, items: seq<string>, ps: seq<Value>, row: Row)
    ensures var v := Eval(e, ps, row.doc, row.host);
            TruthAt(In(e, items), ps, row) == if v.VNull? then U else if v.VText? && v.s in items then T else F
  {
  }

  lemma CompareTruth(cmp: Cmp, l: Expr, r: Expr, ps: seq<Value>, row: Row)
    ensures TruthAt(Compare(cmp, l, r), ps, row) ==
            TruthOf(EvalCompare(cmp, Eval(l, ps, row.doc, row.host), Eval(r, ps, row.doc, row.host)))
  {
  }

  lemma AndTruth(l: Expr, r: Expr, ps: seq<Value>, row: Row)
    ensures TruthAt(And(l, r), ps, row) == AndT(TruthAt(l, ps, row), TruthAt(r, ps, row))
    ensures TruthAt(Or(l, r), ps, row) == OrT(TruthAt(l, ps, row), TruthAt(r, ps, row))
    ensures TruthAt(Not(l), ps, row) == NotT(TruthAt(l, ps, row))
  {
  }

  /** `(json_type(doc, ?) <guard> AND json_extract(doc, ?) <tail>)` */
  function GuardedFrag(family: Family, path: string, tail: seq<Token>, v: Value): Frag {
    Frag(Guarded(GuardOf(family), JsonCall(JsonExtract) + tail), [VText(path), VText(path), v])
  }

  function TailExpr(tail: seq<Token>, n: nat): Expr
    requires |tail| == 2
  {
    var call := Call(JsonExtract, Column(DocColumn), Param(n));
    if tail[0].Op? then Compare(tail[0].cmp, call, Param(n + 1)) else Is(call, Param(n + 1))
  }

  function TailTruth(tail: seq<Token>, found: Option<Json>, v: Value, host: Host): Truth
    requires |tail| == 2
  {
    var x := Read(JsonExtract, found, host);
    if tail[0].Op? then TruthOf(EvalCompare(tail[0].cmp, x, v)) else if x == v then T else F
  }

  predicate IsTail(tail: seq<Token>) {
    |tail| == 2 && tail[1] == Q && (tail[0] == TIs || tail[0].Op?)
  }

  lemma GuardedEval(family: Family, path: string, tail: seq<Token>, v: Value, found: Option<Json>,
                    row: Row, ps: seq<Value>, n: nat)
    requires IsTail(tail)
    requires Reads(path, found, row) && At(ps, n, [VText(path), VText(path), v])
    ensures TruthAt(And(GuardExpr(family, n), TailExpr(tail, n + 1)), ps, row) ==
            AndT(GuardTruth(family, found), TailTruth(tail, found, v, row.host))
  {
    var bound := [VText(path), VText(path), v];
    AtIndex(ps, n, bound, 0); AtIndex(ps, n, bound, 1); AtIndex(ps, n, bound, 2);
    GuardEval(family, path, found, row, ps, n);
    var call := Call(JsonExtract, Column(DocColumn), Param(n + 1));
    CallReads(JsonExtract, path, found, n + 1, ps, row);
    IsTruth(call, Param(n + 2), ps, row);
    if tail[0].Op? {
      CompareTruth(tail[0].cmp, call, Param(n + 2), ps, row);
    }
    AndTruth(GuardExpr(family, n), TailExpr(tail, n + 1), ps, row);
  }

  lemma GuardedMeansAt(family: Family, path: string, tail: seq<Token>, v: Value, b: bool, exact: bool,
                       found: Option<Json>, row: Row, ts: seq<Token>, i: nat, ps: seq<Value>, n: nat)
    requires IsTail(tail) && Reads(path, found, row)
    requires Denotes(AndT(GuardTruth(family, found), TailTruth(tail, found, v, row.host)), b, exact)
    ensures MeansAt(GuardedFrag(family, path, tail, v), b, exact, row, ts, i, ps, n)
  {
    hide Eval, EvalJson, ParseOr, ParseRel, ParsePrimary, GuardTruth, TailTruth, Denotes, AndT;
    var f := GuardedFrag(family, path, tail, v);
    if At(ts, i, f.ts) && At(ps, n, f.ps) && Stops(ts, i + |f.ts|) {
      GuardShape(family, n);
      GuardedLayout(ts, i, GuardOf(family), JsonCall(JsonExtract) + tail);
      GuardedParses(ts, i, n, GuardOf(family), tail);
      GuardedEval(family, path, tail, v, found, row, ps, n);
      Conclude(f, b, exact, row, ts, i, ps, n, And(GuardExpr(family, n), TailExpr(tail, n + 1)));
    }
  }

  /** Equality with every kind of scalar: exact, so it may be negated. */
  lemma EqMeansAt(path: string, v: Js, found: Option<Json>, row: Row, ts: seq<Token>, i: nat, ps: seq<Value>, n: nat)
    requires IsScalar(v) && EqFrag(path, v).Ok? && Reads(path, found, row)
    ensures MeansAt(EqFrag(path, v).value, Equals(found, v, row.host, false), true, row, ts, i, ps, n)
  {
    hide Eval, EvalJson, ParseOr, ParseRel, ParsePrimary;
    var f, b := EqFrag(path, v).value, Equals(found, v, row.host, false);
    match v {
      case Null =>
        if At(ts, i, f.ts) && At(ps, n, f.ps) && Stops(ts, i + |f.ts|) {
          TestParses(ts, i, n, JsonExtract, [TIs, TNull]);
          NullEval(path, found, row, ps, n);
          Conclude(f, b, true, row, ts, i, ps, n, Is(Call(JsonExtract, Column(DocColumn), Param(n)), Literal(VNull)));
        }
      case String(s) =>
        if At(ts, i, f.ts) && At(ps, n, f.ps) && Stops(ts, i + |f.ts|) {
          TestParses(ts, i, n, JsonExtract, [TIs, Q]);
          TextEval(path, s, found, row, ps, n);
          Conclude(f, b, true, row, ts, i, ps, n, Is(Call(JsonExtract, Column(DocColumn), Param(n)), Param(n + 1)));
        }
      case Bool(x) =>
        var bound := VNum(if x then 1.0 else 0.0);
        assert f == GuardedFrag(Booleans, path, [TIs, Q], bound);
        GuardedMeansAt(Booleans, path, [TIs, Q], bound, b, true, found, row, ts, i, ps, n);
      case Number(r) =>
        assert f == GuardedFrag(Numbers, path, [TIs, Q], VNum(r));
        GuardedMeansAt(Numbers, path, [TIs, Q], VNum(r), b, true, found, row, ts, i, ps, n);
    }
  }

  lemma EqMeans(path: string, v: Js, found: Option<Json>, row: Row)
    requires IsScalar(v) && EqFrag(path, v).Ok? && Reads(path, found, row)
    ensures Means(EqFrag(path, v).value, Equals(found, v, row.host, false), true, row)
  {
    forall ts, i: nat, ps, n: nat
      ensures MeansAt(EqFrag(path, v).value, Equals(found, v, row.host, false), true, row, ts, i, ps, n) {
      EqMeansAt(path, v, found, row, ts, i, ps, n);
    }
  }

  lemma OrderedMeans(path: string, cmp: Cmp, v: Js, found: Option<Json>, row: Row)
    requires OrderedFrag(path, cmp, v).Ok? && Reads(path, found, row)
    ensures Means(OrderedFrag(path, cmp, v).value, Ordered(found, cmp, v), false, row)
  {
    var f, b := OrderedFrag(path, cmp, v).value, Ordered(found, cmp, v);
    var family, bound := if v.Number? then Numbers else Texts, if v.Number? then VNum(v.r) else VText(v.s);
    assert f == GuardedFrag(family, path, [Op(cmp), Q], bound);
    assert Denotes(AndT(GuardTruth(family, found), TailTruth([Op(cmp), Q], found, bound, row.host)), b, false);
    forall ts, i: nat, ps, n: nat ensures MeansAt(f, b, false, row, ts, i, ps, n) {
      GuardedMeansAt(family, path, [Op(cmp), Q], bound, b, false, found, row, ts, i, ps, n);
    }
  }

  function ExistsExpr(present: bool, n: nat): Expr {
    var call := Call(JsonType, Column(DocColumn), Param(n));
    if present then IsNot(call, Literal(VNull)) else Is(call, Literal(VNull))
  }

  lemma ExistsEval(path: string, present: bool, found: Option<Json>, row: Row, ps: seq<Value>, n: nat)
    requires Reads(path, found, row) && At(ps, n, [VText(path)])
    ensures Denotes(TruthAt(ExistsExpr(present, n), ps, row), present <==> found.Some?, true)
  {
    AtIndex(ps, n, [VText(path)], 0);
    CallReads(JsonType, path, found, n, ps, row);
    IsTruth(Call(JsonType, Column(DocColumn), Param(n)), Literal(VNull), ps, row);
  }

  lemma ExistsMeansAt(path: string, present: bool, found: Option<Json>, row: Row,
                      ts: seq<Token>, i: nat, ps: seq<Value>, n: nat)
    requires Reads(path, found, row)
    ensures MeansAt(ExistsFrag(path, present), present <==> found.Some?, true, row, ts, i, ps, n)
  {
    hide ParseNot, Eval;
    var f := ExistsFrag(path, present);
    if At(ts, i, f.ts) && At(ps, n, f.ps) && Stops(ts, i + |f.ts|) {
      TestParses(ts, i, n, JsonType, if present then [TIs, TNot, TNull] else [TIs, TNull]);
      ExistsEval(path, present, found, row, ps, n);
      Conclude(f, present <==> found.Some?, true, row, ts, i, ps, n, ExistsExpr(present, n));
    }
  }

  lemma ExistsMeans(path: string, present: bool, found: Option<Json>, row: Row)
    requires Reads(path, found, row)
    ensures Means(ExistsFrag(path, present), present <==> found.Some?, true, row)
  {
    var f, b := ExistsFrag(path, present), present <==> found.Some?;
    forall ts, i: nat, ps, n: nat ensures MeansAt(f, b, true, row, ts, i, ps, n) {
      ExistsMeansAt(path, present, found, row, ts, i, ps, n);
    }
  }

  /** `regexp(?, json_extract(doc, ?))` */
  lemma RegexpCallParses(ts: seq<Token>, i: nat, n: nat)
    requires At(ts, i, RegexpCall()) && Stops(ts, i + 11)
    ensures ParseNot(ts, i, n) ==
            Some(Parsed(Call(Regexp, Param(n), Call(JsonExtract, Column(DocColumn), Param(n + 1))), i + 11, n + 2))
  {
    var head := [Id(Regexp), LPar, Q, Comma];
    AtParts(ts, i, head + JsonCall(JsonExtract), [RPar]);
    AtParts(ts, i, head, JsonCall(JsonExtract));
    AtIndex(ts, i, head, 0); AtIndex(ts, i, head, 1); AtIndex(ts, i, head, 2); AtIndex(ts, i, head, 3);
    AtIndex(ts, i + 10, [RPar], 0);
    AtIndex(ts, i + 4, JsonCall(JsonExtract), 0);
    assert ParsePrimary(ts, i + 2, n) == Some(Parsed(Param(n), i + 3, n + 1));
    OrOfPrimary(ts, i + 2, n);
    JsonCallParses(ts, i + 4, n + 1, JsonExtract);
    OrOfPrimary(ts, i + 4, n + 1);
    assert ParsePrimary(ts, i, n) == ParseCall(ts, i + 2, n, Regexp);
    NotOfPrimary(ts, i, n);
  }

  lemma RegexpReads(path: string, pattern: string, found: Option<Json>, row: Row, ps: seq<Value>, n: nat)
    requires Reads(path, found, row)
    requires n + 2 < |ps| && ps[n + 1] == VText(pattern) && ps[n + 2] == VText(path)
    ensures Eval(Call(Regexp, Param(n + 1), Call(JsonExtract, Column(DocColumn), Param(n + 2))), ps, row.doc, row.host) ==
            EvalRegexp(VText(pattern), Read(JsonExtract, found, row.host), row.host)
  {
    hide EvalJson, Read, EvalRegexp;
    CallReads(JsonExtract, path, found, n + 2, ps, row);
    assert Eval(Param(n + 1), ps, row.doc, row.host) == VText(pattern);
  }

  lemma RegexpEval(path: string, pattern: string, found: Option<Json>, row: Row, ps: seq<Value>, n: nat)
    requires Reads(path, found, row) && row.host.compiles(pattern)
    requires At(ps, n, [VText(path), VText(pattern), VText(path)])
    ensures Denotes(TruthAt(And(GuardExpr(Texts, n),
                                Call(Regexp, Param(n + 1), Call(JsonExtract, Column(DocColumn), Param(n + 2)))), ps, row),
                    OpMatches(found, OpRegex, String(pattern), row.host, false), false)
  {
    hide EvalJson, ParseNot;
    var bound := [VText(path), VText(pattern), VText(path)];
    AtIndex(ps, n, bound, 0); AtIndex(ps, n, bound, 1); AtIndex(ps, n, bound, 2);
    GuardEval(Texts, path, found, row, ps, n);
    var test := Call(Regexp, Param(n + 1), Call(JsonExtract, Column(DocColumn), Param(n + 2)));
    RegexpReads(path, pattern, found, row, ps, n);
    hide Eval;
    AndTruth(GuardExpr(Texts, n), test, ps, row);
  }

  lemma RegexMeans(path: string, pattern: string, found: Option<Json>, row: Row)
    requires Reads(path, found, row) && row.host.compiles(pattern)
    ensures Means(RegexFrag(path, pattern), OpMatches(found, OpRegex, String(pattern), row.host, false), false, row)
  {
    hide ParseOr, Eval, OpMatches, Read, EvalJson, Denotes, ParsePrimary, ParseRel;
    var f, b := RegexFrag(path, pattern), OpMatches(found, OpRegex, String(pattern), row.host, false);
    forall ts, i: nat, ps, n: nat ensures MeansAt(f, b, false, row, ts, i, ps, n) {
      if At(ts, i, f.ts) && At(ps, n, f.ps) && Stops(ts, i + |f.ts|) {
        var guard := GuardOf(Texts);
        GuardShape(Texts, n);
        GuardedLayout(ts, i, guard, RegexpCall());
        TestParses(ts, i + 1, n, JsonType, guard);
        RegexpCallParses(ts, i + 10, n + 1);
        ConjParses(ts, i, n, ParseNot(ts, i + 1, n).value, ParseNot(ts, i + 10, n + 1).value);
        RegexpEval(path, pattern, found, row, ps, n);
        Conclude(f, b, false, row, ts, i, ps, n,
                 And(GuardExpr(Texts, n), Call(Regexp, Param(n + 1), Call(JsonExtract, Column(DocColumn), Param(n + 2)))));
      }
    }
  }

  // ------------------------------------------------- negation and joined parts

  /** What a fragment's meaning says at one place. */
  lemma UseMeans(f: Frag, b: bool, exact: bool, row: Row, ts: seq<Token>, i: nat, ps: seq<Value>, n: nat)
    returns (p: Parsed)
    requires Means(f, b, exact, row)
    requires At(ts, i, f.ts) && At(ps, n, f.ps) && Stops(ts, i + |f.ts|)
    ensures ParseNot(ts, i, n) == Some(p) && p.next == i + |f.ts| && p.params == n + |f.ps|
    ensures Denotes(TruthAt(p.e, ps, row), b, exact)
  {
    assert MeansAt(f, b, exact, row, ts, i, ps, n);
    p := ParseNot(ts, i, n).value;
  }

  lemma NegatedMeansAt(f: Frag, b: bool, row: Row, ts: seq<Token>, i: nat, ps: seq<Value>, n: nat)
    requires Means(f, b, true, row)
    ensures MeansAt(Negated(f), !b, true, row, ts, i, ps, n)
  {
    var g := Negated(f);
    if At(ts, i, g.ts) && At(ps, n, g.ps) && Stops(ts, i + |g.ts|) {
      AtParts(ts, i, [TNot], f.ts);
      AtIndex(ts, i, [TNot], 0);
      var p := UseMeans(f, b, true, row, ts, i + 1, ps, n);
      AndTruth(p.e, p.e, ps, row);
      Conclude(g, !b, true, row, ts, i, ps, n, Not(p.e));
    }
  }

  /** NOT is sound because it is only ever put before an exact condition. */
  lemma NegatedMeans(f: Frag, b: bool, row: Row)
    requires Means(f, b, true, row)
    ensures Means(Negated(f), !b, true, row)
  {
    var g, not := Negated(f), !b;
    forall ts, i: nat, ps, n: nat ensures MeansAt(g, not, true, row, ts, i, ps, n) {
      NegatedMeansAt(f, b, row, ts, i, ps, n);
    }
  }

  predicate AllTrue(bs: seq<bool>) {
    forall k :: 0 <= k < |bs| ==> bs[k]
  }

  predicate SomeTrue(bs: seq<bool>) {
    exists k :: 0 <= k < |bs| && bs[k]
  }

  lemma NoneLeft(bs: seq<bool>, frags: seq<Frag>, sep: Token)
    requires bs == [] && frags == []
    ensures AllTrue(bs) && !SomeTrue(bs) && Rest(frags, sep) == Frag([], [])
  {
  }

  lemma SplitFirst(bs: seq<bool>)
    requires |bs| > 0
    ensures AllTrue(bs) <==> bs[0] && AllTrue(bs[1..])
    ensures SomeTrue(bs) <==> bs[0] || SomeTrue(bs[1..])
  {
    assert bs == [bs[0]] + bs[1..];
  }

  ghost predicate AllMean(frags: seq<Frag>, bs: seq<bool>, exact: bool, row: Row) {
    |frags| == |bs| && forall k :: 0 <= k < |frags| ==> Means(frags[k], bs[k], exact, row)
  }

  lemma RestLayout(frags: seq<Frag>, sep: Token, ts: seq<Token>, i: nat, ps: seq<Value>, n: nat)
    requires |frags| > 0
    requires At(ts, i, Rest(frags, sep).ts) && At(ps, n, Rest(frags, sep).ps)
    ensures ts[i] == sep && At(ts, i + 1, frags[0].ts) && At(ps, n, frags[0].ps)
    ensures At(ts, i + 1 + |frags[0].ts|, Rest(frags[1..], sep).ts)
    ensures At(ps, n + |frags[0].ps|, Rest(frags[1..], sep).ps)
    ensures frags[1..] != [] ==> ts[i + 1 + |frags[0].ts|] == sep
    ensures frags[1..] == [] ==> Rest(frags[1..], sep) == Frag([], [])
    ensures |Rest(frags, sep).ts| == 1 + |frags[0].ts| + |Rest(frags[1..], sep).ts|
    ensures |Rest(frags, sep).ps| == |frags[0].ps| + |Rest(frags[1..], sep).ps|
  {
    var rest := Rest(frags[1..], sep);
    AtParts(ts, i, [sep] + frags[0].ts, rest.ts);
    AtParts(ts, i, [sep], frags[0].ts);
    AtIndex(ts, i, [sep], 0);
    AtParts(ps, n, frags[0].ps, rest.ps);
    if frags[1..] != [] {
      AtIndex(ts, i + 1 + |frags[0].ts|, rest.ts, 0);
    }
  }

  lemma AndStep(ts: seq<Token>, i: nat, n: nat, left: Expr, p: Parsed)
    requires i < |ts| && ts[i] == TAnd && ParseNot(ts, i + 1, n) == Some(p)
    ensures AndTail(ts, i, n, left) == AndTail(ts, p.next, p.params, And(left, p.e))
  {
  }

  lemma OrStep(ts: seq<Token>, i: nat, n: nat, left: Expr, p: Parsed)
    requires i < |ts| && ts[i] == TOr && ParseNot(ts, i + 1, n) == Some(p)
    requires p.next < |ts| && ts[p.next] != TAnd
    ensures OrTail(ts, i, n, left) == OrTail(ts, p.next, p.params, Or(left, p.e))
  {
    assert AndTail(ts, p.next, p.params, p.e) == Some(p);
    assert ParseAnd(ts, i + 1, n) == Some(p);
  }

  lemma {:induction false} AndRest(frags: seq<Frag>, bs: seq<bool>, row: Row,
                                   ts: seq<Token>, i: nat, ps: seq<Value>, n: nat, left: Expr, lb: bool)
    returns (q: Parsed)
    requires AllMean(frags, bs, false, row) && (TruthAt(left, ps, row) == T <==> lb)
    requires At(ts, i, Rest(frags, TAnd).ts) && At(ps, n, Rest(frags, TAnd).ps)
    requires var j := i + |Rest(frags, TAnd).ts|; j < |ts| && ts[j] == RPar
    ensures AndTail(ts, i, n, left) == Some(q)
    ensures q.next == i + |Rest(frags, TAnd).ts| && q.params == n + |Rest(frags, TAnd).ps|
    ensures TruthAt(q.e, ps, row) == T <==> lb && AllTrue(bs)
    decreases |frags|
  {
    hide ParseNot, Eval, Means, SomeTrue, AllTrue, Rest;
    if frags == [] {
      NoneLeft(bs, frags, TAnd);
      q := Parsed(left, i, n);
    } else {
      RestLayout(frags, TAnd, ts, i, ps, n);
      var p := UseMeans(frags[0], bs[0], false, row, ts, i + 1, ps, n);
      AndTruth(left, p.e, ps, row);
      AndStep(ts, i, n, left, p);
      SplitFirst(bs);
      q := AndRest(frags[1..], bs[1..], row, ts, p.next, ps, p.params, And(left, p.e), lb && bs[0]);
    }
  }

  lemma {:induction false} OrRest(frags: seq<Frag>, bs: seq<bool>, exact: bool, row: Row,
                                  ts: seq<Token>, i: nat, ps: seq<Value>, n: nat, left: Expr, lb: bool)
    returns (q: Parsed)
    requires AllMean(frags, bs, exact, row) && Denotes(TruthAt(left, ps, row), lb, exact)
    requires At(ts, i, Rest(frags, TOr).ts) && At(ps, n, Rest(frags, TOr).ps)
    requires var j := i + |Rest(frags, TOr).ts|; j < |ts| && ts[j] == RPar
    ensures OrTail(ts, i, n, left) == Some(q)
    ensures q.next == i + |Rest(frags, TOr).ts| && q.params == n + |Rest(frags, TOr).ps|
    ensures Denotes(TruthAt(q.e, ps, row), lb || SomeTrue(bs), exact)
    decreases |frags|
  {
    hide ParseNot, Eval, Means, SomeTrue, AllTrue, Rest;
    if frags == [] {
      NoneLeft(bs, frags, TOr);
      q := Parsed(left, i, n);
    } else {
      RestLayout(frags, TOr, ts, i, ps, n);
      var p := UseMeans(frags[0], bs[0], exact, row, ts, i + 1, ps, n);
      AndTruth(left, p.e, ps, row);
      OrStep(ts, i, n, left, p);
      SplitFirst(bs);
      q := OrRest(frags[1..], bs[1..], exact, row, ts, p.next, ps, p.params, Or(left, p.e), lb || bs[0]);
    }
  }

  lemma JoinLayout(frags: seq<Frag>, sep: Token, ts: seq<Token>, i: nat, ps: seq<Value>, n: nat)
    requires |frags| > 0 && (sep == TAnd || sep == TOr)
    requires var g := Paren(Join(frags, sep)); At(ts, i, g.ts) && At(ps, n, g.ps)
    ensures |Paren(Join(frags, sep)).ts| == |frags[0].ts| + |Rest(frags[1..], sep).ts| + 2
    ensures ts[i] == LPar && At(ts, i + 1, frags[0].ts) && At(ps, n, frags[0].ps)
    ensures At(ts, i + 1 + |frags[0].ts|, Rest(frags[1..], sep).ts)
    ensures At(ps, n + |frags[0].ps|, Rest(frags[1..], sep).ps)
    ensures ts[i + |Paren(Join(frags, sep)).ts| - 1] == RPar
    ensures ts[i + 1 + |frags[0].ts|] == if |frags| == 1 then RPar else sep
  {
    var rest, inner := Rest(frags[1..], sep), Join(frags, sep).ts;
    AtParts(ts, i, [LPar] + inner, [RPar]);
    AtParts(ts, i, [LPar], inner);
    AtIndex(ts, i, [LPar], 0);
    AtIndex(ts, i + 1 + |inner|, [RPar], 0);
    AtParts(ts, i + 1, frags[0].ts, rest.ts);
    AtParts(ps, n, frags[0].ps, rest.ps);
    if |frags| > 1 {
      AtIndex(ts, i + 1 + |frags[0].ts|, rest.ts, 0);
    }
  }

  /** The parse of everything between the parentheses, from its first operand on. */
  lemma OrOfTail(ts: seq<Token>, i: nat, n: nat, p: Parsed, q: Parsed, sep: Token)
    requires i <= |ts| && ParseNot(ts, i, n) == Some(p)
    requires q.next < |ts| && ts[q.next] == RPar
    requires if sep == TAnd then AndTail(ts, p.next, p.params, p.e) == Some(q)
             else p.next < |ts| && ts[p.next] != TAnd && OrTail(ts, p.next, p.params, p.e) == Some(q)
    ensures ParseOr(ts, i, n) == Some(q)
  {
    if sep == TAnd {
      assert ParseAnd(ts, i, n) == Some(q);
      assert OrTail(ts, q.next, q.params, q.e) == Some(q);
    } else {
      assert AndTail(ts, p.next, p.params, p.e) == Some(p);
      assert ParseAnd(ts, i, n) == Some(p);
    }
  }

  lemma AllOfMeansAt(frags: seq<Frag>, bs: seq<bool>, row: Row, ts: seq<Token>, i: nat, ps: seq<Value>, n: nat)
    requires |frags| > 0 && AllMean(frags, bs, false, row)
    ensures MeansAt(Paren(Join(frags, TAnd)), AllTrue(bs), false, row, ts, i, ps, n)
  {
    hide ParseNot, ParseOr, AndTail, Eval, Means, AllTrue, Rest;
    var g := Paren(Join(frags, TAnd));
    if At(ts, i, g.ts) && At(ps, n, g.ps) && Stops(ts, i + |g.ts|) {
      JoinLayout(frags, TAnd, ts, i, ps, n);
      var p := UseMeans(frags[0], bs[0], false, row, ts, i + 1, ps, n);
      var q := AndRest(frags[1..], bs[1..], row, ts, p.next, ps, p.params, p.e, bs[0]);
      OrOfTail(ts, i + 1, n, p, q, TAnd);
      ParenParses(ts, i, n, q);
      SplitFirst(bs);
      Conclude(g, AllTrue(bs), false, row, ts, i, ps, n, q.e);
    }
  }

  lemma AnyOfMeansAt(frags: seq<Frag>, bs: seq<bool>, exact: bool, row: Row,
                     ts: seq<Token>, i: nat, ps: seq<Value>, n: nat)
    requires |frags| > 0 && AllMean(frags, bs, exact, row)
    ensures MeansAt(Paren(Join(frags, TOr)), SomeTrue(bs), exact, row, ts, i, ps, n)
  {
    hide ParseNot, ParseOr, OrTail, Eval, Means, SomeTrue, Rest, Denotes, TruthAt;
    var g := Paren(Join(frags, TOr));
    if At(ts, i, g.ts) && At(ps, n, g.ps) && Stops(ts, i + |g.ts|) {
      JoinLayout(frags, TOr, ts, i, ps, n);
      var p := UseMeans(frags[0], bs[0], exact, row, ts, i + 1, ps, n);
      var q := OrRest(frags[1..], bs[1..], exact, row, ts, p.next, ps, p.params, p.e, bs[0]);
      OrOfTail(ts, i + 1, n, p, q, TOr);
      ParenParses(ts, i, n, q);
      SplitFirst(bs);
      Conclude(g, SomeTrue(bs), exact, row, ts, i, ps, n, q.e);
    }
  }

  lemma AllOfMeans(frags: seq<Frag>, bs: seq<bool>, row: Row)
    requires |frags| > 0 && AllMean(frags, bs, false, row)
    ensures Means(Paren(Join(frags, TAnd)), AllTrue(bs), false, row)
  {
    var g, b := Paren(Join(frags, TAnd)), AllTrue(bs);
    forall ts, i: nat, ps, n: nat ensures MeansAt(g, b, false, row, ts, i, ps, n) {
      AllOfMeansAt(frags, bs, row, ts, i, ps, n);
    }
  }

  lemma AnyOfMeans(frags: seq<Frag>, bs: seq<bool>, exact: bool, row: Row)
    requires |frags| > 0 && AllMean(frags, bs, exact, row)
    ensures Means(Paren(Join(frags, TOr)), SomeTrue(bs), exact, row)
  {
    var g, b := Paren(Join(frags, TOr)), SomeTrue(bs);
    forall ts, i: nat, ps, n: nat ensures MeansAt(g, b, exact, row, ts, i, ps, n) {
      AnyOfMeansAt(frags, bs, exact, row, ts, i, ps, n);
    }
  }

  // ------------------------------------------------------------ field operators

  lemma {:induction false} EqsMean(path: string, values: seq<Js>, found: Option<Json>, row: Row) returns (bs: seq<bool>)
    requires forall v :: v in values ==> IsScalar(v)
    requires EqFrags(path, values).Ok? && Reads(path, found, row)
    ensures AllMean(EqFrags(path, values).value, bs, true, row)
    ensures SomeTrue(bs) <==> exists v :: v in values && Equals(found, v, row.host, false)
  {
    hide Reads, EqFrag, Equals, Means;
    if values == [] {
      bs := [];
    } else {
      EqMeans(path, values[0], found, row);
      var rest := EqsMean(path, values[1..], found, row);
      bs := [Equals(found, values[0], row.host, false)] + rest;
      SplitFirst(bs);
      assert values == [values[0]] + values[1..];
    }
  }

  lemma AnyOfEqMeans(path: string, value: Js, found: Option<Json>, row: Row)
    requires value.Array? && value.items != [] && AnyOfFrag(path, value).Ok? && Reads(path, found, row)
    ensures Means(AnyOfFrag(path, value).value,
                  exists x :: x in value.items && Equals(found, x, row.host, false), true, row)
  {
    hide Reads, EqFrag, Equals, Means, EqFrags;
    var bs := EqsMean(path, value.items, found, row);
    AnyOfMeans(EqFrags(path, value.items).value, bs, true, row);
  }

  /** The constants `0` and `1` stand for empty `$in` and `$nin`, and for the empty query. */
  lemma ConstMeans(k: nat, row: Row)
    requires k == 0 || k == 1
    ensures Means(Frag([Num(k)], []), k == 1, true, row)
  {
    var f, b := Frag([Num(k)], []), k == 1;
    forall ts, i: nat, ps, n: nat ensures MeansAt(f, b, true, row, ts, i, ps, n) {
      if At(ts, i, f.ts) && At(ps, n, f.ps) && Stops(ts, i + |f.ts|) {
        AtIndex(ts, i, f.ts, 0);
        NotOfPrimary(ts, i, n);
      }
    }
  }

  lemma Weaken(f: Frag, b: bool, row: Row)
    requires Means(f, b, true, row)
    ensures Means(f, b, false, row)
  {
    forall ts, i: nat, ps, n: nat ensures MeansAt(f, b, false, row, ts, i, ps, n) {
      assert MeansAt(f, b, true, row, ts, i, ps, n);
    }
  }

  lemma OpMeans(path: string, op: FieldOp, v: Js, found: Option<Json>, row: Row)
    requires OpFrag(path, op, v, row.host).Ok? && Reads(path, found, row)
    ensures Means(OpFrag(path, op, v, row.host).value, OpMatches(found, op, v, row.host, false), false, row)
  {
    hide Reads, EqFrag, OrderedFrag, Equals, Ordered, Means, AnyOfFrag;
    var f := OpFrag(path, op, v, row.host).value;
    match op {
      case OpEq =>
        EqMeans(path, v, found, row);
        Weaken(f, Equals(found, v, row.host, false), row);
      case OpNe =>
        EqMeans(path, v, found, row);
        NegatedMeans(EqFrag(path, v).value, Equals(found, v, row.host, false), row);
        Weaken(f, !Equals(found, v, row.host, false), row);
      case OpCmp(cmp) => OrderedMeans(path, cmp, v, found, row);
      case OpIn =>
        if v.items == [] {
          ConstMeans(0, row);
        } else {
          AnyOfEqMeans(path, v, found, row);
        }
        Weaken(f, exists x :: x in v.items && Equals(found, x, row.host, false), row);
      case OpNin =>
        var any := exists x :: x in v.items && Equals(found, x, row.host, false);
        if v.items == [] {
          ConstMeans(1, row);
        } else {
          AnyOfEqMeans(path, v, found, row);
          NegatedMeans(AnyOfFrag(path, v).value, any, row);
        }
        Weaken(f, !any, row);
      case OpExists =>
        ExistsMeans(path, v.b, found, row);
        Weaken(f, v.b <==> found.Some?, row);
      case OpRegex => RegexMeans(path, v.s, found, row);
    }
  }

  lemma {:induction false} OpsMean(path: string, entries: seq<Entry>, found: Option<Json>, row: Row) returns (bs: seq<bool>)
    requires OpFrags(path, entries, row.host).Ok? && Reads(path, found, row)
    ensures AllMean(OpFrags(path, entries, row.host).value, bs, false, row)
    ensures AllTrue(bs) <==>
            forall e :: e in entries ==> KeyMatches(found, e.key, e.value, row.host, false)
  {
    hide Reads, OpFrag, OpMatches, KeyMatches, Means, FieldOpOf;
    if entries == [] {
      bs := [];
    } else {
      var e := entries[0];
      OpMeans(path, FieldOpOf(e.key), e.value, found, row);
      KeyMeans(found, e.key, e.value, row.host, false);
      var rest := OpsMean(path, entries[1..], found, row);
      bs := [KeyMatches(found, e.key, e.value, row.host, false)] + rest;
      SplitFirst(bs);
      assert entries == [e] + entries[1..];
    }
  }

  lemma GroupMeans(frags: seq<Frag>, bs: seq<bool>, row: Row)
    requires |frags| > 0 && AllMean(frags, bs, false, row)
    ensures Means(Group(frags), AllTrue(bs), false, row)
  {
    hide Means, Join;
    if |frags| == 1 {
      assert AllTrue(bs) == bs[0];
    } else {
      AllOfMeans(frags, bs, row);
    }
  }

  lemma FieldMeans(field: string, spec: Js, row: Row)
    requires FieldFrag(field, spec, row.host).Ok?
    ensures Means(FieldFrag(field, spec, row.host).value,
                  FieldMatches(Lookup(row.doc, field, false), spec, row.host, false), false, row)
  {
    hide Reads, EqFrag, Equals, Means, OpFrags, KeyMatches, Lookup, FieldPath.PathOf, FieldPath.Accepted, AllTrue;
    ReadsField(field, row);
    var path, found := FieldPath.PathOf(field), Lookup(row.doc, field, false);
    if IsScalar(spec) {
      EqMeans(path, spec, found, row);
      Weaken(EqFrag(path, spec).value, Equals(found, spec, row.host, false), row);
    } else {
      var bs := OpsMean(path, spec.entries, found, row);
      GroupMeans(OpFrags(path, spec.entries, row.host).value, bs, row);
    }
  }

  // -------------------------------------------------------------------- queries

  lemma {:induction false} QueryMeans(query: Js, row: Row)
    requires QueryFrag(query, row.host).Ok?
    ensures Means(QueryFrag(query, row.host).value, Matches(query, row.doc, row.host, false), false, row)
    decreases query, 1
  {
    hide Means, AllTrue;
    if query.Object? && query.entries != [] {
      var bs := EntriesMean(query.entries, row);
      GroupMeans(EntryFrags(query.entries, row.host).value, bs, row);
    } else {
      ConstMeans(1, row);
      Weaken(Frag([Num(1)], []), true, row);
    }
  }

  lemma {:induction false} EntriesMean(entries: seq<Entry>, row: Row) returns (bs: seq<bool>)
    requires EntryFrags(entries, row.host).Ok?
    ensures AllMean(EntryFrags(entries, row.host).value, bs, false, row)
    ensures AllTrue(bs) <==> forall e :: e in entries ==> EntryMatches(e, row.doc, row.host, false)
    decreases entries, 0
  {
    hide Means, EntryFrag, EntryMatches;
    if entries == [] {
      bs := [];
    } else {
      EntryMeans(entries[0], row);
      var rest := EntriesMean(entries[1..], row);
      bs := [EntryMatches(entries[0], row.doc, row.host, false)] + rest;
      SplitFirst(bs);
      assert entries == [entries[0]] + entries[1..];
    }
  }

  lemma {:induction false} EntryMeans(entry: Entry, row: Row)
    requires EntryFrag(entry, row.host).Ok?
    ensures Means(EntryFrag(entry, row.host).value, EntryMatches(entry, row.doc, row.host, false), false, row)
    decreases entry, 2
  {
    hide Means, KeyKindOf, AllTrue, SomeTrue, FieldFrag, FieldMatches, Lookup, QueryFrags, Join;
    KeyKinds(entry.key);
    match KeyKindOf(entry.key) {
      case AndKey =>
        var bs := QueriesMean(entry.value.items, row);
        AllOfMeans(QueryFrags(entry.value.items, row.host).value, bs, row);
      case OrKey =>
        var bs := QueriesMean(entry.value.items, row);
        AnyOfMeans(QueryFrags(entry.value.items, row.host).value, bs, false, row);
      case FieldKey => FieldMeans(entry.key, entry.value, row);
    }
  }

  lemma {:induction false} QueriesMean(queries: seq<Js>, row: Row) returns (bs: seq<bool>)
    requires QueryFrags(queries, row.host).Ok?
    ensures AllMean(QueryFrags(queries, row.host).value, bs, false, row)
    ensures AllTrue(bs) <==> forall q :: q in queries ==> Matches(q, row.doc, row.host, false)
    ensures SomeTrue(bs) <==> exists q :: q in queries && Matches(q, row.doc, row.host, false)
    decreases queries, 0
  {
    hide Means, QueryFrag, Matches;
    if queries == [] {
      bs := [];
    } else {
      QueryMeans(queries[0], row);
      var rest := QueriesMean(queries[1..], row);
      bs := [Matches(queries[0], row.doc, row.host, false)] + rest;
      SplitFirst(bs);
      assert queries == [queries[0]] + queries[1..];
    }
  }

  /**
   * The main result. A compiled query parses completely as one SQL expression,
   * its placeholders are numbered 0, 1, ... up to the number of parameters, and
   * on every document it is TRUE exactly when the query matches.
   */
  lemma CompilePreservesMeaning(query: Js, doc: Json, host: Host)
    requires QueryFrag(query, host).Ok?
    ensures var f := QueryFrag(query, host).value;
            var r := ParseOr(f.ts, 0, 0);
            && r.Some? && r.value.next == |f.ts| && r.value.params == |f.ps|
            && (TruthOf(Eval(r.value.e, f.ps, doc, host)) == T <==> Matches(query, doc, host, false))
  {
    hide ParseNot, Matches, QueryFrag, Means;
    var f, row := QueryFrag(query, host).value, Row(doc, host);
    QueryMeans(query, row);
    assert f.ts[0..0 + |f.ts|] == f.ts && f.ps[0..0 + |f.ps|] == f.ps;
    var p := UseMeans(f, Matches(query, doc, host, false), false, row, f.ts, 0, f.ps, 0);
    assert AndTail(f.ts, p.next, p.params, p.e) == Some(p);
    assert ParseAnd(f.ts, 0, 0) == Some(p);
    assert OrTail(f.ts, p.next, p.params, p.e) == Some(p);
  }
}
