/**
 * Resolving bare imports against the Standard Library catalog: two worklists, one
 * in each language of the code base, that must pick the same bundles.
 */
module Stdlib {
  import opened Wrappers
  import opened FileTree

  /** What the catalog records of one specifier; its externals are imported in turn. */
  datatype Spec = Spec(record: string, sha256: string, externals: seq<string>)

  type Catalog = map<string, Spec>

  datatype Resolution = Resolution(selected: map<string, Spec>, missing: seq<string>)

  // ---------------------------------------------------------------- reachability

  predicate Imports(catalog: Catalog, a: string, b: string) {
    a in catalog && b in catalog[a].externals
  }

  /** A chain of imports leading from what the application imports to a name. */
  predicate IsChain(catalog: Catalog, bare: seq<string>, chain: seq<string>) {
    chain != [] && chain[0] in bare && forall k :: 0 <= k < |chain| - 1 ==> Imports(catalog, chain[k], chain[k + 1])
  }

  ghost predicate Reachable(catalog: Catalog, bare: seq<string>, name: string) {
    exists chain :: IsChain(catalog, bare, chain) && chain[|chain| - 1] == name
  }

  lemma ReachableBare(catalog: Catalog, bare: seq<string>, name: string)
    requires name in bare
    ensures Reachable(catalog, bare, name)
  {
    assert IsChain(catalog, bare, [name]);
  }

  lemma ReachableNext(catalog: Catalog, bare: seq<string>, a: string, b: string)
    requires Reachable(catalog, bare, a) && Imports(catalog, a, b)
    ensures Reachable(catalog, bare, b)
  {
    var chain :| IsChain(catalog, bare, chain) && chain[|chain| - 1] == a;
    var longer := chain + [b];
    assert forall k :: 0 <= k < |chain| ==> longer[k] == chain[k];
    assert IsChain(catalog, bare, longer) && longer[|longer| - 1] == b;
  }

  /** A set that holds the imports and the externals of its members holds everything reachable. */
  lemma {:induction false} ClosedHoldsChain(catalog: Catalog, bare: seq<string>, names: set<string>, chain: seq<string>)
    requires IsChain(catalog, bare, chain)
    requires forall n :: n in bare ==> n in names
    requires forall a, b :: a in names && Imports(catalog, a, b) ==> b in names
    ensures chain[|chain| - 1] in names
    decreases |chain|
  {
    if |chain| > 1 {
      var init := chain[..|chain| - 1];
      assert IsChain(catalog, bare, init);
      ClosedHoldsChain(catalog, bare, names, init);
      assert Imports(catalog, chain[|chain| - 2], chain[|chain| - 1]);
    }
  }

  // ------------------------------------------------------------------ two orders

  /** How missing names are sorted: by code point, as UTF-8 bytes are, or by UTF-16 code unit. */
  datatype Order = ByCodePoint | ByCodeUnit

  /** The UTF-16 code units of a character: itself, or a surrogate pair. */
  function CharUnits(c: char): seq<nat> {
    var n := c as nat;
    if n < 0x1_0000 then [n]
    else [0xD800 + (n - 0x1_0000) / 0x400, 0xDC00 + (n - 0x1_0000) % 0x400]
  }

  function Units(s: string): seq<nat> {
    if s == "" then [] else CharUnits(s[0]) + Units(s[1..])
  }

  predicate UnitsLess(a: seq<nat>, b: seq<nat>) {
    b != [] && (a == [] || a[0] < b[0] || (a[0] == b[0] && UnitsLess(a[1..], b[1..])))
  }

  predicate Before(order: Order, a: string, b: string) {
    match order
    case ByCodePoint => Less(a, b)
    case ByCodeUnit => UnitsLess(Units(a), Units(b))
  }

  lemma {:induction false} UnitsLessTransitive(a: seq<nat>, b: seq<nat>, c: seq<nat>)
    requires UnitsLess(a, b) && UnitsLess(b, c)
    ensures UnitsLess(a, c)
  {
    if a != [] && a[0] == b[0] == c[0] {
      UnitsLessTransitive(a[1..], b[1..], c[1..]);
    }
  }

  lemma {:induction false} UnitsLessStrict(a: seq<nat>, b: seq<nat>)
    ensures !(UnitsLess(a, b) && UnitsLess(b, a)) && !UnitsLess(a, a)
    ensures a == b || UnitsLess(a, b) || UnitsLess(b, a)
  {
    if a != [] && b != [] {
      UnitsLessStrict(a[1..], b[1..]);
      assert a == [a[0]] + a[1..] && b == [b[0]] + b[1..];
    } else if a != [] {
      UnitsLessStrict(a[1..], a[1..]);
    }
  }

  lemma CharUnitsShape(c: char)
    ensures var u := CharUnits(c);
            (|u| == 1 && !(0xD800 <= u[0] < 0xE000)) || (|u| == 2 && 0xD800 <= u[0] < 0xDC00 <= u[1] < 0xE000)
  {
  }

  lemma CharUnitsInjective(c: char, d: char)
    requires CharUnits(c) == CharUnits(d)
    ensures c == d
  {
    var m, n := c as nat, d as nat;
    if m >= 0x1_0000 {
      assert CharUnits(c)[0] == CharUnits(d)[0] && CharUnits(c)[1] == CharUnits(d)[1];
      assert (m - 0x1_0000) / 0x400 == (n - 0x1_0000) / 0x400 && (m - 0x1_0000) % 0x400 == (n - 0x1_0000) % 0x400;
    } else {
      assert CharUnits(c)[0] == CharUnits(d)[0];
    }
  }

  /** A text can be read back from its code units. */
  lemma {:induction false} UnitsInjective(a: string, b: string)
    requires Units(a) == Units(b)
    ensures a == b
  {
    if a != "" && b != "" {
      var x, y := CharUnits(a[0]), CharUnits(b[0]);
      CharUnitsShape(a[0]);
      CharUnitsShape(b[0]);
      hide CharUnits;
      assert Units(a)[0] == x[0] && Units(b)[0] == y[0];
      assert Units(a)[..|x|] == x && Units(b)[..|y|] == y;
      CharUnitsInjective(a[0], b[0]);
      assert Units(a)[|x|..] == Units(a[1..]) && Units(b)[|y|..] == Units(b[1..]);
      UnitsInjective(a[1..], b[1..]);
      assert a == [a[0]] + a[1..] && b == [b[0]] + b[1..];
    } else if a != "" {
      CharUnitsShape(a[0]);
    } else if b != "" {
      CharUnitsShape(b[0]);
    }
  }

  lemma BeforeTransitive(order: Order, a: string, b: string, c: string)
    requires Before(order, a, b) && Before(order, b, c)
    ensures Before(order, a, c)
  {
    match order
    case ByCodePoint => LessTransitive(a, b, c);
    case ByCodeUnit => UnitsLessTransitive(Units(a), Units(b), Units(c));
  }

  lemma BeforeStrict(order: Order, a: string, b: string)
    ensures !(Before(order, a, b) && Before(order, b, a)) && !Before(order, a, a)
    ensures a == b || Before(order, a, b) || Before(order, b, a)
  {
    match order
    case ByCodePoint => LessStrict(a, b);
    case ByCodeUnit =>
      UnitsLessStrict(Units(a), Units(b));
      if Units(a) == Units(b) {
        UnitsInjective(a, b);
      }
  }

  // ------------------------------------------------------------------ the result

  ghost predicate Ascending(order: Order, names: seq<string>) {
    forall i, j :: 0 <= i < j < |names| ==> Before(order, names[i], names[j])
  }

  /** Exactly the reachable catalog entries, and exactly the reachable names outside it, in the given order. */
  ghost predicate Resolves(catalog: Catalog, bare: seq<string>, order: Order, r: Resolution) {
    && (forall n :: n in r.selected <==> n in catalog && Reachable(catalog, bare, n))
    && (forall n :: n in r.selected && n in catalog ==> r.selected[n] == catalog[n])
    && (forall n :: n in r.missing <==> n !in catalog && Reachable(catalog, bare, n))
    && Ascending(order, r.missing)
  }

  function InsertName(order: Order, names: seq<string>, name: string): (r: seq<string>)
    ensures forall n :: n in r <==> n in names || n == name
  {
    if names == [] then [name]
    else if Before(order, name, names[0]) then [name] + names
    else
      assert names == [names[0]] + names[1..];
      [names[0]] + InsertName(order, names[1..], name)
  }

  function Sorted(order: Order, names: seq<string>): (r: seq<string>)
    ensures forall n :: n in r <==> n in names
  {
    if names == [] then []
    else
      assert names == [names[0]] + names[1..];
      InsertName(order, Sorted(order, names[1..]), names[0])
  }

  lemma {:induction false} InsertAscends(order: Order, names: seq<string>, name: string)
    requires Ascending(order, names) && name !in names
    ensures Ascending(order, InsertName(order, names, name))
  {
    hide Before;
    if names != [] {
      BeforeStrict(order, name, names[0]);
      if Before(order, name, names[0]) {
        forall k | 0 <= k < |names| ensures Before(order, name, names[k]) {
          if k > 0 {
            BeforeTransitive(order, name, names[0], names[k]);
          }
        }
      } else {
        InsertAscends(order, names[1..], name);
        var rest := InsertName(order, names[1..], name);
        forall k | 0 <= k < |rest| ensures Before(order, names[0], rest[k]) {
          assert rest[k] in rest;
          assert forall n :: n in names[1..] ==> Before(order, names[0], n);
        }
      }
    }
  }

  predicate Distinct(names: seq<string>) {
    forall i, j :: 0 <= i < j < |names| ==> names[i] != names[j]
  }

  lemma {:induction false} SortAscends(order: Order, names: seq<string>)
    requires Distinct(names)
    ensures Ascending(order, Sorted(order, names))
  {
    if names != [] {
      SortAscends(order, names[1..]);
      assert names[0] !in names[1..];
      InsertAscends(order, Sorted(order, names[1..]), names[0]);
    }
  }

  /** A list without repetitions of a set's members. */
  ghost predicate Lists(names: seq<string>, members: set<string>) {
    Distinct(names) && forall n :: n in names <==> n in members
  }

  lemma ListOneMore(names: seq<string>, members: set<string>, name: string)
    requires Lists(names, members)
    ensures name in members <==> name in names
    ensures name !in members ==> Lists(names + [name], members + {name})
    ensures name in members ==> members + {name} == members
  {
  }

  // ---------------------------------------------------------------- the worklists

  /** Everything found so far is reachable; what is reachable is found or still queued. */
  ghost predicate Progress(catalog: Catalog, bare: seq<string>, selected: map<string, Spec>, missing: set<string>,
                           queue: seq<string>) {
    && (forall n :: n in selected ==> n in catalog && selected[n] == catalog[n] && Reachable(catalog, bare, n))
    && (forall n :: n in missing ==> n !in catalog && Reachable(catalog, bare, n))
    && (forall n :: n in queue ==> Reachable(catalog, bare, n))
    && (forall n :: n in bare ==> n in selected || n in missing || n in queue)
    && (forall a, b :: a in selected && Imports(catalog, a, b) ==> b in selected || b in missing || b in queue)
  }

  lemma Start(catalog: Catalog, bare: seq<string>)
    ensures Progress(catalog, bare, map[], {}, bare)
  {
    hide Reachable;
    forall n | n in bare ensures Reachable(catalog, bare, n) {
      ReachableBare(catalog, bare, n);
    }
  }

  lemma SelectOne(catalog: Catalog, bare: seq<string>, selected: map<string, Spec>, missing: set<string>,
                  queue: seq<string>, name: string)
    requires Progress(catalog, bare, selected, missing, queue + [name]) && name in catalog
    ensures Progress(catalog, bare, selected[name := catalog[name]], missing, queue + catalog[name].externals)
  {
    hide Reachable;
    assert name in queue + [name];
    forall n | n in catalog[name].externals ensures Reachable(catalog, bare, n) {
      ReachableNext(catalog, bare, name, n);
    }
  }

  lemma SkipOne(catalog: Catalog, bare: seq<string>, selected: map<string, Spec>, missing: set<string>,
                queue: seq<string>, name: string)
    requires Progress(catalog, bare, selected, missing, queue + [name])
    ensures name in selected || name in missing ==> Progress(catalog, bare, selected, missing, queue)
    ensures name !in catalog ==> Progress(catalog, bare, selected, missing + {name}, queue)
  {
    hide Reachable;
    assert name in queue + [name];
  }

  lemma Finished(catalog: Catalog, bare: seq<string>, selected: map<string, Spec>, missing: set<string>, names: seq<string>,
                 order: Order)
    requires Progress(catalog, bare, selected, missing, [])
    requires Lists(names, missing)
    ensures Resolves(catalog, bare, order, Resolution(selected, Sorted(order, names)))
  {
    SortAscends(order, names);
    var found := selected.Keys + missing;
    assert forall a, b :: a in found && Imports(catalog, a, b) ==> b in found;
    forall n | Reachable(catalog, bare, n) ensures n in found {
      var chain :| IsChain(catalog, bare, chain) && chain[|chain| - 1] == n;
      ClosedHoldsChain(catalog, bare, found, chain);
    }
  }

  /** How much of the catalog is still unselected. */
  ghost function Remaining(catalog: Catalog, selected: map<string, Spec>): nat {
    |catalog.Keys - selected.Keys|
  }

  lemma SmallerRest(catalog: Catalog, selected: map<string, Spec>, name: string)
    requires name in catalog && name !in selected
    ensures Remaining(catalog, selected[name := catalog[name]]) < Remaining(catalog, selected)
  {
    var rest, fewer := catalog.Keys - selected.Keys, catalog.Keys - selected[name := catalog[name]].Keys;
    assert fewer == rest - {name} && name in rest;
  }

  lemma PopOne(catalog: Catalog, bare: seq<string>, selected: map<string, Spec>, missing: set<string>, queue: seq<string>)
    requires queue != [] && Progress(catalog, bare, selected, missing, queue)
    ensures var rest, name := queue[..|queue| - 1], queue[|queue| - 1];
            && (name in selected || name in missing ==> Progress(catalog, bare, selected, missing, rest))
            && (name !in catalog ==> Progress(catalog, bare, selected, missing + {name}, rest))
            && (name in catalog ==>
                  Progress(catalog, bare, selected[name := catalog[name]], missing, rest + catalog[name].externals))
            && (name in catalog && name !in selected ==>
                  Remaining(catalog, selected[name := catalog[name]]) < Remaining(catalog, selected))
  {
    var rest, name := queue[..|queue| - 1], queue[|queue| - 1];
    hide Progress, Remaining;
    assert queue == rest + [name];
    SkipOne(catalog, bare, selected, missing, rest, name);
    if name in catalog {
      SelectOne(catalog, bare, selected, missing, rest, name);
      if name !in selected {
        SmallerRest(catalog, selected, name);
      }
    }
  }

  /** The command-line tool's worklist, which looks a name up among the missing before anything else, and sorts bytes. */
  method Resolve(catalog: Catalog, bare: seq<string>) returns (r: Resolution)
    ensures Resolves(catalog, bare, ByCodePoint, r)
  {
    assert Lists([], {});
    hide Progress, Resolves, Sorted, Lists, Remaining;
    var selected: map<string, Spec> := map[];
    var missing: seq<string> := [];
    var queue := bare;
    ghost var gone: set<string> := {};
    Start(catalog, bare);
    while queue != []
      invariant Progress(catalog, bare, selected, gone, queue)
      invariant Lists(missing, gone)
      decreases Remaining(catalog, selected), |queue|
    {
      PopOne(catalog, bare, selected, gone, queue);
      var name := queue[|queue| - 1];
      queue := queue[..|queue| - 1];
      ListOneMore(missing, gone, name);
      if name in selected || name in missing {
        continue;
      }
      if name in catalog {
        queue := queue + catalog[name].externals;
        selected := selected[name := catalog[name]];
      } else {
        missing := missing + [name];
        gone := gone + {name};
      }
    }
    Finished(catalog, bare, selected, gone, missing, ByCodePoint);
    return Resolution(selected, Sorted(ByCodePoint, missing));
  }

  /** The reader's worklist, which keeps the missing names in a set and sorts code units. */
  method ResolveStdlib(catalog: Catalog, bare: seq<string>) returns (r: Resolution)
    ensures Resolves(catalog, bare, ByCodeUnit, r)
  {
    assert Lists([], {});
    hide Progress, Resolves, Sorted, Lists, Remaining;
    var selected: map<string, Spec> := map[];
    var missing: set<string> := {};
    var listed: seq<string> := [];
    var queue := bare;
    Start(catalog, bare);
    while queue != []
      invariant Progress(catalog, bare, selected, missing, queue)
      invariant Lists(listed, missing)
      decreases Remaining(catalog, selected), |queue|
    {
      PopOne(catalog, bare, selected, missing, queue);
      var name := queue[|queue| - 1];
      queue := queue[..|queue| - 1];
      ListOneMore(listed, missing, name);
      if name in selected {
        continue;
      }
      if name !in catalog {
        if name !in missing {
          listed := listed + [name];
        }
        missing := missing + {name};
        continue;
      }
      selected := selected[name := catalog[name]];
      queue := queue + catalog[name].externals;
    }
    Finished(catalog, bare, selected, missing, listed, ByCodeUnit);
    return Resolution(selected, Sorted(ByCodeUnit, listed));
  }

  /** In one order there is only one answer. */
  lemma OneResolution(catalog: Catalog, bare: seq<string>, order: Order, r: Resolution, s: Resolution)
    requires Resolves(catalog, bare, order, r) && Resolves(catalog, bare, order, s)
    ensures r == s
  {
    hide Reachable, Before;
    SameNames(order, r.missing, s.missing);
    assert r.selected.Keys == s.selected.Keys;
  }

  /** Both orders put these names the same way round. */
  ghost predicate OrdersAgree(names: seq<string>) {
    forall i, j :: 0 <= i < |names| && 0 <= j < |names| ==>
      (Before(ByCodePoint, names[i], names[j]) <==> Before(ByCodeUnit, names[i], names[j]))
  }

  /**
   * The two resolvers always select the same bundles and miss the same names. Their whole
   * answers are equal exactly if the two orders agree on the missing names.
   */
  lemma ResolversAgree(catalog: Catalog, bare: seq<string>, r: Resolution, s: Resolution)
    requires Resolves(catalog, bare, ByCodePoint, r) && Resolves(catalog, bare, ByCodeUnit, s)
    ensures r.selected == s.selected && forall n :: n in r.missing <==> n in s.missing
    ensures r == s <==> OrdersAgree(r.missing)
  {
    assert r.selected.Keys == s.selected.Keys;
    hide Reachable, Before;
    if r.missing == s.missing {
      var names := r.missing;
      forall i, j | 0 <= i < |names| && 0 <= j < |names|
        ensures Before(ByCodePoint, names[i], names[j]) <==> Before(ByCodeUnit, names[i], names[j]) {
        BeforeStrict(ByCodePoint, names[i], names[j]);
        BeforeStrict(ByCodeUnit, names[i], names[j]);
      }
    }
    if OrdersAgree(r.missing) {
      assert Ascending(ByCodeUnit, r.missing);
      SameNames(ByCodeUnit, r.missing, s.missing);
    }
  }

  /** A fullwidth tilde and an emoji: two imports no catalog needs to know. */
  function Awkward(): seq<string> {
    ["\U{FF5E}", "\U{1F600}"]
  }

  /** On them the tool and the reader list the missing names the other way round. */
  lemma ResolversDiffer(r: Resolution, s: Resolution)
    requires Resolves(map[], Awkward(), ByCodePoint, r) && Resolves(map[], Awkward(), ByCodeUnit, s)
    ensures r.missing != s.missing && r.selected == s.selected
  {
    var tilde, face := Awkward()[0], Awkward()[1];
    assert Less(tilde, face) && tilde != face;
    assert Units(tilde) == [0xFF5E] && Units(face) == [0xD83D, 0xDE00];
    assert UnitsLess(Units(face), Units(tilde));
    BeforeStrict(ByCodeUnit, tilde, face);
    assert Before(ByCodePoint, tilde, face) && !Before(ByCodeUnit, tilde, face);
    ReachableBare(map[], Awkward(), tilde);
    ReachableBare(map[], Awkward(), face);
    ResolversAgree(map[], Awkward(), r, s);
    hide Before, Resolves, Reachable, Less, Units, UnitsLess;
    assert tilde in r.missing && face in r.missing;
    var i :| 0 <= i < |r.missing| && r.missing[i] == tilde;
    var j :| 0 <= j < |r.missing| && r.missing[j] == face;
    assert !OrdersAgree(r.missing);
  }

  lemma {:induction false} SameNames(order: Order, a: seq<string>, b: seq<string>)
    requires Ascending(order, a) && Ascending(order, b) && forall n :: n in a <==> n in b
    ensures a == b
  {
    hide Before;
    if a != [] && b != [] {
      assert a[0] in b && b[0] in a;
      BeforeStrict(order, a[0], b[0]);
      BeforeStrict(order, a[0], a[0]);
      assert a == [a[0]] + a[1..] && b == [b[0]] + b[1..];
      assert a[0] == b[0];
      assert a[0] !in a[1..] && b[0] !in b[1..];
      forall n ensures n in a[1..] <==> n in b[1..] {
        assert n in a <==> n == a[0] || n in a[1..];
        assert n in b <==> n == b[0] || n in b[1..];
      }
      SameNames(order, a[1..], b[1..]);
    } else {
      EmptyTogether(a, b);
    }
  }

  lemma EmptyTogether(a: seq<string>, b: seq<string>)
    requires forall n :: n in a <==> n in b
    ensures a == [] <==> b == []
  {
    assert a != [] ==> a[0] in a;
    assert b != [] ==> b[0] in b;
  }

  /** More imports never drop a bundle, and importing what is already pulled in changes nothing. */
  lemma ReachableMonotone(catalog: Catalog, bare: seq<string>, more: seq<string>, name: string)
    requires forall n :: n in bare ==> Reachable(catalog, more, n)
    requires Reachable(catalog, bare, name)
    ensures Reachable(catalog, more, name)
  {
    var chain :| IsChain(catalog, bare, chain) && chain[|chain| - 1] == name;
    ReachAlong(catalog, bare, more, chain);
  }

  lemma {:induction false} ReachAlong(catalog: Catalog, bare: seq<string>, more: seq<string>, chain: seq<string>)
    requires forall n :: n in bare ==> Reachable(catalog, more, n)
    requires IsChain(catalog, bare, chain)
    ensures Reachable(catalog, more, chain[|chain| - 1])
    decreases |chain|
  {
    if |chain| > 1 {
      var init := chain[..|chain| - 1];
      assert IsChain(catalog, bare, init);
      ReachAlong(catalog, bare, more, init);
      assert Imports(catalog, chain[|chain| - 2], chain[|chain| - 1]);
      ReachableNext(catalog, more, init[|init| - 1], chain[|chain| - 1]);
    }
  }
}
