/**
 * Schema migrations: reading the container's `migrations/` entries into one
 * ordered list, and applying the part of it a database still needs.
 */
module Migrations {
  import opened Wrappers
  import opened Texts

  datatype File = File(path: string, text: string)

  /** The ordinal is the schema version the script produces. */
  datatype Migration = Migration(version: nat, name: string, sql: string)

  // ------------------------------------------------------------- entry names

  function Prefix(): string { "migrations/" }

  function Suffix(): string { ".sql" }

  predicate IsNameChar(c: char) {
    IsDigit(c) || 'A' <= c <= 'Z' || 'a' <= c <= 'z' || c == '.' || c == '_' || c == '-'
  }

  predicate InMigrations(path: string) {
    Prefix() <= path
  }

  function LeadingDigits(s: string): (n: nat)
    ensures n <= |s|
    ensures forall k :: 0 <= k < n ==> IsDigit(s[k])
    ensures n < |s| ==> !IsDigit(s[n])
  {
    if s == [] || !IsDigit(s[0]) then 0 else 1 + LeadingDigits(s[1..])
  }

  /** What a conforming entry name says: its number and its name part. */
  function ParseName(path: string): Option<(nat, string)> {
    if !InMigrations(path) then None
    else
      var rest := path[|Prefix()|..];
      var d := LeadingDigits(rest);
      var tail := |rest| - |Suffix()|;
      if 1 <= d <= 9 && d + 1 < tail && rest[d] == '-' && rest[tail..] == Suffix() &&
         forall k :: d + 1 <= k < tail ==> IsNameChar(rest[k])
      then Some((Number(rest[..d]), rest[d + 1..tail]))
      else None
  }

  predicate IsOrdinal(digits: string) {
    1 <= |digits| <= 9 && Digital(digits)
  }

  predicate IsName(name: string) {
    name != [] && forall k :: 0 <= k < |name| ==> IsNameChar(name[k])
  }

  function NameOf(digits: string, name: string): string {
    Prefix() + (digits + ['-'] + name + Suffix())
  }

  /** Letters, digits, dots, underscores and dashes, at least one. */
  predicate NamePart(name: string) {
    name != "" && forall k :: 0 <= k < |name| ==>
      || name[k] in "ABCDEFGHIJKLMNOPQRSTUVWXYZ" || name[k] in "abcdefghijklmnopqrstuvwxyz"
      || name[k] in "0123456789" || name[k] in "._-"
  }

  /**
   * The entry names accepted are exactly those of the documented form: up to nine digits
   * that write out the version, with or without leading zeros, and a name.
   */
  lemma ParsesExactly(path: string, version: nat, name: string)
    ensures ParseName(path) == Some((version, name)) <==>
            NamePart(name) &&
            exists digits :: |digits| <= 9 && Numeral(digits, version) && path == "migrations/" + (digits + "-" + name + ".sql")
  {
    NamePartAgrees(name);
    hide Prefix, Suffix, Numeral, Number, NamePart, IsName;
    assert Prefix() == "migrations/" && Suffix() == ".sql" by { Frame(); }
    if ParseName(path) == Some((version, name)) {
      var digits := NameSplits(path, version, name);
      NumberReads(digits, version);
    }
    forall digits | NamePart(name) && |digits| <= 9 && Numeral(digits, version) &&
                    path == "migrations/" + (digits + "-" + name + ".sql")
      ensures ParseName(path) == Some((version, name)) {
      NumeralDigits(digits, version);
      NumberReads(digits, version);
      assert path == NameOf(digits, name);
      NamesParse(digits, name);
    }
  }

  lemma Frame()
    ensures Prefix() == "migrations/" && Suffix() == ".sql"
  {
  }

  lemma NamePartAgrees(name: string)
    ensures NamePart(name) <==> IsName(name)
  {
    forall k | 0 <= k < |name|
      ensures IsNameChar(name[k]) <==>
              || name[k] in "ABCDEFGHIJKLMNOPQRSTUVWXYZ" || name[k] in "abcdefghijklmnopqrstuvwxyz"
              || name[k] in "0123456789" || name[k] in "._-" {
      UpperLetters(name[k]);
      LowerLetters(name[k]);
      DigitCharacters(name[k]);
    }
    hide IsNameChar;
  }

  lemma NameSplits(path: string, version: nat, name: string) returns (digits: string)
    requires ParseName(path) == Some((version, name))
    ensures IsOrdinal(digits) && IsName(name) && Number(digits) == version && path == NameOf(digits, name)
  {
    hide Prefix, Suffix, Number;
    var rest := path[|Prefix()|..];
    var d := LeadingDigits(rest);
    var tail := |rest| - |Suffix()|;
    digits := rest[..d];
    assert rest == rest[..d] + ['-'] + rest[d + 1..tail] + rest[tail..];
    assert path == Prefix() + rest;
  }

  lemma {:induction false} NamesParse(digits: string, name: string)
    requires IsOrdinal(digits) && IsName(name)
    ensures ParseName(NameOf(digits, name)) == Some((Number(digits), name))
  {
    hide Prefix, Suffix, Number;
    var path := NameOf(digits, name);
    var rest := digits + ['-'] + name + Suffix();
    assert path[|Prefix()|..] == rest;
    DigitsThenDash(digits, name + Suffix());
    assert digits + ['-'] + (name + Suffix()) == rest;
    var d := |digits|;
    var tail := |rest| - |Suffix()|;
    assert rest[..d] == digits && rest[d] == '-' && rest[d + 1..tail] == name && rest[tail..] == Suffix();
    forall k | d + 1 <= k < tail ensures IsNameChar(rest[k]) {
      assert rest[k] == name[k - d - 1];
    }
  }

  lemma {:induction false} DigitsThenDash(digits: string, rest: string)
    requires Digital(digits)
    ensures LeadingDigits(digits + ['-'] + rest) == |digits|
  {
    var s := digits + ['-'] + rest;
    var n := LeadingDigits(s);
    assert forall k :: 0 <= k < |digits| ==> s[k] == digits[k];
    assert s[|digits|] == '-';
  }

  // ------------------------------------------------------------------ parsing

  datatype ParseError = Misnamed(path: string) | NotPositive(path: string) | SharedNumber(version: nat)

  function MigrationOf(f: File): (m: Migration)
    requires ParseName(f.path).Some?
    ensures ParseName(f.path) == Some((m.version, m.name)) && m.sql == f.text
  {
    Migration(ParseName(f.path).value.0, ParseName(f.path).value.1, f.text)
  }

  predicate Numbered(f: File) {
    InMigrations(f.path) ==> ParseName(f.path).Some? && MigrationOf(f).version > 0
  }

  /** A migration set that orders its scripts unambiguously. */
  predicate Orderable(files: seq<File>) {
    && (forall i :: 0 <= i < |files| ==> Numbered(files[i]))
    && (forall i, j :: 0 <= i < j < |files| && InMigrations(files[i].path) && InMigrations(files[j].path) ==>
                         MigrationOf(files[i]).version != MigrationOf(files[j]).version)
  }

  predicate Gives(f: File, m: Migration) {
    InMigrations(f.path) && ParseName(f.path).Some? && MigrationOf(f) == m
  }

  predicate Holds(files: seq<File>, m: Migration) {
    exists i :: 0 <= i < |files| && Gives(files[i], m)
  }

  predicate Refuses(files: seq<File>, k: nat, error: ParseError)
    requires k < |files|
  {
    var f := files[k];
    && InMigrations(f.path)
    && match error
       case Misnamed(path) => path == f.path && ParseName(f.path).None?
       case NotPositive(path) => path == f.path && ParseName(f.path).Some? && MigrationOf(f).version == 0
       case SharedNumber(v) =>
         && ParseName(f.path).Some? && MigrationOf(f).version == v
         && exists i :: 0 <= i < k && InMigrations(files[i].path) && ParseName(files[i].path).Some? &&
                        MigrationOf(files[i]).version == v
  }

  predicate Ascending(ms: seq<Migration>) {
    forall i, j :: 0 <= i < j < |ms| ==> ms[i].version < ms[j].version
  }

  function Insert(m: Migration, ms: seq<Migration>): (r: seq<Migration>)
    ensures multiset(r) == multiset(ms) + multiset{m}
  {
    if ms == [] then [m]
    else if m.version <= ms[0].version then [m] + ms
    else
      assert ms == [ms[0]] + ms[1..];
      [ms[0]] + Insert(m, ms[1..])
  }

  /** A stable sort by version. */
  function Sorted(ms: seq<Migration>): (r: seq<Migration>)
    ensures multiset(r) == multiset(ms)
  {
    if ms == [] then []
    else
      assert ms == [ms[0]] + ms[1..];
      Insert(ms[0], Sorted(ms[1..]))
  }

  predicate Distinct(ms: seq<Migration>) {
    forall i, j :: 0 <= i < j < |ms| ==> ms[i].version != ms[j].version
  }

  lemma {:induction false} InsertAscends(m: Migration, ms: seq<Migration>)
    requires Ascending(ms) && forall x :: x in ms ==> x.version != m.version
    ensures Ascending(Insert(m, ms))
  {
    if ms != [] && m.version > ms[0].version {
      InsertAscends(m, ms[1..]);
      var r := Insert(m, ms[1..]);
      forall k | 0 <= k < |r| ensures ms[0].version < r[k].version {
        assert r[k] in multiset(r);
      }
    }
  }

  lemma {:induction false} SortAscends(ms: seq<Migration>)
    requires Distinct(ms)
    ensures Ascending(Sorted(ms))
  {
    if ms != [] {
      SortAscends(ms[1..]);
      forall x | x in Sorted(ms[1..]) ensures x.version != ms[0].version {
        assert x in multiset(ms[1..]);
      }
      InsertAscends(ms[0], Sorted(ms[1..]));
    }
  }

  lemma {:induction false} SortedStays(ms: seq<Migration>)
    requires Ascending(ms)
    ensures Sorted(ms) == ms
  {
    if ms != [] {
      SortedStays(ms[1..]);
    }
  }

  /** Accepts exactly the orderable sets, and lists exactly their scripts, ascending. */
  method ParseMigrations(files: seq<File>) returns (r: Result<seq<Migration>, ParseError>)
    ensures r.Ok? <==> Orderable(files)
    ensures r.Ok? ==> Ascending(r.value) && forall m :: m in r.value <==> Holds(files, m)
    ensures r.Err? ==> exists k: nat :: k < |files| && Orderable(files[..k]) && Refuses(files, k, r.error)
  {
    hide InMigrations, ParseName;
    var found: seq<Migration> := [];
    var k := 0;
    while k < |files|
      invariant k <= |files|
      invariant Orderable(files[..k]) && Distinct(found)
      invariant forall m :: m in found <==> Holds(files[..k], m)
    {
      var f := files[k];
      assert files[..k + 1] == files[..k] + [f];
      if InMigrations(f.path) {
        var parsed := ParseName(f.path);
        if parsed.None? {
          return Err(Misnamed(f.path));
        }
        var m := MigrationOf(f);
        if m.version <= 0 {
          return Err(NotPositive(f.path));
        }
        if exists x :: x in found && x.version == m.version {
          ghost var x :| x in found && x.version == m.version;
          ghost var i :| 0 <= i < k && Gives(files[..k][i], x);
          assert files[..k][i] == files[i];
          return Err(SharedNumber(m.version));
        }
        HoldsMore(files, k, m);
        found := found + [m];
      } else {
        HoldsSame(files, k);
      }
      k := k + 1;
    }
    assert files[..k] == files;
    SortAscends(found);
    var sorted := Sorted(found);
    forall m ensures m in sorted <==> m in found {
      assert m in multiset(sorted) <==> m in multiset(found);
    }
    return Ok(sorted);
  }

  lemma HoldsMore(files: seq<File>, k: nat, m: Migration)
    requires k < |files| && Gives(files[k], m)
    ensures forall x :: Holds(files[..k + 1], x) <==> Holds(files[..k], x) || x == m
  {
    var more, less := files[..k + 1], files[..k];
    assert more[k] == files[k] && forall i :: 0 <= i < k ==> more[i] == less[i];
    assert forall x :: Gives(files[k], x) ==> x == m;
    forall x ensures Holds(more, x) <==> Holds(less, x) || x == m {
      hide Gives;
      if Holds(less, x) {
        var i :| 0 <= i < k && Gives(less[i], x);
        assert Gives(more[i], x);
      }
      assert Gives(more[k], m);
    }
  }

  lemma HoldsSame(files: seq<File>, k: nat)
    requires k < |files| && !InMigrations(files[k].path)
    ensures forall x :: Holds(files[..k + 1], x) <==> Holds(files[..k], x)
  {
    hide InMigrations, ParseName;
    var more, less := files[..k + 1], files[..k];
    assert more[k] == files[k] && forall i :: 0 <= i < k ==> more[i] == less[i];
  }
}
