/**
 * The container reader: raw type detection, manifest, full scan, type rules, all
 * under one decompression budget; and the files it yields.
 */
module Container {
  import opened Wrappers
  import opened ContainerPath
  import opened FileTree
  import opened Scan
  import P = Poid

  type Files = seq<File<Bytes>>

  function MimetypeName(): string { "mimetype" }
  function ManifestName(): string { "manifest.json" }

  predicate Reserved(path: string) {
    path == MimetypeName() || path == ManifestName()
  }

  // ------------------------------------------------------ raw type detection

  datatype OpenError =
    | NotZip | MimetypeNotFirst | MimetypeMissing | MimetypeNotStored | MimetypeMismatch
    | ManifestMissing | ManifestInvalid | DuplicatePath | TypeRule | Scanned(error: Error)

  function MimetypeBytes(): Bytes {
    [0x6d, 0x69, 0x6d, 0x65, 0x74, 0x79, 0x70, 0x65]
  }

  /** application/vnd.poid+zip */
  function MediaType(): Bytes {
    [0x61, 0x70, 0x70, 0x6c, 0x69, 0x63, 0x61, 0x74, 0x69, 0x6f, 0x6e, 0x2f,
     0x76, 0x6e, 0x64, 0x2e, 0x70, 0x6f, 0x69, 0x64, 0x2b, 0x7a, 0x69, 0x70]
  }

  function U16(bytes: Bytes, at: nat): nat
    requires at + 2 <= |bytes|
  {
    var low: int := bytes[at];
    var high: int := bytes[at + 1];
    low + 256 * high
  }

  function CheckMimetypeRaw(bytes: Bytes): Result<(), OpenError> {
    if |bytes| < 30 || bytes[..4] != ZipMagic() then Err(NotZip)
    else
      var nameLen := U16(bytes, 26);
      var size := U16(bytes, 18) + 0x1_0000 * U16(bytes, 20);
      if |bytes| < 30 + nameLen then Err(NotZip)
      else if bytes[30..30 + nameLen] != MimetypeBytes() then Err(MimetypeNotFirst)
      else if U16(bytes, 8) != 0 || U16(bytes, 28) != 0 || (U16(bytes, 6) / 8) % 2 != 0 then Err(MimetypeNotStored)
      else if |bytes| < 30 + nameLen + size then Err(NotZip)
      else if bytes[30 + nameLen..30 + nameLen + size] != MediaType() then Err(MimetypeMismatch)
      else Ok(())
  }

  /**
   * Type detection is a plain scan of the first 62 bytes: they hold the name and the
   * media type at fixed offsets, and nothing after them matters.
   */
  lemma DetectedInFirstBytes(bytes: Bytes, other: Bytes)
    requires CheckMimetypeRaw(bytes).Ok?
    ensures |bytes| >= 62 && bytes[30..38] == MimetypeBytes() && bytes[38..62] == MediaType()
    ensures |other| >= 62 && other[..62] == bytes[..62] ==> CheckMimetypeRaw(other).Ok?
  {
    var nameLen := U16(bytes, 26);
    var size := U16(bytes, 18) + 0x1_0000 * U16(bytes, 20);
    assert |bytes[30..30 + nameLen]| == 8 && |bytes[38..38 + size]| == 24;
    assert bytes[30..38] == MimetypeBytes() && bytes[38..62] == MediaType();
    hide MimetypeBytes, MediaType, ZipMagic;
    if |other| >= 62 && other[..62] == bytes[..62] {
      assert forall k :: 0 <= k < 62 ==> other[k] == other[..62][k] == bytes[..62][k] == bytes[k];
      assert other[..4] == bytes[..4] && other[30..38] == bytes[30..38] && other[38..62] == bytes[38..62];
    }
  }

  /** The header it demands: unflagged, stored, without an extra field, of a file `mimetype` with the media type in it. */
  lemma DetectsExactly(bytes: Bytes)
    ensures CheckMimetypeRaw(bytes).Ok? <==>
            && |bytes| >= 62 && bytes[..4] == Ascii("PK") + [3, 4]
            && bytes[6] / 8 % 2 == 0 && bytes[8..10] == [0, 0]
            && bytes[18..22] == [24, 0, 0, 0] && bytes[26..30] == [8, 0, 0, 0]
            && bytes[30..38] == Ascii("mimetype") && bytes[38..62] == Ascii("application/vnd.poid+zip")
  {
    hide MimetypeBytes, MediaType, ZipMagic, Ascii;
    HeaderTexts();
    if CheckMimetypeRaw(bytes).Ok? {
      HeaderDemanded(bytes);
    }
    if |bytes| >= 62 && bytes[18..22] == [24, 0, 0, 0] && bytes[26..30] == [8, 0, 0, 0] && bytes[8..10] == [0, 0] {
      HeaderNumbers(bytes);
    }
  }

  lemma HeaderDemanded(bytes: Bytes)
    requires CheckMimetypeRaw(bytes).Ok? && |MimetypeBytes()| == 8 && |MediaType()| == 24
    ensures |bytes| >= 62 && bytes[..4] == ZipMagic() && bytes[30..38] == MimetypeBytes() && bytes[38..62] == MediaType()
    ensures bytes[6] / 8 % 2 == 0 && bytes[8..10] == [0, 0] && bytes[18..22] == [24, 0, 0, 0] && bytes[26..30] == [8, 0, 0, 0]
  {
    hide MimetypeBytes, MediaType, ZipMagic;
    var nameLen := U16(bytes, 26);
    var size := U16(bytes, 18) + 0x1_0000 * U16(bytes, 20);
    assert |bytes[30..30 + nameLen]| == 8 && |bytes[38..38 + size]| == 24;
  }

  lemma HeaderNumbers(bytes: Bytes)
    requires |bytes| >= 62
    requires bytes[18..22] == [24, 0, 0, 0] && bytes[26..30] == [8, 0, 0, 0] && bytes[8..10] == [0, 0]
    ensures U16(bytes, 26) == 8 && U16(bytes, 28) == 0 && U16(bytes, 18) == 24 && U16(bytes, 20) == 0 && U16(bytes, 8) == 0
  {
    var sizes, lengths, kind := bytes[18..22], bytes[26..30], bytes[8..10];
    assert bytes[18] == sizes[0] && bytes[19] == sizes[1] && bytes[20] == sizes[2] && bytes[21] == sizes[3];
    assert bytes[26] == lengths[0] && bytes[27] == lengths[1] && bytes[28] == lengths[2] && bytes[29] == lengths[3];
    assert bytes[8] == kind[0] && bytes[9] == kind[1];
  }

  lemma HeaderTexts()
    ensures ZipMagic() == Ascii("PK") + [3, 4] && |Ascii("mimetype")| == 8 && |Ascii("application/vnd.poid+zip")| == 24
    ensures MimetypeBytes() == Ascii("mimetype") && MediaType() == Ascii("application/vnd.poid+zip")
  {
  }

  // ------------------------------------------------------------- what it accepts

  /** How manifests are read, written and judged; JSON itself is not modelled. */
  datatype Codec = Codec(parse: Bytes -> Option<P.Manifest>, write: P.Manifest -> Option<Bytes>, valid: P.Manifest -> bool)

  datatype Opened = Opened(manifest: P.Manifest, files: Files)

  function AppsDir(): string { "apps/" }
  function SrcDir(): string { "src/" }

  predicate TypeRules(m: P.Manifest, files: Files) {
    match m.kind
    case Data =>
      Under(files, P.AppDir()) == [] && Under(files, SrcDir()) == [] && Under(files, P.DepsDir()) == []
    case App =>
      Under(files, P.AppDir()) != [] && (m.entry.Some? ==> Lookup(files, m.entry.value).Some?)
    case Workspace =>
      Under(files, P.AppDir()) != [] && Under(files, AppsDir()) != []
  }

  /** Some file lies under the directory. */
  predicate HasTree(files: Files, dir: string) {
    exists k :: 0 <= k < |files| && dir <= files[k].path
  }

  lemma {:induction false} HasTreeUnder(files: Files, dir: string)
    ensures HasTree(files, dir) <==> Under(files, dir) != []
  {
    if files != [] {
      HasTreeUnder(files[1..], dir);
      assert forall k :: 1 <= k < |files| ==> files[k] == files[1..][k - 1];
      assert forall k :: 0 <= k < |files| - 1 ==> files[1..][k] == files[k + 1];
    }
  }

  /** Data carries no code; an application has its tree and its entry point; a workspace has both trees. */
  lemma TypeRulesMean(m: P.Manifest, files: Files)
    requires Ordered(files)
    ensures TypeRules(m, files) <==>
            match m.kind
            case Data => !HasTree(files, "app/") && !HasTree(files, "src/") && !HasTree(files, "deps/")
            case App => HasTree(files, "app/") && (m.entry.Some? ==> HasPath(files, m.entry.value))
            case Workspace => HasTree(files, "app/") && HasTree(files, "apps/")
  {
    hide Under, HasTree, Lookup;
    HasTreeUnder(files, "app/");
    HasTreeUnder(files, "src/");
    HasTreeUnder(files, "deps/");
    HasTreeUnder(files, "apps/");
    if m.entry.Some? {
      if Lookup(files, m.entry.value).Some? {
        LookupFound(files, m.entry.value);
      }
      if HasPath(files, m.entry.value) {
        var k :| 0 <= k < |files| && files[k].path == m.entry.value;
        LookupAt(files, k);
      }
    }
  }

  function LowerChar(c: char): char {
    if 'A' <= c <= 'Z' then c + 32 as char else c
  }

  /** ASCII case folding, as a case-insensitive filesystem compares names. */
  function Fold(s: string): (r: string)
    ensures |r| == |s|
  {
    if s == "" then "" else [LowerChar(s[0])] + Fold(s[1..])
  }

  /** A letter of the Latin alphabet and the same letter in the other case. */
  predicate CasePair(a: char, b: char) {
    ('A' <= a <= 'Z' && b as int - a as int == 'a' as int - 'A' as int) ||
    ('A' <= b <= 'Z' && a as int - b as int == 'a' as int - 'A' as int)
  }

  /** Two names fold alike exactly if they differ at most in the case of Latin letters. */
  lemma {:induction false} FoldsAlike(s: string, t: string)
    ensures Fold(s) == Fold(t) <==>
            |s| == |t| && forall k :: 0 <= k < |s| ==> s[k] == t[k] || CasePair(s[k], t[k])
  {
    if s != "" && t != "" {
      FoldsAlike(s[1..], t[1..]);
      assert Fold(s)[0] == LowerChar(s[0]) && Fold(t)[0] == LowerChar(t[0]);
      assert Fold(s)[1..] == Fold(s[1..]) && Fold(t)[1..] == Fold(t[1..]);
      assert LowerChar(s[0]) == LowerChar(t[0]) <==> s[0] == t[0] || CasePair(s[0], t[0]);
      assert forall k :: 0 <= k < |s| - 1 ==> s[1..][k] == s[k + 1];
      assert forall k :: 1 <= k < |s| ==> s[k] == s[1..][k - 1];
      assert forall k :: 1 <= k < |t| ==> t[k] == t[1..][k - 1];
    }
  }

  function TrimSlashes(s: string): string {
    if s != "" && s[|s| - 1] == '/' then TrimSlashes(s[..|s| - 1]) else s
  }

  predicate CleanTop(e: Entry, limits: Limits) {
    && e.Entry? && e.utf8
    && (if e.isDir then TrimSlashes(e.name) == "" || GoodPath(TrimSlashes(e.name))
        else GoodPath(e.name) && !e.isSymlink && !e.special && !e.compression.Unsupported? &&
             e.stream.Some? && Readable(e.stream.value, e.compressed, limits))
  }

  /** An entry of the container itself, given the names seen before it. */
  ghost predicate AcceptableTop(e: Entry, seen: set<string>, limits: Limits, unzip: Unzip) {
    CleanTop(e, limits) && (IsFile(e) ==> Sound(Content(e), 1, limits, unzip) && Fold(e.name) !in seen)
  }

  function SeenNames(entries: seq<Entry>): set<string> {
    if entries == [] then {}
    else SeenNames(entries[..|entries| - 1]) +
         (if IsFile(entries[|entries| - 1]) then {Fold(entries[|entries| - 1].name)} else {})
  }

  ghost predicate AcceptableAll(entries: seq<Entry>, limits: Limits, unzip: Unzip) {
    entries == [] ||
    (AcceptableAll(entries[..|entries| - 1], limits, unzip) &&
     AcceptableTop(entries[|entries| - 1], SeenNames(entries[..|entries| - 1]), limits, unzip))
  }

  function TopEntryCost(e: Entry, limits: Limits, unzip: Unzip): nat {
    if IsFile(e) then |Content(e)| + Cost(Content(e), 1, limits, unzip) else 0
  }

  function TopCost(entries: seq<Entry>, limits: Limits, unzip: Unzip): nat {
    if entries == [] then 0
    else TopCost(entries[..|entries| - 1], limits, unzip) + TopEntryCost(entries[|entries| - 1], limits, unzip)
  }

  function Kept(files: Files, e: Entry): Files {
    if IsFile(e) && !Reserved(e.name) then Put(files, e.name, Content(e)) else files
  }

  function FilesOf(entries: seq<Entry>): Files {
    if entries == [] then [] else Kept(FilesOf(entries[..|entries| - 1]), entries[|entries| - 1])
  }

  function ManifestIndex(entries: seq<Entry>, from: nat): Option<nat>
    requires from <= |entries|
    decreases |entries| - from
  {
    if from == |entries| then None
    else if entries[from].Entry? && entries[from].name == ManifestName() then Some(from)
    else ManifestIndex(entries, from + 1)
  }

  predicate ManifestReadable(e: Entry, limits: Limits) {
    e.Entry? && !e.compression.Unsupported? && e.stream.Some? && Readable(e.stream.value, e.compressed, limits)
  }

  function ManifestEntry(entries: seq<Entry>): Entry {
    var k := ManifestIndex(entries, 0);
    if k.Some? && k.value < |entries| then entries[k.value] else Unreadable
  }

  /** The manifest an archive yields, whatever else it holds. */
  ghost predicate Declares(entries: seq<Entry>, m: P.Manifest, limits: Limits, codec: Codec) {
    var e := ManifestEntry(entries);
    ManifestReadable(e, limits) && codec.parse(Content(e)) == Some(m) && codec.valid(m)
  }

  /** Exactly the archives the reader accepts, with what it returns; the manifest is paid for twice. */
  ghost predicate Opens(bytes: Bytes, limits: Limits, unzip: Unzip, codec: Codec, o: Opened) {
    && CheckMimetypeRaw(bytes).Ok? && unzip(bytes).Some?
    && var entries := unzip(bytes).value;
       && |entries| <= limits.maxEntries
       && Declares(entries, o.manifest, limits, codec)
       && AcceptableAll(entries, limits, unzip)
       && |Content(ManifestEntry(entries))| + TopCost(entries, limits, unzip) <= limits.total
       && o.files == FilesOf(entries)
       && TypeRules(o.manifest, o.files)
  }

  // ------------------------------------------------------------------ the reader

  method ReadManifest(entries: seq<Entry>, limits: Limits, codec: Codec, budget: nat)
    returns (r: Result<P.Manifest, OpenError>, left: nat)
    ensures r.Ok? ==> Declares(entries, r.value, limits, codec) && |Content(ManifestEntry(entries))| <= budget &&
                      left == budget - |Content(ManifestEntry(entries))|
    ensures r.Err? ==> forall m :: Declares(entries, m, limits, codec) ==> |Content(ManifestEntry(entries))| > budget
  {
    left := budget;
    var e := ManifestEntry(entries);
    if e.Unreadable? { return Err(ManifestMissing), left; }
    if e.compression.Unsupported? { return Err(Scanned(UnsupportedCompression)), left; }
    if e.stream.None? { return Err(Scanned(CorruptEntry)), left; }
    var content;
    content, left := ReadLimited(e.stream.value, e.compressed, limits, left);
    if content.Err? { return Err(Scanned(content.error)), left; }
    var m := codec.parse(content.value);
    if m.None? || !codec.valid(m.value) { return Err(ManifestInvalid), left; }
    return Ok(m.value), left;
  }

  method ReadEntry(e: Entry, seen: set<string>, limits: Limits, unzip: Unzip, budget: nat)
    returns (r: Result<(), OpenError>, left: nat)
    ensures r.Ok? <==> AcceptableTop(e, seen, limits, unzip) && TopEntryCost(e, limits, unzip) <= budget
    ensures r.Ok? ==> left == budget - TopEntryCost(e, limits, unzip)
  {
    hide Sound, Cost, Flatten, TrimSlashes, GoodPath, Fold;
    left := budget;
    if e.Unreadable? { return Err(Scanned(CorruptEntry)), left; }
    if !e.utf8 { return Err(Scanned(BadPath)), left; }
    if e.isDir {
      var trimmed := TrimSlashes(e.name);
      if trimmed != "" {
        var path := CheckContainerPath(trimmed);
        if path.Err? { return Err(Scanned(BadPath)), left; }
      }
      return Ok(()), left;
    }
    var path := CheckContainerPath(e.name);
    if path.Err? { return Err(Scanned(BadPath)), left; }
    if e.isSymlink || e.special { return Err(Scanned(Link)), left; }
    if e.compression.Unsupported? { return Err(Scanned(UnsupportedCompression)), left; }
    if e.stream.None? { return Err(Scanned(CorruptEntry)), left; }
    var content;
    content, left := ReadLimited(e.stream.value, e.compressed, limits, left);
    if content.Err? { return Err(Scanned(content.error)), left; }
    var scanned;
    scanned, left := ScanContent(content.value, 1, limits, unzip, left);
    if scanned.Err? { return Err(Scanned(scanned.error)), left; }
    if Fold(e.name) in seen { return Err(DuplicatePath), left; }
    return Ok(()), left;
  }

  lemma {:induction false} TopPrefix(entries: seq<Entry>, i: nat, limits: Limits, unzip: Unzip)
    requires i < |entries|
    ensures AcceptableAll(entries[..i + 1], limits, unzip) <==>
            AcceptableAll(entries[..i], limits, unzip) &&
            AcceptableTop(entries[i], SeenNames(entries[..i]), limits, unzip)
    ensures TopCost(entries[..i + 1], limits, unzip) ==
            TopCost(entries[..i], limits, unzip) + TopEntryCost(entries[i], limits, unzip)
    ensures AcceptableAll(entries, limits, unzip) ==> AcceptableAll(entries[..i + 1], limits, unzip)
    ensures TopCost(entries[..i + 1], limits, unzip) <= TopCost(entries, limits, unzip)
    decreases |entries|
  {
    hide AcceptableTop, TopEntryCost, SeenNames;
    assert entries[..i + 1][..i] == entries[..i];
    var last := |entries| - 1;
    if i == last {
      assert entries[..i + 1] == entries;
    } else {
      TopPrefix(entries[..last], i, limits, unzip);
      assert entries[..last][..i] == entries[..i] && entries[..last][..i + 1] == entries[..i + 1];
    }
  }

  /** Scans every entry, keeping the files; the manifest's own entry is read once more here. */
  method ReadAll(entries: seq<Entry>, limits: Limits, unzip: Unzip, budget: nat)
    returns (r: Result<Files, OpenError>, left: nat)
    ensures r.Ok? <==> AcceptableAll(entries, limits, unzip) && TopCost(entries, limits, unzip) <= budget
    ensures r.Ok? ==> r.value == FilesOf(entries) && left == budget - TopCost(entries, limits, unzip)
  {
    hide AcceptableTop, TopEntryCost, Kept, Fold;
    var files: Files := [];
    var seen: set<string> := {};
    left := budget;
    var i := 0;
    while i < |entries|
      invariant i <= |entries| && left <= budget
      invariant seen == SeenNames(entries[..i]) && files == FilesOf(entries[..i])
      invariant AcceptableAll(entries[..i], limits, unzip)
      invariant TopCost(entries[..i], limits, unzip) == budget - left
    {
      TopPrefix(entries, i, limits, unzip);
      assert entries[..i + 1][..i] == entries[..i];
      var e, step := entries[i], Ok(());
      step, left := ReadEntry(e, seen, limits, unzip, left);
      if step.Err? { return Err(step.error), left; }
      if IsFile(e) {
        seen := seen + {Fold(e.name)};
      }
      files := Kept(files, e);
      i := i + 1;
    }
    assert entries[..i] == entries;
    return Ok(files), left;
  }

  /** The bytes are an archive, and no entry of it has this name. */
  predicate Lacks(archive: Option<seq<Entry>>, name: string) {
    archive.Some? && forall k :: 0 <= k < |archive.value| ==> archive.value[k].Entry? ==> archive.value[k].name != name
  }

  /** Accepts exactly what `Opens` describes, and returns it. A header without a `mimetype` is told from a misplaced one. */
  method OpenWithLimits(bytes: Bytes, limits: Limits, unzip: Unzip, codec: Codec)
    returns (r: Result<Opened, OpenError>)
    ensures r.Ok? ==> Opens(bytes, limits, unzip, codec, r.value)
    ensures r.Err? ==> forall o :: !Opens(bytes, limits, unzip, codec, o)
    ensures var raw := CheckMimetypeRaw(bytes);
            raw.Err? ==> r == Err(if raw.error.MimetypeNotFirst? && Lacks(unzip(bytes), MimetypeName()) then MimetypeMissing
                                  else raw.error)
  {
    hide CheckMimetypeRaw, Declares, AcceptableAll, TopCost, FilesOf, TypeRules, ManifestEntry, Content;
    var raw := CheckMimetypeRaw(bytes);
    if raw.Err? {
      var archive := unzip(bytes);
      if raw.error.MimetypeNotFirst? && Lacks(archive, MimetypeName()) {
        return Err(MimetypeMissing);
      }
      return Err(raw.error);
    }
    var archive := unzip(bytes);
    if archive.None? { return Err(NotZip); }
    var entries := archive.value;
    if |entries| > limits.maxEntries { return Err(Scanned(TooManyEntries)); }
    var manifest, left := ReadManifest(entries, limits, codec, limits.total);
    if manifest.Err? { return Err(manifest.error); }
    var m := manifest.value;
    var files;
    files, left := ReadAll(entries, limits, unzip, left);
    if files.Err? { return Err(files.error); }
    if !TypeRules(m, files.value) {
      forall o | Opens(bytes, limits, unzip, codec, o) ensures false {
        OneManifest(entries, m, o.manifest, limits, codec);
      }
      return Err(TypeRule);
    }
    return Ok(Opened(m, files.value));
  }

  lemma OneManifest(entries: seq<Entry>, m: P.Manifest, other: P.Manifest, limits: Limits, codec: Codec)
    requires Declares(entries, m, limits, codec) && Declares(entries, other, limits, codec)
    ensures other == m
  {
  }

  // ---------------------------------------------------------- what opening promises

  /** Every file kept was scanned. */
  lemma {:induction false} FilesAreSound(entries: seq<Entry>, f: File<Bytes>, limits: Limits, unzip: Unzip)
    requires AcceptableAll(entries, limits, unzip) && f in FilesOf(entries)
    ensures Sound(f.content, 1, limits, unzip)
    decreases |entries|
  {
    hide CleanTop, Sound, Content, Fold, Reserved, Put;
    var init, e := entries[..|entries| - 1], entries[|entries| - 1];
    if f in FilesOf(init) {
      FilesAreSound(init, f, limits, unzip);
    } else {
      PutPaths(FilesOf(init), e.name, Content(e));
    }
  }

  lemma WithinCost(outer: Bytes, inner: Bytes, levels: nat, limits: Limits, unzip: Unzip)
    requires Sound(outer, 1, limits, unzip) && Reaches(outer, inner, levels, unzip)
    ensures |inner| <= |outer| + Cost(outer, 1, limits, unzip)
  {
    hide Sound, Cost;
    if levels > 0 {
      ReachedIsPaid(outer, inner, levels, 1, limits, unzip);
    }
  }

  /** Every file kept was paid for, with all that is nested in it. */
  lemma {:induction false} FilesArePaid(entries: seq<Entry>, f: File<Bytes>, limits: Limits, unzip: Unzip)
    requires f in FilesOf(entries)
    ensures |f.content| + Cost(f.content, 1, limits, unzip) <= TopCost(entries, limits, unzip)
    decreases |entries|
  {
    hide Cost, Content, Reserved, Put;
    var init, e := entries[..|entries| - 1], entries[|entries| - 1];
    if f in FilesOf(init) {
      FilesArePaid(init, f, limits, unzip);
    } else {
      PutPaths(FilesOf(init), e.name, Content(e));
    }
  }

  /**
   * Whatever can be reached through nested archives of any file of an opened container
   * carries no executable magic, lies within the depth limit, is no larger than the whole
   * budget, and, if it is an archive, holds clean entries only.
   */
  lemma OpenedHidesNothing(bytes: Bytes, limits: Limits, unzip: Unzip, codec: Codec, o: Opened,
                           f: File<Bytes>, inner: Bytes, levels: nat)
    requires Opens(bytes, limits, unzip, codec, o) && f in o.files && Reaches(f.content, inner, levels, unzip)
    ensures !Executable(inner) && |inner| <= limits.total
    ensures Nested(inner, unzip).Some? ==>
              && 1 + levels < limits.maxDepth && |Nested(inner, unzip).value| <= limits.maxEntries
              && forall e :: e in Nested(inner, unzip).value ==> CleanNested(e, limits)
  {
    hide CheckMimetypeRaw, Declares, AcceptableAll, TopCost, FilesOf, TypeRules, Executable, Sound, Reaches, CleanNested;
    FilesAreSound(unzip(bytes).value, f, limits, unzip);
    NothingHidden(f.content, inner, levels, 1, limits, unzip);
    FilesArePaid(unzip(bytes).value, f, limits, unzip);
    WithinCost(f.content, inner, levels, limits, unzip);
  }
}
