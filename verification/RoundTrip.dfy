/**
 * Packing and opening are inverse, exactly when the container fits the limits the
 * writer leaves unchecked.
 */
module RoundTrip {
  import opened Wrappers
  import opened Texts
  import opened ContainerPath
  import opened FileTree
  import opened Scan
  import opened Container
  import opened Packing
  import P = Poid
  import L = PoidLaws

  // ------------------------------------------------------------- reserved entries

  lemma {:induction false} NoSeparator(s: string, c: char)
    requires c !in s
    ensures Pieces(s, c) == [s]
  {
    if s != "" {
      NoSeparator(s[1..], c);
      assert [s[0]] + s[1..] == s;
    }
  }

  lemma PlainName(s: string)
    requires |s| > 2 && '/' !in s && '\0' !in s && '\\' !in s && s[1] != ':'
    ensures GoodPath(s)
  {
    NoSeparator(s, '/');
  }

  lemma ReservedNames()
    ensures GoodPath(MimetypeName()) && GoodPath(ManifestName())
    ensures MimetypeName() != ManifestName() && Fold(MimetypeName()) != Fold(ManifestName())
  {
    var a, b := MimetypeName(), ManifestName();
    assert |a| == 8 && |b| == 13;
    hide GoodPath, Fold;
    PlainName(a);
    PlainName(b);
  }

  /** Text and JSON openings are neither executables nor archives. */
  lemma PlainStart(content: Bytes, limits: Limits, unzip: Unzip)
    requires content != [] && (content[0] == 0x61 || content[0] == 0x7b)
    ensures Sound(content, 1, limits, unzip) && Cost(content, 1, limits, unzip) == 0
  {
    assert !(ZipMagic() <= content);
    assert !Executable(content);
  }

  // --------------------------------------------------------------- one entry read back

  predicate Sized(e: Entry) {
    WithinRatio(|Content(e)|, EntrySize(e), Defaults)
  }

  lemma ReadBackEntry(e: Entry, w: Written, seen: set<string>, unzip: Unzip)
    requires Faithful(e, w) && GoodPath(w.name) && Sound(w.content, 1, Defaults, unzip)
    ensures IsFile(e) && Content(e) == w.content && e.name == w.name
    ensures AcceptableTop(e, seen, Defaults, unzip) <==> Sized(e) && Fold(w.name) !in seen
    ensures TopEntryCost(e, Defaults, unzip) == |w.content| + Cost(w.content, 1, Defaults, unzip)
  {
    hide Sound, Cost, GoodPath, Fold, TrimSlashes, WithinRatio;
  }

  // ------------------------------------------------------------ all the entries read back

  ghost predicate Setting(json: Bytes, files: Files, entries: seq<Entry>, unzip: Unzip) {
    && Built(files) && FoldsApart(files) && AllSound(files, unzip)
    && json != [] && json[0] == 0x7b
    && ReadBack(ToWrite(json, files), entries)
  }

  /** One more file entry, seen through every fold over the entries. */
  lemma Extended(entries: seq<Entry>, n: nat, unzip: Unzip)
    requires n < |entries| && IsFile(entries[n])
    ensures var now, before, e := entries[..n + 1], entries[..n], entries[n];
            && SeenNames(now) == SeenNames(before) + {Fold(e.name)}
            && FilesOf(now) == Kept(FilesOf(before), e)
            && TopCost(now, Defaults, unzip) == TopCost(before, Defaults, unzip) + TopEntryCost(e, Defaults, unzip)
            && (AcceptableAll(now, Defaults, unzip) <==>
                  AcceptableAll(before, Defaults, unzip) && AcceptableTop(e, SeenNames(before), Defaults, unzip))
  {
    hide AcceptableTop, TopEntryCost, Kept, Fold;
    assert entries[..n + 1][..n] == entries[..n];
  }

  /** One of the two generated entries, as the reader meets it. */
  ghost predicate Generated(e: Entry, name: string, content: Bytes, unzip: Unzip) {
    && IsFile(e) && e.name == name && Content(e) == content
    && (forall seen :: AcceptableTop(e, seen, Defaults, unzip) <==> Sized(e) && Fold(name) !in seen)
    && TopEntryCost(e, Defaults, unzip) == |content|
  }

  lemma GeneratedEntry(e: Entry, w: Written, unzip: Unzip)
    requires Faithful(e, w) && GoodPath(w.name)
    requires Sound(w.content, 1, Defaults, unzip) && Cost(w.content, 1, Defaults, unzip) == 0
    ensures Generated(e, w.name, w.content, unzip)
  {
    hide Sound, Cost, Fold, AcceptableTop, TopEntryCost, GoodPath, Faithful, Content, IsFile;
    forall seen ensures AcceptableTop(e, seen, Defaults, unzip) <==> Sized(e) && Fold(w.name) !in seen {
      ReadBackEntry(e, w, seen, unzip);
    }
    ReadBackEntry(e, w, {}, unzip);
  }

  lemma HeadParts(json: Bytes, files: Files, entries: seq<Entry>, unzip: Unzip)
    requires Setting(json, files, entries, unzip)
    ensures |entries| == |files| + 2
    ensures Generated(entries[0], MimetypeName(), MediaType(), unzip)
    ensures Generated(entries[1], ManifestName(), json, unzip)
  {
    var ws := ToWrite(json, files);
    assert Faithful(entries[0], ws[0]) && Faithful(entries[1], ws[1]);
    assert MediaType()[0] == 0x61;
    hide MediaType, Sound, Cost, MimetypeName, ManifestName, Setting, GoodPath, Faithful, Generated, ReadBack;
    PlainStart(MediaType(), Defaults, unzip);
    PlainStart(json, Defaults, unzip);
    ReservedNames();
    GeneratedEntry(entries[0], ws[0], unzip);
    GeneratedEntry(entries[1], ws[1], unzip);
  }

  lemma HeadManifest(json: Bytes, files: Files, entries: seq<Entry>, unzip: Unzip)
    requires Setting(json, files, entries, unzip)
    ensures |entries| == |files| + 2 && ManifestEntry(entries) == entries[1]
  {
    ReservedNames();
    HeadParts(json, files, entries, unzip);
    hide Setting, MimetypeName, ManifestName, Fold;
    assert ManifestIndex(entries, 1) == Some(1);
    assert ManifestIndex(entries, 0) == Some(1);
  }

  lemma NoEntries(entries: seq<Entry>, unzip: Unzip)
    ensures SeenNames(entries[..0]) == {} && FilesOf(entries[..0]) == []
    ensures TopCost(entries[..0], Defaults, unzip) == 0 && AcceptableAll(entries[..0], Defaults, unzip)
  {
  }

  lemma FirstEntry(json: Bytes, files: Files, entries: seq<Entry>, unzip: Unzip)
    requires Setting(json, files, entries, unzip)
    ensures |entries| == |files| + 2
    ensures SeenNames(entries[..1]) == {Fold(MimetypeName())} && FilesOf(entries[..1]) == []
    ensures AcceptableAll(entries[..1], Defaults, unzip) <==> Sized(entries[0])
    ensures TopCost(entries[..1], Defaults, unzip) == |MediaType()|
  {
    HeadParts(json, files, entries, unzip);
    hide Setting, MediaType, Fold, MimetypeName, ManifestName, AcceptableTop, TopEntryCost, Sized, Content, IsFile;
    hide SeenNames, FilesOf, TopCost, AcceptableAll;
    NoEntries(entries, unzip);
    Extended(entries, 0, unzip);
  }

  lemma HeadNames(json: Bytes, files: Files, entries: seq<Entry>, unzip: Unzip)
    requires Setting(json, files, entries, unzip)
    ensures |entries| == |files| + 2
    ensures SeenNames(entries[..2]) == {Fold(MimetypeName()), Fold(ManifestName())} && FilesOf(entries[..2]) == []
  {
    hide Setting, MediaType, Fold, MimetypeName, ManifestName, AcceptableTop, TopEntryCost, Content, IsFile;
    hide SeenNames, FilesOf, TopCost, AcceptableAll;
    HeadParts(json, files, entries, unzip);
    FirstEntry(json, files, entries, unzip);
    assert Kept([], entries[1]) == [];
    hide Kept;
    Extended(entries, 1, unzip);
  }

  lemma HeadAccepted(json: Bytes, files: Files, entries: seq<Entry>, unzip: Unzip)
    requires Setting(json, files, entries, unzip)
    ensures |entries| == |files| + 2
    ensures AcceptableAll(entries[..2], Defaults, unzip) <==> Sized(entries[0]) && Sized(entries[1])
    ensures TopCost(entries[..2], Defaults, unzip) == |MediaType()| + |json|
  {
    hide Setting, MediaType, Fold, MimetypeName, ManifestName, AcceptableTop, TopEntryCost, Sized, Content, IsFile;
    hide SeenNames, FilesOf, TopCost, AcceptableAll, GoodPath, Kept;
    ReservedNames();
    HeadParts(json, files, entries, unzip);
    FirstEntry(json, files, entries, unzip);
    Extended(entries, 1, unzip);
  }

  /** An ordered tree grows at its end. */
  lemma {:induction false} PutLast<C>(t: seq<File<C>>, f: File<C>)
    requires Ordered(t + [f])
    ensures Put(t, f.path, f.content) == t + [f]
  {
    if t != [] {
      assert (t + [f])[0] == t[0] && (t + [f])[|t|] == f;
      LessStrict(t[0].path, f.path);
      assert (t + [f])[1..] == t[1..] + [f];
      PutLast(t[1..], f);
    }
  }

  ghost predicate GoodFiles(files: Files, entries: seq<Entry>, n: nat)
    requires n <= |files| && |entries| == |files| + 2
  {
    && (forall k :: 0 <= k < n + 2 ==> Sized(entries[k]))
    && (forall k :: 0 <= k < n ==> !FoldsReserved(files[k].path))
  }

  ghost predicate SeenSoFar(files: Files, n: nat, seen: set<string>)
    requires n <= |files|
  {
    forall s :: s in seen <==>
      s == Fold(MimetypeName()) || s == Fold(ManifestName()) || exists k :: 0 <= k < n && s == Fold(files[k].path)
  }

  lemma StepEntry(json: Bytes, files: Files, entries: seq<Entry>, n: nat, unzip: Unzip)
    requires Setting(json, files, entries, unzip) && n < |files|
    ensures |entries| == |files| + 2
    ensures var e, f := entries[n + 2], files[n];
            && IsFile(e) && e.name == f.path && Content(e) == f.content && !Reserved(f.path)
            && TopEntryCost(e, Defaults, unzip) == |f.content| + Cost(f.content, 1, Defaults, unzip)
            && forall seen :: SeenSoFar(files, n, seen) ==>
                 (AcceptableTop(e, seen, Defaults, unzip) <==> Sized(e) && !FoldsReserved(f.path))
  {
    var e, f, ws := entries[n + 2], files[n], ToWrite(json, files);
    hide FileEntries, Sound, Cost, Fold, MimetypeName, ManifestName, MediaType, GoodPath;
    assert ws[n + 2] == Written(f.path, true, f.content);
    assert Faithful(e, ws[n + 2]);
    hide Faithful, AcceptableTop, TopEntryCost, Ordered, Content;
    forall seen | SeenSoFar(files, n, seen)
      ensures AcceptableTop(e, seen, Defaults, unzip) <==> Sized(e) && !FoldsReserved(f.path) {
      ReadBackEntry(e, ws[n + 2], seen, unzip);
      assert Fold(f.path) in seen <==> FoldsReserved(f.path);
    }
    ReadBackEntry(e, ws[n + 2], {}, unzip);
  }

  /** Everything the folds over the first entries amount to, in terms of the files written. */
  ghost predicate Summary(json: Bytes, files: Files, entries: seq<Entry>, n: nat, unzip: Unzip)
    requires n <= |files| && |entries| == |files| + 2
  {
    var prefix := entries[..n + 2];
    && SeenSoFar(files, n, SeenNames(prefix))
    && (AcceptableAll(prefix, Defaults, unzip) <==> GoodFiles(files, entries, n))
    && TopCost(prefix, Defaults, unzip) == |MediaType()| + |json| + PlainSize(files[..n]) + NestedCost(files[..n], unzip)
    && FilesOf(prefix) == files[..n]
  }

  lemma SummaryStart(json: Bytes, files: Files, entries: seq<Entry>, unzip: Unzip)
    requires Setting(json, files, entries, unzip)
    ensures |entries| == |files| + 2 && Summary(json, files, entries, 0, unzip)
  {
    hide Setting, Fold, Cost, MediaType, MimetypeName, ManifestName, FoldsReserved, Reserved, Sized;
    hide SeenNames, FilesOf, TopCost, AcceptableAll;
    HeadNames(json, files, entries, unzip);
    HeadAccepted(json, files, entries, unzip);
  }

  lemma SummaryCosts(json: Bytes, files: Files, entries: seq<Entry>, n: nat, unzip: Unzip)
    requires Setting(json, files, entries, unzip) && n < |files| && |entries| == |files| + 2
    requires Summary(json, files, entries, n, unzip)
    ensures TopCost(entries[..n + 3], Defaults, unzip) ==
            |MediaType()| + |json| + PlainSize(files[..n + 1]) + NestedCost(files[..n + 1], unzip)
  {
    StepEntry(json, files, entries, n, unzip);
    assert files[..n + 1][..n] == files[..n];
    hide Setting, Fold, Cost, MediaType, FoldsReserved, Reserved, Sized, SeenSoFar, GoodFiles;
    hide SeenNames, FilesOf, TopCost, AcceptableAll, AcceptableTop, TopEntryCost, IsFile, Content;
    Extended(entries, n + 2, unzip);
  }

  lemma PutNext(json: Bytes, files: Files, entries: seq<Entry>, n: nat, unzip: Unzip)
    requires Setting(json, files, entries, unzip) && n < |files| && |entries| == |files| + 2
    ensures IsFile(entries[n + 2]) && Kept(files[..n], entries[n + 2]) == files[..n + 1]
  {
    assert Ordered(files);
    hide Setting, Fold, Cost, Reserved, AcceptableTop, TopEntryCost, Content, IsFile, Sized, Put;
    StepEntry(json, files, entries, n, unzip);
    assert files[..n + 1] == files[..n] + [files[n]];
    PutLast(files[..n], files[n]);
  }

  lemma SummaryFiles(json: Bytes, files: Files, entries: seq<Entry>, n: nat, unzip: Unzip)
    requires Setting(json, files, entries, unzip) && n < |files| && |entries| == |files| + 2
    requires Summary(json, files, entries, n, unzip)
    ensures FilesOf(entries[..n + 3]) == files[..n + 1]
  {
    PutNext(json, files, entries, n, unzip);
    hide Setting, Fold, Cost, MediaType, FoldsReserved, Reserved, Sized, SeenSoFar, GoodFiles, Put, PlainSize, NestedCost;
    hide SeenNames, FilesOf, TopCost, AcceptableAll, AcceptableTop, TopEntryCost, Content, IsFile;
    Extended(entries, n + 2, unzip);
  }

  lemma SummaryNames(json: Bytes, files: Files, entries: seq<Entry>, n: nat, unzip: Unzip)
    requires Setting(json, files, entries, unzip) && n < |files| && |entries| == |files| + 2
    requires Summary(json, files, entries, n, unzip)
    ensures SeenSoFar(files, n + 1, SeenNames(entries[..n + 3]))
    ensures AcceptableAll(entries[..n + 3], Defaults, unzip) <==> GoodFiles(files, entries, n + 1)
  {
    hide Setting, Fold, Cost, MediaType, MimetypeName, ManifestName, FoldsReserved, Reserved, Sized, Kept;
    hide SeenNames, FilesOf, TopCost, AcceptableAll, AcceptableTop, TopEntryCost, IsFile, Content, PlainSize, NestedCost;
    StepEntry(json, files, entries, n, unzip);
    Extended(entries, n + 2, unzip);
  }

  lemma {:induction false} Summarised(json: Bytes, files: Files, entries: seq<Entry>, n: nat, unzip: Unzip)
    requires Setting(json, files, entries, unzip) && n <= |files|
    ensures |entries| == |files| + 2 && Summary(json, files, entries, n, unzip)
  {
    hide Setting, SeenSoFar, GoodFiles, SeenNames, FilesOf, TopCost, AcceptableAll, MediaType, PlainSize, NestedCost;
    SummaryStart(json, files, entries, unzip);
    if n > 0 {
      Summarised(json, files, entries, n - 1, unzip);
      SummaryCosts(json, files, entries, n - 1, unzip);
      SummaryFiles(json, files, entries, n - 1, unzip);
      SummaryNames(json, files, entries, n - 1, unzip);
    }
  }

  lemma ReadBackAll(json: Bytes, files: Files, entries: seq<Entry>, unzip: Unzip)
    requires Setting(json, files, entries, unzip)
    ensures |entries| == |files| + 2
    ensures AcceptableAll(entries, Defaults, unzip) <==> GoodFiles(files, entries, |files|)
    ensures TopCost(entries, Defaults, unzip) == |MediaType()| + |json| + PlainSize(files) + NestedCost(files, unzip)
    ensures FilesOf(entries) == files
  {
    hide Setting, MediaType, AcceptableAll, TopCost, FilesOf, SeenNames, SeenSoFar, GoodFiles, PlainSize, NestedCost;
    Summarised(json, files, entries, |files|, unzip);
    assert entries[..|files| + 2] == entries && files[..|files|] == files;
  }

  lemma ReadBackManifest(json: Bytes, files: Files, entries: seq<Entry>, m: P.Manifest, unzip: Unzip, codec: Codec)
    requires Setting(json, files, entries, unzip)
    ensures |entries| == |files| + 2 && Content(ManifestEntry(entries)) == json
    ensures Declares(entries, m, Defaults, codec) <==>
            Sized(entries[1]) && codec.parse(json) == Some(m) && codec.valid(m)
  {
    var w := ToWrite(json, files)[1];
    assert Faithful(entries[1], w);
    hide Setting, Fold, Cost, MediaType, ManifestEntry, WithinRatio, AcceptableTop;
    HeadManifest(json, files, entries, unzip);
    HeadParts(json, files, entries, unzip);
  }

  /**
   * `bytes` were packed from `b`, and the libraries did their part: the archive lists what
   * was written, starts with the raw mimetype entry, and the manifest parses back.
   */
  ghost predicate Printed(b: Builder, bytes: Bytes, unzip: Unzip, zip: Zip, codec: Codec) {
    Built(b.files) && Packs(b, unzip, zip, codec, bytes) &&
    var m := Refreshed(b);
    var json := codec.write(m).value;
    && json != [] && json[0] == 0x7b && codec.parse(json) == Some(m)
    && StoresFirst(ToWrite(json, b.files), bytes)
    && unzip(bytes).Some? && ReadBack(ToWrite(json, b.files), unzip(bytes).value)
  }

  /**
   * A packed container opens again exactly when it fits, and then it yields the same
   * files and the manifest with its refreshed digests, nothing else.
   */
  lemma PackedOpens(b: Builder, bytes: Bytes, o: Opened, unzip: Unzip, zip: Zip, codec: Codec)
    requires Printed(b, bytes, unzip, zip, codec)
    ensures Opens(bytes, Defaults, unzip, codec, o) <==>
            && Fits(JsonOf(b, codec), b.files, EntriesIn(bytes, unzip), unzip)
            && o == Opened(Refreshed(b), b.files)
  {
    var m, entries, json := Refreshed(b), EntriesIn(bytes, unzip), JsonOf(b, codec);
    hide Printed, Setting, TypeRules, CheckMimetypeRaw, EntriesIn, JsonOf, Refreshed, PlainSize, NestedCost, Opens, Fits;
    PrintedParts(b, bytes, unzip, zip, codec);
    OpensExactly(json, b.files, entries, bytes, m, o, unzip, codec);
  }

  lemma OpensExactly(json: Bytes, files: Files, entries: seq<Entry>, bytes: Bytes, m: P.Manifest, o: Opened,
                        unzip: Unzip, codec: Codec)
    requires Setting(json, files, entries, unzip) && codec.parse(json) == Some(m) && codec.valid(m)
    requires CheckMimetypeRaw(bytes).Ok? && unzip(bytes) == Some(entries)
    requires TypeRules(m, files)
    ensures Opens(bytes, Defaults, unzip, codec, o) <==> Fits(json, files, entries, unzip) && o == Opened(m, files)
  {
    hide Setting, TypeRules, CheckMimetypeRaw, PlainSize, NestedCost;
    hide AcceptableAll, TopCost, FilesOf, FoldsReserved, MediaType, ManifestEntry, WithinRatio, Content, Declares;
    ReadBackAll(json, files, entries, unzip);
    ReadBackManifest(json, files, entries, o.manifest, unzip, codec);
  }

  function JsonOf(b: Builder, codec: Codec): Bytes {
    var json := codec.write(Refreshed(b));
    if json.Some? then json.value else []
  }

  function EntriesIn(bytes: Bytes, unzip: Unzip): seq<Entry> {
    var entries := unzip(bytes);
    if entries.Some? then entries.value else []
  }

  lemma PrintedParts(b: Builder, bytes: Bytes, unzip: Unzip, zip: Zip, codec: Codec)
    requires Printed(b, bytes, unzip, zip, codec)
    ensures var m, entries, json := Refreshed(b), EntriesIn(bytes, unzip), JsonOf(b, codec);
            && Setting(json, b.files, entries, unzip)
            && CheckMimetypeRaw(bytes).Ok? && unzip(bytes) == Some(entries)
            && codec.valid(m) && TypeRules(m, b.files) && codec.parse(json) == Some(m)
  {
    hide TypeRules, CheckMimetypeRaw, FoldsApart, AllSound, NestedCost, Built, ReadBack, ToWrite, StoresFirst;
    StartsWithHeader(JsonOf(b, codec), b.files, bytes);
  }

  /** So what the writer writes starts with the header type detection demands. */
  lemma StartsWithHeader(json: Bytes, files: Files, bytes: Bytes)
    requires StoresFirst(ToWrite(json, files), bytes)
    ensures CheckMimetypeRaw(bytes).Ok?
  {
    HeaderTexts();
    hide MimetypeBytes, MediaType, ZipMagic, Ascii, CheckMimetypeRaw;
    DetectsExactly(bytes);
    var first := ToWrite(json, files)[0];
    NameInAscii();
    assert |first.name| == 8 && |first.content| == 24;
  }

  lemma NameInAscii()
    ensures InAscii(MimetypeName()) && |MimetypeName()| == 8 && MimetypeName() == "mimetype"
  {
  }

  /** Refreshing digests twice is refreshing them once. */
  lemma RefreshTwice(m: P.Manifest, files: Files)
    ensures P.Refresh(P.Refresh(m, files), files) == P.Refresh(m, files)
  {
  }

  /** A container packed and opened again is the container after its repack step. */
  lemma ReopenedIsRepacked(c: P.Container, bytes: Bytes, o: Opened, unzip: Unzip, zip: Zip, codec: Codec)
    requires Printed(Builder(c.manifest, c.files), bytes, unzip, zip, codec) && Opens(bytes, Defaults, unzip, codec, o)
    ensures P.Container(o.manifest, o.files) == P.Apply(c, P.Repack)
  {
    hide Printed, Opens, Fits, Packs, Refreshed, JsonOf, EntriesIn, P.Refresh, P.Apply;
    PackedOpens(Builder(c.manifest, c.files), bytes, o, unzip, zip, codec);
    RepackStep(c);
  }

  lemma RepackStep(c: P.Container)
    ensures P.Apply(c, P.Repack) == P.Container(Refreshed(Builder(c.manifest, c.files)), c.files)
  {
    hide P.Refresh;
  }

  /** Packing what was opened gives the same bytes. */
  lemma RepackFixpoint(b: Builder, bytes: Bytes, o: Opened, unzip: Unzip, zip: Zip, codec: Codec)
    requires Printed(b, bytes, unzip, zip, codec) && Opens(bytes, Defaults, unzip, codec, o)
    ensures Packs(Builder(o.manifest, o.files), unzip, zip, codec, bytes)
  {
    RefreshTwice(b.manifest, b.files);
    assert P.Refresh(Refreshed(b), b.files) == Refreshed(b);
    hide Printed, Opens, Fits, Packs, Refreshed, JsonOf, EntriesIn, P.Refresh;
    PackedOpens(b, bytes, o, unzip, zip, codec);
    SamePack(b, Builder(o.manifest, o.files), bytes, unzip, zip, codec);
  }

  lemma SamePack(b: Builder, c: Builder, bytes: Bytes, unzip: Unzip, zip: Zip, codec: Codec)
    requires Printed(b, bytes, unzip, zip, codec)
    requires c.files == b.files && c.manifest == Refreshed(b) && P.Refresh(c.manifest, c.files) == c.manifest
    ensures Packs(c, unzip, zip, codec, bytes)
  {
    hide FoldsApart, AllSound, TypeRules, CheckMimetypeRaw, ReadBack, ToWrite, StoresFirst, Built, NestedCost, P.Refresh;
  }

  /** A container that holds a name folding to a reserved one never opens. */
  lemma FoldedNameNeverOpens(b: Builder, k: nat, bytes: Bytes, o: Opened, unzip: Unzip, zip: Zip, codec: Codec)
    requires Printed(b, bytes, unzip, zip, codec) && k < |b.files| && FoldsReserved(b.files[k].path)
    ensures !Opens(bytes, Defaults, unzip, codec, o)
  {
    hide Printed, Opens, FoldsReserved, JsonOf, EntriesIn, Refreshed, NestedCost, PlainSize, MediaType, WithinRatio, Content;
    PackedOpens(b, bytes, o, unzip, zip, codec);
  }

  function OtherCase(): string {
    "Mimetype"
  }

  lemma OtherCaseFolds()
    ensures GoodPath(OtherCase()) && !Reserved(OtherCase()) && FoldsReserved(OtherCase())
  {
    var path := OtherCase();
    assert |path| == 8 && path[0] == 'M' && '/' !in path && path[1..] == MimetypeName()[1..];
    assert MimetypeName()[0] == 'm' && |ManifestName()| == 13;
    hide GoodPath;
    PlainName(path);
    assert LowerChar('M') == 'm';
  }

  /**
   * The writer's claim that it never produces what the reader rejects is too strong:
   * a name that differs from a reserved one only in case is added without complaint,
   * and nothing packed from a builder that holds it can be opened.
   */
  lemma ReservedInOtherCase(b: Builder, content: Bytes, bytes: Bytes, o: Opened, unzip: Unzip, zip: Zip, codec: Codec)
    requires Built(b.files) && Lookup(b.files, OtherCase()).None?
    ensures AddFile(b, OtherCase(), content).Ok?
    ensures var b' := AddFile(b, OtherCase(), content).value;
            Printed(b', bytes, unzip, zip, codec) ==> !Opens(bytes, Defaults, unzip, codec, o)
  {
    OtherCaseFolds();
    hide OtherCase, GoodPath, Reserved, FoldsReserved, Printed, Opens, Built, Put;
    var b' := AddFile(b, OtherCase(), content).value;
    AddFileKeeps(b, OtherCase(), content);
    assert Lookup(b'.files, OtherCase()).Some?;
    LookupFound(b'.files, OtherCase());
    var k :| 0 <= k < |b'.files| && b'.files[k].path == OtherCase();
    if Printed(b', bytes, unzip, zip, codec) {
      FoldedNameNeverOpens(b', k, bytes, o, unzip, zip, codec);
    }
  }

  /** Hence a sealed container is still sealed after it has been packed and opened for real. */
  lemma ReopenedStaysSealed(c: P.Container, bytes: Bytes, o: Opened, key: nat, unzip: Unzip, zip: Zip, codec: Codec, blocks: P.Codec)
    requires Printed(Builder(c.manifest, c.files), bytes, unzip, zip, codec) && Opens(bytes, Defaults, unzip, codec, o)
    requires P.WellFormed(c) && P.Sealed(c, key, blocks)
    ensures P.Sealed(P.Container(o.manifest, o.files), key, blocks)
  {
    hide Printed, Opens, P.Apply, P.Sealed, P.WellFormed;
    ReopenedIsRepacked(c, bytes, o, unzip, zip, codec);
    L.StepKeepsSeal(c, P.Repack, key, blocks);
  }
}
