/**
 * The container writer as the printer of the reader: what packing promises, and
 * exactly which packed containers open again.
 */
module Packing {
  import opened Wrappers
  import opened Texts
  import opened ContainerPath
  import opened FileTree
  import opened Scan
  import opened Container
  import P = Poid

  datatype Builder = Builder(manifest: P.Manifest, files: Files)

  datatype PackError = BadName | ReservedName | DuplicateName | Prohibited(error: Error) | BadManifest | BrokenRule | WriteFailed

  /** One `start_file` and the bytes written to it. */
  datatype Written = Written(name: string, deflate: bool, content: Bytes)

  type Zip = seq<Written> -> Option<Bytes>

  ghost predicate Built(files: Files) {
    Ordered(files) && forall k :: 0 <= k < |files| ==> GoodPath(files[k].path) && !Reserved(files[k].path)
  }

  // -------------------------------------------------------------------- building

  function AddFile(b: Builder, path: string, content: Bytes): Result<Builder, PackError> {
    if !GoodPath(path) then Err(BadName)
    else if Reserved(path) then Err(ReservedName)
    else if Lookup(b.files, path).Some? then Err(DuplicateName)
    else Ok(b.(files := Put(b.files, path, content)))
  }

  lemma AddFileKeeps(b: Builder, path: string, content: Bytes)
    requires Built(b.files) && AddFile(b, path, content).Ok?
    ensures var b' := AddFile(b, path, content).value;
            && Built(b'.files) && b'.manifest == b.manifest
            && forall p :: Lookup(b'.files, p) == if p == path then Some(content) else Lookup(b.files, p)
  {
    hide Reserved, GoodPath, Ordered;
    PutOrdered(b.files, path, content);
    PutPaths(b.files, path, content);
    forall p ensures Lookup(Put(b.files, path, content), p) == if p == path then Some(content) else Lookup(b.files, p) {
      LookupPut(b.files, path, content, p);
    }
    var t := Put(b.files, path, content);
    forall k | 0 <= k < |t| ensures GoodPath(t[k].path) && !Reserved(t[k].path) {
      assert t[k] in t;
    }
  }

  /** The order in which files are added cannot be seen in the container. */
  lemma AddOrderIrrelevant(b: Builder, p: string, c: Bytes, q: string, d: Bytes)
    requires Built(b.files) && p != q
    requires AddFile(b, p, c).Ok? && AddFile(AddFile(b, p, c).value, q, d).Ok?
    ensures AddFile(b, q, d).Ok? && AddFile(AddFile(b, q, d).value, p, c).Ok?
    ensures AddFile(AddFile(b, p, c).value, q, d) == AddFile(AddFile(b, q, d).value, p, c)
  {
    AddFileKeeps(b, p, c);
    AddFileKeeps(AddFile(b, p, c).value, q, d);
    AddFileKeeps(b, q, d);
    AddFileKeeps(AddFile(b, q, d).value, p, c);
    hide Reserved, GoodPath, Lookup;
    SameLookups(AddFile(AddFile(b, p, c).value, q, d).value.files, AddFile(AddFile(b, q, d).value, p, c).value.files);
  }

  // --------------------------------------------------------------------- packing

  ghost predicate FoldsApart(files: Files) {
    forall i, j :: 0 <= i < j < |files| ==> Fold(files[i].path) != Fold(files[j].path)
  }

  ghost predicate AllSound(files: Files, unzip: Unzip) {
    forall k :: 0 <= k < |files| ==> Sound(files[k].content, 1, Defaults, unzip)
  }

  /** Bytes nested in the files: all the writer charges to its budget. */
  function NestedCost(files: Files, unzip: Unzip): nat {
    if files == [] then 0
    else NestedCost(files[..|files| - 1], unzip) + Cost(files[|files| - 1].content, 1, Defaults, unzip)
  }

  function PlainSize(files: Files): nat {
    if files == [] then 0 else PlainSize(files[..|files| - 1]) + |files[|files| - 1].content|
  }

  function FileEntries(files: Files): (ws: seq<Written>)
    ensures |ws| == |files|
    ensures forall k :: 0 <= k < |files| ==> ws[k] == Written(files[k].path, true, files[k].content)
  {
    if files == [] then []
    else FileEntries(files[..|files| - 1]) + [Written(files[|files| - 1].path, true, files[|files| - 1].content)]
  }

  function ToWrite(json: Bytes, files: Files): seq<Written> {
    [Written(MimetypeName(), false, MediaType()), Written(ManifestName(), true, json)] + FileEntries(files)
  }

  function Refreshed(b: Builder): P.Manifest {
    P.Refresh(b.manifest, b.files)
  }

  ghost predicate Packable(b: Builder, unzip: Unzip, codec: Codec) {
    var m := Refreshed(b);
    && FoldsApart(b.files) && AllSound(b.files, unzip) && NestedCost(b.files, unzip) <= Defaults.total
    && codec.valid(m) && TypeRules(m, b.files) && codec.write(m).Some?
  }

  ghost predicate Packs(b: Builder, unzip: Unzip, zip: Zip, codec: Codec, bytes: Bytes) {
    Packable(b, unzip, codec) &&
    zip(ToWrite(codec.write(Refreshed(b)).value, b.files)) == Some(bytes)
  }

  method CheckFolds(files: Files) returns (ok: bool)
    ensures ok <==> FoldsApart(files)
  {
    var seen: set<string> := {};
    var k := 0;
    while k < |files|
      invariant k <= |files|
      invariant forall s :: s in seen <==> exists j :: 0 <= j < k && Fold(files[j].path) == s
      invariant forall i, j :: 0 <= i < j < k ==> Fold(files[i].path) != Fold(files[j].path)
    {
      var folded := Fold(files[k].path);
      if folded in seen { return false; }
      seen := seen + {folded};
      k := k + 1;
    }
    return true;
  }

  lemma {:induction false} NestedCostGrows(files: Files, k: nat, unzip: Unzip)
    requires k < |files|
    ensures NestedCost(files[..k + 1], unzip) ==
            NestedCost(files[..k], unzip) + Cost(files[k].content, 1, Defaults, unzip)
    ensures NestedCost(files[..k + 1], unzip) <= NestedCost(files, unzip)
    decreases |files|
  {
    hide Cost;
    assert files[..k + 1][..k] == files[..k];
    var last := |files| - 1;
    if k < last {
      NestedCostGrows(files[..last], k, unzip);
      assert files[..last][..k + 1] == files[..k + 1] && files[..last][..k] == files[..k];
    } else {
      assert files[..k + 1] == files;
    }
  }

  method ScanFiles(files: Files, unzip: Unzip) returns (r: Result<(), Error>)
    ensures r.Ok? <==> AllSound(files, unzip) && NestedCost(files, unzip) <= Defaults.total
  {
    hide Sound, Cost;
    var budget: nat := Defaults.total;
    var k := 0;
    while k < |files|
      invariant k <= |files|
      invariant forall j :: 0 <= j < k ==> Sound(files[j].content, 1, Defaults, unzip)
      invariant budget + NestedCost(files[..k], unzip) == Defaults.total
    {
      NestedCostGrows(files, k, unzip);
      r, budget := ScanContent(files[k].content, 1, Defaults, unzip, budget);
      if r.Err? { return; }
      k := k + 1;
    }
    assert files[..k] == files;
    assert AllSound(files, unzip);
    return Ok(());
  }

  /** Succeeds exactly on packable builders, with the bytes of the sorted entries. */
  method Pack(b: Builder, unzip: Unzip, zip: Zip, codec: Codec) returns (r: Result<Bytes, PackError>)
    ensures r.Ok? ==> Packs(b, unzip, zip, codec, r.value)
    ensures r.Err? ==> forall bytes :: !Packs(b, unzip, zip, codec, bytes)
  {
    hide FoldsApart, AllSound, NestedCost, TypeRules, MimetypeName, ManifestName, MediaType;
    var apart := CheckFolds(b.files);
    if !apart { return Err(DuplicateName); }
    var scanned := ScanFiles(b.files, unzip);
    if scanned.Err? { return Err(Prohibited(scanned.error)); }
    var m := P.Refresh(b.manifest, b.files);
    if !codec.valid(m) { return Err(BadManifest); }
    if !TypeRules(m, b.files) { return Err(BrokenRule); }
    var json := codec.write(m);
    if json.None? { return Err(BadManifest); }
    var writer := [Written(MimetypeName(), false, MediaType()), Written(ManifestName(), true, json.value)];
    ghost var head := writer;
    var k := 0;
    while k < |b.files|
      invariant k <= |b.files| && writer == head + FileEntries(b.files[..k])
    {
      assert b.files[..k + 1][..k] == b.files[..k];
      writer := writer + [Written(b.files[k].path, true, b.files[k].content)];
      k := k + 1;
    }
    assert b.files[..k] == b.files;
    var bytes := zip(writer);
    if bytes.None? { return Err(WriteFailed); }
    return Ok(bytes.value);
  }

  // -------------------------------------------------- does it open again, exactly

  /** What is assumed of the ZIP library: it lists what was written, in order, under the names given. */
  predicate Faithful(e: Entry, w: Written) {
    && e.Entry? && e.name == w.name && e.utf8 && !e.isDir && !e.isSymlink && !e.special
    && e.compression == (if w.deflate then Deflated else Stored)
    && e.stream.Some? && !e.stream.value.broken && Flatten(e.stream.value.chunks) == w.content
  }

  ghost predicate ReadBack(ws: seq<Written>, entries: seq<Entry>) {
    |entries| == |ws| && forall k :: 0 <= k < |ws| ==> Faithful(entries[k], ws[k])
  }

  predicate InAscii(text: string) {
    forall k :: 0 <= k < |text| ==> text[k] as int < 128
  }

  /**
   * And a short first entry that it is told to store stands at the start of the bytes:
   * header, name and content, without flags or extra fields.
   */
  ghost predicate StoresFirst(ws: seq<Written>, bytes: Bytes) {
    ws != [] && !ws[0].deflate && |ws[0].name| < 256 && |ws[0].content| < 256 && InAscii(ws[0].name) ==>
      var n, c := |ws[0].name|, |ws[0].content|;
      && |bytes| >= 30 + n + c && bytes[..4] == Ascii("PK") + [3, 4] && bytes[6] == 0 && bytes[8..10] == [0, 0]
      && bytes[18..22] == [c, 0, 0, 0] && bytes[26..30] == [n, 0, 0, 0]
      && bytes[30..30 + n] == Ascii(ws[0].name) && bytes[30 + n..30 + n + c] == ws[0].content
  }

  predicate FoldsReserved(path: string) {
    Fold(path) == Fold(MimetypeName()) || Fold(path) == Fold(ManifestName())
  }

  /** Everything the reader checks and the writer does not. */
  ghost predicate Fits(json: Bytes, files: Files, entries: seq<Entry>, unzip: Unzip) {
    && |files| + 2 <= Defaults.maxEntries
    && (forall k :: 0 <= k < |files| ==> !FoldsReserved(files[k].path))
    && (forall k :: 0 <= k < |entries| ==> WithinRatio(|Content(entries[k])|, EntrySize(entries[k]), Defaults))
    && 2 * |json| + |MediaType()| + PlainSize(files) + NestedCost(files, unzip) <= Defaults.total
  }

  function EntrySize(e: Entry): nat {
    if e.Entry? then e.compressed else 0
  }
}
