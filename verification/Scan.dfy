/**
 * The recursive content scan of the container reader: nested archives opened
 * under one shared decompression budget.
 *
 * What the ZIP library makes of given bytes is a parameter, `Unzip`; whatever it
 * answers, the properties below hold.
 */
module Scan {
  import opened Wrappers
  import opened ContainerPath

  datatype Limits = Limits(total: nat, ratio: nat, grace: nat, maxEntries: nat, maxDepth: nat)

  const U64Max: nat := 0xFFFF_FFFF_FFFF_FFFF

  /** The defaults: 1 GiB in all, 100:1 past the first MiB, 10 000 entries, three levels. */
  const Defaults: Limits := Limits(0x4000_0000, 100, 0x10_0000, 10000, 3)

  datatype Compression = Stored | Deflated | Unsupported

  /** Decompressing an entry yields chunks, and may break off. */
  datatype Stream = Stream(chunks: seq<Bytes>, broken: bool)

  /** What the library says of one entry; `stream` is None when it cannot be read at all. */
  datatype Entry =
    | Unreadable
    | Entry(name: string, utf8: bool, isDir: bool, isSymlink: bool, special: bool, compression: Compression,
            compressed: nat, stream: Option<Stream>)

  type Unzip = Bytes -> Option<seq<Entry>>

  datatype Error =
    | CorruptEntry | ZipBombSize | ZipBombRatio | NativeCode | NestedTooDeep | TooManyEntries
    | Link | UnsupportedCompression | BadPath

  // ------------------------------------------------------------------- magics

  function ZipMagic(): Bytes { [0x50, 0x4b, 0x03, 0x04] }

  function ExecMagics(): seq<Bytes> {
    [[0x4d, 0x5a],
     [0x7f, 0x45, 0x4c, 0x46],
     [0xfe, 0xed, 0xfa],
     [0xce, 0xfa, 0xed, 0xfe],
     [0xcf, 0xfa, 0xed, 0xfe],
     [0x21, 0x3c, 0x61, 0x72, 0x63, 0x68, 0x3e]]
  }

  predicate Executable(content: Bytes) {
    exists k :: 0 <= k < |ExecMagics()| && ExecMagics()[k] <= content
  }

  function AsciiByte(c: char): Byte
    requires c as int < 128
  {
    c as int
  }

  /** The bytes of a text in ASCII. */
  function Ascii(text: string): Bytes
    requires forall k :: 0 <= k < |text| ==> text[k] as int < 128
  {
    seq(|text|, k requires 0 <= k < |text| => AsciiByte(text[k]))
  }

  /** What the magics spell: DOS and Windows executables, ELF, Mach-O in three layouts, and static libraries. */
  lemma MagicsRefused(content: Bytes)
    ensures Executable(content) <==>
            || Ascii("MZ") <= content
            || [0x7f] + Ascii("ELF") <= content
            || (|content| >= 3 && content[0] == 0xfe && content[1] == 0xed && content[2] == 0xfa)
            || (|content| >= 4 && content[0] in {0xce, 0xcf} && content[1] == 0xfa && content[2] == 0xed && content[3] == 0xfe)
            || Ascii("!<arch>") <= content
    ensures ZipMagic() == Ascii("PK") + [3, 4]
  {
    var magics := ExecMagics();
    assert magics[0] == Ascii("MZ") && magics[1] == [0x7f] + Ascii("ELF") && magics[5] == Ascii("!<arch>");
    assert Executable(content) <==> magics[0] <= content || magics[1] <= content || magics[2] <= content ||
                                    magics[3] <= content || magics[4] <= content || magics[5] <= content;
  }

  // ----------------------------------------------------------- reading a stream

  function Flatten(chunks: seq<Bytes>): Bytes {
    if chunks == [] then [] else Flatten(chunks[..|chunks| - 1]) + chunks[|chunks| - 1]
  }

  lemma {:induction false} FlattenGrows(chunks: seq<Bytes>, k: nat)
    requires k <= |chunks|
    ensures |Flatten(chunks[..k])| <= |Flatten(chunks)|
    decreases |chunks| - k
  {
    if k < |chunks| {
      assert chunks[..k + 1][..k] == chunks[..k];
      FlattenGrows(chunks, k + 1);
    } else {
      assert chunks[..k] == chunks;
    }
  }

  function Saturated(n: nat): nat {
    if n > U64Max then U64Max else n
  }

  function RatioCap(compressed: nat, limits: Limits): nat {
    var scaled := Saturated(compressed * limits.ratio);
    if scaled > limits.grace then scaled else limits.grace
  }

  /** A size that is no sign of a bomb: small enough in itself, or no more than the ratio allows, in 64 bits. */
  predicate WithinRatio(size: nat, compressed: nat, limits: Limits) {
    size <= limits.grace || (size <= compressed * limits.ratio && size <= U64Max)
  }

  predicate Readable(stream: Stream, compressed: nat, limits: Limits) {
    !stream.broken && WithinRatio(|Flatten(stream.chunks)|, compressed, limits)
  }

  /** Every chunk is counted before it is kept; the declared size is never trusted. */
  method ReadLimited(stream: Stream, compressed: nat, limits: Limits, budget: nat)
    returns (r: Result<Bytes, Error>, left: nat)
    ensures r.Ok? <==> Readable(stream, compressed, limits) && |Flatten(stream.chunks)| <= budget
    ensures r.Ok? ==> r.value == Flatten(stream.chunks) && left == budget - |r.value|
    ensures r.Err? ==> left == budget
    ensures r == Err(CorruptEntry) <==>
            stream.broken && |Flatten(stream.chunks)| <= budget && WithinRatio(|Flatten(stream.chunks)|, compressed, limits)
  {
    var cap := RatioCap(compressed, limits);
    assert forall size: nat :: size <= cap <==> WithinRatio(size, compressed, limits);
    hide RatioCap, WithinRatio;
    var out: Bytes := [];
    var total: nat := 0;
    var k := 0;
    while k < |stream.chunks|
      invariant k <= |stream.chunks|
      invariant out == Flatten(stream.chunks[..k]) && total == |out|
      invariant total <= budget && total <= cap
    {
      assert stream.chunks[..k + 1][..k] == stream.chunks[..k];
      FlattenGrows(stream.chunks, k + 1);
      var chunk := stream.chunks[k];
      total := total + |chunk|;
      if total > budget { return Err(ZipBombSize), budget; }
      if total > cap { return Err(ZipBombRatio), budget; }
      out := out + chunk;
      k := k + 1;
    }
    assert stream.chunks[..k] == stream.chunks;
    if stream.broken { return Err(CorruptEntry), budget; }
    return Ok(out), budget - total;
  }

  // ------------------------------------------------------------ what is allowed

  predicate IsFile(e: Entry) {
    e.Entry? && !e.isDir
  }

  /** The bytes a file entry decompresses to. */
  function Content(e: Entry): Bytes {
    if e.Entry? && e.stream.Some? then Flatten(e.stream.value.chunks) else []
  }

  /** A nested entry that can be verified: plain, stored or deflated, well named, within the ratio. */
  predicate CleanNested(e: Entry, limits: Limits) {
    && e.Entry?
    && (!e.isDir ==>
          && !e.isSymlink && !e.compression.Unsupported? && GoodPath(e.name)
          && e.stream.Some? && Readable(e.stream.value, e.compressed, limits))
  }

  /** The archive the scan descends into, if these bytes are one. */
  function Nested(content: Bytes, unzip: Unzip): Option<seq<Entry>> {
    if ZipMagic() <= content then unzip(content) else None
  }

  /** Content free of executables at every level, whatever it would cost to find out. */
  ghost predicate Sound(content: Bytes, depth: nat, limits: Limits, unzip: Unzip)
    decreases limits.maxDepth - depth, 1, 0
  {
    && !Executable(content)
    && (ZipMagic() <= content ==> depth < limits.maxDepth)
    && (Nested(content, unzip).Some? ==> SoundArchive(Nested(content, unzip).value, depth + 1, limits, unzip))
  }

  ghost predicate SoundArchive(entries: seq<Entry>, depth: nat, limits: Limits, unzip: Unzip)
    requires depth <= limits.maxDepth
    decreases limits.maxDepth - depth, 3, 0
  {
    |entries| <= limits.maxEntries && SoundEntries(entries, depth, limits, unzip)
  }

  ghost predicate SoundEntries(entries: seq<Entry>, depth: nat, limits: Limits, unzip: Unzip)
    requires depth <= limits.maxDepth
    decreases limits.maxDepth - depth, 2, |entries|
  {
    entries == [] ||
    (var e := entries[|entries| - 1];
     && SoundEntries(entries[..|entries| - 1], depth, limits, unzip)
     && CleanNested(e, limits)
     && (IsFile(e) ==> Sound(Content(e), depth, limits, unzip)))
  }

  /** Decompressed bytes of every file entry nested in this content, at every level. */
  function Cost(content: Bytes, depth: nat, limits: Limits, unzip: Unzip): nat
    decreases limits.maxDepth - depth, 1, 0
  {
    if depth < limits.maxDepth && Nested(content, unzip).Some?
    then CostEntries(Nested(content, unzip).value, depth + 1, limits, unzip)
    else 0
  }

  function CostEntries(entries: seq<Entry>, depth: nat, limits: Limits, unzip: Unzip): nat
    requires depth <= limits.maxDepth
    decreases limits.maxDepth - depth, 2, |entries|
  {
    if entries == [] then 0
    else CostEntries(entries[..|entries| - 1], depth, limits, unzip) +
         EntryCost(entries[|entries| - 1], depth, limits, unzip)
  }

  function EntryCost(e: Entry, depth: nat, limits: Limits, unzip: Unzip): nat
    requires depth <= limits.maxDepth
    decreases limits.maxDepth - depth, 2, 0
  {
    if IsFile(e) then |Content(e)| + Cost(Content(e), depth, limits, unzip) else 0
  }

  // ------------------------------------------------------------------ the scan

  method IsExecutable(content: Bytes) returns (found: bool)
    ensures found <==> Executable(content)
  {
    var magics := ExecMagics();
    var k := 0;
    while k < |magics|
      invariant k <= |magics|
      invariant forall j :: 0 <= j < k ==> !(magics[j] <= content)
    {
      if magics[k] <= content { return true; }
      k := k + 1;
    }
    return false;
  }

  /** Accepts exactly the sound contents the budget can pay for, and charges what they cost. */
  method ScanContent(content: Bytes, depth: nat, limits: Limits, unzip: Unzip, budget: nat)
    returns (r: Result<(), Error>, left: nat)
    ensures r.Ok? <==> Sound(content, depth, limits, unzip) && Cost(content, depth, limits, unzip) <= budget
    ensures r.Ok? ==> left == budget - Cost(content, depth, limits, unzip)
    ensures left <= budget
    decreases limits.maxDepth - depth, 1, 0
  {
    hide ExecMagics, ZipMagic, SoundEntries, CostEntries;
    var native := IsExecutable(content);
    if native { return Err(NativeCode), budget; }
    if ZipMagic() <= content {
      if depth >= limits.maxDepth { return Err(NestedTooDeep), budget; }
      r, left := ScanNestedZip(content, depth + 1, limits, unzip, budget);
      return;
    }
    return Ok(()), budget;
  }

  method ScanNestedZip(content: Bytes, depth: nat, limits: Limits, unzip: Unzip, budget: nat)
    returns (r: Result<(), Error>, left: nat)
    requires depth <= limits.maxDepth
    ensures unzip(content).None? ==> r.Ok? && left == budget
    ensures unzip(content).Some? ==>
              && (r.Ok? <==> SoundArchive(unzip(content).value, depth, limits, unzip) &&
                             CostEntries(unzip(content).value, depth, limits, unzip) <= budget)
              && (r.Ok? ==> left == budget - CostEntries(unzip(content).value, depth, limits, unzip))
    ensures left <= budget
    decreases limits.maxDepth - depth, 2, 0
  {
    hide Sound, Cost, CleanNested, Content;
    left := budget;
    var archive := unzip(content);
    if archive.None? { return Ok(()), left; }
    var entries := archive.value;
    if |entries| > limits.maxEntries { return Err(TooManyEntries), left; }
    var i := 0;
    while i < |entries|
      invariant i <= |entries| && left <= budget
      invariant SoundEntries(entries[..i], depth, limits, unzip)
      invariant CostEntries(entries[..i], depth, limits, unzip) == budget - left
    {
      PrefixOf(entries, i, depth, limits, unzip);
      var e, before := entries[i], left;
      r, left := ScanEntry(e, depth, limits, unzip, left);
      if r.Err? { return; }
      i := i + 1;
    }
    assert entries[..i] == entries;
    return Ok(()), left;
  }

  method ScanEntry(e: Entry, depth: nat, limits: Limits, unzip: Unzip, budget: nat)
    returns (r: Result<(), Error>, left: nat)
    requires depth <= limits.maxDepth
    ensures r.Ok? <==>
            && CleanNested(e, limits)
            && (IsFile(e) ==> Sound(Content(e), depth, limits, unzip))
            && EntryCost(e, depth, limits, unzip) <= budget
    ensures r.Ok? ==> left == budget - EntryCost(e, depth, limits, unzip)
    ensures left <= budget
    decreases limits.maxDepth - depth, 1, 1
  {
    hide Sound, Cost, Flatten;
    left := budget;
    if e.Unreadable? { return Err(CorruptEntry), left; }
    if e.isDir { return Ok(()), left; }
    if e.isSymlink { return Err(Link), left; }
    if e.compression.Unsupported? { return Err(UnsupportedCompression), left; }
    var path := CheckContainerPath(e.name);
    if path.Err? { return Err(BadPath), left; }
    if e.stream.None? { return Err(CorruptEntry), left; }
    var inner;
    inner, left := ReadLimited(e.stream.value, e.compressed, limits, left);
    if inner.Err? { return Err(inner.error), left; }
    r, left := ScanContent(inner.value, depth, limits, unzip, left);
  }

  /** What holds of a whole archive holds of its prefixes, and costs only grow. */
  lemma {:induction false} PrefixOf(entries: seq<Entry>, i: nat, depth: nat, limits: Limits, unzip: Unzip)
    requires i < |entries| && depth <= limits.maxDepth
    ensures var e := entries[i];
            && (SoundEntries(entries[..i + 1], depth, limits, unzip) <==>
                  && SoundEntries(entries[..i], depth, limits, unzip)
                  && CleanNested(e, limits) && (IsFile(e) ==> Sound(Content(e), depth, limits, unzip)))
            && CostEntries(entries[..i + 1], depth, limits, unzip) ==
               CostEntries(entries[..i], depth, limits, unzip) + EntryCost(e, depth, limits, unzip)
    ensures SoundEntries(entries, depth, limits, unzip) ==> SoundEntries(entries[..i + 1], depth, limits, unzip)
    ensures CostEntries(entries[..i + 1], depth, limits, unzip) <= CostEntries(entries, depth, limits, unzip)
    decreases |entries|
  {
    hide Sound, CleanNested, EntryCost, Content;
    assert entries[..i + 1][..i] == entries[..i];
    var last := |entries| - 1;
    if i == last {
      assert entries[..i + 1] == entries;
    } else {
      PrefixOf(entries[..last], i, depth, limits, unzip);
      assert entries[..last][..i + 1] == entries[..i + 1];
    }
  }

  /** Entries are paid for one by one, and directories cost nothing. */
  lemma {:induction false} CostsAddUp(a: seq<Entry>, b: seq<Entry>, depth: nat, limits: Limits, unzip: Unzip)
    requires depth <= limits.maxDepth
    ensures CostEntries(a + b, depth, limits, unzip) ==
            CostEntries(a, depth, limits, unzip) + CostEntries(b, depth, limits, unzip)
    ensures (forall e :: e in b ==> !IsFile(e)) ==> CostEntries(b, depth, limits, unzip) == 0
    decreases |b|
  {
    hide Cost;
    if b == [] {
      assert a + b == a;
    } else {
      assert (a + b)[..|a + b| - 1] == a + b[..|b| - 1];
      CostsAddUp(a, b[..|b| - 1], depth, limits, unzip);
    }
  }

  /** Each entry is paid for. */
  lemma {:induction false} EntryPaid(entries: seq<Entry>, e: Entry, depth: nat, limits: Limits, unzip: Unzip)
    requires depth <= limits.maxDepth && e in entries
    ensures EntryCost(e, depth, limits, unzip) <= CostEntries(entries, depth, limits, unzip)
    decreases |entries|
  {
    hide EntryCost;
    if e != entries[|entries| - 1] {
      EntryPaid(entries[..|entries| - 1], e, depth, limits, unzip);
    }
  }

  /** Everything found inside sound content is paid for, byte by byte, together with what it holds in turn. */
  lemma {:induction false} ReachedIsPaid(outer: Bytes, inner: Bytes, levels: nat, depth: nat, limits: Limits, unzip: Unzip)
    requires Sound(outer, depth, limits, unzip) && Reaches(outer, inner, levels, unzip) && levels > 0
    ensures |inner| + Cost(inner, depth + levels, limits, unzip) <= Cost(outer, depth, limits, unzip)
    decreases levels
  {
    hide Executable, CleanNested, Content, ZipMagic, SoundEntries, CostEntries;
    var entries := Nested(outer, unzip).value;
    var e :| e in entries && IsFile(e) && Reaches(Content(e), inner, levels - 1, unzip);
    EverySoundEntry(entries, e, depth + 1, limits, unzip);
    EntryPaid(entries, e, depth + 1, limits, unzip);
    if levels > 1 {
      ReachedIsPaid(Content(e), inner, levels - 1, depth + 1, limits, unzip);
    }
  }

  // --------------------------------------------------------- what acceptance means

  /** `inner` is found in `outer` by opening archives `levels` deep. */
  ghost predicate Reaches(outer: Bytes, inner: Bytes, levels: nat, unzip: Unzip)
    decreases levels
  {
    if levels == 0 then inner == outer
    else Nested(outer, unzip).Some? &&
         exists e :: e in Nested(outer, unzip).value && IsFile(e) && Reaches(Content(e), inner, levels - 1, unzip)
  }

  lemma {:induction false} EverySoundEntry(entries: seq<Entry>, e: Entry, depth: nat, limits: Limits, unzip: Unzip)
    requires depth <= limits.maxDepth && SoundEntries(entries, depth, limits, unzip) && e in entries
    ensures CleanNested(e, limits) && (IsFile(e) ==> Sound(Content(e), depth, limits, unzip))
    decreases |entries|
  {
    hide Sound, CleanNested, Content;
    if e != entries[|entries| - 1] {
      EverySoundEntry(entries[..|entries| - 1], e, depth, limits, unzip);
    }
  }

  /**
   * Whatever can be reached through nested archives carries no executable magic, lies
   * within the allowed depth, and, if it is an archive, holds clean entries only.
   */
  lemma {:induction false} NothingHidden(outer: Bytes, inner: Bytes, levels: nat, depth: nat, limits: Limits, unzip: Unzip)
    requires Sound(outer, depth, limits, unzip) && Reaches(outer, inner, levels, unzip)
    ensures !Executable(inner)
    ensures Nested(inner, unzip).Some? ==>
              && depth + levels < limits.maxDepth && |Nested(inner, unzip).value| <= limits.maxEntries
              && forall e :: e in Nested(inner, unzip).value ==> CleanNested(e, limits)
    decreases levels
  {
    hide Executable, CleanNested, Content, ZipMagic;
    if levels == 0 {
      if Nested(inner, unzip).Some? {
        var entries := Nested(inner, unzip).value;
        forall e | e in entries ensures CleanNested(e, limits) {
          EverySoundEntry(entries, e, depth + 1, limits, unzip);
        }
      }
    } else {
      var entries := Nested(outer, unzip).value;
      var e :| e in entries && IsFile(e) && Reaches(Content(e), inner, levels - 1, unzip);
      EverySoundEntry(entries, e, depth + 1, limits, unzip);
      NothingHidden(Content(e), inner, levels - 1, depth + 1, limits, unzip);
    }
  }
}
