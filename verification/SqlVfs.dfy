/**
 * The private in-memory filesystem under one SQL scope: growable buffers that
 * behave as flat byte sequences, reached through handles that may share a file.
 */
module SqlVfs {
  import opened Wrappers

  // -------------------------------------------------------- flat byte sequences

  function Zeros(n: nat): (z: Bytes)
    ensures |z| == n && forall k :: 0 <= k < n ==> z[k] == 0
  {
    seq(n, k => 0)
  }

  /** A write into a flat file, at or before its end. */
  function Overwritten(content: Bytes, at: nat, data: Bytes): Bytes
    requires at <= |content|
  {
    content[..at] + data + (if at + |data| < |content| then content[at + |data|..] else [])
  }

  /** What a read of `n` bytes fills in: the file's bytes, then zeros past its end. */
  function ReadBytes(content: Bytes, at: nat, n: nat): (r: Bytes)
    ensures |r| == n
  {
    var start := if at < |content| then at else |content|;
    var end := if at + n < |content| then at + n else |content|;
    content[start..end] + Zeros(n - (end - start))
  }

  /** A later read sees exactly what was written, and nothing else has changed. */
  lemma ReadAfterWrite(content: Bytes, at: nat, data: Bytes, from: nat, n: nat)
    requires at <= |content|
    ensures ReadBytes(Overwritten(content, at, data), at, |data|) == data
    ensures from + n <= at || at + |data| <= from ==>
              ReadBytes(Overwritten(content, at, data), from, n) == ReadBytes(content, from, n)
    ensures |Overwritten(content, at, data)| == if at + |data| > |content| then at + |data| else |content|
  {
    var after := Overwritten(content, at, data);
    var end := at + |data|;
    assert forall k :: 0 <= k < at ==> after[k] == content[k];
    assert forall k :: at <= k < end ==> after[k] == data[k - at];
    assert forall k :: end <= k < |content| ==> after[k] == content[k];
    assert after[at..end] == data;
    if from + n <= at {
      assert after[from..from + n] == content[from..from + n];
    } else if end <= from && end <= |content| {
      var start := if from < |content| then from else |content|;
      var stop := if from + n < |content| then from + n else |content|;
      assert forall k :: start <= k < stop ==> after[k] == content[k];
      assert after[start..stop] == content[start..stop];
    } else if end <= from {
      assert ReadBytes(after, from, n) == Zeros(n) == ReadBytes(content, from, n);
    }
  }

  function Spliced(buffer: Bytes, at: nat, bytes: Bytes): (r: Bytes)
    requires at + |bytes| <= |buffer|
    ensures |r| == |buffer|
  {
    buffer[..at] + bytes + buffer[at + |bytes|..]
  }

  /** In the buffer's part that counts, splicing is a write into the flat file. */
  lemma SplicedIsOverwritten(buffer: Bytes, size: nat, at: nat, bytes: Bytes)
    requires size <= |buffer| && at + |bytes| <= |buffer|
    ensures var end := at + |bytes|;
            var after := Spliced(buffer, at, bytes)[..if size > end then size else end];
            && (at <= size ==> after == Overwritten(buffer[..size], at, bytes))
            && (at > size ==> after == Overwritten(buffer[..at], at, bytes))
  {
    var end := at + |bytes|;
    var spliced := Spliced(buffer, at, bytes);
    assert spliced[..end] == buffer[..at] + bytes;
    if at <= size {
      assert buffer[..size][..at] == buffer[..at];
      if end < size {
        assert buffer[..size][end..] == buffer[end..size] == spliced[end..size];
        assert spliced[..size] == spliced[..end] + spliced[end..size];
      }
    }
  }

  // ----------------------------------------------------------- one file's buffer

  class MemFile {
    const name: string
    const deleteOnClose: bool
    var size: nat
    var data: array<Byte>
    /** The largest size the file has had, and the bytes moved by growing it. */
    ghost var peak: nat
    ghost var copied: nat

    ghost predicate Valid()
      reads this, data
    {
      && size <= data.Length
      && size <= peak
      && data.Length <= 2 * peak
      && copied <= data.Length
    }

    /** The file's content: the buffer up to its size. */
    function Contents(): Bytes
      requires size <= data.Length
      reads this, data
    {
      data[..size]
    }

    /** A new empty file, or one seeded with the bytes it was persisted as. */
    constructor (name: string, deleteOnClose: bool, bytes: Bytes)
      ensures Valid() && Contents() == bytes && fresh(data) && peak == size && copied == 0
      ensures this.name == name && this.deleteOnClose == deleteOnClose
    {
      this.name, this.deleteOnClose := name, deleteOnClose;
      size, peak, copied := |bytes|, |bytes|, 0;
      data := new Byte[|bytes|](k requires 0 <= k < |bytes| => bytes[k]);
    }

    method Snapshot() returns (bytes: Bytes)
      requires Valid()
      ensures bytes == Contents()
    {
      return data[..size];
    }

    /** Fills the whole target; the answer says whether the file had that many bytes. */
    method Read(target: array<Byte>, at: nat) returns (full: bool)
      requires Valid() && target != data
      modifies target
      ensures target[..] == ReadBytes(Contents(), at, target.Length)
      ensures full <==> target.Length == 0 || at + target.Length <= size
    {
      var begin := if at < size then at else size;
      var end := if at + target.Length < size then at + target.Length else size;
      var count := end - begin;
      forall k | 0 <= k < target.Length {
        target[k] := if k < count then data[begin + k] else 0;
      }
      ghost var expected := data[..size][begin..end] + Zeros(target.Length - count);
      forall k | 0 <= k < target.Length ensures target[k] == expected[k] {
        assert k < count ==> data[..size][begin..end][k] == data[begin + k];
      }
      assert target[..] == expected;
      return count >= target.Length;
    }

    /** At least doubles the buffer, moving only the bytes in use. */
    method Grow(needed: nat)
      requires Valid() && needed > data.Length
      modifies this`data, this`peak, this`copied
      ensures size <= data.Length && size == old(size) && Contents() == old(Contents())
      ensures fresh(data) && data.Length >= needed && data.Length >= 2 * old(data.Length)
      ensures forall k :: size <= k < data.Length ==> data[k] == 0
      ensures peak == (if old(peak) > needed then old(peak) else needed) && copied == old(copied) + size
      ensures data.Length <= 2 * peak && copied <= data.Length
    {
      var capacity := if 2 * data.Length > needed then 2 * data.Length else needed;
      var was, length := data, size;
      var grown := new Byte[capacity](k reads was requires length <= was.Length => if 0 <= k < length then was[k] else 0);
      copied := copied + size;
      peak := if peak > needed then peak else needed;
      data := grown;
      assert data[..size] == was[..size];
    }

    /** The bytes put into a buffer that is large enough. */
    method Place(bytes: Bytes, at: nat)
      requires at + |bytes| <= data.Length
      modifies data
      ensures data[..] == Spliced(old(data[..]), at, bytes)
    {
      ghost var before := data[..];
      forall k | 0 <= k < |bytes| {
        data[at + k] := bytes[k];
      }
      assert forall k :: 0 <= k < data.Length ==> data[k] == Spliced(before, at, bytes)[k];
    }

    /**
     * A write at or before the end is a write into the flat file. Past the end, the gap
     * shows whatever the buffer still holds there: zeros after growth, else bytes a
     * truncation left behind.
     */
    method Write(bytes: Bytes, at: nat)
      requires Valid()
      modifies this, data
      ensures Valid() && (data == old(data) || fresh(data))
      ensures size == (if at + |bytes| > old(size) then at + |bytes| else old(size))
      ensures peak == (if size > old(peak) then size else old(peak))
      ensures data == old(data) <==> at + |bytes| <= old(data.Length)
      ensures copied == old(copied) + (if data == old(data) then 0 else old(size))
      ensures at <= old(size) ==> Contents() == Overwritten(old(Contents()), at, bytes)
      ensures at > old(size) && at + |bytes| > old(data.Length) ==>
                Contents() == Overwritten(old(Contents()) + Zeros(at - old(size)), at, bytes)
      ensures at > old(size) && at + |bytes| <= old(data.Length) ==>
                Contents() == Overwritten(old(data[..at]), at, bytes)
    {
      ghost var content := Contents();
      hide Spliced, Overwritten;
      if at + |bytes| > data.Length {
        Grow(at + |bytes|);
        assert at > |content| ==> data[..at] == content + Zeros(at - |content|);
      }
      ghost var before := data[..];
      assert before[..size] == content;
      SplicedIsOverwritten(before, size, at, bytes);
      Place(bytes, at);
      var end := at + |bytes|;
      size := if size > end then size else end;
      peak := if peak > size then peak else size;
      assert Contents() == data[..][..size];
    }

    method Truncate(newSize: nat)
      requires Valid()
      modifies this`size
      ensures Valid() && data == old(data) && size == (if newSize < old(size) then newSize else old(size))
      ensures Contents() == old(if newSize < size then Contents()[..newSize] else Contents())
    {
      size := if newSize < size then newSize else size;
    }
  }

  // --------------------------------------------------------- one file, whole runs

  datatype FileOp = Reads(at: nat, n: nat) | Writes(at: nat, bytes: Bytes) | Truncates(size: nat)

  /** The size of a flat file after an operation. */
  function SizeAfter(size: nat, op: FileOp): nat {
    match op
    case Reads(_, _) => size
    case Writes(at, bytes) => if at + |bytes| > size then at + |bytes| else size
    case Truncates(n) => if n < size then n else size
  }

  function SizeAfterAll(size: nat, ops: seq<FileOp>): nat {
    if ops == [] then size else SizeAfter(SizeAfterAll(size, ops[..|ops| - 1]), ops[|ops| - 1])
  }

  /** The largest size a flat file has had over a run. */
  function Largest(size: nat, ops: seq<FileOp>): nat {
    if ops == [] then size
    else
      var before, now := Largest(size, ops[..|ops| - 1]), SizeAfterAll(size, ops);
      if now > before then now else before
  }

  /** Every write starts at or before the end of the file as it then is. */
  predicate Contiguous(size: nat, ops: seq<FileOp>) {
    ops != [] ==>
      && Contiguous(size, ops[..|ops| - 1])
      && (ops[|ops| - 1].Writes? ==> ops[|ops| - 1].at <= SizeAfterAll(size, ops[..|ops| - 1]))
  }

  /** The flat file after such a run. */
  function FlatAfter(content: Bytes, ops: seq<FileOp>): (r: Bytes)
    requires Contiguous(|content|, ops)
    ensures |r| == SizeAfterAll(|content|, ops)
  {
    if ops == [] then content
    else
      var before := FlatAfter(content, ops[..|ops| - 1]);
      match ops[|ops| - 1]
      case Reads(_, _) => before
      case Writes(at, bytes) => Overwritten(before, at, bytes)
      case Truncates(n) => if n < |before| then before[..n] else before
  }

  /** What the reads of a run return, in order. */
  function FlatReads(content: Bytes, ops: seq<FileOp>): seq<Bytes>
    requires Contiguous(|content|, ops)
  {
    if ops == [] then []
    else
      var init, op := ops[..|ops| - 1], ops[|ops| - 1];
      FlatReads(content, init) + (if op.Reads? then [ReadBytes(FlatAfter(content, init), op.at, op.n)] else [])
  }

  /** One operation on the buffer. */
  method PerformOne(f: MemFile, op: FileOp) returns (read: Option<Bytes>)
    requires f.Valid() && (op.Writes? ==> op.at <= f.size)
    modifies f, f.data
    ensures f.Valid() && (f.data == old(f.data) || fresh(f.data))
    ensures f.size == SizeAfter(old(f.size), op) && f.peak == (if f.size > old(f.peak) then f.size else old(f.peak))
    ensures f.copied == old(f.copied) + (if f.data == old(f.data) then 0 else old(f.size))
    ensures match op
            case Reads(at, n) => f.Contents() == old(f.Contents()) && read == Some(ReadBytes(old(f.Contents()), at, n))
            case Writes(at, bytes) => f.Contents() == Overwritten(old(f.Contents()), at, bytes) && read == None
            case Truncates(n) =>
              f.Contents() == (if n < |old(f.Contents())| then old(f.Contents())[..n] else old(f.Contents())) && read == None
  {
    match op
    case Reads(at, n) =>
      var target := new Byte[n];
      var full := f.Read(target, at);
      read := Some(target[..]);
    case Writes(at, bytes) =>
      f.Write(bytes, at);
      read := None;
    case Truncates(n) =>
      f.Truncate(n);
      read := None;
  }

  /**
   * Any run of reads, truncations and contiguous writes is that run on a flat file. The
   * buffer then takes at most twice the largest size the file has had, and all the bytes
   * ever moved by growing it are no more than it now holds.
   */
  method Perform(f: MemFile, ops: seq<FileOp>) returns (seen: seq<Bytes>)
    requires f.Valid() && f.peak == f.size && f.copied == 0 && Contiguous(f.size, ops)
    modifies f, f.data
    ensures f.Valid() && (f.data == old(f.data) || fresh(f.data))
    ensures f.Contents() == FlatAfter(old(f.Contents()), ops) && seen == FlatReads(old(f.Contents()), ops)
    ensures f.peak == Largest(old(f.size), ops)
    ensures f.data.Length <= 2 * Largest(old(f.size), ops)
    ensures f.copied <= f.data.Length
  {
    seen := [];
    ghost var start := f.Contents();
    ghost var first := f.data;
    hide Overwritten, ReadBytes;
    var k := 0;
    assert ops[..0] == [];
    while k < |ops|
      invariant k <= |ops| && f.Valid() && (f.data == first || fresh(f.data))
      invariant Contiguous(|start|, ops[..k]) && f.Contents() == FlatAfter(start, ops[..k])
      invariant seen == FlatReads(start, ops[..k]) && f.peak == Largest(|start|, ops[..k])
    {
      ContiguousPrefix(|start|, ops, k + 1);
      assert ops[..k + 1][..k] == ops[..k];
      var read := PerformOne(f, ops[k]);
      if read.Some? {
        seen := seen + [read.value];
      }
      k := k + 1;
    }
    assert ops[..k] == ops;
  }

  lemma {:induction false} ContiguousPrefix(size: nat, ops: seq<FileOp>, k: nat)
    requires Contiguous(size, ops) && k <= |ops|
    ensures Contiguous(size, ops[..k])
    decreases |ops|
  {
    if k == |ops| {
      assert ops[..k] == ops;
    } else {
      ContiguousPrefix(size, ops[..|ops| - 1], k);
      assert ops[..|ops| - 1][..k] == ops[..k];
    }
  }

  // ------------------------------------------------------- names, handles, files

  /** Distinct files of a scope never share a buffer. */
  ghost predicate Apart(objects: set<MemFile>)
    reads objects
  {
    forall f, g :: f in objects && g in objects && f != g ==> f.data != g.data
  }

  class ScopeVfs {
    var files: map<string, MemFile>
    var handles: map<int, MemFile>
    var writes: nat

    ghost function Objects(): set<MemFile>
      reads this
    {
      files.Values + handles.Values
    }

    ghost predicate Valid()
      reads this, Objects(), set f | f in Objects() :: f.data
    {
      && (forall f :: f in Objects() ==> f.Valid())
      && Apart(Objects())
      && (forall n :: n in files ==> files[n].name == n)
    }

    constructor ()
      ensures Valid() && files == map[] && handles == map[] && writes == 0
    {
      files, handles, writes := map[], map[], 0;
    }

    /** Seeds a file with persisted bytes, before anything opens it. */
    method Load(name: string, bytes: Bytes) returns (ok: bool)
      requires Valid()
      modifies this`files
      ensures Valid() && (ok <==> name !in old(files))
      ensures !ok ==> files == old(files)
      ensures ok ==> files.Keys == old(files).Keys + {name} && name in files && files[name].Valid()
      ensures ok ==> fresh(files[name]) && files[name].Contents() == bytes
      ensures ok ==> files[name].name == name && !files[name].deleteOnClose
      ensures forall n :: n in old(files) ==> n in files && files[n] == old(files)[n]
    {
      if name in files { return false; }
      var f := new MemFile(name, false, bytes);
      files := files[name := f];
      assert forall g :: g in Objects() ==> g in old(Objects()) || g == f;
      return true;
    }

    /** An unknown name makes a new empty file here, or is refused; no name reaches another scope. */
    method Open(name: string, id: int, create: bool, deleteOnClose: bool) returns (ok: bool)
      requires Valid()
      modifies this`files, this`handles
      ensures Valid() && (ok <==> name in old(files) || create)
      ensures !ok ==> files == old(files) && handles == old(handles)
      ensures ok ==> name in files && handles == old(handles)[id := files[name]]
      ensures ok && name in old(files) ==> files == old(files)
      ensures ok && name !in old(files) ==>
                files.Keys == old(files).Keys + {name} && fresh(files[name]) && files[name].size == 0 &&
                files[name].name == name && files[name].deleteOnClose == deleteOnClose &&
                forall n :: n in old(files) ==> files[n] == old(files)[n]
    {
      if name !in files {
        if !create { return false; }
        var f := new MemFile(name, deleteOnClose, []);
        files := files[name := f];
      }
      var f := files[name];
      handles := handles[id := f];
      assert forall g :: g in Objects() ==> g in old(Objects()) || g == f;
      return true;
    }

    method Close(id: int)
      requires Valid()
      modifies this`files, this`handles
      ensures Valid() && handles == old(handles) - {id}
      ensures files == if id in old(handles) && old(handles)[id].deleteOnClose
                       then old(files) - {old(handles)[id].name} else old(files)
    {
      if id in handles {
        var f := handles[id];
        handles := handles - {id};
        if f.deleteOnClose {
          files := files - {f.name};
        }
      } else {
        assert handles == handles - {id};
      }
    }

    /** Reads through a handle: the file's bytes, then zeros past its end; `full` says none were missing. */
    method XRead(id: int, target: array<Byte>, at: nat) returns (ok: bool, full: bool)
      requires Valid() && forall f :: f in Objects() ==> f.data != target
      modifies target
      ensures Valid() && (ok <==> id in handles)
      ensures ok ==> target[..] == ReadBytes(handles[id].Contents(), at, target.Length)
      ensures ok ==> (full <==> target.Length == 0 || at + target.Length <= handles[id].size)
      ensures !ok ==> !full && target[..] == old(target[..])
      ensures forall f :: f in Objects() ==> f.Contents() == old(f.Contents())
    {
      if id !in handles { return false, false; }
      full := handles[id].Read(target, at);
      return true, full;
    }

    /** Writes through a handle: exactly the file behind it changes, under every name and handle it has. */
    method XWrite(id: int, bytes: Bytes, at: nat) returns (ok: bool)
      requires Valid()
      modifies this`writes, set f | f in handles.Values, set f | f in handles.Values :: f.data
      ensures Valid() && (ok <==> id in handles)
      ensures writes == if ok then old(writes) + 1 else old(writes)
      ensures ok && at <= old(handles[id].size) ==>
                handles[id].Contents() == Overwritten(old(handles[id].Contents()), at, bytes)
      ensures ok && at > old(handles[id].size) && at + |bytes| > old(handles[id].data.Length) ==>
                handles[id].Contents() ==
                Overwritten(old(handles[id].Contents()) + Zeros(at - old(handles[id].size)), at, bytes)
      ensures ok && at > old(handles[id].size) && at + |bytes| <= old(handles[id].data.Length) ==>
                handles[id].Contents() == Overwritten(old(handles[id].data[..at]), at, bytes)
      ensures ok ==> handles[id].peak == (if handles[id].size > old(handles[id].peak)
                                          then handles[id].size else old(handles[id].peak))
      ensures forall f :: f in Objects() && (ok ==> f != handles[id]) ==> f.Contents() == old(f.Contents())
    {
      if id !in handles { return false; }
      var f := handles[id];
      f.Write(bytes, at);
      writes := writes + 1;
      return true;
    }

    method XTruncate(id: int, newSize: nat) returns (ok: bool)
      requires Valid()
      modifies this`writes, set f | f in handles.Values
      ensures Valid() && (ok <==> id in handles)
      ensures writes == if ok then old(writes) + 1 else old(writes)
      ensures ok ==> handles[id].Contents() ==
                     old(if newSize < handles[id].size then handles[id].Contents()[..newSize] else handles[id].Contents())
      ensures forall f :: f in Objects() && (ok ==> f != handles[id]) ==> f.Contents() == old(f.Contents())
    {
      if id !in handles { return false; }
      handles[id].Truncate(newSize);
      writes := writes + 1;
      return true;
    }

    /** A copy of the named file, or nothing when there is none. */
    method Snapshot(name: string) returns (bytes: Option<Bytes>)
      requires Valid()
      ensures bytes.Some? <==> name in files
      ensures name in files && files[name] in Objects() ==> bytes == Some(files[name].Contents())
    {
      if name !in files { return None; }
      var copy := files[name].Snapshot();
      return Some(copy);
    }

    method XDelete(name: string)
      requires Valid()
      modifies this`files, this`writes
      ensures Valid() && files == old(files) - {name}
      ensures writes == if name in old(files) then old(writes) + 1 else old(writes)
    {
      if name in files {
        files := files - {name};
        writes := writes + 1;
      } else {
        assert files == files - {name};
      }
    }
  }
}
