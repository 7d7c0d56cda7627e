/**
 * An opened container as a value: its manifest, its files, the canonical tree
 * digests, and the signature over the manifest's attested part.
 *
 * Hashes and signatures are free constructors over what was hashed or signed.
 * How a signature block is written to and read from bytes is a parameter.
 */
module Poid {
  import opened Wrappers
  import opened FileTree

  type Files = seq<File<Bytes>>

  // ----------------------------------------------------------------- manifest

  datatype ContainerType = App | Data | Workspace
  datatype Mode = Embedded | Vault | Connection
  datatype Filesystem = NoAccess | UserInitiated

  datatype AppInfo = AppInfo(id: string, details: string)
  datatype Instance = Instance(id: Option<nat>, extra: string)
  datatype Storage = Storage(mode: Mode, slots: Option<bool>, guarded: Option<bool>, quota: Option<nat>,
                             schema: Option<nat>, needs: Option<string>, extra: string)
  datatype Permissions = Permissions(network: Option<seq<string>>, filesystem: Option<Filesystem>, clipboard: Option<bool>,
                                     printing: Option<bool>, notifications: Option<bool>, mcp: Option<seq<string>>,
                                     extra: string)
  datatype Integrity = Integrity(app: Option<Digest>, deps: Option<Digest>, extra: string)

  datatype Manifest = Manifest(
    poid: string, kind: ContainerType, app: Option<AppInfo>, instance: Option<Instance>, draft: Option<bool>,
    runtime: Option<string>, entry: Option<string>, storage: Option<Storage>, permissions: Option<Permissions>,
    sharedScope: Option<seq<string>>, dataRef: Option<string>, integrity: Option<Integrity>, extra: string)

  // ------------------------------------------------------------------ digests

  datatype Hash = Sha(data: seq<Atom>)

  /** Hashed data is bytes, and, in the outer hash, the digests of the files. */
  datatype Atom = Octet(value: nat) | Inner(hash: Hash)

  /** A digest field of a manifest: the hex form of a hash, or any other text. */
  datatype Digest = Hex(hash: Hash) | OtherText(text: string)

  function PathAtoms(path: string): (r: seq<Atom>)
    ensures |r| == |path| && forall k :: 0 <= k < |path| ==> r[k] == Octet(path[k] as nat)
  {
    seq(|path|, k requires 0 <= k < |path| => Octet(path[k] as nat))
  }

  function ByteAtoms(bytes: Bytes): (r: seq<Atom>)
    ensures |r| == |bytes| && forall k :: 0 <= k < |bytes| ==> r[k] == Octet(bytes[k])
  {
    seq(|bytes|, k requires 0 <= k < |bytes| => Octet(bytes[k]))
  }

  /** Path, a zero byte, content. */
  function FileHash(f: File<Bytes>): Hash {
    Sha(PathAtoms(f.path) + [Octet(0)] + ByteAtoms(f.content))
  }

  function FileHashes(t: Files): seq<Atom> {
    if t == [] then [] else FileHashes(t[..|t| - 1]) + [Inner(FileHash(t[|t| - 1]))]
  }

  function TreeDigest(files: Files, prefix: string): Option<Digest> {
    if Under(files, prefix) == [] then None else Some(Hex(Sha(FileHashes(Under(files, prefix)))))
  }

  function AppDir(): string { "app/" }
  function DepsDir(): string { "deps/" }
  function DataDir(): string { "data/" }
  function SlotsDir(): string { "slots/" }

  function Refresh(m: Manifest, files: Files): Manifest {
    var extra := if m.integrity.Some? then m.integrity.value.extra else "";
    m.(integrity := Some(Integrity(TreeDigest(files, AppDir()), TreeDigest(files, DepsDir()), extra)))
  }

  // --------------------------------------------------------------- signatures

  /** The attested part of a manifest; instance, storage and draft are left out. */
  datatype Payload = Payload(
    poid: string, kind: ContainerType, app: Option<AppInfo>, runtime: Option<string>, entry: Option<string>,
    permissions: Option<Permissions>, sharedScope: Option<seq<string>>, dataRef: Option<string>,
    integrityApp: Option<Digest>, integrityDeps: Option<Digest>)

  function StoredApp(m: Manifest): Option<Digest> {
    if m.integrity.Some? then m.integrity.value.app else None
  }

  function StoredDeps(m: Manifest): Option<Digest> {
    if m.integrity.Some? then m.integrity.value.deps else None
  }

  function PayloadOf(m: Manifest): Payload {
    Payload(m.poid, m.kind, m.app, m.runtime, m.entry, m.permissions, m.sharedScope, m.dataRef,
            StoredApp(m), StoredDeps(m))
  }

  datatype PublicKey = PublicKey(id: nat) | NotAKey
  datatype Signature = Signed(key: nat, payload: Payload) | Forged | NotASignature

  datatype Block = Block(version: nat, ed25519: bool, key: PublicKey, signature: Signature)

  /** How signature blocks are written as JSON and read back. */
  datatype Codec = Codec(write: Block -> Bytes, read: Bytes -> Option<Block>)

  /** Reading back what was written. */
  ghost predicate Faithful(codec: Codec) {
    forall b :: codec.read(codec.write(b)) == Some(b)
  }

  datatype Status = Unsigned | Valid(key: nat) | Invalid

  datatype PoidError = IntegrityMismatch | SignatureMalformed | InvalidPath | UpdateMismatch

  function SignaturePath(): string { "signature/signature.json" }

  /** Malformed blocks are errors; a well-formed one that does not verify is merely invalid. */
  function VerifyBlock(m: Manifest, bytes: Bytes, codec: Codec): Result<Status, PoidError> {
    match codec.read(bytes)
    case None => Err(SignatureMalformed)
    case Some(b) =>
      if b.version != 1 || !b.ed25519 || b.key.NotAKey? || b.signature.NotASignature? then Err(SignatureMalformed)
      else if b.signature == Signed(b.key.id, PayloadOf(m)) then Ok(Valid(b.key.id))
      else Ok(Invalid)
  }

  // --------------------------------------------------------------- containers

  datatype Container = Container(manifest: Manifest, files: Files)

  ghost predicate WellFormed(c: Container) {
    Ordered(c.files)
  }

  predicate Verifies(c: Container) {
    && TreeDigest(c.files, AppDir()) == StoredApp(c.manifest)
    && TreeDigest(c.files, DepsDir()) == StoredDeps(c.manifest)
  }

  function SignatureStatus(c: Container, codec: Codec): Result<Status, PoidError> {
    match Lookup(c.files, SignaturePath())
    case None => Ok(Unsigned)
    case Some(bytes) => VerifyBlock(c.manifest, bytes, codec)
  }

  /** Intact content under a signature that verifies. */
  predicate Sealed(c: Container, key: nat, codec: Codec) {
    Verifies(c) && SignatureStatus(c, codec) == Ok(Valid(key))
  }

  // ------------------------------------------------------------- what changes

  function DataStore(): string { "data/store.json" }
  function DataStoreEnc(): string { "data/store.enc" }
  function DataSql(): string { "data/database.sql" }
  function CurrentSlot(): string { "slots/current" }
  function CurrentName(): string { "current" }

  function SlotStore(slot: string): string {
    SlotsDir() + slot + "/store.json"
  }

  predicate IsState(path: string) {
    DataDir() <= path || SlotsDir() <= path
  }

  predicate PlainSlot(slot: string) {
    && slot != "" && '/' !in slot && '\\' !in slot && '\0' !in slot
    && slot != ['.'] && slot != ['.', '.'] && slot != CurrentName()
  }

  /** What a reader does to a container, the slot pointer's bytes given as written. */
  datatype Op =
    | SetInstanceId(id: nat)
    | SetData(bytes: Bytes)
    | SetSqlData(bytes: Bytes)
    | SetSlotData(slot: string, bytes: Bytes)
    | SetCurrentSlot(pointer: Bytes)
    | Protect(envelope: Bytes)
    | Unprotect(bytes: Bytes)
    | ClearData
    | ConvertMode(mode: Mode)
    | Repack

  function StorageOf(m: Manifest): Storage {
    if m.storage.Some? then m.storage.value else Storage(Embedded, None, None, None, None, None, "")
  }

  function DropState(files: Files): Files {
    Retain(files, (p: string) => !IsState(p))
  }

  function WithInstance(m: Manifest, id: nat): Manifest {
    m.(instance := Some(Instance(Some(id), if m.instance.Some? then m.instance.value.extra else "")))
  }

  function Cleared(c: Container): Container {
    var m := c.manifest;
    Container(if m.instance.Some? then m.(instance := Some(m.instance.value.(id := None))) else m, DropState(c.files))
  }

  function Converted(c: Container, mode: Mode): Container {
    var storage := StorageOf(c.manifest);
    var m := c.manifest.(storage := Some(storage.(mode := mode)));
    Container(m, if storage.mode == Embedded && mode != Embedded then DropState(c.files) else c.files)
  }

  function PutFile(c: Container, path: string, bytes: Bytes): Container {
    c.(files := Put(c.files, path, bytes))
  }

  function Guarded(c: Container, on: bool): Container {
    c.(manifest := c.manifest.(storage := Some(StorageOf(c.manifest).(guarded := Some(on)))))
  }

  /** The container after one step; a refused slot name changes nothing. */
  function Apply(c: Container, op: Op): Container {
    match op
    case SetInstanceId(id) => c.(manifest := WithInstance(c.manifest, id))
    case SetData(bytes) => PutFile(c, DataStore(), bytes)
    case SetSqlData(bytes) => PutFile(c, DataSql(), bytes)
    case SetSlotData(slot, bytes) => if PlainSlot(slot) then PutFile(c, SlotStore(slot), bytes) else c
    case SetCurrentSlot(pointer) => PutFile(c, CurrentSlot(), pointer)
    case Protect(envelope) =>
      Guarded(c.(files := Put(Remove(c.files, DataStore()), DataStoreEnc(), envelope)), true)
    case Unprotect(bytes) =>
      Guarded(c.(files := Put(Remove(c.files, DataStoreEnc()), DataStore(), bytes)), false)
    case ClearData => Cleared(c)
    case ConvertMode(mode) => Converted(c, mode)
    case Repack => c.(manifest := Refresh(c.manifest, c.files))
  }

  function ApplyAll(c: Container, ops: seq<Op>): Container {
    if ops == [] then c else Apply(ApplyAll(c, ops[..|ops| - 1]), ops[|ops| - 1])
  }

  function SignedWith(c: Container, key: nat, codec: Codec): Container {
    var m := Refresh(c.manifest, c.files);
    var block := Block(1, true, PublicKey(key), Signed(key, PayloadOf(m)));
    Container(m, Put(c.files, SignaturePath(), codec.write(block)))
  }
}
