/** The native receive requests of contract version 2, and the shape each has on the wire. */
module NativeTypes {
  import opened Foundation
  import opened Errors
  import opened Order
  import opened MlsTypes
  import opened Cbor

  const PROFILE: u16 := 2
  const REQUEST_MAX := 12 * MIB
  const STORAGE_MAX := 6 * MIB
  const STORAGE_MAX_ENTRIES := 4096
  const KEY_MAX := 4096
  const VALUE_MAX := 2 * MIB
  const MESSAGE_MAX := MIB
  const TREE_MAX := 2 * MIB
  const AAD_MAX := 16 * 1024
  const SIGNER_MAX := 4096

  datatype Snapshot = Snapshot(format: u32, entries: seq<StorageEntry>)

  datatype Operation = Application | Commit | Welcome

  datatype Request =
    | Process(operation: Operation, profile: u16, groupId: Bytes, message: Bytes, aad: Bytes, sender: Leaf,
              previous: ExpectedState, resulting: ExpectedState, baseSha256: Bytes, storage: Snapshot,
              messageState: ExpectedState, retention: u32, messageSha256: Bytes, incarnationId: Bytes)
    | Join(profile: u16, welcome: Bytes, ratchetTree: Option<Bytes>, signer: Bytes, localLeaf: Leaf,
           resulting: ExpectedState, keyPackageSha256: Bytes, storage: Snapshot, retention: u32,
           incarnationId: Bytes, welcomeSha256: Bytes)

  /** The same request with its storage rows in key order. */
  function Canonical(r: Request): Request {
    r.(storage := SortedSnapshot(r.storage))
  }

  function SortedSnapshot(s: Snapshot): Snapshot {
    s.(entries := SortBy(EntryKey, s.entries))
  }

  // ---------------------------------------------------------------- wire shapes

  const Null := Simple(22)

  function OptionalTree(b: Option<Bytes>): Tree {
    if b.Some? then Text(b.value) else Null
  }

  function LeafTree(l: Leaf): Tree {
    Record3(Number(l.index), Text(l.identity), Text(l.signatureKey))
  }

  function StateTree(s: ExpectedState): Tree {
    Record3(Text(s.groupId), Number(s.epoch), Text(s.digest))
  }

  function RowTree(e: StorageEntry): Tree {
    Record3(Text(e.key), Text(e.value), OptionalTree(e.groupId))
  }

  function Record3(a: Tree, b: Tree, c: Tree): Tree {
    var f := Field(2, c, End);
    var f := Field(1, b, f);
    Dict(Field(0, a, f))
  }

  function RowTrees(rows: seq<StorageEntry>): (ts: seq<Tree>)
    ensures |ts| == |rows|
  {
    if rows == [] then [] else [RowTree(rows[0])] + RowTrees(rows[1..])
  }

  /** A snapshot with its rows in the order given. */
  function WireTree(format: nat, rows: seq<StorageEntry>): Tree {
    var f := Field(1, List(RowTrees(rows)), End);
    Dict(Field(0, Number(format), f))
  }

  function SnapshotTree(s: Snapshot): Tree {
    WireTree(s.format, SortBy(EntryKey, s.entries))
  }

  function ProcessFields(r: Request): Fields
    requires r.Process?
  {
    ProcessFieldsWith(r, SnapshotTree(r.storage))
  }

  function JoinFields(r: Request): Fields
    requires r.Join?
  {
    JoinFieldsWith(r, SnapshotTree(r.storage))
  }

  /** The fields in wire order around a given storage value. */
  function ProcessFieldsWith(r: Request, storage: Tree): Fields
    requires r.Process?
  {
    var f := Field(12, Text(r.incarnationId), End);
    var f := Field(11, Text(r.messageSha256), f);
    var f := Field(10, Number(r.retention), f);
    var f := Field(9, StateTree(r.messageState), f);
    var f := Field(8, storage, f);
    var f := Field(7, Text(r.baseSha256), f);
    var f := Field(6, StateTree(r.resulting), f);
    var f := Field(5, StateTree(r.previous), f);
    var f := Field(4, LeafTree(r.sender), f);
    var f := Field(3, Text(r.aad), f);
    var f := Field(2, Text(r.message), f);
    var f := Field(1, Text(r.groupId), f);
    Field(0, Number(r.profile), f)
  }

  function JoinFieldsWith(r: Request, storage: Tree): Fields
    requires r.Join?
  {
    var f := Field(10, Text(r.welcomeSha256), End);
    var f := Field(9, Text(r.incarnationId), f);
    var f := Field(8, Number(r.retention), f);
    var f := Field(7, storage, f);
    var f := Field(6, Text(r.keyPackageSha256), f);
    var f := Field(5, StateTree(r.resulting), f);
    var f := Field(4, LeafTree(r.localLeaf), f);
    var f := Field(3, Text(r.signer), f);
    var f := Field(2, OptionalTree(r.ratchetTree), f);
    var f := Field(1, Text(r.welcome), f);
    Field(0, Number(r.profile), f)
  }

  function RequestTree(r: Request): Tree {
    Dict(if r.Process? then ProcessFields(r) else JoinFields(r))
  }

  function RequestTreeWith(r: Request, storage: Tree): Tree {
    Dict(if r.Process? then ProcessFieldsWith(r, storage) else JoinFieldsWith(r, storage))
  }

  // ---------------------------------------------------------------- what the encoder checks, in its order

  function Exact(b: Bytes, n: nat): Result<(), MlsError> {
    Need(|b| == n, InternalFailure)
  }

  function Range(b: Bytes, minimum: nat, maximum: nat): Result<(), MlsError> {
    Need(Within(b, minimum, maximum), LimitExceeded)
  }

  function CheckProfile(profile: nat): Result<(), MlsError> {
    Need(profile == PROFILE, UnsupportedProfile)
  }

  function CheckRetention(retention: nat): Result<(), MlsError> {
    Need(RetentionSupported(retention), UnsupportedRetention)
  }

  function CheckLeaf(l: Leaf): Result<(), MlsError> {
    var _ :- Exact(l.identity, 45);
    Exact(l.signatureKey, 32)
  }

  function CheckState(s: ExpectedState): Result<(), MlsError> {
    var _ :- Exact(s.groupId, 16);
    Exact(s.digest, 32)
  }

  function EntrySize(e: StorageEntry): nat {
    |e.key| + |e.value| + (if e.groupId.Some? then |e.groupId.value| else 0)
  }

  function TotalSize(rows: seq<StorageEntry>): nat {
    if rows == [] then 0 else EntrySize(rows[0]) + TotalSize(rows[1..])
  }

  function CheckEntry(e: StorageEntry, expected: Option<Bytes>): Result<(), MlsError> {
    var _ :- Range(e.key, 1, KEY_MAX);
    var _ :- Range(e.value, 0, VALUE_MAX);
    var _ :- if e.groupId.Some? then Exact(e.groupId.value, 16) else Ok(());
    Need(if IsGlobalKey(e.key) then e.groupId.None? else e.groupId == expected, InvalidStorageSnapshot)
  }

  function CheckEntries(rows: seq<StorageEntry>, expected: Option<Bytes>): Result<(), MlsError> {
    if rows == [] then Ok(()) else
    var _ :- CheckEntry(rows[0], expected);
    CheckEntries(rows[1..], expected)
  }

  function CheckSnapshot(s: Snapshot, expected: Option<Bytes>): Result<(), MlsError> {
    var _ :- Need(s.format == 1 && |s.entries| <= STORAGE_MAX_ENTRIES, StorageFormatMismatch);
    var rows := SortBy(EntryKey, s.entries);
    var _ :- Need(!HasAdjacentTwins(EntryKey, rows), InvalidStorageSnapshot);
    var _ :- CheckEntries(rows, expected);
    Need(TotalSize(rows) <= STORAGE_MAX, LimitExceeded)
  }

  function CheckRequest(r: Request): Result<(), MlsError> {
    match r
    case Process(operation, profile, groupId, message, aad, sender, previous, resulting, base, storage, state, retention, sha, id) =>
      var _ :- Need(operation != Welcome, UnsupportedOperation);
      var _ :- CheckProfile(profile);
      var _ :- Exact(groupId, 16);
      var _ :- Range(message, 1, MESSAGE_MAX);
      var _ :- Range(aad, 1, AAD_MAX);
      var _ :- Exact(base, 32);
      var _ :- CheckLeaf(sender);
      var _ :- CheckState(previous);
      var _ :- CheckState(resulting);
      var _ :- CheckSnapshot(storage, Some(groupId));
      var _ :- CheckState(state);
      var _ :- CheckRetention(retention);
      var _ :- Exact(sha, 32);
      Range(id, 1, 128)
    case Join(profile, welcome, tree, signer, leaf, resulting, package, storage, retention, id, sha) =>
      var _ :- CheckProfile(profile);
      var _ :- Range(welcome, 1, MESSAGE_MAX);
      var _ :- if tree.Some? then Range(tree.value, 1, TREE_MAX) else Ok(());
      var _ :- Range(signer, 1, SIGNER_MAX);
      var _ :- Exact(package, 32);
      var _ :- CheckLeaf(leaf);
      var _ :- CheckState(resulting);
      var _ :- CheckSnapshot(storage, None);
      var _ :- CheckRetention(retention);
      var _ :- Range(id, 1, 128);
      Exact(sha, 32)
  }

  // ---------------------------------------------------------------- frames

  const MAGIC: Bytes := [0x4b, 0x4d, 0x4c, 0x53]
  const HEADER := 12

  function Opcode(r: Request): byte {
    if r.Join? then 3 else if r.operation == Application then 1 else 2
  }

  function Frame(version: u16, op: byte, payload: Bytes): Bytes {
    MAGIC + BE(2, version) + [op, 0] + BE(4, |payload|) + payload
  }

  function EncodeFrame(version: u16, op: byte, payload: Bytes, maximum: nat): Result<Bytes, MlsError> {
    if HEADER + |payload| > maximum then Err(LimitExceeded) else Ok(Frame(version, op, payload))
  }

  function EncodeRequest(r: Request): Result<Bytes, MlsError> {
    var _ :- CheckRequest(r);
    EncodeFrame(2, Opcode(r), Enc(RequestTree(r)), REQUEST_MAX)
  }
}
