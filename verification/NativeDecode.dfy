/** The native request decoder of contract version 2, and that it inverts the encoder. */
module NativeDecode {
  import opened Foundation
  import opened Errors
  import opened Order
  import opened MlsTypes
  import opened Cbor
  import opened NativeTypes
  import opened NativeLimits
  import Preflight

  // ---------------------------------------------------------------- field readers

  function ExpectMap(s: Bytes, n: nat): Result<Bytes, MlsError> {
    match ReadLength(MAP, s)
    case Some((Some(m), k)) => if m == n then Ok(k) else Err(NoncanonicalEncoding)
    case _ => Err(NoncanonicalEncoding)
  }

  function ExpectKey(s: Bytes, key: nat): Result<Bytes, MlsError> {
    match ReadUint(s, 0x100)
    case Some((n, k)) => if n == key then Ok(k) else Err(NoncanonicalEncoding)
    case None => Err(NoncanonicalEncoding)
  }

  function GetNumber(s: Bytes, limit: nat): (r: Result<(nat, Bytes), MlsError>)
    ensures r.Ok? ==> r.value.0 < limit
  {
    match ReadUint(s, limit)
    case Some(v) => Ok(v)
    case None => Err(NoncanonicalEncoding)
  }

  function GetBlob(s: Bytes, minimum: nat, maximum: nat): (r: Result<(Bytes, Bytes), MlsError>)
    ensures r.Ok? ==> Within(r.value.0, minimum, maximum)
  {
    match ReadBlob(s)
    case Some((d, k)) => if Within(d, minimum, maximum) then Ok((d, k)) else Err(LimitExceeded)
    case None => Err(NoncanonicalEncoding)
  }

  function NumberAt(s: Bytes, key: nat, limit: nat): (r: Result<(nat, Bytes), MlsError>)
    ensures r.Ok? ==> r.value.0 < limit
  {
    var k :- ExpectKey(s, key);
    GetNumber(k, limit)
  }

  function BlobAt(s: Bytes, key: nat, minimum: nat, maximum: nat): (r: Result<(Bytes, Bytes), MlsError>)
    ensures r.Ok? ==> Within(r.value.0, minimum, maximum)
  {
    var k :- ExpectKey(s, key);
    GetBlob(k, minimum, maximum)
  }

  /** A value that is null or a byte string, told apart by its first byte. */
  function OptionalAt(s: Bytes, key: nat, minimum: nat, maximum: nat): Result<(Option<Bytes>, Bytes), MlsError> {
    var k :- ExpectKey(s, key);
    match Peek(k)
    case Some(NullKind) => Ok((None, k[1..]))
    case Some(BytesKind) =>
      var (d, k) :- GetBlob(k, minimum, maximum);
      Ok((Some(d), k))
    case _ => Err(NoncanonicalEncoding)
  }

  const U16 := 0x1_0000
  const U32 := 0x1_0000_0000
  const U64 := 0x1_0000_0000_0000_0000

  function GetLeaf(s: Bytes): Result<(Leaf, Bytes), MlsError> {
    var s :- ExpectMap(s, 3);
    var (index, s) :- NumberAt(s, 0, U32);
    var (identity, s) :- BlobAt(s, 1, 45, 45);
    var (signatureKey, s) :- BlobAt(s, 2, 32, 32);
    Ok((Leaf(index, identity, signatureKey), s))
  }

  function GetState(s: Bytes): Result<(ExpectedState, Bytes), MlsError> {
    var s :- ExpectMap(s, 3);
    var (groupId, s) :- BlobAt(s, 0, 16, 16);
    var (epoch, s) :- NumberAt(s, 1, U64);
    var (digest, s) :- BlobAt(s, 2, 32, 32);
    Ok((ExpectedState(groupId, epoch, digest), s))
  }

  function LeafAt(s: Bytes, key: nat): Result<(Leaf, Bytes), MlsError> {
    var k :- ExpectKey(s, key);
    GetLeaf(k)
  }

  function StateAt(s: Bytes, key: nat): Result<(ExpectedState, Bytes), MlsError> {
    var k :- ExpectKey(s, key);
    GetState(k)
  }

  // ---------------------------------------------------------------- storage rows, read twice

  function GetRow(s: Bytes): Result<(StorageEntry, Bytes), MlsError> {
    var s :- ExpectMap(s, 3);
    var (key, s) :- BlobAt(s, 0, 1, KEY_MAX);
    var (value, s) :- BlobAt(s, 1, 0, VALUE_MAX);
    var (groupId, s) :- OptionalAt(s, 2, 16, 16);
    Ok((StorageEntry(key, value, groupId), s))
  }

  /** The borrowed pass over one row: its size, without keeping it. */
  function ScanRow(s: Bytes, expected: Option<Bytes>): Result<(nat, Bytes), MlsError> {
    var s :- ExpectMap(s, 3);
    var s :- ExpectKey(s, 0);
    var (key, s) :- Borrow(s);
    var _ :- Range(key, 1, KEY_MAX);
    var s :- ExpectKey(s, 1);
    var (value, s) :- Borrow(s);
    var _ :- Range(value, 0, VALUE_MAX);
    var s :- ExpectKey(s, 2);
    match Peek(s)
    case Some(NullKind) => Ok((|key| + |value|, s[1..]))
    case Some(BytesKind) =>
      var (group, s) :- Borrow(s);
      var _ :- Exact(group, 16);
      if expected != Some(group) then Err(InvalidStorageSnapshot) else Ok((|key| + |value| + |group|, s))
    case _ => Err(NoncanonicalEncoding)
  }

  function Borrow(s: Bytes): Result<(Bytes, Bytes), MlsError> {
    match ReadBlob(s)
    case Some(v) => Ok(v)
    case None => Err(NoncanonicalEncoding)
  }

  function ScanRows(n: nat, s: Bytes, expected: Option<Bytes>, total: nat): Result<Bytes, MlsError> {
    if n == 0 then Ok(s) else
    var (size, k) :- ScanRow(s, expected);
    if total + size > STORAGE_MAX then Err(LimitExceeded) else ScanRows(n - 1, k, expected, total + size)
  }

  function OwnRows(n: nat, s: Bytes, expected: Option<Bytes>, total: nat): Result<(seq<StorageEntry>, Bytes), MlsError> {
    if n == 0 then Ok(([], s)) else
    var (row, k) :- GetRow(s);
    if total + EntrySize(row) > STORAGE_MAX then Err(LimitExceeded)
    else if row.groupId.Some? && row.groupId != expected then Err(InvalidStorageSnapshot) else
    var (rows, k) :- OwnRows(n - 1, k, expected, total + EntrySize(row));
    Ok(([row] + rows, k))
  }

  function GetSnapshot(s: Bytes, expected: Option<Bytes>): Result<(Snapshot, Bytes), MlsError> {
    var s :- ExpectMap(s, 2);
    var (format, s) :- NumberAt(s, 0, U32);
    if format != 1 then Err(StorageFormatMismatch) else
    var s :- ExpectKey(s, 1);
    var (count, s) :- GetCount(s, STORAGE_MAX_ENTRIES);
    var _ :- ScanRows(count, s, expected, 0);
    var (wire, s) :- OwnRows(count, s, expected, 0);
    var rows := SortBy(EntryKey, wire);
    if HasAdjacentTwins(EntryKey, rows) then Err(InvalidStorageSnapshot) else Ok((Snapshot(format, rows), s))
  }

  function GetCount(s: Bytes, maximum: nat): (r: Result<(nat, Bytes), MlsError>)
    ensures r.Ok? ==> r.value.0 <= maximum
  {
    match ReadLength(ARRAY, s)
    case Some((Some(n), k)) => if n > maximum then Err(LimitExceeded) else Ok((n, k))
    case _ => Err(NoncanonicalEncoding)
  }

  function SnapshotAt(s: Bytes, key: nat, expected: Option<Bytes>): Result<(Snapshot, Bytes), MlsError> {
    var k :- ExpectKey(s, key);
    GetSnapshot(k, expected)
  }

  // ---------------------------------------------------------------- requests

  function GetProcess(s: Bytes, operation: Operation): Result<(Request, Bytes), MlsError> {
    var s :- ExpectMap(s, 13);
    var (profile, s) :- NumberAt(s, 0, U16);
    var _ :- CheckProfile(profile);
    var (groupId, s) :- BlobAt(s, 1, 16, 16);
    var (message, s) :- BlobAt(s, 2, 1, MESSAGE_MAX);
    var (aad, s) :- BlobAt(s, 3, 1, AAD_MAX);
    var (sender, s) :- LeafAt(s, 4);
    var (previous, s) :- StateAt(s, 5);
    var (resulting, s) :- StateAt(s, 6);
    var (base, s) :- BlobAt(s, 7, 32, 32);
    var (storage, s) :- SnapshotAt(s, 8, Some(groupId));
    var (state, s) :- StateAt(s, 9);
    var (retention, s) :- NumberAt(s, 10, U32);
    var _ :- CheckRetention(retention);
    var (sha, s) :- BlobAt(s, 11, 32, 32);
    var (id, s) :- BlobAt(s, 12, 1, 128);
    Ok((Process(operation, profile, groupId, message, aad, sender, previous, resulting, base, storage, state, retention, sha, id), s))
  }

  function GetJoin(s: Bytes): Result<(Request, Bytes), MlsError> {
    var s :- ExpectMap(s, 11);
    var (profile, s) :- NumberAt(s, 0, U16);
    var _ :- CheckProfile(profile);
    var (welcome, s) :- BlobAt(s, 1, 1, MESSAGE_MAX);
    var (tree, s) :- OptionalAt(s, 2, 1, TREE_MAX);
    var (signer, s) :- BlobAt(s, 3, 1, SIGNER_MAX);
    var (leaf, s) :- LeafAt(s, 4);
    var (resulting, s) :- StateAt(s, 5);
    var (package, s) :- BlobAt(s, 6, 32, 32);
    var (storage, s) :- SnapshotAt(s, 7, None);
    var (retention, s) :- NumberAt(s, 8, U32);
    var _ :- CheckRetention(retention);
    var (id, s) :- BlobAt(s, 9, 1, 128);
    var (sha, s) :- BlobAt(s, 10, 32, 32);
    Ok((Join(profile, welcome, tree, signer, leaf, resulting, package, storage, retention, id, sha), s))
  }

  function Operation(op: nat): Result<Operation, MlsError> {
    if op == 1 then Ok(Application)
    else if op == 2 then Ok(Commit)
    else if op == 3 then Ok(Welcome)
    else Err(UnsupportedOperation)
  }

  /** The header common to both contract versions: the operation byte and the payload. */
  function DecodeHeader(version: u16, frame: Bytes): Result<(byte, Bytes), MlsError> {
    if |frame| > REQUEST_MAX then Err(LimitExceeded)
    else if |frame| < HEADER || frame[..4] != MAGIC then Err(InvalidFrame)
    else if FromBE(frame[4..6]) != version then Err(UnsupportedContractVersion)
    else if frame[7] != 0 then Err(InvalidFrame)
    else if FromBE(frame[8..12]) != |frame| - HEADER then Err(InvalidFrame)
    else Ok((frame[6], frame[HEADER..]))
  }

  function DecodePayload(operation: Operation, payload: Bytes): Result<Request, MlsError> {
    var _ :- Preflight.Recognise(payload);
    var (request, rest) :- if operation == Welcome then GetJoin(payload) else GetProcess(payload, operation);
    if rest != [] then Err(NoncanonicalEncoding) else Ok(request)
  }

  function DecodeRequest(frame: Bytes): Result<Request, MlsError> {
    var (op, payload) :- DecodeHeader(2, frame);
    var operation :- Operation(op);
    DecodePayload(operation, payload)
  }

  // ---------------------------------------------------------------- each reader inverts its writer

  lemma KeyReads(key: nat, value: Tree, more: Fields, k: Bytes)
    requires key < 0x100
    ensures ExpectKey(EncEntries(Field(key, value, more)) + k, key) == Ok(Enc(value) + (EncEntries(more) + k))
  {
    hide Enc, EncEntries, ReadUint;
    FieldBytes(key, value, more, k);
    ReadsBack();
  }

  lemma MapReads(es: Fields, k: Bytes)
    requires Count(es) <= 32
    ensures ExpectMap(Enc(Dict(es)) + k, Count(es)) == Ok(EncEntries(es) + k)
  {
    hide Enc, EncEntries, ReadLength;
    DictBytes(es, k);
    ReadsBack();
  }

  lemma NumberReads(key: nat, n: nat, limit: nat, more: Fields, k: Bytes)
    requires key < 0x100 && n < limit <= U64
    ensures NumberAt(EncEntries(Field(key, Number(n), more)) + k, key, limit) == Ok((n, EncEntries(more) + k))
  {
    hide EncEntries, ExpectKey, ReadUint;
    KeyReads(key, Number(n), more, k);
    ReadsBack();
  }

  lemma BlobReads(key: nat, d: Bytes, minimum: nat, maximum: nat, more: Fields, k: Bytes)
    requires key < 0x100 && Within(d, minimum, maximum) && maximum < U64
    ensures BlobAt(EncEntries(Field(key, Text(d), more)) + k, key, minimum, maximum) == Ok((d, EncEntries(more) + k))
  {
    hide EncEntries, ExpectKey, ReadBlob;
    KeyReads(key, Text(d), more, k);
    ReadsBack();
  }

  lemma OptionalReads(key: nat, d: Option<Bytes>, minimum: nat, maximum: nat, more: Fields, k: Bytes)
    requires key < 0x100 && (d.Some? ==> Within(d.value, minimum, maximum)) && maximum < U64
    ensures OptionalAt(EncEntries(Field(key, OptionalTree(d), more)) + k, key, minimum, maximum) == Ok((d, EncEntries(more) + k))
  {
    hide EncEntries, ExpectKey, ReadBlob, Peek;
    KeyReads(key, OptionalTree(d), more, k);
    ReadsBack();
  }

  lemma LeafReads(l: Leaf, k: Bytes)
    requires CheckLeaf(l).Ok?
    ensures GetLeaf(Enc(LeafTree(l)) + k) == Ok((l, k))
  {
    hide Enc, EncEntries, ExpectMap, NumberAt, BlobAt;
    var f2 := Field(2, Text(l.signatureKey), End);
    var f1 := Field(1, Text(l.identity), f2);
    assert Count(f2) == 1 && Count(f1) == 2;
    MapReads(Field(0, Number(l.index), f1), k);
    NumberReads(0, l.index, U32, f1, k);
    BlobReads(1, l.identity, 45, 45, f2, k);
    BlobReads(2, l.signatureKey, 32, 32, End, k);
    NoEntries(k);
  }

  lemma NoEntries(k: Bytes)
    ensures EncEntries(End) + k == k
  {
  }

  lemma StateReads(s: ExpectedState, k: Bytes)
    requires CheckState(s).Ok?
    ensures GetState(Enc(StateTree(s)) + k) == Ok((s, k))
  {
    hide Enc, EncEntries, ExpectMap, NumberAt, BlobAt;
    var f2 := Field(2, Text(s.digest), End);
    var f1 := Field(1, Number(s.epoch), f2);
    assert Count(f2) == 1 && Count(f1) == 2;
    MapReads(Field(0, Text(s.groupId), f1), k);
    BlobReads(0, s.groupId, 16, 16, f1, k);
    NumberReads(1, s.epoch, U64, f2, k);
    BlobReads(2, s.digest, 32, 32, End, k);
    NoEntries(k);
  }

  lemma RowReads(e: StorageEntry, k: Bytes)
    requires RowInBounds(e)
    ensures GetRow(Enc(RowTree(e)) + k) == Ok((e, k))
  {
    hide Enc, EncEntries, ExpectMap, OptionalAt, BlobAt;
    var f2 := Field(2, OptionalTree(e.groupId), End);
    var f1 := Field(1, Text(e.value), f2);
    assert Count(f2) == 1 && Count(f1) == 2;
    MapReads(Field(0, Text(e.key), f1), k);
    BlobReads(0, e.key, 1, KEY_MAX, f1, k);
    BlobReads(1, e.value, 0, VALUE_MAX, f2, k);
    OptionalReads(2, e.groupId, 16, 16, End, k);
    NoEntries(k);
  }

  lemma LeafFieldReads(key: nat, l: Leaf, more: Fields, k: Bytes)
    requires key < 0x100 && CheckLeaf(l).Ok?
    ensures LeafAt(EncEntries(Field(key, LeafTree(l), more)) + k, key) == Ok((l, EncEntries(more) + k))
  {
    hide EncEntries, ExpectKey, GetLeaf, Enc, LeafTree;
    KeyReads(key, LeafTree(l), more, k);
    LeafReads(l, EncEntries(more) + k);
  }

  lemma StateFieldReads(key: nat, s: ExpectedState, more: Fields, k: Bytes)
    requires key < 0x100 && CheckState(s).Ok?
    ensures StateAt(EncEntries(Field(key, StateTree(s), more)) + k, key) == Ok((s, EncEntries(more) + k))
  {
    hide EncEntries, ExpectKey, GetState, Enc, StateTree;
    KeyReads(key, StateTree(s), more, k);
    StateReads(s, EncEntries(more) + k);
  }

  // ---------------------------------------------------------------- the two passes over the rows

  /** The borrowed pass accepts a row exactly when the owning pass does and the row is in scope; both stop at the same byte. */
  lemma PassesAgreeOnRow(s: Bytes, expected: Option<Bytes>)
    ensures ScanRow(s, expected).Ok? <==> GetRow(s).Ok? && GroupFits(GetRow(s).value.0, expected)
    ensures ScanRow(s, expected).Ok? ==>
              var (row, k) := GetRow(s).value; ScanRow(s, expected).value == (EntrySize(row), k)
  {
    hide ExpectMap, ExpectKey, ReadBlob, Peek;
  }

  /** A row may carry no group or the request's; which keys must carry one is the encoder's concern. */
  predicate GroupFits(e: StorageEntry, expected: Option<Bytes>) {
    e.groupId.Some? ==> e.groupId == expected
  }

  /** Once the borrowed pass succeeds the owning pass cannot fail, and conversely. */
  lemma {:induction false} PassesAgree(n: nat, s: Bytes, expected: Option<Bytes>, total: nat)
    requires total <= STORAGE_MAX
    ensures ScanRows(n, s, expected, total).Ok? <==> OwnRows(n, s, expected, total).Ok?
    ensures ScanRows(n, s, expected, total).Ok? ==>
              var (rows, k) := OwnRows(n, s, expected, total).value;
              && ScanRows(n, s, expected, total) == Ok(k) && |rows| == n
              && total + TotalSize(rows) <= STORAGE_MAX && forall e :: e in rows ==> GroupFits(e, expected)
  {
    hide ScanRow, GetRow;
    if n > 0 {
      PassesAgreeOnRow(s, expected);
      if ScanRow(s, expected).Ok? {
        var (row, k) := GetRow(s).value;
        if total + EntrySize(row) <= STORAGE_MAX {
          PassesAgree(n - 1, k, expected, total + EntrySize(row));
          if OwnRows(n - 1, k, expected, total + EntrySize(row)).Ok? {
            var rows := OwnRows(n - 1, k, expected, total + EntrySize(row)).value.0;
            assert ([row] + rows)[1..] == rows;
          }
        }
      }
    }
  }

  lemma {:induction false} InsertKeepsSize(e: StorageEntry, rows: seq<StorageEntry>)
    ensures TotalSize(Insert(EntryKey, e, rows)) == EntrySize(e) + TotalSize(rows)
  {
    hide LexLe, EntrySize;
    if rows != [] && !LexLe(e.key, rows[0].key) {
      InsertKeepsSize(e, rows[1..]);
    }
  }

  lemma {:induction false} SortKeepsSize(rows: seq<StorageEntry>)
    ensures TotalSize(SortBy(EntryKey, rows)) == TotalSize(rows)
  {
    if rows != [] {
      SortKeepsSize(rows[1..]);
      InsertKeepsSize(rows[0], SortBy(EntryKey, rows[1..]));
    }
  }

  /**
   * The envelope before the rows: the format version and the row count. Reading it, then the rows, is all
   * a snapshot decode does.
   */
  function GetEnvelope(s: Bytes): Result<(nat, Bytes), MlsError> {
    var s :- ExpectMap(s, 2);
    var (format, s) :- NumberAt(s, 0, U32);
    if format != 1 then Err(StorageFormatMismatch) else
    var s :- ExpectKey(s, 1);
    GetCount(s, STORAGE_MAX_ENTRIES)
  }

  /** After a successful borrowed pass only a repeated key can fail the decode. */
  lemma OnlyDuplicatesFail(s: Bytes, expected: Option<Bytes>)
    requires GetEnvelope(s).Ok?
    requires var (count, k) := GetEnvelope(s).value; ScanRows(count, k, expected, 0).Ok?
    ensures var (count, k) := GetEnvelope(s).value;
            && OwnRows(count, k, expected, 0).Ok?
            && var (wire, _) := OwnRows(count, k, expected, 0).value;
               && (GetSnapshot(s, expected).Ok? <==> DistinctBy(EntryKey, wire))
               && (GetSnapshot(s, expected).Err? ==> GetSnapshot(s, expected) == Err(InvalidStorageSnapshot))
  {
    hide ExpectMap, NumberAt, ExpectKey, GetCount, ScanRows, OwnRows, SortBy, TotalSize, GroupFits;
    var (count, k) := GetEnvelope(s).value;
    PassesAgree(count, k, expected, 0);
    var (wire, _) := OwnRows(count, k, expected, 0).value;
    var rows := SortBy(EntryKey, wire);
    SortSorts(EntryKey, wire);
    NoTwinsMeansDistinct(EntryKey, rows);
    if DistinctBy(EntryKey, wire) {
      SortKeepsDistinct(EntryKey, wire);
    } else {
      SortKeepsRepeats(EntryKey, wire);
    }
  }

  /** An accepted snapshot is the wire rows rearranged: strictly sorted, in scope and within the aggregate limit. */
  lemma AcceptedSnapshot(s: Bytes, expected: Option<Bytes>)
    requires GetSnapshot(s, expected).Ok?
    ensures GetEnvelope(s).Ok?
    ensures var rows := GetSnapshot(s, expected).value.0.entries;
            var (count, k) := GetEnvelope(s).value;
            && OwnRows(count, k, expected, 0).Ok?
            && multiset(rows) == multiset(OwnRows(count, k, expected, 0).value.0)
            && SortedBy(EntryKey, rows) && DistinctBy(EntryKey, rows)
            && |rows| <= STORAGE_MAX_ENTRIES && TotalSize(rows) <= STORAGE_MAX
            && forall e :: e in rows ==> GroupFits(e, expected)
  {
    hide ExpectMap, NumberAt, ExpectKey, GetCount, ScanRows, OwnRows, SortBy, TotalSize, GroupFits;
    var (count, k) := GetEnvelope(s).value;
    PassesAgree(count, k, expected, 0);
    var (wire, _) := OwnRows(count, k, expected, 0).value;
    SortSorts(EntryKey, wire);
    SortKeepsSize(wire);
    NoTwinsMeansDistinct(EntryKey, SortBy(EntryKey, wire));
    SortKeepsElements(EntryKey, wire);
  }

  // ---------------------------------------------------------------- storage written, then read

  lemma {:induction false} RowsRead(rows: seq<StorageEntry>, expected: Option<Bytes>, total: nat, k: Bytes)
    requires (forall e :: e in rows ==> RowInBounds(e) && GroupFits(e, expected)) && total + TotalSize(rows) <= STORAGE_MAX
    ensures OwnRows(|rows|, EncItems(RowTrees(rows)) + k, expected, total) == Ok((rows, k))
  {
    hide Enc, GetRow, RowTree, RowInBounds;
    if rows == [] {
      assert EncItems([]) + k == k;
    } else {
      var more := RowTrees(rows[1..]);
      RowReads(rows[0], EncItems(more) + k);
      ItemBytes(RowTree(rows[0]), more, k);
      RowsRead(rows[1..], expected, total + EntrySize(rows[0]), k);
      assert rows == [rows[0]] + rows[1..];
    }
  }

  /** Rows that may be received are read, whatever their order on the wire, and come out sorted. */
  lemma WireReads(rows: seq<StorageEntry>, expected: Option<Bytes>, k: Bytes)
    requires Receivable(rows, expected)
    ensures GetSnapshot(Enc(WireTree(1, rows)) + k, expected) == Ok((Snapshot(1, SortBy(EntryKey, rows)), k))
  {
    hide Enc, EncEntries, EncItems, ExpectMap, NumberAt, ExpectKey, ReadLength, ScanRows, OwnRows, SortBy, TotalSize, Volume, RowTrees,
         RowInBounds, DistinctBy, SortedBy, HasAdjacentTwins;
    var list := List(RowTrees(rows));
    var f1 := Field(1, list, End);
    assert Count(f1) == 1;
    MapReads(Field(0, Number(1), f1), k);
    NumberReads(0, 1, U32, f1, k);
    KeyReads(1, list, End, k);
    NoEntries(k);
    ListBytes(RowTrees(rows), k);
    ReadsBack();
    VolumeMeans(rows);
    RowsRead(rows, expected, 0, k);
    PassesAgree(|rows|, EncItems(RowTrees(rows)) + k, expected, 0);
    DistinctMeans(rows);
    SortSorts(EntryKey, rows);
    SortKeepsDistinct(EntryKey, rows);
    NoTwinsMeansDistinct(EntryKey, SortBy(EntryKey, rows));
  }

  /** The rows a checked snapshot sends may be received. */
  lemma SortedIsReceivable(s: Snapshot, expected: Option<Bytes>)
    requires CheckSnapshot(s, expected).Ok? && (expected.Some? ==> |expected.value| == 16)
    ensures s.format == 1 && Receivable(SortBy(EntryKey, s.entries), expected)
    ensures SortBy(EntryKey, SortBy(EntryKey, s.entries)) == SortBy(EntryKey, s.entries)
  {
    hide CheckSnapshot, SortBy, Volume, RowInBounds, SortedBy, DistinctBy;
    SnapshotCheckedExactly(s, expected);
    SortKeepsElements(EntryKey, s.entries);
    SortKeepsVolume(s.entries);
    SortSorts(EntryKey, s.entries);
    SortOfSorted(EntryKey, SortBy(EntryKey, s.entries));
    DemandedFits(s.entries, expected);
    DistinctMeans(s.entries);
    SortKeepsDistinct(EntryKey, s.entries);
    DistinctMeans(SortBy(EntryKey, s.entries));
  }

  lemma SnapshotReads(s: Snapshot, expected: Option<Bytes>, k: Bytes)
    requires CheckSnapshot(s, expected).Ok? && (expected.Some? ==> |expected.value| == 16)
    ensures GetSnapshot(Enc(SnapshotTree(s)) + k, expected) == Ok((SortedSnapshot(s), k))
  {
    hide GetSnapshot, Enc, CheckSnapshot, Receivable, SortBy;
    SortedIsReceivable(s, expected);
    WireReads(SortBy(EntryKey, s.entries), expected, k);
  }

  lemma WireFieldReads(key: nat, rows: seq<StorageEntry>, expected: Option<Bytes>, more: Fields, k: Bytes)
    requires key < 0x100 && Receivable(rows, expected)
    ensures SnapshotAt(EncEntries(Field(key, WireTree(1, rows), more)) + k, key, expected)
            == Ok((Snapshot(1, SortBy(EntryKey, rows)), EncEntries(more) + k))
  {
    hide EncEntries, ExpectKey, GetSnapshot, Enc, WireTree, Receivable, SortBy;
    KeyReads(key, WireTree(1, rows), more, k);
    WireReads(rows, expected, EncEntries(more) + k);
  }

  lemma SnapshotFieldReads(key: nat, s: Snapshot, expected: Option<Bytes>, more: Fields, k: Bytes)
    requires key < 0x100 && CheckSnapshot(s, expected).Ok? && (expected.Some? ==> |expected.value| == 16)
    ensures SnapshotAt(EncEntries(Field(key, SnapshotTree(s), more)) + k, key, expected) == Ok((SortedSnapshot(s), EncEntries(more) + k))
  {
    hide EncEntries, ExpectKey, GetSnapshot, Enc, SnapshotTree, CheckSnapshot, SortedSnapshot;
    KeyReads(key, SnapshotTree(s), more, k);
    SnapshotReads(s, expected, EncEntries(more) + k);
  }

  // ---------------------------------------------------------------- requests written, then read

  /** What is answered for a request whose other fields are in bounds, and what follows it. */
  function SettingsAnswer<T>(r: Request, good: T): Result<T, MlsError> {
    if r.profile != 2 then Err(UnsupportedProfile)
    else if r.retention != 2 && r.retention != 4 then Err(UnsupportedRetention)
    else Ok(good)
  }

  /** A request in bounds is read around any rows that may be received; a strange profile or retention is told apart. */
  lemma ProcessWireReads(r: Request, rows: seq<StorageEntry>, k: Bytes)
    requires r.Process? && FieldsInBounds(r) && Receivable(rows, Some(r.groupId)) && r.storage == Snapshot(1, SortBy(EntryKey, rows))
    requires Count(ProcessFieldsWith(r, WireTree(1, rows))) == 13
    ensures GetProcess(Enc(RequestTreeWith(r, WireTree(1, rows))) + k, r.operation) == SettingsAnswer(r, (r, k))
  {
    hide Enc, EncEntries, ExpectMap, NumberAt, BlobAt, LeafAt, StateAt, SnapshotAt, WireTree, StateTree, LeafTree, Receivable, Count, SortBy;
    var f0 := ProcessFieldsWith(r, WireTree(1, rows));
    var f1 := f0.more; var f2 := f1.more; var f3 := f2.more; var f4 := f3.more; var f5 := f4.more; var f6 := f5.more;
    var f7 := f6.more; var f8 := f7.more; var f9 := f8.more; var f10 := f9.more; var f11 := f10.more; var f12 := f11.more;
    MapReads(f0, k);
    NumberReads(0, r.profile, U16, f1, k);
    BlobReads(1, r.groupId, 16, 16, f2, k);
    BlobReads(2, r.message, 1, MESSAGE_MAX, f3, k);
    BlobReads(3, r.aad, 1, AAD_MAX, f4, k);
    LeafFieldReads(4, r.sender, f5, k);
    StateFieldReads(5, r.previous, f6, k);
    StateFieldReads(6, r.resulting, f7, k);
    BlobReads(7, r.baseSha256, 32, 32, f8, k);
    WireFieldReads(8, rows, Some(r.groupId), f9, k);
    StateFieldReads(9, r.messageState, f10, k);
    NumberReads(10, r.retention, U32, f11, k);
    BlobReads(11, r.messageSha256, 32, 32, f12, k);
    BlobReads(12, r.incarnationId, 1, 128, End, k);
    NoEntries(k);
  }

  lemma JoinWireReads(r: Request, rows: seq<StorageEntry>, k: Bytes)
    requires r.Join? && FieldsInBounds(r) && Receivable(rows, None) && r.storage == Snapshot(1, SortBy(EntryKey, rows))
    requires Count(JoinFieldsWith(r, WireTree(1, rows))) == 11
    ensures GetJoin(Enc(RequestTreeWith(r, WireTree(1, rows))) + k) == SettingsAnswer(r, (r, k))
  {
    hide Enc, EncEntries, ExpectMap, NumberAt, BlobAt, OptionalAt, LeafAt, StateAt, SnapshotAt, WireTree, StateTree, LeafTree,
         OptionalTree, Receivable, Count, SortBy;
    var f0 := JoinFieldsWith(r, WireTree(1, rows));
    var f1 := f0.more; var f2 := f1.more; var f3 := f2.more; var f4 := f3.more; var f5 := f4.more; var f6 := f5.more;
    var f7 := f6.more; var f8 := f7.more; var f9 := f8.more; var f10 := f9.more;
    MapReads(f0, k);
    NumberReads(0, r.profile, U16, f1, k);
    BlobReads(1, r.welcome, 1, MESSAGE_MAX, f2, k);
    OptionalReads(2, r.ratchetTree, 1, TREE_MAX, f3, k);
    BlobReads(3, r.signer, 1, SIGNER_MAX, f4, k);
    LeafFieldReads(4, r.localLeaf, f5, k);
    StateFieldReads(5, r.resulting, f6, k);
    BlobReads(6, r.keyPackageSha256, 32, 32, f7, k);
    WireFieldReads(7, rows, None, f8, k);
    NumberReads(8, r.retention, U32, f9, k);
    BlobReads(9, r.incarnationId, 1, 128, f10, k);
    BlobReads(10, r.welcomeSha256, 32, 32, End, k);
    NoEntries(k);
  }

  /** What an encoder sends is such a request, its rows sorted. */
  lemma SentIsReceivable(r: Request)
    requires CheckRequest(r).Ok?
    ensures var rows := SortBy(EntryKey, r.storage.entries);
            && InBounds(Canonical(r)) && Receivable(rows, GroupOfRequest(r))
            && Canonical(r).storage == Snapshot(1, SortBy(EntryKey, rows))
            && RequestTree(r) == RequestTreeWith(Canonical(r), WireTree(1, rows))
  {
    hide CheckRequest, CheckSnapshot, SortBy, Receivable, Sendable, WireTree;
    CheckedExactly(r);
    SnapshotCheckedExactly(r.storage, GroupOfRequest(r));
    SortedIsReceivable(r.storage, GroupOfRequest(r));
  }
}
