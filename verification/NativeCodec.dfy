/** The version 2 codec as written: a decoder advanced field by field, loops over rows, and buffers appended to. */
module NativeCodec {
  import opened Foundation
  import opened Errors
  import opened Order
  import opened MlsTypes
  import opened Cbor
  import opened NativeTypes
  import opened NativeDecode
  import Preflight

  // ---------------------------------------------------------------- decoder

  /** A decoder over borrowed bytes; its position is given by what is still to be read. */
  class Decoder {
    var rest: Bytes

    constructor (bytes: Bytes)
      ensures rest == bytes
    {
      rest := bytes;
    }

    method Map(expected: nat) returns (r: Result<(), MlsError>)
      modifies this
      ensures Skips(ExpectMap(old(rest), expected), r, rest)
    {
      hide ReadLength;
      var length := ReadLength(MAP, rest);
      if length.None? || length.value.0.None? || length.value.0.value != expected {
        return Err(NoncanonicalEncoding);
      }
      rest := length.value.1;
      return Ok(());
    }

    method ArrayMax(maximum: nat) returns (r: Result<nat, MlsError>)
      modifies this
      ensures Follows(GetCount(old(rest), maximum), r, rest)
    {
      hide ReadLength;
      var length := ReadLength(ARRAY, rest);
      if length.None? || length.value.0.None? {
        return Err(NoncanonicalEncoding);
      }
      if length.value.0.value > maximum {
        return Err(LimitExceeded);
      }
      rest := length.value.1;
      return Ok(length.value.0.value);
    }

    method Key(expected: nat) returns (r: Result<(), MlsError>)
      modifies this
      ensures Skips(ExpectKey(old(rest), expected), r, rest)
    {
      hide ReadUint;
      var key := ReadUint(rest, 0x100);
      if key.None? || key.value.0 != expected {
        return Err(NoncanonicalEncoding);
      }
      rest := key.value.1;
      return Ok(());
    }

    method Number(key: nat, limit: nat) returns (r: Result<nat, MlsError>)
      modifies this
      ensures Follows(NumberAt(old(rest), key, limit), r, rest)
    {
      hide ReadUint, ExpectKey;
      var _ :- Key(key);
      var n := ReadUint(rest, limit);
      if n.None? {
        return Err(NoncanonicalEncoding);
      }
      rest := n.value.1;
      return Ok(n.value.0);
    }

    method Bytes() returns (r: Result<Bytes, MlsError>)
      modifies this
      ensures Follows(Borrow(old(rest)), r, rest)
    {
      hide ReadBlob;
      var b := ReadBlob(rest);
      if b.None? {
        return Err(NoncanonicalEncoding);
      }
      rest := b.value.1;
      return Ok(b.value.0);
    }

    method Blob(key: nat, minimum: nat, maximum: nat) returns (r: Result<Bytes, MlsError>)
      modifies this
      ensures Follows(BlobAt(old(rest), key, minimum, maximum), r, rest)
    {
      hide ReadBlob, ExpectKey;
      var _ :- Key(key);
      var value :- Bytes();
      if |value| < minimum || |value| > maximum {
        return Err(LimitExceeded);
      }
      return Ok(value);
    }

    method Optional(key: nat, minimum: nat, maximum: nat) returns (r: Result<Option<Bytes>, MlsError>)
      modifies this
      ensures Follows(OptionalAt(old(rest), key, minimum, maximum), r, rest)
    {
      hide ReadBlob, ExpectKey, Peek;
      var _ :- Key(key);
      var kind := Peek(rest);
      match kind
      case Some(NullKind) =>
        NullHasAByte(rest);
        rest := rest[1..];
        return Ok(None);
      case Some(BytesKind) =>
        var value :- Bytes();
        if |value| < minimum || |value| > maximum {
          return Err(LimitExceeded);
        }
        return Ok(Some(value));
      case _ =>
        return Err(NoncanonicalEncoding);
    }
  }

  lemma NullHasAByte(s: Bytes)
    requires Peek(s) == Some(NullKind)
    ensures s != []
  {
  }

  method DecodeLeaf(d: Decoder, key: nat) returns (r: Result<Leaf, MlsError>)
    modifies d
    ensures Follows(LeafAt(old(d.rest), key), r, d.rest)
  {
    hide ExpectKey, ExpectMap, NumberAt, BlobAt;
    var _ :- d.Key(key);
    var _ :- d.Map(3);
    var index :- d.Number(0, U32);
    var identity :- d.Blob(1, 45, 45);
    var signatureKey :- d.Blob(2, 32, 32);
    return Ok(Leaf(index, identity, signatureKey));
  }

  method DecodeExpectedRoster(d: Decoder, key: nat) returns (r: Result<ExpectedState, MlsError>)
    modifies d
    ensures Follows(StateAt(old(d.rest), key), r, d.rest)
  {
    hide ExpectKey, ExpectMap, NumberAt, BlobAt;
    var _ :- d.Key(key);
    var _ :- d.Map(3);
    var groupId :- d.Blob(0, 16, 16);
    var epoch :- d.Number(1, U64);
    var digest :- d.Blob(2, 32, 32);
    return Ok(ExpectedState(groupId, epoch, digest));
  }

  method DecodeStorageEntry(d: Decoder) returns (r: Result<StorageEntry, MlsError>)
    modifies d
    ensures Follows(GetRow(old(d.rest)), r, d.rest)
  {
    hide ExpectMap, BlobAt, OptionalAt;
    var _ :- d.Map(3);
    var key :- d.Blob(0, 1, KEY_MAX);
    var value :- d.Blob(1, 0, VALUE_MAX);
    var groupId :- d.Optional(2, 16, 16);
    return Ok(StorageEntry(key, value, groupId));
  }

  /** One row of the borrowed pass: its size, with scope and field lengths checked and nothing kept. */
  method ScanStorageEntry(scan: Decoder, expected: Option<Bytes>) returns (r: Result<nat, MlsError>)
    modifies scan
    ensures Follows(ScanRow(old(scan.rest), expected), r, scan.rest)
  {
    hide ExpectMap, ExpectKey, Borrow, Peek;
    var _ :- scan.Map(3);
    var _ :- scan.Key(0);
    var key :- scan.Bytes();
    var _ :- Range(key, 1, KEY_MAX);
    var _ :- scan.Key(1);
    var value :- scan.Bytes();
    var _ :- Range(value, 0, VALUE_MAX);
    var _ :- scan.Key(2);
    var kind := Peek(scan.rest);
    match kind
    case Some(NullKind) =>
      NullHasAByte(scan.rest);
      scan.rest := scan.rest[1..];
      return Ok(|key| + |value|);
    case Some(BytesKind) =>
      var group :- scan.Bytes();
      var _ :- Exact(group, 16);
      if expected != Some(group) {
        return Err(InvalidStorageSnapshot);
      }
      return Ok(|key| + |value| + |group|);
    case _ =>
      return Err(NoncanonicalEncoding);
  }

  method ScanStorageEntries(scan: Decoder, count: nat, expected: Option<Bytes>) returns (r: Result<(), MlsError>)
    modifies scan
    ensures Skips(ScanRows(count, old(scan.rest), expected, 0), r, scan.rest)
  {
    hide ScanRow;
    var total: nat := 0;
    for i := 0 to count
      invariant ScanRows(count, old(scan.rest), expected, 0) == ScanRows(count - i, scan.rest, expected, total)
    {
      var size :- ScanStorageEntry(scan, expected);
      total := total + size;
      if total > STORAGE_MAX {
        return Err(LimitExceeded);
      }
    }
    return Ok(());
  }

  method DecodeStorageEntries(d: Decoder, count: nat, expected: Option<Bytes>) returns (r: Result<seq<StorageEntry>, MlsError>)
    modifies d
    ensures Follows(OwnRows(count, old(d.rest), expected, 0), r, d.rest)
  {
    hide GetRow;
    var entries: seq<StorageEntry> := [];
    var total: nat := 0;
    AfterNothing(OwnRows(count, d.rest, expected, 0));
    for i := 0 to count
      invariant OwnRows(count, old(d.rest), expected, 0) == After(entries, OwnRows(count - i, d.rest, expected, total))
    {
      var entry :- DecodeStorageEntry(d);
      total := total + |entry.key| + |entry.value| + (if entry.groupId.Some? then |entry.groupId.value| else 0);
      if total > STORAGE_MAX {
        return Err(LimitExceeded);
      }
      if entry.groupId.Some? && entry.groupId != expected {
        return Err(InvalidStorageSnapshot);
      }
      AfterOneMore(entries, entry, OwnRows(count - i - 1, d.rest, expected, total));
      entries := entries + [entry];
    }
    assert entries + [] == entries;
    return Ok(entries);
  }

  /** Two neighbours with one key in a list already sorted by key. */
  method HasTwins(entries: seq<StorageEntry>) returns (twins: bool)
    ensures twins <==> HasAdjacentTwins(EntryKey, entries)
  {
    var i := 0;
    while i + 1 < |entries|
      invariant forall j :: 0 <= j < i && j < |entries| - 1 ==> EntryKey(entries[j]) != EntryKey(entries[j + 1])
    {
      if entries[i].key == entries[i + 1].key {
        assert EntryKey(entries[i]) == EntryKey(entries[i + 1]);
        return true;
      }
      i := i + 1;
    }
    return false;
  }

  /** Scope and total size are settled on borrowed bytes by a copy of the decoder before any row is kept. */
  method DecodeStorageSnapshot(d: Decoder, key: nat, expected: Option<Bytes>) returns (r: Result<Snapshot, MlsError>)
    modifies d
    ensures Follows(SnapshotAt(old(d.rest), key, expected), r, d.rest)
  {
    hide ExpectKey, ExpectMap, NumberAt, GetCount, ScanRows, OwnRows, SortBy, HasAdjacentTwins;
    var _ :- d.Key(key);
    var _ :- d.Map(2);
    var format :- d.Number(0, U32);
    if format != 1 {
      return Err(StorageFormatMismatch);
    }
    var _ :- d.Key(1);
    var count :- d.ArrayMax(STORAGE_MAX_ENTRIES);
    var scan := new Decoder(d.rest);
    var _ :- ScanStorageEntries(scan, count, expected);
    var entries :- DecodeStorageEntries(d, count, expected);
    entries := SortBy(EntryKey, entries);
    var twins := HasTwins(entries);
    if twins {
      return Err(InvalidStorageSnapshot);
    }
    return Ok(Snapshot(format, entries));
  }

  method DecodeProcessRequest(d: Decoder, operation: Operation) returns (r: Result<Request, MlsError>)
    modifies d
    ensures Follows(GetProcess(old(d.rest), operation), r, d.rest)
  {
    hide ExpectMap, NumberAt, BlobAt, LeafAt, StateAt, SnapshotAt;
    var _ :- d.Map(13);
    var profile :- d.Number(0, U16);
    var _ :- CheckProfile(profile);
    var groupId :- d.Blob(1, 16, 16);
    var message :- d.Blob(2, 1, MESSAGE_MAX);
    var aad :- d.Blob(3, 1, AAD_MAX);
    var sender :- DecodeLeaf(d, 4);
    var previous :- DecodeExpectedRoster(d, 5);
    var resulting :- DecodeExpectedRoster(d, 6);
    var base :- d.Blob(7, 32, 32);
    var storage :- DecodeStorageSnapshot(d, 8, Some(groupId));
    var state :- DecodeExpectedRoster(d, 9);
    var retention :- d.Number(10, U32);
    var _ :- CheckRetention(retention);
    var sha :- d.Blob(11, 32, 32);
    var id :- d.Blob(12, 1, 128);
    return Ok(Process(operation, profile, groupId, message, aad, sender, previous, resulting, base, storage, state, retention, sha, id));
  }

  method DecodeWelcomeRequest(d: Decoder) returns (r: Result<Request, MlsError>)
    modifies d
    ensures Follows(GetJoin(old(d.rest)), r, d.rest)
  {
    hide ExpectMap, NumberAt, BlobAt, OptionalAt, LeafAt, StateAt, SnapshotAt;
    var _ :- d.Map(11);
    var profile :- d.Number(0, U16);
    var _ :- CheckProfile(profile);
    var welcome :- d.Blob(1, 1, MESSAGE_MAX);
    var tree :- d.Optional(2, 1, TREE_MAX);
    var signer :- d.Blob(3, 1, SIGNER_MAX);
    var leaf :- DecodeLeaf(d, 4);
    var resulting :- DecodeExpectedRoster(d, 5);
    var package :- d.Blob(6, 32, 32);
    var storage :- DecodeStorageSnapshot(d, 7, None);
    var retention :- d.Number(8, U32);
    var _ :- CheckRetention(retention);
    var id :- d.Blob(9, 1, 128);
    var sha :- d.Blob(10, 32, 32);
    return Ok(Join(profile, welcome, tree, signer, leaf, resulting, package, storage, retention, id, sha));
  }

  method DecodeNativeRequest(frame: Bytes) returns (r: Result<Request, MlsError>)
    ensures r == DecodeRequest(frame)
  {
    hide DecodeHeader, Preflight.Recognise, GetProcess, GetJoin;
    var header :- DecodeHeader(2, frame);
    var operation :- NativeDecode.Operation(header.0);
    var _ :- Preflight.PreflightCbor(header.1);
    var d := new Decoder(header.1);
    var request: Request;
    if operation == Welcome {
      request :- DecodeWelcomeRequest(d);
    } else {
      request :- DecodeProcessRequest(d, operation);
    }
    if d.rest != [] {
      return Err(NoncanonicalEncoding);
    }
    return Ok(request);
  }

  // ---------------------------------------------------------------- encoder

  /** An encoder over a growing buffer. */
  class Encoder {
    var out: Bytes

    constructor ()
      ensures out == []
    {
      out := [];
    }

    method Put(bytes: Bytes)
      modifies this
      ensures out == old(out) + bytes
    {
      out := out + bytes;
    }

    /** One map entry: its key and its encoded value. */
    method PutField(key: nat, value: Tree)
      modifies this
      ensures out == old(out) + (Uint(key) + Enc(value))
    {
      hide Enc, Uint;
      Regroup(out, Uint(key), Enc(value));
      Put(Uint(key));
      Put(Enc(value));
    }
  }

  method EncodeStorageEntry(e: Encoder, entry: StorageEntry)
    modifies e
    ensures e.out == old(e.out) + Enc(RowTree(entry))
  {
    hide Enc, Uint, Head;
    ghost var start := e.out;
    e.Put(Head(MAP, 3));
    e.PutField(0, Text(entry.key));
    e.PutField(1, Text(entry.value));
    e.PutField(2, OptionalTree(entry.groupId));
    RowBytes(start, entry);
  }

  lemma EntryBytes(key: nat, value: Tree, more: Fields)
    ensures EncEntries(Field(key, value, more)) == Uint(key) + Enc(value) + EncEntries(more)
  {
  }

  lemma ContainerBytes(fields: Fields, items: seq<Tree>)
    ensures Enc(Dict(fields)) == Head(MAP, Count(fields)) + EncEntries(fields)
    ensures Enc(List(items)) == Head(ARRAY, |items|) + EncItems(items)
  {
  }

  lemma RowBytes(start: Bytes, entry: StorageEntry)
    ensures start + Head(MAP, 3) + (Uint(0) + Enc(Text(entry.key))) + (Uint(1) + Enc(Text(entry.value)))
            + (Uint(2) + Enc(OptionalTree(entry.groupId))) == start + Enc(RowTree(entry))
  {
    hide Enc, Uint, Head, EncEntries;
    var (key, value, group) := (Text(entry.key), Text(entry.value), OptionalTree(entry.groupId));
    var f2 := Field(2, group, End);
    var f1 := Field(1, value, f2);
    var f0 := Field(0, key, f1);
    var (a, b, c) := (Uint(0) + Enc(key), Uint(1) + Enc(value), Uint(2) + Enc(group));
    assert Count(f2) == 1 && Count(f1) == 2 && Count(f0) == 3;
    EntryBytes(2, group, End);
    EntryBytes(1, value, f2);
    EntryBytes(0, key, f1);
    NothingMore(c);
    ContainerBytes(f0, []);
    Regroup(start, Head(MAP, 3), a + (b + c));
    Regroup(start + Head(MAP, 3), a, b + c);
    Regroup(start + Head(MAP, 3) + a, b, c);
  }

  /** Sort, refuse twins, check every row and the total, and only then write. */
  method EncodeStorageSnapshot(e: Encoder, snapshot: Snapshot, expected: Option<Bytes>) returns (r: Result<(), MlsError>)
    modifies e
    ensures r == CheckSnapshot(snapshot, expected)
    ensures e.out == old(e.out) + if r.Ok? then Enc(SnapshotTree(snapshot)) else []
  {
    hide SortBy, HasAdjacentTwins, Enc, Uint, Head, CheckEntries, TotalSize, RowTrees, SnapshotTree;
    if snapshot.format != 1 || |snapshot.entries| > STORAGE_MAX_ENTRIES {
      return Err(StorageFormatMismatch);
    }
    var entries := SortBy(EntryKey, snapshot.entries);
    var twins := HasTwins(entries);
    if twins {
      return Err(InvalidStorageSnapshot);
    }
    var total :- CheckStorageEntries(entries, expected);
    if total > STORAGE_MAX {
      return Err(LimitExceeded);
    }
    ghost var start := e.out;
    e.Put(Head(MAP, 2));
    e.PutField(0, Number(snapshot.format));
    e.Put(Uint(1));
    e.Put(Head(ARRAY, |entries|));
    EncodeStorageEntries(e, entries);
    SnapshotBytes(start, snapshot);
    return Ok(());
  }

  lemma SnapshotBytes(start: Bytes, s: Snapshot)
    ensures var rows := RowTrees(SortBy(EntryKey, s.entries));
            start + Head(MAP, 2) + (Uint(0) + Enc(Number(s.format))) + Uint(1) + Head(ARRAY, |rows|) + EncItems(rows)
            == start + Enc(SnapshotTree(s))
  {
    hide Enc, Uint, Head, EncEntries, EncItems, RowTrees, SortBy;
    var rows := RowTrees(SortBy(EntryKey, s.entries));
    var list := List(rows);
    var f1 := Field(1, list, End);
    var f0 := Field(0, Number(s.format), f1);
    var a := Uint(0) + Enc(Number(s.format));
    var h := Head(ARRAY, |rows|);
    var b := Uint(1) + (h + EncItems(rows));
    assert Count(f1) == 1;
    assert Count(f0) == 2;
    ContainerBytes(f0, rows);
    EntryBytes(1, list, End);
    EntryBytes(0, Number(s.format), f1);
    NothingMore(b);
    Regroup(start, Head(MAP, 2), a + b);
    Regroup(start + Head(MAP, 2), a, b);
    Regroup(start + Head(MAP, 2) + a, Uint(1), h + EncItems(rows));
    Regroup(start + Head(MAP, 2) + a + Uint(1), h, EncItems(rows));
  }

  method CheckStorageEntries(entries: seq<StorageEntry>, expected: Option<Bytes>) returns (r: Result<nat, MlsError>)
    ensures r == match CheckEntries(entries, expected) case Ok(_) => Ok(TotalSize(entries)) case Err(error) => Err(error)
  {
    hide IsGlobalKey;
    var total: nat := 0;
    for i := 0 to |entries|
      invariant CheckEntries(entries, expected) == CheckEntries(entries[i..], expected)
      invariant TotalSize(entries) == total + TotalSize(entries[i..])
    {
      var entry := entries[i];
      assert entries[i..][1..] == entries[i + 1..];
      var _ :- Range(entry.key, 1, KEY_MAX);
      var _ :- Range(entry.value, 0, VALUE_MAX);
      if entry.groupId.Some? {
        var _ :- Exact(entry.groupId.value, 16);
      }
      total := total + |entry.key| + |entry.value| + (if entry.groupId.Some? then |entry.groupId.value| else 0);
      var isGlobal := IsGlobalKey(entry.key);
      if (isGlobal && entry.groupId.Some?) || (!isGlobal && entry.groupId != expected) {
        return Err(InvalidStorageSnapshot);
      }
    }
    return Ok(total);
  }

  method EncodeStorageEntries(e: Encoder, entries: seq<StorageEntry>)
    modifies e
    ensures e.out == old(e.out) + EncItems(RowTrees(entries))
  {
    hide Enc, RowTree;
    ghost var start := e.out;
    for i := 0 to |entries|
      invariant e.out + EncItems(RowTrees(entries[i..])) == start + EncItems(RowTrees(entries))
    {
      assert entries[i..][1..] == entries[i + 1..] && entries[i..][0] == entries[i];
      ghost var more := RowTrees(entries[i + 1..]);
      assert RowTrees(entries[i..]) == [RowTree(entries[i])] + more;
      assert ([RowTree(entries[i])] + more)[1..] == more;
      Regroup(e.out, Enc(RowTree(entries[i])), EncItems(more));
      EncodeStorageEntry(e, entries[i]);
    }
    assert entries[|entries|..] == [];
    assert e.out + [] == e.out;
  }

  method EncodeFrameWithMax(operation: byte, payload: Bytes, maximum: nat) returns (r: Result<Bytes, MlsError>)
    ensures r == EncodeFrame(2, operation, payload, maximum)
  {
    hide BE;
    if HEADER + |payload| > maximum {
      return Err(LimitExceeded);
    }
    var frame := MAGIC;
    frame := frame + BE(2, 2);
    frame := frame + [operation];
    frame := frame + [0];
    frame := frame + BE(4, |payload|);
    frame := frame + payload;
    assert MAGIC + BE(2, 2) + [operation] + [0] == MAGIC + BE(2, 2) + [operation, 0];
    return Ok(frame);
  }

  /** Writing one entry moves it from what is to come to what is there. */
  lemma EntryWritten(out: Bytes, key: nat, value: Tree, more: Fields)
    ensures out + (Uint(key) + Enc(value)) + EncEntries(more) == out + EncEntries(Field(key, value, more))
    ensures out + Uint(key) + Enc(value) == out + (Uint(key) + Enc(value))
  {
    hide Enc, Uint;
    Regroup(out, Uint(key) + Enc(value), EncEntries(more));
    Regroup(out, Uint(key), Enc(value));
  }

  /** Puts one entry in front of those still to come. */
  method PutEntry(e: Encoder, key: nat, value: Tree, ghost more: Fields)
    modifies e
    ensures e.out + EncEntries(more) == old(e.out) + EncEntries(Field(key, value, more))
  {
    hide Enc, Uint, EncEntries;
    EntryWritten(e.out, key, value, more);
    e.PutField(key, value);
  }

  method PutSnapshot(e: Encoder, key: nat, storage: Snapshot, expected: Option<Bytes>, ghost more: Fields) returns (r: Result<(), MlsError>)
    modifies e
    ensures r == CheckSnapshot(storage, expected)
    ensures r.Ok? ==> e.out + EncEntries(more) == old(e.out) + EncEntries(Field(key, SnapshotTree(storage), more))
  {
    hide Enc, Uint, EncEntries, SnapshotTree, CheckSnapshot;
    EntryWritten(e.out, key, SnapshotTree(storage), more);
    e.Put(Uint(key));
    r := EncodeStorageSnapshot(e, storage, expected);
  }

  method EncodeProcessRequest(e: Encoder, q: Request) returns (r: Result<(), MlsError>)
    requires q.Process?
    modifies e
    ensures r == CheckRequest(q)
    ensures r.Ok? ==> e.out == old(e.out) + Enc(RequestTree(q))
  {
    hide Enc, Head, EncEntries, Count, LeafTree, StateTree, SnapshotTree, CheckLeaf, CheckState, CheckSnapshot;
    if q.operation == Welcome {
      return Err(UnsupportedOperation);
    }
    var _ :- CheckProfile(q.profile);
    var _ :- Exact(q.groupId, 16);
    var _ :- Range(q.message, 1, MESSAGE_MAX);
    var _ :- Range(q.aad, 1, AAD_MAX);
    var _ :- Exact(q.baseSha256, 32);
    ghost var start := e.out;
    ghost var f0 := ProcessFields(q);
    ghost var f1 := f0.more; ghost var f2 := f1.more; ghost var f3 := f2.more; ghost var f4 := f3.more; ghost var f5 := f4.more;
    ghost var f6 := f5.more; ghost var f7 := f6.more; ghost var f8 := f7.more; ghost var f9 := f8.more; ghost var f10 := f9.more;
    ghost var f11 := f10.more; ghost var f12 := f11.more;
    ThirteenFields(q, start);
    e.Put(Head(MAP, 13));
    PutEntry(e, 0, Number(q.profile), f1);
    PutEntry(e, 1, Text(q.groupId), f2);
    PutEntry(e, 2, Text(q.message), f3);
    PutEntry(e, 3, Text(q.aad), f4);
    var _ :- CheckLeaf(q.sender);
    PutEntry(e, 4, LeafTree(q.sender), f5);
    var _ :- CheckState(q.previous);
    PutEntry(e, 5, StateTree(q.previous), f6);
    var _ :- CheckState(q.resulting);
    PutEntry(e, 6, StateTree(q.resulting), f7);
    PutEntry(e, 7, Text(q.baseSha256), f8);
    var _ :- PutSnapshot(e, 8, q.storage, Some(q.groupId), f9);
    var _ :- CheckState(q.messageState);
    PutEntry(e, 9, StateTree(q.messageState), f10);
    var _ :- CheckRetention(q.retention);
    var _ :- Exact(q.messageSha256, 32);
    var _ :- Range(q.incarnationId, 1, 128);
    PutEntry(e, 10, Number(q.retention), f11);
    PutEntry(e, 11, Text(q.messageSha256), f12);
    PutEntry(e, 12, Text(q.incarnationId), End);
    NothingMore(e.out);
    return Ok(());
  }

  lemma NothingMore(out: Bytes)
    ensures out + EncEntries(End) == out
  {
  }

  lemma ThirteenFields(q: Request, start: Bytes)
    requires q.Process?
    ensures start + Head(MAP, 13) + EncEntries(ProcessFields(q)) == start + Enc(RequestTree(q))
  {
    hide Head, EncEntries, SnapshotTree, StateTree, LeafTree, OptionalTree;
    var f := ProcessFields(q);
    var f0 := f;
    var f1 := f0.more; var f2 := f1.more; var f3 := f2.more; var f4 := f3.more; var f5 := f4.more;
    var f6 := f5.more; var f7 := f6.more; var f8 := f7.more; var f9 := f8.more; var f10 := f9.more;
    var f11 := f10.more; var f12 := f11.more;
    assert Count(End) == 0;
    assert Count(f12) == 1; assert Count(f11) == 2; assert Count(f10) == 3; assert Count(f9) == 4;
    assert Count(f8) == 5; assert Count(f7) == 6; assert Count(f6) == 7; assert Count(f5) == 8;
    assert Count(f4) == 9; assert Count(f3) == 10; assert Count(f2) == 11; assert Count(f1) == 12;
    assert Count(f0) == 13;
    Regroup(start, Head(MAP, 13), EncEntries(f));
  }

  method EncodeWelcomeRequest(e: Encoder, q: Request) returns (r: Result<(), MlsError>)
    requires q.Join?
    modifies e
    ensures r == CheckRequest(q)
    ensures r.Ok? ==> e.out == old(e.out) + Enc(RequestTree(q))
  {
    hide Enc, Head, EncEntries, Count, LeafTree, StateTree, SnapshotTree, OptionalTree, CheckLeaf, CheckState, CheckSnapshot;
    var _ :- CheckProfile(q.profile);
    var _ :- Range(q.welcome, 1, MESSAGE_MAX);
    if q.ratchetTree.Some? {
      var _ :- Range(q.ratchetTree.value, 1, TREE_MAX);
    }
    var _ :- Range(q.signer, 1, SIGNER_MAX);
    var _ :- Exact(q.keyPackageSha256, 32);
    ghost var start := e.out;
    ghost var f0 := JoinFields(q);
    ghost var f1 := f0.more; ghost var f2 := f1.more; ghost var f3 := f2.more; ghost var f4 := f3.more; ghost var f5 := f4.more;
    ghost var f6 := f5.more; ghost var f7 := f6.more; ghost var f8 := f7.more; ghost var f9 := f8.more; ghost var f10 := f9.more;
    ElevenFields(q, start);
    e.Put(Head(MAP, 11));
    PutEntry(e, 0, Number(q.profile), f1);
    PutEntry(e, 1, Text(q.welcome), f2);
    PutEntry(e, 2, OptionalTree(q.ratchetTree), f3);
    PutEntry(e, 3, Text(q.signer), f4);
    var _ :- CheckLeaf(q.localLeaf);
    PutEntry(e, 4, LeafTree(q.localLeaf), f5);
    var _ :- CheckState(q.resulting);
    PutEntry(e, 5, StateTree(q.resulting), f6);
    PutEntry(e, 6, Text(q.keyPackageSha256), f7);
    var _ :- PutSnapshot(e, 7, q.storage, None, f8);
    var _ :- CheckRetention(q.retention);
    var _ :- Range(q.incarnationId, 1, 128);
    var _ :- Exact(q.welcomeSha256, 32);
    PutEntry(e, 8, Number(q.retention), f9);
    PutEntry(e, 9, Text(q.incarnationId), f10);
    PutEntry(e, 10, Text(q.welcomeSha256), End);
    NothingMore(e.out);
    return Ok(());
  }

  lemma ElevenFields(q: Request, start: Bytes)
    requires q.Join?
    ensures start + Head(MAP, 11) + EncEntries(JoinFields(q)) == start + Enc(RequestTree(q))
  {
    hide Head, EncEntries, SnapshotTree, StateTree, LeafTree, OptionalTree;
    var f := JoinFields(q);
    var f0 := f;
    var f1 := f0.more; var f2 := f1.more; var f3 := f2.more; var f4 := f3.more; var f5 := f4.more;
    var f6 := f5.more; var f7 := f6.more; var f8 := f7.more; var f9 := f8.more; var f10 := f9.more;
    assert Count(End) == 0;
    assert Count(f10) == 1; assert Count(f9) == 2; assert Count(f8) == 3; assert Count(f7) == 4;
    assert Count(f6) == 5; assert Count(f5) == 6; assert Count(f4) == 7; assert Count(f3) == 8;
    assert Count(f2) == 9; assert Count(f1) == 10; assert Count(f0) == 11;
    Regroup(start, Head(MAP, 11), EncEntries(f));
  }

  /** The whole encoder: checks and writes interleaved, nothing returned unless every check passed. */
  method EncodeNativeRequest(q: Request) returns (r: Result<Bytes, MlsError>)
    ensures r == EncodeRequest(q)
  {
    hide CheckRequest, Enc, RequestTree;
    var e := new Encoder();
    if q.Process? {
      var _ :- EncodeProcessRequest(e, q);
    } else {
      var _ :- EncodeWelcomeRequest(e, q);
    }
    assert [] + Enc(RequestTree(q)) == Enc(RequestTree(q));
    r := EncodeFrameWithMax(Opcode(q), e.out, REQUEST_MAX);
  }
}
