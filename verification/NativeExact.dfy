/** Exactly which frames the version 2 decoder accepts: each reader gives back the one value written there. */
module NativeExact {
  import opened Foundation
  import opened Order
  import opened MlsTypes
  import opened Cbor
  import opened Preflight
  import opened NativeTypes
  import opened NativeLimits
  import opened NativeDecode
  import opened NativeRoundTrip

  // ---------------------------------------------------------------- a head tells which kind of value it begins

  function Major(t: Tree): nat {
    match t
    case Number(_) => UINT
    case Text(_) => BYTES
    case List(_) => ARRAY
    case Dict(_) => MAP
    case Simple(_) => 7
  }

  lemma FirstByteTells(t: Tree, k: Bytes)
    ensures Enc(t) != [] && (Enc(t) + k)[0] / 32 == Major(t) && (Enc(t) + k)[0] % 32 < 28
    ensures (Enc(t) + k)[0] == NULL <==> t == Null
  {
    match t
    case Number(n) => HeadParts(UINT, n, k);
    case Text(d) => HeadParts(BYTES, |d|, d + k); assert Blob(d) + k == Head(BYTES, |d|) + (d + k);
    case List(ts) => HeadParts(ARRAY, |ts|, EncItems(ts) + k); ListBytes(ts, k);
    case Dict(es) => HeadParts(MAP, Count(es), EncEntries(es) + k); DictBytes(es, k);
    case Simple(kind) =>
  }

  lemma HeadIs(major: nat, t: Tree, k: Bytes)
    ensures ReadHead(major, Enc(t) + k).Some? ==> Major(t) == major
    ensures ReadLength(major, Enc(t) + k).Some? ==> Major(t) == major && ReadLength(major, Enc(t) + k).value.0.Some?
  {
    hide Enc;
    FirstByteTells(t, k);
  }

  lemma NumberIs(t: Tree, limit: nat, k: Bytes)
    requires Shaped(t) && ReadUint(Enc(t) + k, limit).Some?
    ensures t == Number(ReadUint(Enc(t) + k, limit).value.0) && ReadUint(Enc(t) + k, limit).value.1 == k
  {
    HeadIs(UINT, t, k);
    assert t.Number?;
    HeadReadsBack(UINT, t.n, k);
  }

  lemma TextIs(t: Tree, k: Bytes)
    requires Shaped(t) && ReadBlob(Enc(t) + k).Some?
    ensures t == Text(ReadBlob(Enc(t) + k).value.0) && ReadBlob(Enc(t) + k).value.1 == k
  {
    hide ReadBlob;
    BlobHead(Enc(t) + k);
    HeadIs(BYTES, t, k);
    assert t.Text?;
    ReadsBack();
    assert ReadBlob(Blob(t.data) + k) == Some((t.data, k));
  }

  lemma BlobHead(s: Bytes)
    ensures ReadBlob(s).Some? ==> ReadHead(BYTES, s).Some?
  {
  }

  lemma DictIs(t: Tree, n: nat, k: Bytes)
    requires Shaped(t) && ExpectMap(Enc(t) + k, n).Ok?
    ensures t.Dict? && Count(t.entries) == n && ExpectMap(Enc(t) + k, n).value == EncEntries(t.entries) + k
  {
    hide EncEntries, ReadLength;
    HeadIs(MAP, t, k);
    assert t.Dict?;
    ReadsBack();
    DictBytes(t.entries, k);
  }

  lemma ListIs(t: Tree, maximum: nat, k: Bytes)
    requires Shaped(t) && GetCount(Enc(t) + k, maximum).Ok?
    ensures t.List? && GetCount(Enc(t) + k, maximum).value == (|t.items|, EncItems(t.items) + k)
  {
    hide EncItems, ReadLength;
    HeadIs(ARRAY, t, k);
    assert t.List?;
    ReadsBack();
    ListBytes(t.items, k);
  }

  // ---------------------------------------------------------------- one entry of a map

  /** What is left behind an entry with this key. */
  predicate Continues(es: Fields, key: nat) {
    es.Field? && ShapedEntries(es.more, Some(key)) && Count(es) == 1 + Count(es.more)
  }

  /** The first entry has this key, and reading goes on at its value. */
  lemma KeyIs(es: Fields, previous: Option<nat>, key: nat, k: Bytes)
    requires Count(es) > 0 && ShapedEntries(es, previous) && ExpectKey(EncEntries(es) + k, key).Ok?
    ensures Continues(es, key) && es.key == key && Shaped(es.value)
    ensures ExpectKey(EncEntries(es) + k, key).value == Enc(es.value) + (EncEntries(es.more) + k)
  {
    hide Enc, EncEntries, Shaped;
    FieldBytes(es.key, es.value, es.more, k);
    NumberIs(Number(es.key), 0x100, Enc(es.value) + (EncEntries(es.more) + k)) by { EncOfNumber(es.key); NumberShaped(es.key); }
    EncOfNumber(es.key);
  }

  lemma EncOfNumber(n: nat)
    ensures Enc(Number(n)) == Uint(n)
  {
  }

  lemma NumberShaped(n: nat)
    requires n < 0x1_0000_0000_0000_0000
    ensures Shaped(Number(n))
  {
  }

  lemma NumberAtIs(es: Fields, previous: Option<nat>, key: nat, limit: nat, k: Bytes)
    requires Count(es) > 0 && ShapedEntries(es, previous) && NumberAt(EncEntries(es) + k, key, limit).Ok?
    ensures var (n, s) := NumberAt(EncEntries(es) + k, key, limit).value;
            Continues(es, key) && es == Field(key, Number(n), es.more) && s == EncEntries(es.more) + k
  {
    hide Enc, EncEntries, ExpectKey, ReadUint, Shaped;
    KeyIs(es, previous, key, k);
    NumberIs(es.value, limit, EncEntries(es.more) + k);
  }

  lemma BlobAtIs(es: Fields, previous: Option<nat>, key: nat, minimum: nat, maximum: nat, k: Bytes)
    requires Count(es) > 0 && ShapedEntries(es, previous) && BlobAt(EncEntries(es) + k, key, minimum, maximum).Ok?
    ensures var (d, s) := BlobAt(EncEntries(es) + k, key, minimum, maximum).value;
            Continues(es, key) && es == Field(key, Text(d), es.more) && s == EncEntries(es.more) + k
  {
    hide Enc, EncEntries, ExpectKey, ReadBlob, Shaped;
    KeyIs(es, previous, key, k);
    TextIs(es.value, EncEntries(es.more) + k);
  }

  lemma OptionalAtIs(es: Fields, previous: Option<nat>, key: nat, minimum: nat, maximum: nat, k: Bytes)
    requires Count(es) > 0 && ShapedEntries(es, previous) && OptionalAt(EncEntries(es) + k, key, minimum, maximum).Ok?
    ensures var (d, s) := OptionalAt(EncEntries(es) + k, key, minimum, maximum).value;
            && Continues(es, key) && es == Field(key, OptionalTree(d), es.more) && s == EncEntries(es.more) + k
            && (d.Some? ==> Within(d.value, minimum, maximum))
  {
    hide Enc, EncEntries, ExpectKey, ReadBlob, Shaped;
    KeyIs(es, previous, key, k);
    var rest := EncEntries(es.more) + k;
    FirstByteTells(es.value, rest);
    if Peek(Enc(es.value) + rest) == Some(NullKind) {
      NullBytes();
      assert es.value == Null && (Enc(es.value) + rest)[1..] == rest;
    } else {
      TextIs(es.value, rest);
    }
  }

  lemma NullBytes()
    ensures Enc(Null) == [NULL]
  {
  }

  // ---------------------------------------------------------------- records

  lemma LeafIs(t: Tree, k: Bytes)
    requires Shaped(t) && GetLeaf(Enc(t) + k).Ok?
    ensures var (l, s) := GetLeaf(Enc(t) + k).value; t == LeafTree(l) && s == k && LeafInBounds(l)
  {
    hide Enc, EncEntries, ExpectMap, NumberAt, BlobAt, Shaped;
    DictIs(t, 3, k);
    var f0 := t.entries;
    DictEntries(t);
    NumberAtIs(f0, None, 0, U32, k);
    BlobAtIs(f0.more, Some(0), 1, 45, 45, k);
    BlobAtIs(f0.more.more, Some(1), 2, 32, 32, k);
    assert f0.more.more.more == End;
    NoEntries(k);
  }

  lemma DictEntries(t: Tree)
    requires Shaped(t) && t.Dict?
    ensures ShapedEntries(t.entries, None)
  {
  }

  lemma StateIs(t: Tree, k: Bytes)
    requires Shaped(t) && GetState(Enc(t) + k).Ok?
    ensures var (v, s) := GetState(Enc(t) + k).value; t == StateTree(v) && s == k && StateInBounds(v)
  {
    hide Enc, EncEntries, ExpectMap, NumberAt, BlobAt, Shaped;
    DictIs(t, 3, k);
    var f0 := t.entries;
    DictEntries(t);
    BlobAtIs(f0, None, 0, 16, 16, k);
    NumberAtIs(f0.more, Some(0), 1, U64, k);
    BlobAtIs(f0.more.more, Some(1), 2, 32, 32, k);
    assert f0.more.more.more == End;
    NoEntries(k);
  }

  lemma RowIs(t: Tree, k: Bytes)
    requires Shaped(t) && GetRow(Enc(t) + k).Ok?
    ensures var (e, s) := GetRow(Enc(t) + k).value; t == RowTree(e) && s == k && RowInBounds(e)
  {
    hide Enc, EncEntries, ExpectMap, OptionalAt, BlobAt, Shaped;
    DictIs(t, 3, k);
    var f0 := t.entries;
    DictEntries(t);
    BlobAtIs(f0, None, 0, 1, KEY_MAX, k);
    BlobAtIs(f0.more, Some(0), 1, 0, VALUE_MAX, k);
    OptionalAtIs(f0.more.more, Some(1), 2, 16, 16, k);
    assert f0.more.more.more == End;
    NoEntries(k);
  }

  lemma LeafAtIs(es: Fields, previous: Option<nat>, key: nat, k: Bytes)
    requires Count(es) > 0 && ShapedEntries(es, previous) && LeafAt(EncEntries(es) + k, key).Ok?
    ensures var (l, s) := LeafAt(EncEntries(es) + k, key).value;
            Continues(es, key) && es == Field(key, LeafTree(l), es.more) && s == EncEntries(es.more) + k && LeafInBounds(l)
  {
    hide Enc, EncEntries, ExpectKey, GetLeaf, LeafTree, Shaped;
    KeyIs(es, previous, key, k);
    LeafIs(es.value, EncEntries(es.more) + k);
  }

  lemma StateAtIs(es: Fields, previous: Option<nat>, key: nat, k: Bytes)
    requires Count(es) > 0 && ShapedEntries(es, previous) && StateAt(EncEntries(es) + k, key).Ok?
    ensures var (v, s) := StateAt(EncEntries(es) + k, key).value;
            Continues(es, key) && es == Field(key, StateTree(v), es.more) && s == EncEntries(es.more) + k && StateInBounds(v)
  {
    hide Enc, EncEntries, ExpectKey, GetState, StateTree, Shaped;
    KeyIs(es, previous, key, k);
    StateIs(es.value, EncEntries(es.more) + k);
  }

  // ---------------------------------------------------------------- storage

  lemma {:induction false} RowsAre(ts: seq<Tree>, expected: Option<Bytes>, total: nat, k: Bytes)
    requires ShapedItems(ts) && OwnRows(|ts|, EncItems(ts) + k, expected, total).Ok? && total <= STORAGE_MAX
    ensures var (rows, s) := OwnRows(|ts|, EncItems(ts) + k, expected, total).value;
            && ts == RowTrees(rows) && s == k && |rows| == |ts| && total + TotalSize(rows) <= STORAGE_MAX
            && forall e :: e in rows ==> RowInBounds(e) && (e.groupId.Some? ==> e.groupId == expected)
  {
    hide Enc, GetRow, RowTree, RowInBounds, Shaped;
    if ts == [] {
      assert EncItems([]) + k == k;
    } else {
      var rest := EncItems(ts[1..]) + k;
      assert ts == [ts[0]] + ts[1..];
      ItemBytes(ts[0], ts[1..], k);
      RowIs(ts[0], rest);
      var row := GetRow(Enc(ts[0]) + rest).value.0;
      RowsAre(ts[1..], expected, total + EntrySize(row), k);
      var rows := OwnRows(|ts| - 1, rest, expected, total + EntrySize(row)).value.0;
      assert ([row] + rows)[1..] == rows;
    }
  }

  lemma SnapshotIs(t: Tree, expected: Option<Bytes>, k: Bytes) returns (rows: seq<StorageEntry>)
    requires Shaped(t) && GetSnapshot(Enc(t) + k, expected).Ok?
    ensures GetSnapshot(Enc(t) + k, expected).value == (Snapshot(1, SortBy(EntryKey, rows)), k)
    ensures t == WireTree(1, rows) && Receivable(rows, expected)
  {
    hide Enc, EncEntries, EncItems, ExpectMap, NumberAt, ExpectKey, GetCount, ScanRows, OwnRows, SortBy, TotalSize, Volume, RowTrees,
         RowInBounds, SortedBy, DistinctBy, HasAdjacentTwins;
    DictIs(t, 2, k);
    var f0 := t.entries;
    DictEntries(t);
    NumberAtIs(f0, None, 0, U32, k);
    KeyIs(f0.more, Some(0), 1, k);
    assert f0.more.more == End;
    NoEntries(k);
    ListIs(f0.more.value, STORAGE_MAX_ENTRIES, k);
    var ts := f0.more.value.items;
    ItemsShaped(f0.more.value);
    RowsAre(ts, expected, 0, k);
    rows := OwnRows(|ts|, EncItems(ts) + k, expected, 0).value.0;
    VolumeMeans(rows);
    SortSorts(EntryKey, rows);
    NoTwinsMeansDistinct(EntryKey, SortBy(EntryKey, rows));
    DistinctMeans(rows);
    if !DistinctBy(EntryKey, rows) {
      SortKeepsRepeats(EntryKey, rows);
    }
  }

  lemma ItemsShaped(t: Tree)
    requires Shaped(t) && t.List?
    ensures ShapedItems(t.items)
  {
  }

  lemma SnapshotAtIs(es: Fields, previous: Option<nat>, key: nat, expected: Option<Bytes>, k: Bytes) returns (rows: seq<StorageEntry>)
    requires Count(es) > 0 && ShapedEntries(es, previous) && SnapshotAt(EncEntries(es) + k, key, expected).Ok?
    ensures Continues(es, key)
    ensures SnapshotAt(EncEntries(es) + k, key, expected).value == (Snapshot(1, SortBy(EntryKey, rows)), EncEntries(es.more) + k)
    ensures es == Field(key, WireTree(1, rows), es.more) && Receivable(rows, expected)
  {
    hide Enc, EncEntries, ExpectKey, GetSnapshot, WireTree, Receivable, SortBy, Shaped;
    KeyIs(es, previous, key, k);
    rows := SnapshotIs(es.value, expected, EncEntries(es.more) + k);
  }

  // ---------------------------------------------------------------- requests

  lemma ProcessIs(t: Tree, operation: Operation) returns (rows: seq<StorageEntry>)
    requires Shaped(t) && GetProcess(Enc(t) + [], operation).Ok? && operation != Welcome
    ensures var (r, s) := GetProcess(Enc(t) + [], operation).value;
            && r.Process? && r.operation == operation && InBounds(r) && s == []
            && t == RequestTreeWith(r, WireTree(1, rows)) && Receivable(rows, Some(r.groupId)) && r.storage == Snapshot(1, SortBy(EntryKey, rows))
  {
    hide Enc, EncEntries, ExpectMap, NumberAt, BlobAt, LeafAt, StateAt, SnapshotAt, WireTree, StateTree, LeafTree, Receivable, SortBy, Shaped;
    DictIs(t, 13, []);
    DictEntries(t);
    var f0 := t.entries;
    NumberAtIs(f0, None, 0, U16, []);
    var f1 := f0.more;
    BlobAtIs(f1, Some(0), 1, 16, 16, []);
    var f2 := f1.more;
    BlobAtIs(f2, Some(1), 2, 1, MESSAGE_MAX, []);
    var f3 := f2.more;
    BlobAtIs(f3, Some(2), 3, 1, AAD_MAX, []);
    var f4 := f3.more;
    LeafAtIs(f4, Some(3), 4, []);
    var f5 := f4.more;
    StateAtIs(f5, Some(4), 5, []);
    var f6 := f5.more;
    StateAtIs(f6, Some(5), 6, []);
    var f7 := f6.more;
    BlobAtIs(f7, Some(6), 7, 32, 32, []);
    var f8 := f7.more;
    rows := SnapshotAtIs(f8, Some(7), 8, Some(GetProcess(Enc(t) + [], operation).value.0.groupId), []);
    var f9 := f8.more;
    StateAtIs(f9, Some(8), 9, []);
    var f10 := f9.more;
    NumberAtIs(f10, Some(9), 10, U32, []);
    var f11 := f10.more;
    BlobAtIs(f11, Some(10), 11, 32, 32, []);
    var f12 := f11.more;
    BlobAtIs(f12, Some(11), 12, 1, 128, []);
    assert f12.more == End;
    NoEntries([]);
  }

  lemma JoinIs(t: Tree) returns (rows: seq<StorageEntry>)
    requires Shaped(t) && GetJoin(Enc(t) + []).Ok?
    ensures var (r, s) := GetJoin(Enc(t) + []).value;
            && r.Join? && InBounds(r) && s == []
            && t == RequestTreeWith(r, WireTree(1, rows)) && Receivable(rows, None) && r.storage == Snapshot(1, SortBy(EntryKey, rows))
  {
    hide Enc, EncEntries, ExpectMap, NumberAt, BlobAt, OptionalAt, LeafAt, StateAt, SnapshotAt, WireTree, StateTree, LeafTree, OptionalTree,
         Receivable, SortBy, Shaped;
    DictIs(t, 11, []);
    DictEntries(t);
    var f0 := t.entries;
    NumberAtIs(f0, None, 0, U16, []);
    var f1 := f0.more;
    BlobAtIs(f1, Some(0), 1, 1, MESSAGE_MAX, []);
    var f2 := f1.more;
    OptionalAtIs(f2, Some(1), 2, 1, TREE_MAX, []);
    var f3 := f2.more;
    BlobAtIs(f3, Some(2), 3, 1, SIGNER_MAX, []);
    var f4 := f3.more;
    LeafAtIs(f4, Some(3), 4, []);
    var f5 := f4.more;
    StateAtIs(f5, Some(4), 5, []);
    var f6 := f5.more;
    BlobAtIs(f6, Some(5), 6, 32, 32, []);
    var f7 := f6.more;
    rows := SnapshotAtIs(f7, Some(6), 7, None, []);
    var f8 := f7.more;
    NumberAtIs(f8, Some(7), 8, U32, []);
    var f9 := f8.more;
    BlobAtIs(f9, Some(8), 9, 1, 128, []);
    var f10 := f9.more;
    BlobAtIs(f10, Some(9), 10, 32, 32, []);
    assert f10.more == End;
    NoEntries([]);
  }

  // ---------------------------------------------------------------- frames

  /** A frame of a version: magic, version, operation, a zero byte, the payload's length, and the payload. */
  predicate FrameOf(frame: Bytes, version: u16, op: byte, payload: Bytes) {
    && LiesAt(frame, 0, [0x4b, 0x4d, 0x4c, 0x53])
    && LiesAt(frame, 4, BE(2, version))
    && LiesAt(frame, 6, [op])
    && LiesAt(frame, 7, [0])
    && LiesAt(frame, 8, BE(4, |payload|))
    && RunsFrom(frame, 12, payload)
  }

  lemma FrameLies(frame: Bytes, version: u16, op: byte, payload: Bytes)
    ensures FrameOf(frame, version, op, payload) <==> frame == Frame(version, op, payload)
  {
    hide LiesAt, RunsFrom, BE;
    var t4 := BE(4, |payload|) + payload;
    var t3 := [0] + t4;
    var t2 := [op] + t3;
    var t1 := BE(2, version) + t2;
    assert Frame(version, op, payload) == MAGIC + t1 by { FrameGroups(version, op, payload); }
    FromEnds(frame, Frame(version, op, payload));
    Peel(frame, 0, MAGIC, t1);
    Peel(frame, 4, BE(2, version), t2);
    Peel(frame, 6, [op], t3);
    Peel(frame, 7, [0], t4);
    Peel(frame, 8, BE(4, |payload|), payload);
  }

  lemma FrameGroups(version: u16, op: byte, payload: Bytes)
    ensures Frame(version, op, payload) == MAGIC + (BE(2, version) + ([op] + ([0] + (BE(4, |payload|) + payload))))
  {
    hide BE;
    var (v, l) := (BE(2, version), BE(4, |payload|));
    Regroup(MAGIC + v + [op, 0], l, payload);
    Regroup(MAGIC + v, [op, 0], l + payload);
    Regroup(MAGIC, v, [op, 0] + (l + payload));
    assert [op, 0] == [op] + [0];
    Regroup([op], [0], l + payload);
  }

  /** A header is read exactly off a frame of this version, at most 12 MiB long. */
  lemma HeaderReadExactly(version: u16, frame: Bytes, op: byte, payload: Bytes)
    ensures DecodeHeader(version, frame) == Ok((op, payload)) <==> |frame| <= 12582912 && FrameOf(frame, version, op, payload)
  {
    hide FrameOf, Frame, BE, FromBE;
    FrameLies(frame, version, op, payload);
    if DecodeHeader(version, frame) == Ok((op, payload)) {
      PowValues();
      BEInvertsFromBE(frame[4..6]);
      BEInvertsFromBE(frame[8..12]);
      assert frame == MAGIC + frame[4..6] + [frame[6], frame[7]] + frame[8..12] + frame[12..];
      FrameParts(version, op, payload);
    }
    if |frame| <= 12582912 && frame == Frame(version, op, payload) {
      FrameLength(version, op, payload);
      HeaderReads(version, op, payload);
    }
  }

  lemma FrameParts(version: u16, op: byte, payload: Bytes)
    ensures Frame(version, op, payload) == MAGIC + BE(2, version) + [op, 0] + BE(4, |payload|) + payload
  {
  }

  lemma FrameLength(version: u16, op: byte, payload: Bytes)
    ensures |Frame(version, op, payload)| == 12 + |payload|
  {
  }

  // ---------------------------------------------------------------- main result

  /** The operation byte: 1 for Application, 2 for Commit, 3 for Welcome. */
  function OperationByte(r: Request): byte {
    if r.Join? then 3 else match r.operation case Application => 1 case Commit => 2 case Welcome => 3
  }

  /** The frame carries this request in bounds, its rows sent in this order. */
  predicate Carries(frame: Bytes, r: Request, rows: seq<StorageEntry>) {
    && |frame| <= 12582912
    && FrameOf(frame, 2, OperationByte(r), Enc(RequestTreeWith(r, WireTree(1, rows))))
    && InBounds(r) && Receivable(rows, GroupOfRequest(r)) && r.storage == Snapshot(1, SortBy(EntryKey, rows))
  }

  lemma CarriedDecodes(frame: Bytes, r: Request, rows: seq<StorageEntry>)
    requires Carries(frame, r, rows)
    ensures DecodeRequest(frame) == Ok(r)
  {
    hide FrameOf, Frame, FieldsInBounds, Receivable, WireTree, RequestTreeWith, Enc, DecodeRequest, SortBy;
    var payload := Enc(RequestTreeWith(r, WireTree(1, rows)));
    FrameLies(frame, 2, OperationByte(r), payload);
    FrameLength(2, OperationByte(r), payload);
    if r.Process? {
      ProcessIsNotWelcome(r);
    }
    assert OperationByte(r) == Opcode(r);
    WireDecodes(r, rows);
  }

  lemma DecodedIsCarried(frame: Bytes) returns (rows: seq<StorageEntry>)
    requires DecodeRequest(frame).Ok?
    ensures Carries(frame, DecodeRequest(frame).value, rows)
  {
    hide FrameOf, Frame, InBounds, Receivable, WireTree, RequestTreeWith, Enc, GetProcess, GetJoin, Recognise, DecodeHeader, InProfile, SortBy,
         Shaped;
    var (op, payload) := DecodeHeader(2, frame).value;
    HeaderReadExactly(2, frame, op, payload);
    AcceptsExactlyTheProfile(payload);
    var t :| InProfile(t) && Enc(t) == payload;
    ProfileIsShaped(t);
    assert Enc(t) + [] == payload;
    if op == 3 {
      rows := JoinIs(t);
    } else {
      rows := ProcessIs(t, if op == 1 then Application else Commit);
    }
  }

  lemma ProfileIsShaped(t: Tree)
    requires InProfile(t)
    ensures Shaped(t)
  {
  }

  /**
   * The decoder accepts a frame as a request exactly when it carries that request in bounds, its rows in any order,
   * each value in the one form it has.
   */
  lemma DecodedExactly(frame: Bytes, r: Request)
    ensures DecodeRequest(frame) == Ok(r) <==> exists rows :: Carries(frame, r, rows)
  {
    hide DecodeRequest, Carries;
    if DecodeRequest(frame) == Ok(r) {
      var rows := DecodedIsCarried(frame);
    }
    forall rows | Carries(frame, r, rows) ensures DecodeRequest(frame) == Ok(r) {
      CarriedDecodes(frame, r, rows);
    }
  }

  /** The encoder sends exactly the requests in bounds whose rows carry the group ids their labels demand. */
  lemma EncodedExactly(r: Request)
    ensures EncodeRequest(r).Ok? <==> InBounds(r) && r.storage.format == 1 && Sendable(r.storage.entries, GroupOfRequest(r))
    ensures EncodeRequest(r).Ok? ==> Carries(EncodeRequest(r).value, Canonical(r), SortBy(EntryKey, r.storage.entries))
  {
    hide CheckRequest, FieldsInBounds, Sendable, Receivable, FrameOf, Frame, Enc, RequestTree, RequestTreeWith, WireTree, SortBy;
    CheckedExactly(r);
    EncoderFailsOnlyOnFields(r);
    if EncodeRequest(r).Ok? {
      SentIsReceivable(r);
      if r.Process? {
        ProcessIsNotWelcome(Canonical(r));
      }
      FrameLies(EncodeRequest(r).value, 2, Opcode(r), Enc(RequestTree(r)));
      FrameLength(2, Opcode(r), Enc(RequestTree(r)));
      assert OperationByte(Canonical(r)) == Opcode(r);
    }
  }
}
