/** What the version 2 encoder sends passes the scan, fits the frame and decodes to the same request. */
module NativeRoundTrip {
  import opened Foundation
  import opened Order
  import opened MlsTypes
  import opened Cbor
  import opened Preflight
  import opened NativeTypes
  import opened NativeLimits
  import opened NativeDecode

  // ---------------------------------------------------------------- the scan's budgets always suffice

  lemma Record3Fits(a: Tree, b: Tree, c: Tree)
    requires Shaped(a) && Height(a) == 0 && Nodes(a) == 1
    requires Shaped(b) && Height(b) == 0 && Nodes(b) == 1
    requires Shaped(c) && Height(c) == 0 && Nodes(c) == 1
    ensures var t := Record3(a, b, c); Shaped(t) && Height(t) <= 1 && Nodes(t) <= 7
  {
    hide Shaped, Height, Nodes, Fits;
    NothingFits(Some(2), 1);
    FieldFits(2, c, End, Some(1), 0, 1, 0, 1);
    FieldFits(1, b, Field(2, c, End), Some(0), 1, 1, 2, 1);
    FieldFits(0, a, Field(1, b, Field(2, c, End)), None, 2, 1, 4, 1);
    DictFits(Field(0, a, Field(1, b, Field(2, c, End))), 3, 1, 6);
  }

  lemma RowFits(e: StorageEntry)
    requires RowInBounds(e)
    ensures Shaped(RowTree(e)) && Height(RowTree(e)) <= 1 && Nodes(RowTree(e)) <= 7
  {
    hide Record3;
    Record3Fits(Text(e.key), Text(e.value), OptionalTree(e.groupId));
  }

  lemma {:induction false} RowsFit(rows: seq<StorageEntry>)
    requires forall e :: e in rows ==> RowInBounds(e)
    ensures ShapedItems(RowTrees(rows)) && HeightItems(RowTrees(rows)) <= 2 && NodesItems(RowTrees(rows)) <= 7 * |rows|
  {
    hide RowTree, RowInBounds, Shaped, Height, Nodes;
    if rows != [] {
      RowFits(rows[0]);
      RowsFit(rows[1..]);
      assert RowTrees(rows)[1..] == RowTrees(rows[1..]);
    }
  }

  /** 4096 rows of 7 items each leave room for everything else a request holds. */
  lemma WireFits(rows: seq<StorageEntry>)
    requires |rows| <= 4096 && forall e :: e in rows ==> RowInBounds(e)
    ensures var t := WireTree(1, rows); Shaped(t) && Height(t) <= 4 && Nodes(t) <= 28700
  {
    hide ShapedItems, HeightItems, NodesItems, RowTrees, Fits, RowInBounds;
    var list := List(RowTrees(rows));
    RowsFit(rows);
    assert Shaped(list) && Height(list) <= 2 && Nodes(list) <= 28673;
    hide Shaped, Height, Nodes;
    NothingFits(Some(1), 4);
    FieldFits(1, list, End, Some(0), 0, 4, 0, 28673);
    assert Shaped(Number(1)) && Height(Number(1)) == 0 && Nodes(Number(1)) == 1 by { SmallFits(1, []); }
    FieldFits(0, Number(1), Field(1, list, End), None, 1, 4, 28674, 1);
    DictFits(Field(0, Number(1), Field(1, list, End)), 2, 4, 28676);
  }

  lemma SnapshotFits(s: Snapshot, expected: Option<Bytes>)
    requires CheckSnapshot(s, expected).Ok? && (expected.Some? ==> |expected.value| == 16)
    ensures var t := SnapshotTree(s); Shaped(t) && Height(t) <= 4 && Nodes(t) <= 28700
  {
    hide SortBy, Shaped, Height, Nodes, WireTree, CheckSnapshot, RowInBounds, Volume;
    SortedIsReceivable(s, expected);
    WireFits(SortBy(EntryKey, s.entries));
  }

  lemma SmallFits(n: nat, d: Bytes)
    requires n < U64 && |d| <= MAX_BLOB
    ensures Shaped(Number(n)) && Height(Number(n)) == 0 && Nodes(Number(n)) == 1
    ensures Shaped(Text(d)) && Height(Text(d)) == 0 && Nodes(Text(d)) == 1
    ensures Shaped(Null) && Height(Null) == 0 && Nodes(Null) == 1
  {
  }

  lemma NumberField(key: nat, n: nat, more: Fields, previous: Option<nat>, count: nat, nodes: nat)
    requires key < 0x100 && n < U64
    requires (previous.Some? ==> previous.value < key) && Fits(more, Some(key), count, 5, nodes)
    ensures Fits(Field(key, Number(n), more), previous, count + 1, 5, nodes + 2)
  {
    hide Fits, Shaped, Height, Nodes;
    SmallFits(n, []);
    FieldFits(key, Number(n), more, previous, count, 5, nodes, 1);
  }

  lemma TextField(key: nat, d: Bytes, more: Fields, previous: Option<nat>, count: nat, nodes: nat)
    requires key < 0x100 && |d| <= MAX_BLOB
    requires (previous.Some? ==> previous.value < key) && Fits(more, Some(key), count, 5, nodes)
    ensures Fits(Field(key, Text(d), more), previous, count + 1, 5, nodes + 2)
  {
    hide Fits, Shaped, Height, Nodes;
    SmallFits(0, d);
    FieldFits(key, Text(d), more, previous, count, 5, nodes, 1);
  }

  lemma LeafField(key: nat, l: Leaf, more: Fields, previous: Option<nat>, count: nat, nodes: nat)
    requires key < 0x100 && CheckLeaf(l).Ok?
    requires (previous.Some? ==> previous.value < key) && Fits(more, Some(key), count, 5, nodes)
    ensures Fits(Field(key, LeafTree(l), more), previous, count + 1, 5, nodes + 8)
  {
    hide Fits, Shaped, Height, Nodes, Record3;
    SmallFits(l.index, l.identity);
    SmallFits(0, l.signatureKey);
    Record3Fits(Number(l.index), Text(l.identity), Text(l.signatureKey));
    FieldFits(key, LeafTree(l), more, previous, count, 5, nodes, 7);
  }

  lemma StateField(key: nat, s: ExpectedState, more: Fields, previous: Option<nat>, count: nat, nodes: nat)
    requires key < 0x100 && CheckState(s).Ok?
    requires (previous.Some? ==> previous.value < key) && Fits(more, Some(key), count, 5, nodes)
    ensures Fits(Field(key, StateTree(s), more), previous, count + 1, 5, nodes + 8)
  {
    hide Fits, Shaped, Height, Nodes, Record3;
    SmallFits(s.epoch, s.groupId);
    SmallFits(0, s.digest);
    Record3Fits(Text(s.groupId), Number(s.epoch), Text(s.digest));
    FieldFits(key, StateTree(s), more, previous, count, 5, nodes, 7);
  }

  lemma SnapshotField(key: nat, s: Snapshot, expected: Option<Bytes>, more: Fields, previous: Option<nat>, count: nat, nodes: nat)
    requires key < 0x100 && CheckSnapshot(s, expected).Ok? && (expected.Some? ==> |expected.value| == 16)
    requires (previous.Some? ==> previous.value < key) && Fits(more, Some(key), count, 5, nodes)
    ensures Fits(Field(key, SnapshotTree(s), more), previous, count + 1, 5, nodes + 28701)
  {
    hide Fits, Shaped, Height, Nodes, SnapshotTree, CheckSnapshot;
    SnapshotFits(s, expected);
    FieldFits(key, SnapshotTree(s), more, previous, count, 5, nodes, 28700);
  }

  /** A storage value that fits four levels and the rows' share of the items. */
  predicate StorageFits(t: Tree) {
    Shaped(t) && Height(t) <= 4 && Nodes(t) <= 28700
  }

  lemma StorageField(key: nat, t: Tree, more: Fields, previous: Option<nat>, count: nat, nodes: nat)
    requires key < 0x100 && StorageFits(t)
    requires (previous.Some? ==> previous.value < key) && Fits(more, Some(key), count, 5, nodes)
    ensures Fits(Field(key, t, more), previous, count + 1, 5, nodes + 28701)
  {
    hide Fits, Shaped, Height, Nodes;
    FieldFits(key, t, more, previous, count, 5, nodes, 28700);
  }

  lemma ProcessWireFits(r: Request, t: Tree)
    requires r.Process? && FieldsInBounds(r) && StorageFits(t)
    ensures Count(ProcessFieldsWith(r, t)) == 13 && InProfile(RequestTreeWith(r, t))
  {
    hide Fits, Shaped, Height, Nodes, StorageFits, StateTree, LeafTree;
    var f0 := ProcessFieldsWith(r, t);
    var f1 := f0.more; var f2 := f1.more; var f3 := f2.more; var f4 := f3.more; var f5 := f4.more; var f6 := f5.more;
    var f7 := f6.more; var f8 := f7.more; var f9 := f8.more; var f10 := f9.more; var f11 := f10.more; var f12 := f11.more;
    NothingFits(Some(12), 5);
    TextField(12, r.incarnationId, End, Some(11), 0, 0);
    TextField(11, r.messageSha256, f12, Some(10), 1, 2);
    NumberField(10, r.retention, f11, Some(9), 2, 4);
    StateField(9, r.messageState, f10, Some(8), 3, 6);
    StorageField(8, t, f9, Some(7), 4, 14);
    TextField(7, r.baseSha256, f8, Some(6), 5, 28715);
    StateField(6, r.resulting, f7, Some(5), 6, 28717);
    StateField(5, r.previous, f6, Some(4), 7, 28725);
    LeafField(4, r.sender, f5, Some(3), 8, 28733);
    TextField(3, r.aad, f4, Some(2), 9, 28741);
    TextField(2, r.message, f3, Some(1), 10, 28743);
    TextField(1, r.groupId, f2, Some(0), 11, 28745);
    NumberField(0, r.profile, f1, None, 12, 28747);
    DictFits(f0, 13, 5, 28749);
    FitsCount(f0, None, 13, 5, 28749);
  }

  lemma FitsCount(es: Fields, previous: Option<nat>, count: nat, height: nat, nodes: nat)
    requires Fits(es, previous, count, height, nodes)
    ensures Count(es) == count
  {
  }

  lemma JoinWireFits(r: Request, t: Tree)
    requires r.Join? && FieldsInBounds(r) && StorageFits(t)
    ensures Count(JoinFieldsWith(r, t)) == 11 && InProfile(RequestTreeWith(r, t))
  {
    hide Fits, Shaped, Height, Nodes, StorageFits, StateTree, LeafTree;
    var f0 := JoinFieldsWith(r, t);
    var f1 := f0.more; var f2 := f1.more; var f3 := f2.more; var f4 := f3.more; var f5 := f4.more; var f6 := f5.more;
    var f7 := f6.more; var f8 := f7.more; var f9 := f8.more; var f10 := f9.more;
    NothingFits(Some(10), 5);
    TextField(10, r.welcomeSha256, End, Some(9), 0, 0);
    TextField(9, r.incarnationId, f10, Some(8), 1, 2);
    NumberField(8, r.retention, f9, Some(7), 2, 4);
    StorageField(7, t, f8, Some(6), 3, 6);
    TextField(6, r.keyPackageSha256, f7, Some(5), 4, 28707);
    StateField(5, r.resulting, f6, Some(4), 5, 28709);
    LeafField(4, r.localLeaf, f5, Some(3), 6, 28717);
    TextField(3, r.signer, f4, Some(2), 7, 28725);
    SmallFits(0, if r.ratchetTree.Some? then r.ratchetTree.value else []);
    FieldFits(2, OptionalTree(r.ratchetTree), f3, Some(1), 8, 5, 28727, 1);
    TextField(1, r.welcome, f2, Some(0), 9, 28729);
    NumberField(0, r.profile, f1, None, 10, 28731);
    DictFits(f0, 11, 5, 28733);
    FitsCount(f0, None, 11, 5, 28733);
  }

  /** A request of fields in bounds, with rows that may be received, stays inside the scan's depth, item and map budgets. */
  lemma WireRequestFits(r: Request, rows: seq<StorageEntry>)
    requires FieldsInBounds(r) && Receivable(rows, GroupOfRequest(r))
    ensures var t := WireTree(1, rows);
            && InProfile(RequestTreeWith(r, t))
            && (r.Process? ==> Count(ProcessFieldsWith(r, t)) == 13) && (r.Join? ==> Count(JoinFieldsWith(r, t)) == 11)
  {
    hide FieldsInBounds, Shaped, Height, Nodes, WireTree, ProcessFieldsWith, JoinFieldsWith, InProfile, RowInBounds, Volume;
    WireFits(rows);
    if r.Process? {
      ProcessWireFits(r, WireTree(1, rows));
    } else {
      JoinWireFits(r, WireTree(1, rows));
    }
  }

  lemma RequestFits(r: Request)
    requires CheckRequest(r).Ok?
    ensures InProfile(RequestTree(r))
  {
    hide CheckRequest, RequestTree, RequestTreeWith, InProfile, FieldsInBounds, Receivable, WireTree, SortBy;
    SentIsReceivable(r);
    WireRequestFits(Canonical(r), SortBy(EntryKey, r.storage.entries));
  }

  // ---------------------------------------------------------------- the frame limit never binds

  lemma HeadSize(major: nat, n: nat)
    requires major < 8
    ensures |Head(major, n)| <= 9
  {
  }

  lemma FieldSize(key: nat, value: Tree, more: Fields, a: nat, b: nat)
    requires |Enc(value)| <= a && |EncEntries(more)| <= b
    ensures |EncEntries(Field(key, value, more))| <= 9 + a + b
  {
    hide Enc;
    HeadSize(UINT, key);
  }

  lemma SmallSize(n: nat, d: Bytes)
    ensures |Enc(Number(n))| <= 9 && |Enc(Text(d))| <= 9 + |d| && |Enc(Null)| == 1
  {
    HeadSize(UINT, n);
    HeadSize(BYTES, |d|);
  }

  lemma Record3Size(a: Tree, b: Tree, c: Tree, x: nat, y: nat, z: nat)
    requires |Enc(a)| <= x && |Enc(b)| <= y && |Enc(c)| <= z
    ensures |Enc(Record3(a, b, c))| <= 36 + x + y + z
  {
    hide EncEntries, Head;
    var f2 := Field(2, c, End);
    var f1 := Field(1, b, f2);
    assert |EncEntries(End)| == 0 by { NoEntries([]); }
    FieldSize(2, c, End, z, 0);
    FieldSize(1, b, f2, y, 9 + z);
    FieldSize(0, a, f1, x, 18 + y + z);
    HeadSize(MAP, Count(Field(0, a, f1)));
  }

  lemma RowSize(e: StorageEntry)
    ensures |Enc(RowTree(e))| <= 63 + EntrySize(e)
  {
    hide Enc, Record3;
    SmallSize(0, e.key);
    SmallSize(0, e.value);
    SmallSize(0, if e.groupId.Some? then e.groupId.value else []);
    Record3Size(Text(e.key), Text(e.value), OptionalTree(e.groupId), 9 + |e.key|, 9 + |e.value|,
                9 + if e.groupId.Some? then |e.groupId.value| else 0);
  }

  lemma {:induction false} RowsSize(rows: seq<StorageEntry>)
    ensures |EncItems(RowTrees(rows))| <= 63 * |rows| + TotalSize(rows)
  {
    hide Enc, RowTree, EntrySize;
    if rows != [] {
      RowSize(rows[0]);
      RowsSize(rows[1..]);
      assert RowTrees(rows)[1..] == RowTrees(rows[1..]);
    }
  }

  lemma SnapshotSize(s: Snapshot, expected: Option<Bytes>)
    requires CheckSnapshot(s, expected).Ok?
    ensures |Enc(SnapshotTree(s))| <= 6 * MIB + 300000
  {
    hide EncEntries, EncItems, RowTrees, Head, SortBy, TotalSize, CheckEntries;
    var rows := SortBy(EntryKey, s.entries);
    var list := List(RowTrees(rows));
    RowsSize(rows);
    HeadSize(ARRAY, |rows|);
    assert |EncEntries(End)| == 0 by { NoEntries([]); }
    FieldSize(1, list, End, 9 + |EncItems(RowTrees(rows))|, 0);
    SmallSize(s.format, []);
    FieldSize(0, Number(s.format), Field(1, list, End), 9, 18 + |EncItems(RowTrees(rows))|);
    HeadSize(MAP, Count(Field(0, Number(s.format), Field(1, list, End))));
  }

  lemma LeafSize(l: Leaf)
    requires CheckLeaf(l).Ok?
    ensures |Enc(LeafTree(l))| <= 140
  {
    hide Enc, Record3;
    SmallSize(l.index, l.identity);
    SmallSize(0, l.signatureKey);
    Record3Size(Number(l.index), Text(l.identity), Text(l.signatureKey), 9, 54, 41);
  }

  lemma StateSize(s: ExpectedState)
    requires CheckState(s).Ok?
    ensures |Enc(StateTree(s))| <= 140
  {
    hide Enc, Record3;
    SmallSize(s.epoch, s.groupId);
    SmallSize(0, s.digest);
    Record3Size(Text(s.groupId), Number(s.epoch), Text(s.digest), 25, 9, 41);
  }

  lemma TextSize(key: nat, d: Bytes, more: Fields, b: nat)
    requires |EncEntries(more)| <= b
    ensures |EncEntries(Field(key, Text(d), more))| <= 18 + |d| + b
  {
    hide EncEntries, Enc;
    SmallSize(0, d);
    FieldSize(key, Text(d), more, 9 + |d|, b);
  }

  lemma NumberSize(key: nat, n: nat, more: Fields, b: nat)
    requires |EncEntries(more)| <= b
    ensures |EncEntries(Field(key, Number(n), more))| <= 18 + b
  {
    hide EncEntries, Enc;
    SmallSize(n, []);
    FieldSize(key, Number(n), more, 9, b);
  }

  lemma ProcessSize(r: Request)
    requires r.Process? && CheckRequest(r).Ok?
    ensures HEADER + |Enc(RequestTree(r))| <= REQUEST_MAX
  {
    hide EncEntries, Head, SnapshotTree, StateTree, LeafTree, CheckSnapshot, CheckState, CheckLeaf;
    var f0 := ProcessFields(r);
    var f1 := f0.more; var f2 := f1.more; var f3 := f2.more; var f4 := f3.more; var f5 := f4.more; var f6 := f5.more;
    var f7 := f6.more; var f8 := f7.more; var f9 := f8.more; var f10 := f9.more; var f11 := f10.more; var f12 := f11.more;
    var n := 6 * MIB + 300000;
    assert |EncEntries(End)| == 0 by { NoEntries([]); }
    TextSize(12, r.incarnationId, End, 0);
    TextSize(11, r.messageSha256, f12, 200);
    NumberSize(10, r.retention, f11, 300);
    StateSize(r.messageState);
    FieldSize(9, StateTree(r.messageState), f10, 140, 400);
    SnapshotSize(r.storage, Some(r.groupId));
    FieldSize(8, SnapshotTree(r.storage), f9, n, 600);
    TextSize(7, r.baseSha256, f8, n + 700);
    StateSize(r.resulting);
    FieldSize(6, StateTree(r.resulting), f7, 140, n + 800);
    StateSize(r.previous);
    FieldSize(5, StateTree(r.previous), f6, 140, n + 1000);
    LeafSize(r.sender);
    FieldSize(4, LeafTree(r.sender), f5, 140, n + 1200);
    TextSize(3, r.aad, f4, n + 1400);
    TextSize(2, r.message, f3, n + 20000);
    TextSize(1, r.groupId, f2, n + MIB + 21000);
    NumberSize(0, r.profile, f1, n + MIB + 22000);
    HeadSize(MAP, Count(f0));
  }

  lemma JoinSize(r: Request)
    requires r.Join? && CheckRequest(r).Ok?
    ensures HEADER + |Enc(RequestTree(r))| <= REQUEST_MAX
  {
    hide EncEntries, Head, SnapshotTree, StateTree, LeafTree, CheckSnapshot, CheckState, CheckLeaf;
    var f0 := JoinFields(r);
    var f1 := f0.more; var f2 := f1.more; var f3 := f2.more; var f4 := f3.more; var f5 := f4.more; var f6 := f5.more;
    var f7 := f6.more; var f8 := f7.more; var f9 := f8.more; var f10 := f9.more;
    var n := 6 * MIB + 300000;
    assert |EncEntries(End)| == 0 by { NoEntries([]); }
    TextSize(10, r.welcomeSha256, End, 0);
    TextSize(9, r.incarnationId, f10, 100);
    NumberSize(8, r.retention, f9, 300);
    SnapshotSize(r.storage, None);
    FieldSize(7, SnapshotTree(r.storage), f8, n, 400);
    TextSize(6, r.keyPackageSha256, f7, n + 500);
    StateSize(r.resulting);
    FieldSize(5, StateTree(r.resulting), f6, 140, n + 600);
    LeafSize(r.localLeaf);
    FieldSize(4, LeafTree(r.localLeaf), f5, 140, n + 800);
    TextSize(3, r.signer, f4, n + 1000);
    SmallSize(0, if r.ratchetTree.Some? then r.ratchetTree.value else []);
    FieldSize(2, OptionalTree(r.ratchetTree), f3, 2 * MIB + 9, n + 6000);
    TextSize(1, r.welcome, f2, n + 2 * MIB + 7000);
    NumberSize(0, r.profile, f1, n + 3 * MIB + 8000);
    HeadSize(MAP, Count(f0));
  }

  // ---------------------------------------------------------------- main results

  /** Every request whose fields pass is framed: the frame limit never adds a failure. */
  lemma EncoderFailsOnlyOnFields(r: Request)
    ensures EncodeRequest(r).Ok? <==> CheckRequest(r).Ok?
  {
    hide CheckRequest, RequestTree, Enc;
    if CheckRequest(r).Ok? {
      if r.Process? {
        ProcessSize(r);
      } else {
        JoinSize(r);
      }
    }
  }

  lemma HeaderReads(version: u16, op: byte, payload: Bytes)
    requires HEADER + |payload| <= REQUEST_MAX
    ensures DecodeHeader(version, Frame(version, op, payload)) == Ok((op, payload))
  {
    PowValues();
    var f := Frame(version, op, payload);
    FromBEInvertsBE(2, version);
    FromBEInvertsBE(4, |payload|);
    assert f[..4] == MAGIC && f[4..6] == BE(2, version) && f[8..12] == BE(4, |payload|) && f[HEADER..] == payload;
  }

  /** A request in bounds is decoded from its frame, in whatever order its rows are sent; a strange profile or retention is refused. */
  lemma WireAnswers(r: Request, rows: seq<StorageEntry>)
    requires FieldsInBounds(r) && Receivable(rows, GroupOfRequest(r)) && r.storage == Snapshot(1, SortBy(EntryKey, rows))
    requires HEADER + |Enc(RequestTreeWith(r, WireTree(1, rows)))| <= REQUEST_MAX
    ensures DecodeRequest(Frame(2, Opcode(r), Enc(RequestTreeWith(r, WireTree(1, rows))))) == SettingsAnswer(r, r)
  {
    hide FieldsInBounds, Receivable, WireTree, RequestTreeWith, Enc, GetProcess, GetJoin, Recognise, DecodeHeader, Frame, InProfile, SortBy;
    var payload := Enc(RequestTreeWith(r, WireTree(1, rows)));
    HeaderReads(2, Opcode(r), payload);
    WireRequestFits(r, rows);
    AcceptsExactlyTheProfile(payload);
    assert payload + [] == payload;
    if r.Process? {
      ProcessWireReads(r, rows, []);
      assert r.operation != Welcome by { ProcessIsNotWelcome(r); }
    } else {
      JoinWireReads(r, rows, []);
    }
  }

  lemma ProcessIsNotWelcome(r: Request)
    requires r.Process? && FieldsInBounds(r)
    ensures r.operation != Welcome
  {
  }

  lemma WireDecodes(r: Request, rows: seq<StorageEntry>)
    requires InBounds(r) && Receivable(rows, GroupOfRequest(r)) && r.storage == Snapshot(1, SortBy(EntryKey, rows))
    requires HEADER + |Enc(RequestTreeWith(r, WireTree(1, rows)))| <= REQUEST_MAX
    ensures DecodeRequest(Frame(2, Opcode(r), Enc(RequestTreeWith(r, WireTree(1, rows))))) == Ok(r)
  {
    hide DecodeRequest, FieldsInBounds, Receivable, WireTree, RequestTreeWith, Enc, Frame, SortBy;
    WireAnswers(r, rows);
  }

  /** Decoding inverts encoding up to the order of the storage rows, which the encoder sorts. */
  lemma DecodeInvertsEncode(r: Request)
    requires EncodeRequest(r).Ok?
    ensures DecodeRequest(EncodeRequest(r).value) == Ok(Canonical(r))
  {
    hide CheckRequest, RequestTree, RequestTreeWith, Enc, DecodeRequest, Frame, Receivable, InBounds, WireTree, SortBy;
    SentIsReceivable(r);
    WireDecodes(Canonical(r), SortBy(EntryKey, r.storage.entries));
  }
}
