/** The bounds on a native request, each in figures, and that they are all the encoder checks. */
module NativeLimits {
  import opened Foundation
  import opened Order
  import opened MlsTypes
  import opened KeyLabels
  import opened NativeTypes

  // ---------------------------------------------------------------- records

  predicate LeafInBounds(l: Leaf) {
    |l.identity| == 45 && |l.signatureKey| == 32
  }

  predicate StateInBounds(s: ExpectedState) {
    |s.groupId| == 16 && |s.digest| == 32
  }

  /** Every field of a request apart from its storage. */
  predicate InBounds(r: Request) {
    r.profile == 2 && r.retention in {2, 4} && FieldsInBounds(r)
  }

  /** The same for everything but the profile and the retention. */
  predicate FieldsInBounds(r: Request) {
    match r
    case Process(operation, _, groupId, message, aad, sender, previous, resulting, base, _, state, _, sha, id) =>
      && operation in {Application, Commit}
      && |groupId| == 16 && 1 <= |message| <= 1048576 && 1 <= |aad| <= 16384 && |base| == 32 && |sha| == 32 && 1 <= |id| <= 128
      && LeafInBounds(sender) && StateInBounds(previous) && StateInBounds(resulting) && StateInBounds(state)
    case Join(_, welcome, tree, signer, leaf, resulting, package, _, _, id, sha) =>
      && 1 <= |welcome| <= 1048576 && (tree.Some? ==> 1 <= |tree.value| <= 2097152) && 1 <= |signer| <= 4096
      && |package| == 32 && |sha| == 32 && 1 <= |id| <= 128
      && LeafInBounds(leaf) && StateInBounds(resulting)
  }

  /** The group whose rows the request may carry. */
  function GroupOfRequest(r: Request): Option<Bytes> {
    if r.Process? then Some(r.groupId) else None
  }

  // ---------------------------------------------------------------- rows

  predicate RowInBounds(e: StorageEntry) {
    1 <= |e.key| <= 4096 && |e.value| <= 2097152 && (e.groupId.Some? ==> |e.groupId.value| == 16)
  }

  /** Keys, values and group ids together. */
  function Volume(rows: seq<StorageEntry>): nat {
    if rows == [] then 0 else
      |rows[0].key| + |rows[0].value| + (if rows[0].groupId.Some? then |rows[0].groupId.value| else 0) + Volume(rows[1..])
  }

  /** Rows as a decoder takes them: at most 4096 of them and 6 MiB, no key twice, no group but the request's. */
  predicate Receivable(rows: seq<StorageEntry>, group: Option<Bytes>) {
    && |rows| <= 4096 && Volume(rows) <= 6291456
    && (forall e :: e in rows ==> RowInBounds(e) && (e.groupId.Some? ==> e.groupId == group))
    && forall i, j :: 0 <= i < j < |rows| ==> rows[i].key != rows[j].key
  }

  /** Rows as an encoder sends them: each also with the group id its label demands. */
  predicate Sendable(rows: seq<StorageEntry>, group: Option<Bytes>) {
    Receivable(rows, group) && forall e :: e in rows ==> e.groupId == GroupOf(e.key, group)
  }

  // ---------------------------------------------------------------- the encoder checks exactly these

  lemma {:induction false} VolumeMeans(rows: seq<StorageEntry>)
    ensures TotalSize(rows) == Volume(rows)
  {
    if rows != [] {
      VolumeMeans(rows[1..]);
    }
  }

  lemma {:induction false} EntriesCheckedExactly(rows: seq<StorageEntry>, group: Option<Bytes>)
    requires group.Some? ==> |group.value| == 16
    ensures CheckEntries(rows, group).Ok? <==>
              forall e :: e in rows ==> RowInBounds(e) && e.groupId == GroupOf(e.key, group)
  {
    hide IsGlobalKey, Installation;
    if rows != [] {
      GlobalIsInstallation(rows[0].key);
      EntriesCheckedExactly(rows[1..], group);
      assert forall e :: e in rows <==> e == rows[0] || e in rows[1..];
    }
  }

  /** Rows that carry the group id their label demands carry no other group's. */
  lemma DemandedFits(rows: seq<StorageEntry>, group: Option<Bytes>)
    ensures (forall e :: e in rows ==> e.groupId == GroupOf(e.key, group)) ==>
              forall e :: e in rows ==> e.groupId.Some? ==> e.groupId == group
  {
    hide Installation;
  }

  lemma SnapshotCheckedExactly(s: Snapshot, group: Option<Bytes>)
    requires group.Some? ==> |group.value| == 16
    ensures CheckSnapshot(s, group).Ok? <==> s.format == 1 && Sendable(s.entries, group)
  {
    hide CheckEntries, SortBy, TotalSize, Volume, SortedBy, DistinctBy, HasAdjacentTwins, RowInBounds, GroupOf;
    var rows := SortBy(EntryKey, s.entries);
    SortSorts(EntryKey, s.entries);
    NoTwinsMeansDistinct(EntryKey, rows);
    SortKeepsElements(EntryKey, s.entries);
    EntriesCheckedExactly(rows, group);
    VolumeMeans(rows);
    SortKeepsVolume(s.entries);
    DemandedFits(s.entries, group);
    DistinctMeans(s.entries);
    if DistinctBy(EntryKey, s.entries) {
      SortKeepsDistinct(EntryKey, s.entries);
    } else {
      SortKeepsRepeats(EntryKey, s.entries);
    }
  }

  lemma DistinctMeans(rows: seq<StorageEntry>)
    ensures DistinctBy(EntryKey, rows) <==> forall i, j :: 0 <= i < j < |rows| ==> rows[i].key != rows[j].key
  {
  }

  lemma {:induction false} InsertKeepsVolume(e: StorageEntry, rows: seq<StorageEntry>)
    ensures Volume(Insert(EntryKey, e, rows)) == Volume([e]) + Volume(rows)
  {
    hide LexLe;
    assert Volume([e][1..]) == 0;
    if rows != [] && !LexLe(e.key, rows[0].key) {
      InsertKeepsVolume(e, rows[1..]);
    }
  }

  lemma {:induction false} SortKeepsVolume(rows: seq<StorageEntry>)
    ensures Volume(SortBy(EntryKey, rows)) == Volume(rows)
  {
    if rows != [] {
      SortKeepsVolume(rows[1..]);
      InsertKeepsVolume(rows[0], SortBy(EntryKey, rows[1..]));
      assert Volume([rows[0]][1..]) == 0;
    }
  }

  /** The checks of the encoder pass exactly for a request in bounds whose rows may be sent. */
  lemma CheckedExactly(r: Request)
    ensures CheckRequest(r).Ok? <==> InBounds(r) && r.storage.format == 1 && Sendable(r.storage.entries, GroupOfRequest(r))
  {
    hide CheckSnapshot, Sendable;
    if GroupOfRequest(r).None? || |GroupOfRequest(r).value| == 16 {
      SnapshotCheckedExactly(r.storage, GroupOfRequest(r));
    }
  }
}
