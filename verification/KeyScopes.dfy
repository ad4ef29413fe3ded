/** Which rows the operations on storage take for the installation's and which for a group's. */
module KeyScopes {
  import opened Foundation
  import opened Order
  import opened MlsTypes
  import opened KeyLabels
  import opened Transcripts
  import opened SnapshotStorage
  import opened StorageBatch
  import GroupDigest

  // ---------------------------------------------------------------- what the operations make of the labels

  /** Rows are accepted exactly when their keys differ and each carries the group id its label demands. */
  lemma RowsAcceptedExactly(entries: seq<StorageEntry>, version: nat, group: Option<Bytes>)
    ensures ValidateEntries(entries, version, group).Ok? <==>
              && version == 1
              && (forall i, j :: 0 <= i < j < |entries| ==> entries[i].key != entries[j].key)
              && forall e :: e in entries ==> e.groupId == GroupOf(e.key, group) && (Installation(e.key) || group.Some?)
  {
    hide IsGlobalKey, Installation, ValidateEntries;
    AllGlobalAreInstallation();
    ValidMeans(entries, version, group);
  }

  /** A row of the installation passes without a group id in any operation, and with one in none. */
  lemma InstallationRows(j: nat, rest: Bytes, value: Bytes, groupId: Option<Bytes>, group: Option<Bytes>)
    requires j < |INSTALLATION_LABELS|
    ensures ValidateEntries([StorageEntry(Ascii(INSTALLATION_LABELS[j]) + rest, value, groupId)], 1, group).Ok? <==> groupId.None?
  {
    hide ValidateEntries, Ascii;
    RowsAcceptedExactly([StorageEntry(Ascii(INSTALLATION_LABELS[j]) + rest, value, groupId)], 1, group);
  }

  /** A row of a group passes exactly in an operation of that group. */
  lemma GroupRows(j: nat, rest: Bytes, value: Bytes, groupId: Option<Bytes>, group: Option<Bytes>)
    requires j < |GROUP_LABELS|
    ensures ValidateEntries([StorageEntry(Ascii(GROUP_LABELS[j]) + rest, value, groupId)], 1, group).Ok? <==>
              group.Some? && groupId == group
  {
    hide ValidateEntries, Ascii, Installation;
    GroupLabelsAreNotInstallation(j, rest);
    RowsAcceptedExactly([StorageEntry(Ascii(GROUP_LABELS[j]) + rest, value, groupId)], 1, group);
  }

  /** A batch exists unless a global operation writes a group's row, and writes every row with the group id its label demands. */
  lemma BatchCarriesScopes(initial: Rows, current: Rows, group: Option<Bytes>, groups: seq<Bytes>)
    ensures BatchOf(initial, current, group, groups).Ok? <==>
              group.Some? || forall k :: k in current && !(k in initial && initial[k] == current[k]) ==> Installation(k)
    ensures BatchOf(initial, current, group, groups).Ok? ==>
              forall e :: e in BatchOf(initial, current, group, groups).value.upserts <==>
                && e.key in current && !(e.key in initial && initial[e.key] == current[e.key])
                && e.value == current[e.key] && e.groupId == GroupOf(e.key, group)
    ensures BatchOf(initial, current, group, groups).Ok? ==>
              var b := BatchOf(initial, current, group, groups).value;
              && (forall k :: k in b.deletes <==> k in initial && k !in current)
              && b.deletedGroupIds == groups && b.formatVersion == 1
              && (forall i, j :: 0 <= i < j < |b.upserts| ==> b.upserts[i].key != b.upserts[j].key && LexLe(b.upserts[i].key, b.upserts[j].key))
              && forall i, j :: 0 <= i < j < |b.deletes| ==> b.deletes[i] != b.deletes[j] && LexLe(b.deletes[i], b.deletes[j])
  {
    hide IsGlobalKey, Installation, Sorted;
    AllGlobalAreInstallation();
    ChangedKeys(initial, current);
    RemovedKeys(initial, current);
    if BatchOf(initial, current, group, groups).Ok? {
      BatchFacts(initial, current, group, groups);
      OrderOf(BatchOf(initial, current, group, groups).value);
    }
  }

  lemma OrderOf(b: Batch)
    requires SortedBy(EntryKey, b.upserts) && DistinctBy(EntryKey, b.upserts) && SortedBy(Itself, b.deletes) && DistinctBy(Itself, b.deletes)
    ensures forall i, j :: 0 <= i < j < |b.upserts| ==> b.upserts[i].key != b.upserts[j].key && LexLe(b.upserts[i].key, b.upserts[j].key)
    ensures forall i, j :: 0 <= i < j < |b.deletes| ==> b.deletes[i] != b.deletes[j] && LexLe(b.deletes[i], b.deletes[j])
  {
    hide LexLe;
    forall i, j | 0 <= i < j < |b.upserts|
      ensures b.upserts[i].key != b.upserts[j].key && LexLe(b.upserts[i].key, b.upserts[j].key)
    {
      assert EntryKey(b.upserts[i]) != EntryKey(b.upserts[j]) && LexLe(EntryKey(b.upserts[i]), EntryKey(b.upserts[j]));
    }
    forall i, j | 0 <= i < j < |b.deletes| ensures b.deletes[i] != b.deletes[j] && LexLe(b.deletes[i], b.deletes[j]) {
      assert Itself(b.deletes[i]) != Itself(b.deletes[j]) && LexLe(Itself(b.deletes[i]), Itself(b.deletes[j]));
    }
  }

  /** Deleting a group keeps exactly the rows under installation labels. */
  lemma DeletingKeepsInstallationLabels(entries: seq<StorageEntry>, group: Bytes, current: Rows)
    requires ValidateEntries(entries, 1, Some(group)).Ok?
    ensures BatchOf(Collect(entries), current, Some(group), [group]).Ok?
    ensures var b := BatchOf(Collect(entries), current, Some(group), [group]).value;
            forall e :: e in Applied(entries, b) <==>
              Installation(e.key) && e.key in current && e.value == current[e.key] && e.groupId.None?
  {
    hide IsGlobalKey, Installation, ValidateEntries, Collect, Applied, BatchOf;
    AllGlobalAreInstallation();
    BatchOfAGroup(Collect(entries), current, group, [group]);
    DeletingLeavesInstallationRows(entries, group, current);
    RowsFacts(current, Some(group));
  }

  function GroupKeyValues(entries: seq<StorageEntry>): set<(Bytes, Bytes)> {
    set e | e in entries && !Installation(e.key) :: (e.key, e.value)
  }

  /** A digest is taken exactly of valid rows whose lengths and number each fit four bytes. */
  lemma DigestTakenExactly(sha: Hash, version: u32, g: Bytes, entries: seq<StorageEntry>)
    ensures GroupDigest.Digest(sha, g, entries, version).Ok? <==>
              && ValidateEntries(entries, version, Some(g)).Ok? && |g| < 0x1_0000_0000
              && |GroupDigest.SortedRows(entries)| < 0x1_0000_0000
              && forall e :: e in entries && !Installation(e.key) ==> |e.key| < 0x1_0000_0000 && |e.value| < 0x1_0000_0000
    ensures GroupDigest.Digest(sha, g, entries, version).Ok? ==>
              GroupDigest.Digest(sha, g, entries, version) == Ok(sha(GroupTranscript(version, g, GroupDigest.SortedRows(entries))))
  {
    hide IsGlobalKey, Installation, GroupTranscript, GroupDigest.SortedRows, ValidateEntries;
    AllGlobalAreInstallation();
    if ValidateEntries(entries, version, Some(g)).Ok? {
      GroupDigest.SortedRowsMean(entries, version, g);
    }
  }

  /** What the digest covers, label by label: the version, the group and its rows, and none of the installation's. */
  lemma DigestCoversGroupLabels(sha: Hash, version: u32, g: Bytes, a: seq<StorageEntry>, other: u32, h: Bytes, b: seq<StorageEntry>)
    requires GroupDigest.Digest(sha, g, a, version).Ok? && GroupDigest.Digest(sha, h, b, other).Ok?
    ensures GroupTranscript(version, g, GroupDigest.SortedRows(a)) == GroupTranscript(other, h, GroupDigest.SortedRows(b)) <==>
              version == other && g == h && GroupKeyValues(a) == GroupKeyValues(b)
  {
    hide IsGlobalKey, Installation, GroupTranscript, GroupDigest.SortedRows, GroupDigest.Digest;
    AllGlobalAreInstallation();
    assert GroupKeyValues(a) == GroupDigest.KeyValues(a) && GroupKeyValues(b) == GroupDigest.KeyValues(b);
    GroupDigest.DigestCoversExactly(sha, version, g, a, other, h, b);
  }
}
