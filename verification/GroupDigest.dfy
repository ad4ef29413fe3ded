/** The digest of a group's rows: validated, stripped of installation rows, sorted, and fed to the hash. */
module GroupDigest {
  import opened Foundation
  import opened Order
  import opened MlsTypes
  import opened Transcripts
  import opened SnapshotStorage

  function GroupRows(entries: seq<StorageEntry>): seq<StorageEntry> {
    if entries == [] then [] else
      var n := |entries| - 1;
      GroupRows(entries[..n]) + if IsGlobalKey(entries[n].key) then [] else [entries[n]]
  }

  function SortedRows(entries: seq<StorageEntry>): seq<StorageEntry> {
    SortBy(EntryKey, GroupRows(entries))
  }

  function Digest(sha: Hash, groupId: Bytes, entries: seq<StorageEntry>, version: u32): Result<Bytes, StorageError> {
    var _ :- ValidateEntries(entries, version, Some(groupId));
    var rows := SortedRows(entries);
    if RowsBounded(groupId, rows) then Ok(sha(GroupTranscript(version, groupId, rows))) else Err(LengthBeyondEncoding)
  }

  lemma NothingFed(start: Bytes, rows: seq<StorageEntry>)
    ensures start + RowParts(rows[..0]) == start && GroupRows(rows[..0]) == [] && DistinctBy(EntryKey, [])
  {
  }

  method FeedPrefixed(h: Hasher, b: Bytes) returns (r: Result<(), StorageError>)
    modifies h
    ensures r == if |b| < LIMIT then Ok(()) else Err(LengthBeyondEncoding)
    ensures r.Ok? ==> h.fed == old(h.fed) + Prefixed(b)
  {
    var fed := h.UpdatePrefixed(b);
    return if fed.Ok? then Ok(()) else Err(LengthBeyondEncoding);
  }

  method FeedRow(h: Hasher, e: StorageEntry) returns (r: Result<(), StorageError>)
    modifies h
    ensures r == if RowBounded(e) then Ok(()) else Err(LengthBeyondEncoding)
    ensures r.Ok? ==> h.fed == old(h.fed) + RowPart(e)
  {
    hide Prefixed;
    ghost var start := h.fed;
    var _ :- FeedPrefixed(h, e.key);
    var _ :- FeedPrefixed(h, e.value);
    Regroup(start, Prefixed(e.key), Prefixed(e.value));
    return Ok(());
  }

  method FeedRows(h: Hasher, rows: seq<StorageEntry>) returns (r: Result<(), StorageError>)
    modifies h
    ensures r == if forall e :: e in rows ==> RowBounded(e) then Ok(()) else Err(LengthBeyondEncoding)
    ensures r.Ok? ==> h.fed == old(h.fed) + RowParts(rows)
  {
    hide RowPart, RowParts, RowBounded;
    ghost var start := h.fed;
    NothingFed(start, rows);
    for i := 0 to |rows|
      invariant h.fed == start + RowParts(rows[..i])
      invariant forall j :: 0 <= j < i ==> RowBounded(rows[j])
    {
      RowPartsGrow(start, rows, i);
      var _ :- FeedRow(h, rows[i]);
    }
    assert rows[..|rows|] == rows;
    return Ok(());
  }

  method GroupStateDigestFromEntries(sha: Hash, groupId: Bytes, entries: seq<StorageEntry>, version: u32)
    returns (r: Result<Bytes, StorageError>)
    ensures r == Digest(sha, groupId, entries, version)
  {
    hide BE, Prefixed, RowPart, RowParts, IsGlobalKey, ValidateEntries, RowBounded, GroupRows, SortBy;
    var _ :- ValidateStorageEntries(entries, version, Some(groupId));
    var groupRows: seq<StorageEntry> := [];
    NothingFed([], entries);
    for i := 0 to |entries|
      invariant groupRows == GroupRows(entries[..i])
    {
      GroupRowsGrow(entries, i);
      if !IsGlobalKey(entries[i].key) {
        groupRows := groupRows + [entries[i]];
      }
    }
    assert entries[..|entries|] == entries;
    groupRows := SortBy(EntryKey, groupRows);
    assert groupRows == SortedRows(entries);
    var h := new Hasher();
    h.Update(GROUP_DOMAIN);
    assert h.fed == GROUP_DOMAIN;
    h.Update(BE(4, version));
    var _ :- FeedPrefixed(h, groupId);
    if |groupRows| >= LIMIT {
      return Err(LengthBeyondEncoding);
    }
    h.Update(BE(4, |groupRows|));
    var _ :- FeedRows(h, groupRows);
    return Ok(sha(h.fed));
  }

  lemma GroupRowsGrow(entries: seq<StorageEntry>, i: nat)
    requires i < |entries|
    ensures GroupRows(entries[..i + 1]) ==
              if IsGlobalKey(entries[i].key) then GroupRows(entries[..i]) else GroupRows(entries[..i]) + [entries[i]]
  {
    hide IsGlobalKey;
    assert entries[..i + 1][..i] == entries[..i];
    assert GroupRows(entries[..i]) + [] == GroupRows(entries[..i]);
  }

  lemma RowPartsGrow(start: Bytes, rows: seq<StorageEntry>, i: nat)
    requires i < |rows|
    ensures start + RowParts(rows[..i]) + RowPart(rows[i]) == start + RowParts(rows[..i + 1])
  {
    hide RowPart;
    assert rows[..i + 1][..i] == rows[..i];
    Regroup(start, RowParts(rows[..i]), RowPart(rows[i]));
  }

  // ---------------------------------------------------------------- what the digest covers

  /** The group's rows as keys and values, without order and without installation rows. */
  function KeyValues(entries: seq<StorageEntry>): set<(Bytes, Bytes)> {
    set e | e in entries && !IsGlobalKey(e.key) :: (e.key, e.value)
  }

  lemma {:induction false} GroupRowsMean(entries: seq<StorageEntry>)
    ensures forall e :: e in GroupRows(entries) <==> e in entries && !IsGlobalKey(e.key)
    ensures DistinctBy(EntryKey, entries) ==> DistinctBy(EntryKey, GroupRows(entries))
  {
    hide IsGlobalKey, DistinctBy;
    if entries == [] {
      NothingFed([], entries);
    } else {
      var n := |entries| - 1;
      GroupRowsMean(entries[..n]);
      assert entries == entries[..n] + [entries[n]];
      DistinctGrows(EntryKey, entries[..n], entries[n]);
      DistinctGrows(EntryKey, GroupRows(entries[..n]), entries[n]);
      assert GroupRows(entries[..n]) + [] == GroupRows(entries[..n]);
    }
  }

  /** The sorted rows of a validated snapshot: strictly ordered, all of the one group. */
  lemma SortedRowsMean(entries: seq<StorageEntry>, version: u32, group: Bytes)
    requires ValidateEntries(entries, version, Some(group)).Ok?
    ensures var r := SortedRows(entries);
            && SortedBy(EntryKey, r) && DistinctBy(EntryKey, r)
            && (forall e :: e in r <==> e in entries && !IsGlobalKey(e.key))
            && forall e :: e in r ==> e.groupId == Some(group)
  {
    hide IsGlobalKey, DistinctBy, SortedBy, SortBy, ValidateEntries;
    ValidMeans(entries, version, Some(group));
    GroupRowsMean(entries);
    SortSorts(EntryKey, GroupRows(entries));
    SortKeepsDistinct(EntryKey, GroupRows(entries));
    SortKeepsElements(EntryKey, GroupRows(entries));
    forall e | e in SortedRows(entries) ensures e.groupId == Some(group) {
      assert InScope(e, Some(group));
    }
  }

  lemma SameRowsBothWays(a: seq<StorageEntry>, b: seq<StorageEntry>)
    ensures SameRows(a, a) && (SameRows(a, b) ==> SameRows(b, a))
  {
  }

  lemma SameRowsSameKeyValues(a: seq<StorageEntry>, b: seq<StorageEntry>, e: StorageEntry)
    requires SameRows(a, b) && e in a
    ensures exists f :: f in b && f.key == e.key && f.value == e.value
  {
    var i :| 0 <= i < |a| && a[i] == e;
    assert b[i] in b;
  }

  /**
   * Two digests are taken of the same bytes exactly when the version, the group id and the set of the group's keys and
   * values agree: neither the order of the rows nor any installation row matters, and nothing else is lost.
   */
  lemma DigestCoversExactly(sha: Hash, version: u32, g: Bytes, a: seq<StorageEntry>, other: u32, h: Bytes, b: seq<StorageEntry>)
    requires Digest(sha, g, a, version).Ok? && Digest(sha, h, b, other).Ok?
    ensures GroupTranscript(version, g, SortedRows(a)) == GroupTranscript(other, h, SortedRows(b)) <==>
              version == other && g == h && KeyValues(a) == KeyValues(b)
  {
    hide GroupTranscript, SortedRows, ValidateEntries, IsGlobalKey, SameRows, DistinctBy, SortedBy;
    var (r, s) := (SortedRows(a), SortedRows(b));
    SortedRowsMean(a, version, g);
    SortedRowsMean(b, other, h);
    GroupTranscriptInjective(version, g, r, other, h, s);
    if g == h && KeyValues(a) == KeyValues(b) {
      SameKeyValuesSameRows(a, b, r, s, g);
      SameRowsBothWays(r, s);
    }
    if SameRows(r, s) {
      SameRowsBothWays(r, s);
      forall p | p in KeyValues(a) ensures p in KeyValues(b) {
        var e :| e in a && !IsGlobalKey(e.key) && p == (e.key, e.value);
        SameRowsSameKeyValues(r, s, e);
      }
      forall p | p in KeyValues(b) ensures p in KeyValues(a) {
        var e :| e in b && !IsGlobalKey(e.key) && p == (e.key, e.value);
        SameRowsSameKeyValues(s, r, e);
      }
    }
  }

  lemma SameKeyValuesSameRows(a: seq<StorageEntry>, b: seq<StorageEntry>, r: seq<StorageEntry>, s: seq<StorageEntry>, g: Bytes)
    requires SortedBy(EntryKey, r) && DistinctBy(EntryKey, r) && SortedBy(EntryKey, s) && DistinctBy(EntryKey, s)
    requires (forall e :: e in r <==> e in a && !IsGlobalKey(e.key)) && (forall e :: e in s <==> e in b && !IsGlobalKey(e.key))
    requires (forall e :: e in r ==> e.groupId == Some(g)) && (forall e :: e in s ==> e.groupId == Some(g))
    requires KeyValues(a) == KeyValues(b)
    ensures r == s
  {
    hide IsGlobalKey, SortedBy, DistinctBy;
    forall e | e in r ensures e in s {
      assert (e.key, e.value) in KeyValues(a);
      var f :| f in b && !IsGlobalKey(f.key) && (f.key, f.value) == (e.key, e.value);
      assert f in s && f == e;
    }
    forall e | e in s ensures e in r {
      assert (e.key, e.value) in KeyValues(b);
      var f :| f in a && !IsGlobalKey(f.key) && (f.key, f.value) == (e.key, e.value);
      assert f in r && f == e;
    }
    SortedIsUnique(EntryKey, r, s);
  }
}
