/** One batch per operation, the caller's application of it, and what a whole run of batches amounts to. */
module StorageBatch {
  import opened Foundation
  import opened Order
  import opened MlsTypes
  import opened SnapshotStorage

  // ---------------------------------------------------------------- batches

  function EntryAt(key: Bytes, value: Bytes, group: Option<Bytes>): StorageEntry {
    StorageEntry(key, value, Scope(key, group))
  }

  ghost function EntriesAt(keys: seq<Bytes>, m: Rows, group: Option<Bytes>): (r: seq<StorageEntry>)
    requires forall k :: k in keys ==> k in m
    ensures |r| == |keys| && forall i :: 0 <= i < |r| ==> r[i] == EntryAt(keys[i], m[keys[i]], group)
  {
    seq(|keys|, i requires 0 <= i < |keys| => EntryAt(keys[i], m[keys[i]], group))
  }

  /** All rows of a map in key order, each with the scope its key demands. */
  ghost function EntriesOf(m: Rows, group: Option<Bytes>): seq<StorageEntry> {
    EntriesAt(Sorted(m.Keys), m, group)
  }

  /** The batch of an operation: it does not depend on the order in which the hash map was walked. */
  ghost function BatchOf(initial: Rows, current: Rows, group: Option<Bytes>, deletedGroupIds: seq<Bytes>): Result<Batch, StorageError> {
    if group.None? && exists k :: k in Changed(initial, current) && !IsGlobalKey(k) then Err(GroupStateWithoutGroup)
    else Ok(Batch(EntriesAt(Sorted(Changed(initial, current)), current, group), Sorted(Removed(initial, current)),
                  deletedGroupIds, FORMAT_VERSION))
  }

  function Tagged(rows: seq<(Bytes, Bytes)>, group: Option<Bytes>): (r: seq<StorageEntry>)
    ensures |r| == |rows| && forall i :: 0 <= i < |r| ==> r[i] == EntryAt(rows[i].0, rows[i].1, group)
  {
    if rows == [] then [] else Tagged(rows[..|rows| - 1], group) + [EntryAt(rows[|rows| - 1].0, rows[|rows| - 1].1, group)]
  }

  predicate AllGlobal(rows: seq<(Bytes, Bytes)>) {
    forall i :: 0 <= i < |rows| ==> IsGlobalKey(rows[i].0)
  }

  method BatchFromUpdates(updates: seq<(Bytes, Bytes)>, deletes: seq<Bytes>, group: Option<Bytes>, deletedGroupIds: seq<Bytes>)
    returns (r: Result<Batch, StorageError>)
    ensures r == if group.None? && !AllGlobal(updates) then Err(GroupStateWithoutGroup)
                 else Ok(Batch(SortBy(EntryKey, Tagged(updates, group)), SortBy(Itself, deletes), deletedGroupIds, FORMAT_VERSION))
  {
    hide IsGlobalKey;
    if group.None? {
      for i := 0 to |updates|
        invariant forall j :: 0 <= j < i ==> IsGlobalKey(updates[j].0)
      {
        if !IsGlobalKey(updates[i].0) {
          return Err(GroupStateWithoutGroup);
        }
      }
    }
    var upserts: seq<StorageEntry> := [];
    for i := 0 to |updates|
      invariant upserts == Tagged(updates[..i], group)
    {
      var (key, value) := updates[i];
      upserts := upserts + [StorageEntry(key, value, if IsGlobalKey(key) then None else group)];
    }
    assert updates[..|updates|] == updates;
    return Ok(Batch(SortBy(EntryKey, upserts), SortBy(Itself, deletes), deletedGroupIds, FORMAT_VERSION));
  }

  lemma {:induction false} EntriesAtSorted(keys: seq<Bytes>, m: Rows, group: Option<Bytes>)
    requires (forall k :: k in keys ==> k in m) && SortedBy(Itself, keys) && DistinctBy(Itself, keys)
    ensures var r := EntriesAt(keys, m, group);
            && SortedBy(EntryKey, r) && DistinctBy(EntryKey, r)
            && forall e :: e in r <==> e.key in keys && e == EntryAt(e.key, m[e.key], group)
  {
    hide Scope;
    var r := EntriesAt(keys, m, group);
    forall i, j | 0 <= i < j < |r| ensures LexLe(EntryKey(r[i]), EntryKey(r[j])) && EntryKey(r[i]) != EntryKey(r[j]) {
      assert LexLe(Itself(keys[i]), Itself(keys[j])) && Itself(keys[i]) != Itself(keys[j]);
    }
    forall e: StorageEntry | e.key in keys && e == EntryAt(e.key, m[e.key], group) ensures e in r {
      var i :| 0 <= i < |keys| && keys[i] == e.key;
      assert r[i] == e;
    }
  }

  /** Sorting a listing in any order gives the one batch. */
  lemma ListingOrderIsIrrelevant(updates: seq<(Bytes, Bytes)>, keys: set<Bytes>, m: Rows, group: Option<Bytes>)
    requires Lists(updates, keys, m) && keys <= m.Keys
    ensures SortBy(EntryKey, Tagged(updates, group)) == EntriesAt(Sorted(keys), m, group)
  {
    hide SortBy, Sorted, Scope;
    var tagged := Tagged(updates, group);
    var sorted := Sorted(keys);
    EntriesAtSorted(sorted, m, group);
    forall i, j | 0 <= i < j < |tagged| ensures EntryKey(tagged[i]) != EntryKey(tagged[j]) {
      assert updates[i].0 != updates[j].0;
    }
    SortSorts(EntryKey, tagged);
    SortKeepsDistinct(EntryKey, tagged);
    SortKeepsElements(EntryKey, tagged);
    forall e ensures e in tagged <==> e in EntriesAt(sorted, m, group) {
      if e in tagged {
        var i :| 0 <= i < |tagged| && tagged[i] == e;
        assert updates[i].0 in keys;
      }
      if e in EntriesAt(sorted, m, group) {
        var i :| 0 <= i < |updates| && updates[i].0 == e.key;
        assert tagged[i] == e;
      }
    }
    SortedIsUnique(EntryKey, SortBy(EntryKey, tagged), EntriesAt(sorted, m, group));
  }

  lemma DeleteOrderIsIrrelevant(deletes: seq<Bytes>, keys: set<Bytes>)
    requires DistinctBy(Itself, deletes) && forall k :: k in deletes <==> k in keys
    ensures SortBy(Itself, deletes) == Sorted(keys)
  {
    hide SortBy, Sorted;
    SortSorts(Itself, deletes);
    SortKeepsDistinct(Itself, deletes);
    SortKeepsElements(Itself, deletes);
    SortedIsUnique(Itself, SortBy(Itself, deletes), Sorted(keys));
  }

  lemma AllGlobalMeans(updates: seq<(Bytes, Bytes)>, keys: set<Bytes>, m: Rows)
    requires Lists(updates, keys, m)
    ensures AllGlobal(updates) <==> forall k :: k in keys ==> IsGlobalKey(k)
  {
    hide IsGlobalKey;
    forall k | k in keys && AllGlobal(updates) ensures IsGlobalKey(k) {
      var i :| 0 <= i < |updates| && updates[i].0 == k;
    }
  }

  method BatchFromProvider(provider: SnapshotStorageProvider, group: Option<Bytes>, deletedGroupIds: seq<Bytes>)
    returns (r: Result<Batch, StorageError>)
    ensures r == BatchOf(provider.initial, provider.current, group, deletedGroupIds)
  {
    hide Lists, Changed, Removed, IsGlobalKey, SortBy, Tagged, AllGlobal, DistinctBy, Sorted;
    var upserts, deletes := provider.IntoUpdates();
    ghost var changed := Changed(provider.initial, provider.current);
    ChangedKeys(provider.initial, provider.current);
    ListingOrderIsIrrelevant(upserts, changed, provider.current, group);
    DeleteOrderIsIrrelevant(deletes, Removed(provider.initial, provider.current));
    AllGlobalMeans(upserts, changed, provider.current);
    r := BatchFromUpdates(upserts, deletes, group, deletedGroupIds);
  }

  // ---------------------------------------------------------------- applying a batch

  type ByKey = map<Bytes, StorageEntry>

  /** Inserting rows one after another: a later row replaces an earlier one with its key. */
  function Inserted(m: ByKey, rows: seq<StorageEntry>): ByKey {
    if rows == [] then m else
      var n := |rows| - 1;
      Inserted(m, rows[..n])[rows[n].key := rows[n]]
  }

  function Without(m: ByKey, keys: seq<Bytes>): ByKey {
    map k | k in m && k !in keys :: m[k]
  }

  predicate Belongs(e: StorageEntry, groups: seq<Bytes>) {
    e.groupId.Some? && e.groupId.value in groups
  }

  function Retained(m: ByKey, groups: seq<Bytes>): ByKey {
    map k | k in m && !Belongs(m[k], groups) :: m[k]
  }

  ghost function Values(m: ByKey): (r: seq<StorageEntry>)
    ensures |r| == |Sorted(m.Keys)| && forall i :: 0 <= i < |r| ==> r[i] == m[Sorted(m.Keys)[i]]
  {
    var keys := Sorted(m.Keys);
    seq(|keys|, i requires 0 <= i < |keys| => m[keys[i]])
  }

  function AppliedMap(entries: seq<StorageEntry>, b: Batch): ByKey {
    Retained(Inserted(Without(Inserted(map[], entries), b.deletes), b.upserts), b.deletedGroupIds)
  }

  ghost function Applied(entries: seq<StorageEntry>, b: Batch): seq<StorageEntry> {
    Values(AppliedMap(entries, b))
  }

  lemma InsertedGrows(m: ByKey, rows: seq<StorageEntry>, i: nat)
    requires i < |rows|
    ensures Inserted(m, rows[..i + 1]) == Inserted(m, rows[..i])[rows[i].key := rows[i]]
  {
    assert rows[..i + 1][..i] == rows[..i];
  }

  lemma WithoutGrows(m: ByKey, keys: seq<Bytes>, i: nat)
    requires i < |keys|
    ensures Without(m, keys[..i + 1]) == Without(m, keys[..i]) - {keys[i]}
  {
    assert keys[..i + 1] == keys[..i] + [keys[i]];
  }

  lemma RetainedGrows(m: ByKey, groups: seq<Bytes>, i: nat)
    requires i < |groups|
    ensures var before := Retained(m, groups[..i]);
            Retained(m, groups[..i + 1]) == map k | k in before && before[k].groupId != Some(groups[i]) :: before[k]
  {
    assert groups[..i + 1] == groups[..i] + [groups[i]];
  }

  lemma NothingApplied(m: ByKey, rows: seq<StorageEntry>, keys: seq<Bytes>)
    ensures Inserted(m, rows[..0]) == m && Without(m, keys[..0]) == m && Retained(m, keys[..0]) == m
  {
  }

  /** The caller's rows, replaced in place by what a batch makes of them. */
  class RowStore {
    var entries: seq<StorageEntry>

    constructor (entries: seq<StorageEntry>)
      ensures this.entries == entries
    {
      this.entries := entries;
    }

    method Apply(batch: Batch)
      modifies this
      ensures entries == Applied(old(entries), batch)
    {
      hide Values, Inserted, Without, Retained;
      var byKey: ByKey := map[];
      NothingApplied(byKey, entries, []);
      for i := 0 to |entries|
        invariant entries == old(entries) && byKey == Inserted(map[], entries[..i])
      {
        InsertedGrows(map[], entries, i);
        byKey := byKey[entries[i].key := entries[i]];
      }
      assert entries[..|entries|] == entries;
      ghost var collected := byKey;
      NothingApplied(collected, [], batch.deletes);
      for i := 0 to |batch.deletes|
        invariant byKey == Without(collected, batch.deletes[..i]) && entries == old(entries)
      {
        WithoutGrows(collected, batch.deletes, i);
        byKey := byKey - {batch.deletes[i]};
      }
      assert batch.deletes[..|batch.deletes|] == batch.deletes;
      ghost var kept := byKey;
      NothingApplied(kept, batch.upserts, []);
      for i := 0 to |batch.upserts|
        invariant byKey == Inserted(kept, batch.upserts[..i]) && entries == old(entries)
      {
        InsertedGrows(kept, batch.upserts, i);
        byKey := byKey[batch.upserts[i].key := batch.upserts[i]];
      }
      assert batch.upserts[..|batch.upserts|] == batch.upserts;
      ghost var full := byKey;
      NothingApplied(full, [], batch.deletedGroupIds);
      for i := 0 to |batch.deletedGroupIds|
        invariant byKey == Retained(full, batch.deletedGroupIds[..i]) && entries == old(entries)
      {
        var gone := batch.deletedGroupIds[i];
        RetainedGrows(full, batch.deletedGroupIds, i);
        byKey := map k | k in byKey && byKey[k].groupId != Some(gone) :: byKey[k];
      }
      assert batch.deletedGroupIds[..|batch.deletedGroupIds|] == batch.deletedGroupIds;
      entries := InKeyOrder(byKey);
    }
  }

  method KeysInOrder(keys: set<Bytes>) returns (r: seq<Bytes>)
    ensures r == Sorted(keys)
  {
    hide DistinctBy, SortBy;
    var listed: seq<Bytes> := [];
    var left := keys;
    NoneTwice();
    while left != {}
      invariant left <= keys && DistinctBy(Itself, listed)
      invariant forall k :: k in listed <==> k in keys - left
      decreases |left|
    {
      var k :| k in left;
      MoveOne(keys, left, k);
      left := left - {k};
      DistinctGrows(Itself, listed, k);
      listed := listed + [k];
    }
    DeleteOrderIsIrrelevant(listed, keys);
    r := SortBy(Itself, listed);
  }

  /** The ordered map's own iteration. */
  method InKeyOrder(m: ByKey) returns (r: seq<StorageEntry>)
    ensures r == Values(m)
  {
    hide Sorted;
    var keys := KeysInOrder(m.Keys);
    ghost var values := Values(m);
    r := [];
    for i := 0 to |keys|
      invariant r == values[..i]
    {
      OneMoreValue(m, i);
      r := r + [m[keys[i]]];
    }
    assert values[..|keys|] == values;
  }

  lemma OneMoreValue(m: ByKey, i: nat)
    requires i < |Values(m)|
    ensures Values(m)[..i + 1] == Values(m)[..i] + [m[Sorted(m.Keys)[i]]]
  {
    hide Sorted, Values;
  }

  // ---------------------------------------------------------------- what applying means, row by row

  lemma {:induction false} InsertedMeans(m: ByKey, rows: seq<StorageEntry>)
    ensures var r := Inserted(m, rows);
            && (forall k :: k in r <==> k in m || HasKey(rows, k))
            && (forall k :: k in r && HasKey(rows, k) ==> r[k] in rows && r[k].key == k)
            && (forall k :: k in r && !HasKey(rows, k) ==> r[k] == m[k])
  {
    if rows != [] {
      var n := |rows| - 1;
      InsertedMeans(m, rows[..n]);
      assert rows[..n + 1] == rows;
      forall k ensures HasKey(rows, k) <==> HasKey(rows[..n], k) || k == rows[n].key {
        KeysGrow(rows, n, k);
      }
    }
  }

  lemma {:induction false} CollectIsByKey(entries: seq<StorageEntry>)
    ensures var m := Inserted(map[], entries);
            Collect(entries).Keys == m.Keys && forall k :: k in m ==> Collect(entries)[k] == m[k].value
  {
    if entries != [] {
      CollectIsByKey(entries[..|entries| - 1]);
    }
  }

  lemma KeyIsUnique(entries: seq<StorageEntry>, e: StorageEntry, f: StorageEntry)
    requires DistinctBy(EntryKey, entries) && e in entries && f in entries && e.key == f.key
    ensures e == f
  {
    var i :| 0 <= i < |entries| && entries[i] == e;
    var j :| 0 <= j < |entries| && entries[j] == f;
    assert EntryKey(entries[i]) == EntryKey(entries[j]);
  }

  /** Rows with distinct keys are found again under their keys. */
  lemma CollectMeans(entries: seq<StorageEntry>)
    requires DistinctBy(EntryKey, entries)
    ensures forall k :: k in Collect(entries) <==> HasKey(entries, k)
    ensures forall e :: e in entries ==> e.key in Collect(entries) && Collect(entries)[e.key] == e.value
    ensures forall k :: k in Collect(entries) ==> exists e :: e in entries && e.key == k && e.value == Collect(entries)[k]
  {
    hide Collect, Inserted, DistinctBy;
    var m := Inserted(map[], entries);
    InsertedMeans(map[], entries);
    CollectIsByKey(entries);
    forall e | e in entries ensures e.key in m && m[e.key] == e {
      assert HasKey(entries, e.key);
      KeyIsUnique(entries, e, m[e.key]);
    }
  }

  /**
   * A row is there afterwards exactly when the batch brought it or it was there and neither deleted nor replaced,
   * and its group was not removed as a whole. The result is in strict key order.
   */
  lemma AppliedMeans(entries: seq<StorageEntry>, b: Batch)
    requires DistinctBy(EntryKey, entries) && DistinctBy(EntryKey, b.upserts)
    ensures forall e :: e in Applied(entries, b) <==>
              && (e in b.upserts || (e in entries && e.key !in b.deletes && !HasKey(b.upserts, e.key)))
              && !Belongs(e, b.deletedGroupIds)
    ensures SortedBy(EntryKey, Applied(entries, b)) && DistinctBy(EntryKey, Applied(entries, b))
  {
    hide Inserted, Sorted, Belongs, SortedBy, DistinctBy;
    var start := Inserted(map[], entries);
    var kept := Without(start, b.deletes);
    var full := Inserted(kept, b.upserts);
    var last := AppliedMap(entries, b);
    InsertedMeans(map[], entries);
    InsertedMeans(kept, b.upserts);
    assert forall k :: k in last ==> last[k].key == k;
    ValuesMean(last);
    forall e: StorageEntry | e in entries ensures e.key in start && start[e.key] == e {
      assert HasKey(entries, e.key);
      KeyIsUnique(entries, e, start[e.key]);
    }
    forall e: StorageEntry | e in b.upserts ensures e.key in full && full[e.key] == e {
      assert HasKey(b.upserts, e.key);
      KeyIsUnique(b.upserts, e, full[e.key]);
    }
  }

  lemma ValuesMean(m: ByKey)
    requires forall k :: k in m ==> m[k].key == k
    ensures forall e :: e in Values(m) <==> e.key in m && m[e.key] == e
    ensures SortedBy(EntryKey, Values(m)) && DistinctBy(EntryKey, Values(m))
  {
    hide Sorted;
    var keys := Sorted(m.Keys);
    var r := Values(m);
    forall i, j | 0 <= i < j < |r| ensures LexLe(EntryKey(r[i]), EntryKey(r[j])) && EntryKey(r[i]) != EntryKey(r[j]) {
      assert LexLe(Itself(keys[i]), Itself(keys[j])) && Itself(keys[i]) != Itself(keys[j]);
    }
    forall e: StorageEntry | e.key in m && m[e.key] == e ensures e in r {
      assert e.key in keys;
      var i :| 0 <= i < |keys| && keys[i] == e.key;
      assert r[i] == e;
    }
  }

  // ---------------------------------------------------------------- main results

  lemma RowsFacts(current: Rows, group: Option<Bytes>)
    ensures var r := EntriesOf(current, group);
            && SortedBy(EntryKey, r) && DistinctBy(EntryKey, r)
            && forall e :: e in r <==> e.key in current && e == EntryAt(e.key, current[e.key], group)
  {
    hide Sorted, SortedBy, DistinctBy;
    EntriesAtSorted(Sorted(current.Keys), current, group);
  }

  /** The rows a batch brings and takes away, given that the operation's batch exists. */
  lemma BatchFacts(initial: Rows, current: Rows, group: Option<Bytes>, groups: seq<Bytes>)
    requires BatchOf(initial, current, group, groups).Ok?
    ensures var b := BatchOf(initial, current, group, groups).value;
            && b.deletedGroupIds == groups && b.formatVersion == FORMAT_VERSION
            && SortedBy(EntryKey, b.upserts) && DistinctBy(EntryKey, b.upserts)
            && SortedBy(Itself, b.deletes) && DistinctBy(Itself, b.deletes)
            && (forall e :: e in b.upserts <==> e.key in Changed(initial, current) && e == EntryAt(e.key, current[e.key], group))
            && (forall k :: HasKey(b.upserts, k) <==> k in Changed(initial, current))
            && forall k :: k in b.deletes <==> k in Removed(initial, current)
  {
    hide Sorted, SortedBy, DistinctBy, Changed, Removed, IsGlobalKey, Scope;
    ChangedKeys(initial, current);
    var b := BatchOf(initial, current, group, groups).value;
    var keys := Sorted(Changed(initial, current));
    EntriesAtSorted(keys, current, group);
    forall k | k in Changed(initial, current) ensures HasKey(b.upserts, k) {
      var i :| 0 <= i < |keys| && keys[i] == k;
      assert b.upserts[i].key == k;
    }
    assert forall k :: HasKey(b.upserts, k) ==> exists e :: e in b.upserts && e.key == k;
  }

  /**
   * The batch computed from validated input rows, applied to those rows, gives exactly the rows the operation ended
   * with, installation rows without a group and group rows with the operation's group.
   */
  lemma ApplyCompletesTheOperation(entries: seq<StorageEntry>, group: Option<Bytes>, current: Rows)
    requires ValidateEntries(entries, FORMAT_VERSION, group).Ok?
    requires BatchOf(Collect(entries), current, group, []).Ok?
    ensures Applied(entries, BatchOf(Collect(entries), current, group, []).value) == EntriesOf(current, group)
  {
    hide Applied, ValidateEntries, BatchOf, Changed, Removed, SortedBy, DistinctBy, Collect, IsGlobalKey, HasKey;
    var initial := Collect(entries);
    var b := BatchOf(initial, current, group, []).value;
    ValidMeans(entries, FORMAT_VERSION, group);
    BatchFacts(initial, current, group, []);
    CollectMeans(entries);
    AppliedMeans(entries, b);
    RowsFacts(current, group);
    ChangedKeys(initial, current);
    RemovedKeys(initial, current);
    var (r, s) := (Applied(entries, b), EntriesOf(current, group));
    forall e ensures e in r <==> e in s {
      UnchangedRow(entries, group, current, e);
    }
    SortedIsUnique(EntryKey, r, s);
  }

  /** A row the operation left alone is the row it would have written. */
  lemma UnchangedRow(entries: seq<StorageEntry>, group: Option<Bytes>, current: Rows, e: StorageEntry)
    requires ValidateEntries(entries, FORMAT_VERSION, group).Ok?
    ensures var initial := Collect(entries);
            e in entries && e.key !in Changed(initial, current) && e.key !in Removed(initial, current) <==>
              e.key in current && e == EntryAt(e.key, current[e.key], group) && e.key !in Changed(initial, current)
  {
    hide ValidateEntries, DistinctBy, Collect, IsGlobalKey, HasKey;
    var initial := Collect(entries);
    ValidMeans(entries, FORMAT_VERSION, group);
    CollectMeans(entries);
    if e.key in current && e == EntryAt(e.key, current[e.key], group) && e.key !in Changed(initial, current) {
      var f :| f in entries && f.key == e.key && f.value == initial[e.key];
      assert InScope(f, group);
      assert f == e;
    }
    if e in entries {
      assert InScope(e, group);
    }
  }

  /** An operation on validated rows fails to produce a batch exactly when it has no group and ends with a group row. */
  lemma BatchFailsExactly(entries: seq<StorageEntry>, group: Option<Bytes>, current: Rows)
    requires ValidateEntries(entries, FORMAT_VERSION, group).Ok?
    ensures BatchOf(Collect(entries), current, group, []).Err? <==>
              group.None? && exists k :: k in current && !IsGlobalKey(k)
  {
    hide ValidateEntries, Collect, IsGlobalKey, DistinctBy, HasKey;
    ValidMeans(entries, FORMAT_VERSION, group);
    CollectMeans(entries);
    if group.None? {
      forall k | k in Collect(entries) ensures IsGlobalKey(k) {
        var e :| e in entries && e.key == k && e.value == Collect(entries)[k];
        assert InScope(e, group);
      }
    }
  }

  /** The rows an operation leaves behind are valid input for the next one of the same group. */
  lemma RowsStayValid(current: Rows, group: Bytes)
    ensures ValidateEntries(EntriesOf(current, Some(group)), FORMAT_VERSION, Some(group)).Ok?
    ensures Collect(EntriesOf(current, Some(group))) == current
  {
    hide ValidateEntries, Collect, IsGlobalKey, EntriesOf, DistinctBy, SortedBy;
    var r := EntriesOf(current, Some(group));
    RowsFacts(current, Some(group));
    ValidMeans(r, FORMAT_VERSION, Some(group));
    CollectMeans(r);
    forall k | k in current ensures k in Collect(r) && Collect(r)[k] == current[k] {
      assert EntryAt(k, current[k], Some(group)) in r;
    }
  }

  /** The row a change leaves under a key is the one it brought, or the one it found and let be. */
  lemma LastRow(entries: seq<StorageEntry>, other: Batch, k: Bytes)
    requires other.deletedGroupIds == []
    ensures var (start, last) := (Inserted(map[], entries), AppliedMap(entries, other));
            && (k in last ==> last[k].key == k && (last[k] in other.upserts || (k in start && last[k] == start[k])))
            && (k !in last && k in start ==> k in other.deletes)
  {
    hide Inserted, HasKey;
    InsertedMeans(map[], entries);
    InsertedMeans(Without(Inserted(map[], entries), other.deletes), other.upserts);
  }

  lemma LastValue(entries: seq<StorageEntry>, current: Rows, other: Batch, k: Bytes)
    requires other.deletedGroupIds == [] && Collect(Applied(entries, other)) == current
    ensures var last := AppliedMap(entries, other);
            && (k in last <==> k in current)
            && (k in last ==> last[k].value == current[k] && last[k] in Applied(entries, other))
  {
    hide Inserted, Collect, AppliedMap, Values, SortedBy, DistinctBy;
    var last := AppliedMap(entries, other);
    forall c | c in last ensures last[c].key == c {
      LastRow(entries, other, c);
    }
    ValuesMean(last);
    CollectMeans(Values(last));
  }

  /**
   * Any change of the rows contains the batch: every upsert and every delete is needed, and if the change ends in the
   * very rows the batch ends in, the upserts are there with their scopes.
   */
  lemma BatchIsLeast(entries: seq<StorageEntry>, group: Option<Bytes>, current: Rows, other: Batch)
    requires ValidateEntries(entries, FORMAT_VERSION, group).Ok?
    requires BatchOf(Collect(entries), current, group, []).Ok?
    requires other.deletedGroupIds == [] && Collect(Applied(entries, other)) == current
    ensures var b := BatchOf(Collect(entries), current, group, []).value;
            && (forall e :: e in b.upserts ==> exists f :: f in other.upserts && f.key == e.key && f.value == e.value)
            && (forall k :: k in b.deletes ==> k in other.deletes)
            && (Applied(entries, other) == EntriesOf(current, group) ==> forall e :: e in b.upserts ==> e in other.upserts)
  {
    hide EntriesOf, EntryAt, ValidateEntries, BatchOf, Collect, Inserted, DistinctBy, SortedBy, HasKey, Changed, Removed, Applied, AppliedMap;
    var initial := Collect(entries);
    var b := BatchOf(initial, current, group, []).value;
    BatchFacts(initial, current, group, []);
    CollectIsByKey(entries);
    ChangedKeys(initial, current);
    RemovedKeys(initial, current);
    RowsFacts(current, group);
    forall k | k in b.deletes ensures k in other.deletes {
      LastRow(entries, other, k);
      LastValue(entries, current, other, k);
    }
    forall e | e in b.upserts
      ensures exists f :: f in other.upserts && f.key == e.key && f.value == e.value
      ensures Applied(entries, other) == EntriesOf(current, group) ==> e in other.upserts
    {
      UpsertIsBrought(entries, current, group, other, e.key);
      assert e == EntryAt(e.key, current[e.key], group);
      EntryAtMeans(e.key, current[e.key], group);
    }
  }

  lemma EntryAtMeans(key: Bytes, value: Bytes, group: Option<Bytes>)
    ensures EntryAt(key, value, group).key == key && EntryAt(key, value, group).value == value
  {
  }

  lemma UpsertIsBrought(entries: seq<StorageEntry>, current: Rows, group: Option<Bytes>, other: Batch, k: Bytes)
    requires other.deletedGroupIds == [] && Collect(Applied(entries, other)) == current && k in Changed(Collect(entries), current)
    ensures var f := AppliedMap(entries, other);
            && k in f && f[k] in other.upserts && f[k].key == k && f[k].value == current[k]
            && (Applied(entries, other) == EntriesOf(current, group) ==> f[k] == EntryAt(k, current[k], group))
  {
    hide EntriesOf, EntryAt, Collect, Inserted, DistinctBy, SortedBy, Applied, AppliedMap, Changed;
    ChangedKeys(Collect(entries), current);
    CollectIsByKey(entries);
    LastRow(entries, other, k);
    LastValue(entries, current, other, k);
    RowsFacts(current, group);
  }

  // ---------------------------------------------------------------- deleting a group

  lemma BatchOfAGroup(initial: Rows, current: Rows, group: Bytes, groups: seq<Bytes>)
    ensures BatchOf(initial, current, Some(group), groups).Ok?
  {
  }

  /** A batch that deletes its group leaves exactly the installation rows the operation ended with. */
  lemma DeletingLeavesInstallationRows(entries: seq<StorageEntry>, group: Bytes, current: Rows)
    requires ValidateEntries(entries, FORMAT_VERSION, Some(group)).Ok?
    ensures var b := BatchOf(Collect(entries), current, Some(group), [group]).value;
            forall e :: e in Applied(entries, b) <==> e in EntriesOf(current, Some(group)) && IsGlobalKey(e.key)
  {
    hide Applied, ValidateEntries, BatchOf, Changed, Removed, SortedBy, DistinctBy, Collect, IsGlobalKey, HasKey, EntriesOf;
    var initial := Collect(entries);
    BatchOfAGroup(initial, current, group, [group]);
    var b := BatchOf(initial, current, Some(group), [group]).value;
    ValidMeans(entries, FORMAT_VERSION, Some(group));
    BatchFacts(initial, current, Some(group), [group]);
    AppliedMeans(entries, b);
    RowsFacts(current, Some(group));
    ChangedKeys(initial, current);
    forall e ensures e in Applied(entries, b) <==> e in EntriesOf(current, Some(group)) && IsGlobalKey(e.key) {
      UnchangedRow(entries, Some(group), current, e);
    }
  }

  // ---------------------------------------------------------------- whole runs

  /** What an operation does to the rows; editing a stored list is reading it and writing it back whole. */
  datatype Edit = Write(key: Bytes, value: Bytes) | Delete(key: Bytes)

  function Edited(m: Rows, edits: seq<Edit>): Rows {
    if edits == [] then m else
      var before := Edited(m, edits[..|edits| - 1]);
      match edits[|edits| - 1]
      case Write(key, value) => before[key := value]
      case Delete(key) => before - {key}
  }

  function Flat(operations: seq<seq<Edit>>): seq<Edit> {
    if operations == [] then [] else Flat(operations[..|operations| - 1]) + operations[|operations| - 1]
  }

  /** One operation: validate, load, edit, diff, apply. */
  ghost function Operation(entries: seq<StorageEntry>, group: Bytes, edits: seq<Edit>): Result<seq<StorageEntry>, StorageError> {
    var _ :- ValidateEntries(entries, FORMAT_VERSION, Some(group));
    var initial := Collect(entries);
    var b :- BatchOf(initial, Edited(initial, edits), Some(group), []);
    Ok(Applied(entries, b))
  }

  /** Each operation runs on the rows the previous batches left. */
  ghost function Folded(entries: seq<StorageEntry>, group: Bytes, operations: seq<seq<Edit>>): Result<seq<StorageEntry>, StorageError> {
    if operations == [] then Ok(entries) else
      var n := |operations| - 1;
      var before :- Folded(entries, group, operations[..n]);
      Operation(before, group, operations[n])
  }

  lemma {:induction false} EditedTwice(m: Rows, first: seq<Edit>, second: seq<Edit>)
    ensures Edited(m, first + second) == Edited(Edited(m, first), second)
  {
    if second == [] {
      assert first + second == first;
    } else {
      var n := |second| - 1;
      EditedTwice(m, first, second[..n]);
      assert (first + second)[..|first| + n] == first + second[..n];
    }
  }

  lemma NothingEdited(m: Rows)
    ensures Edited(m, []) == m
  {
  }

  lemma OperationMeans(entries: seq<StorageEntry>, group: Bytes, edits: seq<Edit>)
    requires ValidateEntries(entries, FORMAT_VERSION, Some(group)).Ok?
    ensures Operation(entries, group, edits) == Ok(EntriesOf(Edited(Collect(entries), edits), Some(group)))
  {
    hide ValidateEntries, Collect, Applied, EntriesOf, Edited, IsGlobalKey, Changed, Removed, Sorted;
    ApplyCompletesTheOperation(entries, Some(group), Edited(Collect(entries), edits));
  }

  /** An operation of a group succeeds exactly on rows that are valid for it. */
  lemma OperationSucceedsExactly(entries: seq<StorageEntry>, group: Bytes, edits: seq<Edit>)
    ensures Operation(entries, group, edits).Ok? <==> ValidateEntries(entries, FORMAT_VERSION, Some(group)).Ok?
  {
    hide ValidateEntries, Collect, Applied, Edited, EntriesOf;
    if ValidateEntries(entries, FORMAT_VERSION, Some(group)).Ok? {
      OperationMeans(entries, group, edits);
    }
  }

  /**
   * However the edits of a run are cut into operations, no operation is refused and the rows in the end are those
   * all the edits together make of the rows at the start.
   */
  lemma {:induction false} RunLosesNothing(entries: seq<StorageEntry>, group: Bytes, operations: seq<seq<Edit>>)
    requires ValidateEntries(entries, FORMAT_VERSION, Some(group)).Ok?
    ensures var r := Folded(entries, group, operations);
            var rows := Edited(Collect(entries), Flat(operations));
            && r.Ok? && ValidateEntries(r.value, FORMAT_VERSION, Some(group)).Ok? && Collect(r.value) == rows
            && (operations != [] ==> r.value == EntriesOf(rows, Some(group)))
  {
    hide ValidateEntries, Collect, Edited, EntriesOf, Operation;
    var rows := Edited(Collect(entries), Flat(operations));
    if operations == [] {
      NothingEdited(Collect(entries));
    } else {
      var n := |operations| - 1;
      RunLosesNothing(entries, group, operations[..n]);
      var before := Folded(entries, group, operations[..n]).value;
      OperationMeans(before, group, operations[n]);
      EditedTwice(Collect(entries), Flat(operations[..n]), operations[n]);
      RowsStayValid(rows, group);
    }
  }
}
