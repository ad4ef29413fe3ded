/** The operation-scoped storage boundary: validated rows in, an in-memory map, one batch out, applied by the caller. */
module SnapshotStorage {
  import opened Foundation
  import opened Order
  import opened MlsTypes

  const FORMAT_VERSION := 1

  type Rows = map<Bytes, Bytes>

  datatype StorageError =
    | UnsupportedFormatVersion
    | DuplicateKey
    | GlobalRowWithGroup
    | GroupRowInGlobalOperation
    | RowOfAnotherGroup
    | GroupStateWithoutGroup
    | LengthBeyondEncoding

  datatype Batch = Batch(upserts: seq<StorageEntry>, deletes: seq<Bytes>, deletedGroupIds: seq<Bytes>, formatVersion: nat)

  const Itself: Bytes -> Bytes := (k: Bytes) => k

  // ---------------------------------------------------------------- sets of keys as sorted lists

  /** The elements of a set in byte-string order. */
  ghost function Sorted(s: set<Bytes>): (r: seq<Bytes>)
    ensures forall k :: k in r <==> k in s
    ensures SortedBy(Itself, r) && DistinctBy(Itself, r)
  {
    if s == {} then [] else
      var k: Bytes :| k in s;
      var rest := Sorted(s - {k});
      SortSorts(Itself, [k] + rest);
      assert ([k] + rest)[1..] == rest;
      SortKeepsDistinct(Itself, [k] + rest);
      SortKeepsElements(Itself, [k] + rest);
      SortBy(Itself, [k] + rest)
  }

  // ---------------------------------------------------------------- validating rows

  /** The scope a row must carry: none for installation state, the operation's group otherwise. */
  function Scope(key: Bytes, group: Option<Bytes>): Option<Bytes> {
    if IsGlobalKey(key) then None else group
  }

  predicate InScope(e: StorageEntry, group: Option<Bytes>) {
    e.groupId == Scope(e.key, group) && (IsGlobalKey(e.key) || group.Some?)
  }

  predicate HasKey(entries: seq<StorageEntry>, key: Bytes) {
    exists i :: 0 <= i < |entries| && entries[i].key == key
  }

  function RowCheck(before: seq<StorageEntry>, e: StorageEntry, group: Option<Bytes>): Result<(), StorageError> {
    if HasKey(before, e.key) then Err(DuplicateKey)
    else if IsGlobalKey(e.key) then Need(e.groupId.None?, GlobalRowWithGroup)
    else if group.None? then Err(GroupRowInGlobalOperation)
    else Need(e.groupId == group, RowOfAnotherGroup)
  }

  /** The first failure in row order. */
  function RowChecks(entries: seq<StorageEntry>, group: Option<Bytes>): Result<(), StorageError> {
    if entries == [] then Ok(()) else
    var n := |entries| - 1;
    var _ :- RowChecks(entries[..n], group);
    RowCheck(entries[..n], entries[n], group)
  }

  function ValidateEntries(entries: seq<StorageEntry>, version: nat, group: Option<Bytes>): Result<(), StorageError> {
    var _ :- Need(version == FORMAT_VERSION, UnsupportedFormatVersion);
    RowChecks(entries, group)
  }

  method ValidateStorageEntries(entries: seq<StorageEntry>, version: nat, group: Option<Bytes>) returns (r: Result<(), StorageError>)
    ensures r == ValidateEntries(entries, version, group)
  {
    hide IsGlobalKey;
    if version != FORMAT_VERSION {
      return Err(UnsupportedFormatVersion);
    }
    var seenKeys: set<Bytes> := {};
    for i := 0 to |entries|
      invariant forall k :: k in seenKeys <==> HasKey(entries[..i], k)
      invariant RowChecks(entries[..i], group) == Ok(())
    {
      var e := entries[i];
      FirstFailureStands(entries, i + 1, group);
      assert entries[..i + 1][..i] == entries[..i];
      if e.key in seenKeys {
        return Err(DuplicateKey);
      }
      seenKeys := seenKeys + {e.key};
      if IsGlobalKey(e.key) {
        if e.groupId.Some? {
          return Err(GlobalRowWithGroup);
        }
      } else {
        if group.None? {
          return Err(GroupRowInGlobalOperation);
        }
        if e.groupId != group {
          return Err(RowOfAnotherGroup);
        }
      }
      forall k ensures k in seenKeys <==> HasKey(entries[..i + 1], k) {
        KeysGrow(entries, i, k);
      }
    }
    assert entries[..|entries|] == entries;
    return Ok(());
  }

  lemma KeysGrow(entries: seq<StorageEntry>, i: nat, k: Bytes)
    requires i < |entries|
    ensures HasKey(entries[..i + 1], k) <==> HasKey(entries[..i], k) || k == entries[i].key
  {
    if HasKey(entries[..i], k) {
      var j :| 0 <= j < i && entries[..i][j].key == k;
      assert entries[..i + 1][j].key == k;
    }
    if k == entries[i].key {
      assert entries[..i + 1][i].key == k;
    }
    if HasKey(entries[..i + 1], k) {
      var j :| 0 <= j < i + 1 && entries[..i + 1][j].key == k;
      assert j < i ==> entries[..i][j].key == k;
    }
  }

  lemma {:induction false} FirstFailureStands(entries: seq<StorageEntry>, j: nat, group: Option<Bytes>)
    requires j <= |entries|
    ensures RowChecks(entries[..j], group).Err? ==> RowChecks(entries, group) == RowChecks(entries[..j], group)
    decreases |entries| - j
  {
    hide RowCheck;
    if j == |entries| {
      assert entries[..j] == entries;
    } else {
      FirstFailureStands(entries, j + 1, group);
      assert entries[..j + 1][..j] == entries[..j];
    }
  }

  /** Accepted rows are exactly those with distinct keys, each carrying the scope its key demands. */
  lemma {:induction false} ValidMeans(entries: seq<StorageEntry>, version: nat, group: Option<Bytes>)
    ensures ValidateEntries(entries, version, group).Ok? <==>
              && version == FORMAT_VERSION
              && DistinctBy(EntryKey, entries)
              && forall e :: e in entries ==> InScope(e, group)
  {
    hide IsGlobalKey;
    if entries != [] {
      var n := |entries| - 1;
      var before := entries[..n];
      ValidMeans(before, FORMAT_VERSION, group);
      assert forall e :: e in entries <==> e in before || e == entries[n];
      DistinctGrows(EntryKey, before, entries[n]);
      assert entries == before + [entries[n]];
      assert HasKey(before, entries[n].key) <==> exists e :: e in before && e.key == entries[n].key;
    }
  }

  // ---------------------------------------------------------------- the in-memory snapshot

  /** Collecting pairs into a map: a later pair replaces an earlier one with the same key. */
  function Collect(entries: seq<StorageEntry>): Rows {
    if entries == [] then map[] else
      var n := |entries| - 1;
      Collect(entries[..n])[entries[n].key := entries[n].value]
  }

  /** The keys whose row is new or has another value. */
  function Changed(initial: Rows, current: Rows): set<Bytes> {
    set k | k in current && !(k in initial && initial[k] == current[k])
  }

  function Removed(initial: Rows, current: Rows): set<Bytes> {
    initial.Keys - current.Keys
  }

  /** A listing of these keys of a map, each once, in whatever order the hash map iterates. */
  predicate Lists(rows: seq<(Bytes, Bytes)>, keys: set<Bytes>, m: Rows) {
    && (forall i, j :: 0 <= i < j < |rows| ==> rows[i].0 != rows[j].0)
    && (forall i :: 0 <= i < |rows| ==> rows[i].0 in keys && rows[i].0 in m && m[rows[i].0] == rows[i].1)
    && (forall k :: k in keys ==> exists i :: 0 <= i < |rows| && rows[i].0 == k)
  }

  lemma ChangedKeys(initial: Rows, current: Rows)
    ensures forall k :: k in Changed(initial, current) <==> k in current && !(k in initial && initial[k] == current[k])
    ensures Changed(initial, current) <= current.Keys
  {
  }

  lemma RemovedKeys(initial: Rows, current: Rows)
    ensures forall k :: k in Removed(initial, current) <==> k in initial && k !in current
    ensures Removed(initial, current) <= initial.Keys
  {
  }

  lemma NoneTwice()
    ensures DistinctBy(Itself, [])
  {
  }

  /** Taking one key off the pending ones adds it to those dealt with, if it is wanted at all. */
  lemma MoveOne(wanted: set<Bytes>, left: set<Bytes>, k: Bytes)
    requires k in left
    ensures wanted - (left - {k}) == if k in wanted then wanted - left + {k} else wanted - left
  {
  }

  lemma NothingListed(m: Rows)
    ensures Lists([], {}, m)
  {
  }

  lemma ListsGrow(rows: seq<(Bytes, Bytes)>, keys: set<Bytes>, m: Rows, k: Bytes)
    requires Lists(rows, keys, m) && k in m && k !in keys
    ensures Lists(rows + [(k, m[k])], keys + {k}, m)
  {
    var grown := rows + [(k, m[k])];
    assert grown[|rows|].0 == k;
    forall c | c in keys ensures exists i :: 0 <= i < |grown| && grown[i].0 == c {
      var i :| 0 <= i < |rows| && rows[i].0 == c;
      assert grown[i].0 == c;
    }
  }

  class SnapshotStorageProvider {
    const initial: Rows
    var current: Rows

    constructor FromEntries(entries: seq<StorageEntry>)
      ensures initial == Collect(entries) && current == initial
    {
      var rows: Rows := map[];
      for i := 0 to |entries|
        invariant rows == Collect(entries[..i])
      {
        assert entries[..i + 1][..i] == entries[..i];
        rows := rows[entries[i].key := entries[i].value];
      }
      assert entries[..|entries|] == entries;
      initial := rows;
      current := rows;
    }

    method ReadOpaque(key: Bytes) returns (value: Option<Bytes>)
      ensures value == if key in current then Some(current[key]) else None
    {
      value := if key in current then Some(current[key]) else None;
    }

    method WriteOpaque(key: Bytes, value: Bytes)
      modifies this`current
      ensures current == old(current)[key := value]
    {
      current := current[key := value];
    }

    method DeleteOpaque(key: Bytes)
      modifies this`current
      ensures current == old(current) - {key}
    {
      current := current - {key};
    }

    /** Every key under a reserved prefix, once each, in no particular order. */
    method OpaqueKeysWithPrefix(prefix: Bytes) returns (keys: seq<Bytes>)
      ensures forall k :: k in keys <==> k in current && prefix <= k
      ensures DistinctBy(Itself, keys)
    {
      keys := [];
      var left := current.Keys;
      while left != {}
        invariant left <= current.Keys
        invariant forall k :: k in keys <==> k in current.Keys - left && prefix <= k
        invariant DistinctBy(Itself, keys)
        decreases |left|
      {
        var k :| k in left;
        left := left - {k};
        if prefix <= k {
          DistinctGrows(Itself, keys, k);
          keys := keys + [k];
        }
      }
    }

    /** The current rows with their scopes, in no particular order. */
    method SnapshotEntries(group: Bytes) returns (entries: seq<StorageEntry>)
      ensures Collect(entries) == current
      ensures ValidateEntries(entries, FORMAT_VERSION, Some(group)).Ok?
    {
      hide IsGlobalKey, ValidateEntries;
      entries := [];
      var left := current.Keys;
      while left != {}
        invariant left <= current.Keys
        invariant Collect(entries) == map k | k in current.Keys - left :: current[k]
        invariant forall e :: e in entries ==> e.key in current.Keys - left && InScope(e, Some(group))
        invariant DistinctBy(EntryKey, entries)
        decreases |left|
      {
        var k :| k in left;
        left := left - {k};
        var e := StorageEntry(k, current[k], Scope(k, Some(group)));
        assert (entries + [e])[..|entries|] == entries;
        DistinctGrows(EntryKey, entries, e);
        entries := entries + [e];
      }
      assert Collect(entries) == current;
      ValidMeans(entries, FORMAT_VERSION, Some(group));
    }

    /** The difference between the rows as they came and as they are now. */
    method IntoUpdates() returns (upserts: seq<(Bytes, Bytes)>, deletes: seq<Bytes>)
      ensures Lists(upserts, Changed(initial, current), current)
      ensures DistinctBy(Itself, deletes) && forall k :: k in deletes <==> k in Removed(initial, current)
    {
      hide Lists, Changed, Removed, DistinctBy;
      upserts, deletes := [], [];
      ghost var changed := Changed(initial, current);
      NothingListed(current);
      var left := current.Keys;
      ChangedKeys(initial, current);
      assert changed - left == {};
      while left != {}
        invariant left <= current.Keys
        invariant Lists(upserts, changed - left, current)
        decreases |left|
      {
        var k :| k in left;
        ghost var before := changed - left;
        MoveOne(changed, left, k);
        left := left - {k};
        if !(k in initial && initial[k] == current[k]) {
          ListsGrow(upserts, before, current, k);
          upserts := upserts + [(k, current[k])];
        }
      }
      assert changed - {} == changed;
      ghost var removed := Removed(initial, current);
      left := initial.Keys;
      assert removed - left == {} && (forall k :: k in removed <==> k in initial && k !in current) by {
        RemovedKeys(initial, current);
      }
      NoneTwice();
      while left != {}
        invariant left <= initial.Keys
        invariant forall k :: k in deletes <==> k in removed - left
        invariant DistinctBy(Itself, deletes)
        decreases |left|
      {
        var k :| k in left;
        MoveOne(removed, left, k);
        left := left - {k};
        if k !in current {
          DistinctGrows(Itself, deletes, k);
          deletes := deletes + [k];
        }
      }
    }
  }
}
