/** Package rows inside the caller's snapshot: the saved group state and the exact bytes of a pending Commit. */
module RetryRows {
  import opened Foundation
  import opened Errors
  import opened MlsTypes
  import opened LocalGroup
  import opened LocalCodec
  import LocalMetadata
  import opened SnapshotStorage

  const RESERVED: Bytes := Ascii("OpenMlsDart/")
  const PREFIX: Bytes := Ascii("OpenMlsDart/1/")
  const STATE: Bytes := Ascii("state/")
  const COMMIT: Bytes := Ascii("commit/")
  const WELCOME: Bytes := Ascii("welcome/")
  const INFO: Bytes := Ascii("info/")
  const MAX_WIRE := MIB

  function Key(group: Bytes, name: Bytes): Bytes {
    PREFIX + name + BE(2, |group|) + group
  }

  /** The only reserved keys a snapshot of this group may hold. */
  function Known(group: Bytes): set<Bytes> {
    {Key(group, STATE), Key(group, COMMIT), Key(group, WELCOME), Key(group, INFO)}
  }

  function Read(rows: Rows, key: Bytes): Option<Bytes> {
    if key in rows then Some(rows[key]) else None
  }

  /** A Commit, a Welcome and a GroupInfo, or the hashes recorded for them. */
  datatype Wires = Wires(commit: Option<Bytes>, welcome: Option<Bytes>, info: Option<Bytes>)

  function HashesOf(s: GroupState): Wires {
    match s.pending
    case None => Wires(None, None, None)
    case Some(p) => Wires(Some(p.binding.commitSha256), p.binding.welcomeSha256, p.binding.groupInfoSha256)
  }

  function StoredWires(rows: Rows, group: Bytes): Wires {
    Wires(Read(rows, Key(group, COMMIT)), Read(rows, Key(group, WELCOME)), Read(rows, Key(group, INFO)))
  }

  function ValidateWire(sha: Hash, wire: Option<Bytes>, hash: Option<Bytes>): Result<(), MlsError> {
    match (wire, hash)
    case (None, None) => Ok(())
    case (Some(w), Some(h)) =>
      if !Within(w, 1, MAX_WIRE) then Err(LimitExceeded)
      else Need(sha(w) == h, PendingBindingMismatch)
    case _ => Err(PendingBindingMismatch)
  }

  function ValidateWires(sha: Hash, wires: Wires, hashes: Wires): Result<(), MlsError> {
    var _ :- ValidateWire(sha, wires.commit, hashes.commit);
    var _ :- ValidateWire(sha, wires.welcome, hashes.welcome);
    ValidateWire(sha, wires.info, hashes.info)
  }

  function WriteCheck(sha: Hash, s: GroupState, wires: Wires): Result<(), MlsError> {
    var _ :- Validate(sha, s);
    var _ :- Need(s.pending.Some?, PendingCommitMissing);
    ValidateWires(sha, wires, HashesOf(s))
  }

  function Put(rows: Rows, key: Bytes, value: Option<Bytes>): Rows {
    if value.Some? then rows[key := value.value] else rows - {key}
  }

  function Stored(rows: Rows, group: Bytes, wires: Wires): Rows {
    Put(Put(Put(rows, Key(group, COMMIT), wires.commit), Key(group, WELCOME), wires.welcome), Key(group, INFO), wires.info)
  }

  function Saved(sha: Hash, rows: Rows, s: GroupState): Result<Rows, MlsError> {
    var bytes :- Encode(sha, s);
    Ok(rows[Key(s.groupId, STATE) := bytes])
  }

  predicate NamespaceClean(rows: Rows, group: Bytes) {
    forall k :: k in rows && RESERVED <= k ==> k in Known(group)
  }

  /** Loading once the reserved namespace has been found clean. */
  function LoadClean(sha: Hash, rows: Rows, group: Bytes): Result<GroupState, MlsError> {
    var bytes :- match Read(rows, Key(group, STATE)) case Some(b) => Ok(b) case None => Err(LocalMetadataMissing);
    var s :- Decode(sha, bytes);
    var _ :- Need(s.groupId == group, GroupMismatch);
    var _ :- ValidateWires(sha, StoredWires(rows, group), HashesOf(s));
    Ok(s)
  }

  /**
   * The answers loading may give. With more than one stray reserved row the hash map's order decides which of the two
   * errors is reported, and each error has a stray row that explains it.
   */
  predicate LoadMayAnswer(sha: Hash, rows: Rows, group: Bytes, r: Result<GroupState, MlsError>) {
    if |group| != 16 then r == Err(InvalidStorageSnapshot)
    else if NamespaceClean(rows, group) then r == LoadClean(sha, rows, group)
    else
      || (r == Err(UnsupportedLocalMetadataVersion) && exists k :: k in rows && RESERVED <= k && !(PREFIX <= k))
      || (r == Err(InvalidStorageSnapshot) && exists k :: k in rows && PREFIX <= k && k !in Known(group))
  }

  function RetryBytesOf(sha: Hash, s: GroupState, rows: Rows): Result<Wires, MlsError> {
    var wires := StoredWires(rows, s.groupId);
    var _ :- ValidateWires(sha, wires, HashesOf(s));
    if s.pending.None? || wires.commit.None? then Err(PendingCommitMissing) else Ok(wires)
  }

  // ---------------------------------------------------------------- the operations as written

  method Save(sha: Hash, s: GroupState, storage: SnapshotStorageProvider) returns (r: Result<(), MlsError>)
    modifies storage`current
    ensures r == match Saved(sha, old(storage.current), s) case Ok(_) => Ok(()) case Err(e) => Err(e)
    ensures storage.current == match Saved(sha, old(storage.current), s) case Ok(rows) => rows case Err(_) => old(storage.current)
  {
    hide Encode;
    var bytes :- LocalMetadata.EncodeState(sha, s);
    storage.WriteOpaque(Key(s.groupId, STATE), bytes);
    return Ok(());
  }

  /** All wires are checked before the first is written, so a failure leaves the rows as they were. */
  method WriteRetryRows(sha: Hash, s: GroupState, storage: SnapshotStorageProvider,
                        commit: Bytes, welcome: Option<Bytes>, info: Option<Bytes>) returns (r: Result<(), MlsError>)
    modifies storage`current
    ensures r == WriteCheck(sha, s, Wires(Some(commit), welcome, info))
    ensures storage.current == if r.Ok? then Stored(old(storage.current), s.groupId, Wires(Some(commit), welcome, info))
                               else old(storage.current)
  {
    hide Validate, ValidateWire, Key;
    var _ :- CheckGroup(sha, s);
    if s.pending.None? {
      return Err(PendingCommitMissing);
    }
    var b := s.pending.value.binding;
    var wires := [(COMMIT, Some(commit), Some(b.commitSha256)), (WELCOME, welcome, b.welcomeSha256), (INFO, info, b.groupInfoSha256)];
    for i := 0 to 3
      invariant forall j :: 0 <= j < i ==> ValidateWire(sha, wires[j].1, wires[j].2) == Ok(())
    {
      assert wires[i] == wires[0] || wires[i] == wires[1] || wires[i] == wires[2];
      var _ :- ValidateWire(sha, wires[i].1, wires[i].2);
    }
    assert ValidateWire(sha, wires[0].1, wires[0].2).Ok? && ValidateWire(sha, wires[1].1, wires[1].2).Ok?
        && ValidateWire(sha, wires[2].1, wires[2].2).Ok?;
    ghost var rows := storage.current;
    for i := 0 to 3
      invariant storage.current == if i == 0 then rows else if i == 1 then Put(rows, Key(s.groupId, COMMIT), wires[0].1)
                                   else if i == 2 then Put(Put(rows, Key(s.groupId, COMMIT), wires[0].1), Key(s.groupId, WELCOME), wires[1].1)
                                   else Stored(rows, s.groupId, Wires(wires[0].1, wires[1].1, wires[2].1))
    {
      var key := Key(s.groupId, wires[i].0);
      if wires[i].1.Some? {
        storage.WriteOpaque(key, wires[i].1.value);
      } else {
        storage.DeleteOpaque(key);
      }
    }
    return Ok(());
  }

  method ClearRetryRows(s: GroupState, storage: SnapshotStorageProvider)
    modifies storage`current
    ensures storage.current == Stored(old(storage.current), s.groupId, Wires(None, None, None))
  {
    hide Key;
    storage.DeleteOpaque(Key(s.groupId, COMMIT));
    storage.DeleteOpaque(Key(s.groupId, WELCOME));
    storage.DeleteOpaque(Key(s.groupId, INFO));
  }

  method ValidateRetryRows(sha: Hash, s: GroupState, storage: SnapshotStorageProvider) returns (r: Result<(), MlsError>)
    ensures r == ValidateWires(sha, StoredWires(storage.current, s.groupId), HashesOf(s))
  {
    hide ValidateWire, Key;
    var hashes := HashesOf(s);
    var commit := storage.ReadOpaque(Key(s.groupId, COMMIT));
    var _ :- ValidateWire(sha, commit, hashes.commit);
    var welcome := storage.ReadOpaque(Key(s.groupId, WELCOME));
    var _ :- ValidateWire(sha, welcome, hashes.welcome);
    var info := storage.ReadOpaque(Key(s.groupId, INFO));
    r := ValidateWire(sha, info, hashes.info);
  }

  method RetryBytes(sha: Hash, s: GroupState, storage: SnapshotStorageProvider) returns (r: Result<Wires, MlsError>)
    ensures r == RetryBytesOf(sha, s, storage.current)
  {
    hide ValidateWire, Key;
    var _ :- ValidateRetryRows(sha, s, storage);
    if s.pending.None? {
      return Err(PendingCommitMissing);
    }
    var commit := storage.ReadOpaque(Key(s.groupId, COMMIT));
    if commit.None? {
      return Err(PendingCommitMissing);
    }
    var welcome := storage.ReadOpaque(Key(s.groupId, WELCOME));
    var info := storage.ReadOpaque(Key(s.groupId, INFO));
    return Ok(Wires(commit, welcome, info));
  }

  method Load(sha: Hash, storage: SnapshotStorageProvider, group: Bytes) returns (r: Result<GroupState, MlsError>)
    ensures LoadMayAnswer(sha, storage.current, group, r)
  {
    hide ValidateWire, Key, Decode, Ascii;
    var _ :- Fixed(group, 16);
    var known := [Key(group, STATE), Key(group, COMMIT), Key(group, WELCOME), Key(group, INFO)];
    var keys := storage.OpaqueKeysWithPrefix(RESERVED);
    PrefixIsReserved();
    KnownKeysHavePrefix(group);
    for i := 0 to |keys|
      invariant forall j :: 0 <= j < i ==> keys[j] in known
    {
      assert keys[i] in keys;
      if !(PREFIX <= keys[i]) {
        return Err(UnsupportedLocalMetadataVersion);
      }
      if keys[i] !in known {
        return Err(InvalidStorageSnapshot);
      }
    }
    assert forall k :: k in keys ==> k in known;
    var bytes := storage.ReadOpaque(Key(group, STATE));
    if bytes.None? {
      return Err(LocalMetadataMissing);
    }
    var s :- LocalMetadata.DecodeState(sha, bytes.value);
    if s.groupId != group {
      return Err(GroupMismatch);
    }
    var _ :- ValidateRetryRows(sha, s, storage);
    return Ok(s);
  }

  lemma KnownKeysHavePrefix(group: Bytes)
    ensures forall k :: k in Known(group) ==> PREFIX <= k
  {
    hide BE, Ascii;
  }

  lemma PrefixIsReserved()
    ensures RESERVED <= PREFIX
  {
    assert "OpenMlsDart/1/"[..12] == "OpenMlsDart/";
    assert PREFIX[..12] == RESERVED;
  }

  // ---------------------------------------------------------------- main results

  /** The four keys of a group differ: their lengths do. */
  lemma KeysDiffer(group: Bytes)
    ensures |Key(group, STATE)| == 22 + |group| && |Key(group, COMMIT)| == 23 + |group|
    ensures |Key(group, WELCOME)| == 24 + |group| && |Key(group, INFO)| == 21 + |group|
  {
    hide BE;
  }

  predicate WireMatches(sha: Hash, wire: Option<Bytes>, hash: Option<Bytes>) {
    (wire.Some? <==> hash.Some?) && (wire.Some? ==> 1 <= |wire.value| <= 1048576 && sha(wire.value) == hash.value)
  }

  /** Each wire is present exactly when its hash is recorded, and hashes to it. */
  predicate WiresMatch(sha: Hash, wires: Wires, hashes: Wires) {
    && WireMatches(sha, wires.commit, hashes.commit)
    && WireMatches(sha, wires.welcome, hashes.welcome)
    && WireMatches(sha, wires.info, hashes.info)
  }

  /** The four keys of a group, in full. */
  lemma KeysInFull(group: Bytes)
    ensures Key(group, STATE) == Ascii("OpenMlsDart/1/" + "state/") + BE(2, |group|) + group
    ensures Key(group, COMMIT) == Ascii("OpenMlsDart/1/" + "commit/") + BE(2, |group|) + group
    ensures Key(group, WELCOME) == Ascii("OpenMlsDart/1/" + "welcome/") + BE(2, |group|) + group
    ensures Key(group, INFO) == Ascii("OpenMlsDart/1/" + "info/") + BE(2, |group|) + group
  {
    hide BE, Ascii, Key;
    KeyInFull(group, "state/");
    KeyInFull(group, "commit/");
    KeyInFull(group, "welcome/");
    KeyInFull(group, "info/");
  }

  lemma KeyInFull(group: Bytes, name: string)
    ensures Key(group, Ascii(name)) == Ascii("OpenMlsDart/1/" + name) + BE(2, |group|) + group
  {
    hide BE, Ascii;
    AsciiJoins("OpenMlsDart/1/", name);
  }

  lemma AsciiJoins(a: string, b: string)
    ensures Ascii(a + b) == Ascii(a) + Ascii(b)
  {
  }

  /** Present exactly when the hash is recorded, and then of 1 byte to 1 MiB hashing to it. */
  predicate Hashes(sha: Hash, wire: Option<Bytes>, hash: Option<Bytes>) {
    if hash.None? then wire.None? else wire.Some? && 1 <= |wire.value| <= 1048576 && sha(wire.value) == hash.value
  }

  /** Wires may be stored exactly for a valid state with a pending Commit whose binding records each one's own hash. */
  lemma WiresStoredExactly(sha: Hash, s: GroupState, wires: Wires)
    ensures WriteCheck(sha, s, wires).Ok? <==>
              && Validate(sha, s).Ok? && s.pending.Some?
              && var b := s.pending.value.binding;
                 && Hashes(sha, wires.commit, Some(b.commitSha256)) && Hashes(sha, wires.welcome, b.welcomeSha256)
                 && Hashes(sha, wires.info, b.groupInfoSha256)
  {
    hide Validate;
  }

  /** What is loaded besides the state is what its binding records: each wire under its own key, or none without one. */
  lemma WiresLoadedExactly(sha: Hash, rows: Rows, group: Bytes, s: GroupState)
    ensures WiresMatch(sha, StoredWires(rows, group), HashesOf(s)) <==>
              var (commit, welcome, info) := (Read(rows, Key(group, COMMIT)), Read(rows, Key(group, WELCOME)), Read(rows, Key(group, INFO)));
              if s.pending.None? then commit.None? && welcome.None? && info.None?
              else
                var b := s.pending.value.binding;
                && Hashes(sha, commit, Some(b.commitSha256)) && Hashes(sha, welcome, b.welcomeSha256)
                && Hashes(sha, info, b.groupInfoSha256)
  {
    hide Key;
  }

  /** The bytes to send again are given exactly while a Commit is pending and the stored wires are those it records. */
  lemma RetryBytesExactly(sha: Hash, s: GroupState, rows: Rows, wires: Wires)
    ensures RetryBytesOf(sha, s, rows) == Ok(wires) <==>
              && s.pending.Some? && wires == StoredWires(rows, s.groupId)
              && var b := s.pending.value.binding;
                 && Hashes(sha, wires.commit, Some(b.commitSha256)) && Hashes(sha, wires.welcome, b.welcomeSha256)
                 && Hashes(sha, wires.info, b.groupInfoSha256)
  {
    hide StoredWires;
  }

  /** A reserved row that is none of the group's four. */
  predicate Stray(rows: Rows, group: Bytes, k: Bytes) {
    && k in rows && Ascii("OpenMlsDart/") <= k
    && k != Key(group, STATE) && k != Key(group, COMMIT) && k != Key(group, WELCOME) && k != Key(group, INFO)
  }

  /** With a stray row, loading answers exactly an error some stray row explains: another version's name, or an unknown one of this. */
  lemma StraysAnswerExactly(sha: Hash, rows: Rows, group: Bytes, r: Result<GroupState, MlsError>)
    requires |group| == 16 && exists k :: Stray(rows, group, k)
    ensures LoadMayAnswer(sha, rows, group, r) <==>
              || (r == Err(UnsupportedLocalMetadataVersion) && exists k :: Stray(rows, group, k) && !(Ascii("OpenMlsDart/1/") <= k))
              || (r == Err(InvalidStorageSnapshot) && exists k :: Stray(rows, group, k) && Ascii("OpenMlsDart/1/") <= k)
  {
    hide Key, Ascii;
    PrefixIsReserved();
    KnownKeysHavePrefix(group);
    var k :| Stray(rows, group, k);
    assert !NamespaceClean(rows, group);
    forall c ensures Stray(rows, group, c) <==> c in rows && RESERVED <= c && c !in Known(group) {
    }
  }

  /** Without a stray row, loading has one answer when the state row is missing or holds another group's state. */
  lemma LoadRefusals(sha: Hash, rows: Rows, group: Bytes, s: GroupState, r: Result<GroupState, MlsError>)
    requires LoadMayAnswer(sha, rows, group, r)
    ensures |group| != 16 ==> r == Err(InvalidStorageSnapshot)
    ensures |group| == 16 && (forall k :: !Stray(rows, group, k)) ==>
              && (Key(group, STATE) !in rows ==> r == Err(LocalMetadataMissing))
              && (Key(group, STATE) in rows && Encode(sha, s) == Ok(rows[Key(group, STATE)]) && s.groupId != group ==>
                    r == Err(GroupMismatch))
  {
    hide Key, Ascii, Encode, Decode, StoredWires, ValidateWires;
    if |group| == 16 && (forall k :: !Stray(rows, group, k)) {
      forall k | k in rows && RESERVED <= k ensures k in Known(group) {
        assert !Stray(rows, group, k);
      }
      if Key(group, STATE) in rows && Encode(sha, s) == Ok(rows[Key(group, STATE)]) {
        DecodeIffEncode(sha, rows[Key(group, STATE)], s);
      }
    }
  }

  /**
   * Loading returns a state exactly when no stray reserved row exists, the state row holds that state's own encoding,
   * the state is the asked group's, and the three wires match the hashes it records.
   */
  lemma LoadSucceedsExactly(sha: Hash, rows: Rows, group: Bytes, s: GroupState)
    ensures LoadMayAnswer(sha, rows, group, Ok(s)) <==>
              && |group| == 16 && NamespaceClean(rows, group)
              && Key(group, STATE) in rows && Encode(sha, s) == Ok(rows[Key(group, STATE)])
              && s.groupId == group
              && WiresMatch(sha, StoredWires(rows, group), HashesOf(s))
  {
    hide Decode, Encode, Key, NamespaceClean;
    if Key(group, STATE) in rows {
      DecodeIffEncode(sha, rows[Key(group, STATE)], s);
    }
  }

  /** Which rows a write leaves under the four keys, and that it touches no other key. */
  lemma StoredMeans(rows: Rows, group: Bytes, wires: Wires, state: Bytes)
    ensures var after := Stored(rows, group, wires)[Key(group, STATE) := state];
            && StoredWires(after, group) == wires
            && (forall k :: k in after ==> k in Known(group) || (k in rows && rows[k] == after[k]))
            && forall k :: k in rows ==> k in Known(group) || k in after
  {
    hide Key;
    KeysDiffer(group);
  }

  /** Writing the wires and saving is loaded again as the same state with the same bytes. */
  lemma WrittenStateLoads(sha: Hash, rows: Rows, s: GroupState, wires: Wires)
    requires wires.commit.Some? && NamespaceClean(rows, s.groupId) && WriteCheck(sha, s, wires).Ok?
    ensures var after := Saved(sha, Stored(rows, s.groupId, wires), s);
            && after.Ok?
            && (forall r :: LoadMayAnswer(sha, after.value, s.groupId, r) <==> r == Ok(s))
            && RetryBytesOf(sha, s, after.value) == Ok(wires)
  {
    hide Encode, Decode, Validate, Key, Stored, StoredWires, Known, ValidateWires;
    EncodeFailsOnlyOnValidation(sha, s);
    var bytes := Encode(sha, s).value;
    StoredMeans(rows, s.groupId, wires, bytes);
    DecodeIffEncode(sha, bytes, s);
    GroupIdIsFixed(sha, s);
  }

  lemma GroupIdIsFixed(sha: Hash, s: GroupState)
    requires Validate(sha, s).Ok?
    ensures |s.groupId| == 16
  {
    hide ValidateRoster, ValidateHistory, ValidatePending;
  }

  /** Without a pending Commit, clearing the wires and saving is loaded again as the same state. */
  lemma ClearedStateLoads(sha: Hash, rows: Rows, s: GroupState)
    requires s.pending.None? && NamespaceClean(rows, s.groupId) && Validate(sha, s).Ok?
    ensures var after := Saved(sha, Stored(rows, s.groupId, Wires(None, None, None)), s);
            && after.Ok? && NamespaceClean(after.value, s.groupId)
            && forall r :: LoadMayAnswer(sha, after.value, s.groupId, r) <==> r == Ok(s)
  {
    hide Encode, Decode, Validate, Key, Stored, StoredWires, Known;
    EncodeFailsOnlyOnValidation(sha, s);
    var bytes := Encode(sha, s).value;
    StoredMeans(rows, s.groupId, Wires(None, None, None), bytes);
    DecodeIffEncode(sha, bytes, s);
    GroupIdIsFixed(sha, s);
  }

  /** A run that is saved, dropped and loaded again around every step. */
  ghost function Restarted(sha: Hash, rows: Rows, incarnationId: Bytes, retention: u32, log: seq<Roster>)
    : Result<(GroupState, Rows), MlsError>
    requires log != []
  {
    var n := |log| - 1;
    if n == 0 then
      var s :- New(sha, incarnationId, retention, log[0]);
      var after :- Saved(sha, Stored(rows, s.groupId, Wires(None, None, None)), s);
      Ok((s, after))
    else
      var (_, before) :- Restarted(sha, rows, incarnationId, retention, log[..n]);
      var loaded :- LoadClean(sha, before, log[0].groupId);
      var s :- Advance(sha, loaded, log[n]);
      var after :- Saved(sha, Stored(before, s.groupId, Wires(None, None, None)), s);
      Ok((s, after))
  }

  /** Restarting from storage between any two steps changes neither which runs succeed nor where they end. */
  lemma {:induction false} RestartsAreInvisible(sha: Hash, rows: Rows, incarnationId: Bytes, retention: u32, log: seq<Roster>)
    requires log != [] && NamespaceClean(rows, log[0].groupId)
    ensures var run := Run(sha, incarnationId, retention, log);
            var restarted := Restarted(sha, rows, incarnationId, retention, log);
            && (run.Ok? <==> restarted.Ok?)
            && (run.Ok? ==>
                  && restarted.value.0 == run.value
                  && NamespaceClean(restarted.value.1, log[0].groupId)
                  && forall r :: LoadMayAnswer(sha, restarted.value.1, log[0].groupId, r) <==> r == Ok(run.value))
  {
    hide Validate, Saved, Stored, NamespaceClean, LoadClean, New, Advance;
    var n := |log| - 1;
    if n > 0 {
      RestartsAreInvisible(sha, rows, incarnationId, retention, log[..n]);
    }
    var run := Run(sha, incarnationId, retention, log);
    if run.Ok? {
      RunShape(sha, incarnationId, retention, log);
      var before := if n == 0 then rows else Restarted(sha, rows, incarnationId, retention, log[..n]).value.1;
      ClearedStateLoads(sha, before, run.value);
      GroupIdIsFixed(sha, run.value);
    }
    if n > 0 && Run(sha, incarnationId, retention, log[..n]).Ok? {
      var s := Run(sha, incarnationId, retention, log[..n]).value;
      var before := Restarted(sha, rows, incarnationId, retention, log[..n]).value.1;
      RunShape(sha, incarnationId, retention, log[..n]);
      GroupIdIsFixed(sha, s);
      assert LoadMayAnswer(sha, before, log[0].groupId, Ok(s));
      assert LoadClean(sha, before, log[0].groupId) == Ok(s);
    }
  }
}
