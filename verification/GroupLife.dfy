/**
 * The life of a group on one device: Commits are prepared, merged, discarded, superseded and received, each operation
 * loading the package rows from the caller's snapshot and giving back one batch.
 */
module GroupLife {
  import opened Foundation
  import opened Errors
  import opened MlsTypes
  import opened LocalGroup
  import opened LocalCodec
  import opened SnapshotStorage
  import opened StorageBatch
  import opened RetryRows

  /** What the caller was told about its own Commit by the outside. */
  datatype Acceptance = Acceptance(binding: PendingBinding, resulting: ExpectedState, preparationBaseSha256: Bytes)

  /** The operations, with what the MLS engine answers during them: a pending record, or the roster it ended with. */
  datatype Op =
    | Prepare(record: PendingRecord, commit: Bytes, welcome: Option<Bytes>, info: Option<Bytes>)
    | Merge(acceptance: Acceptance, resulting: Roster)
    | Discard(binding: PendingBinding)
    | Receive(resulting: Roster)
    | ReceiveExternal(superseded: Option<PendingBinding>, resulting: Roster)
    | Message

  const NoWires := Wires(None, None, None)

  // ---------------------------------------------------------------- one operation on the group state

  function Pending(s: GroupState): Result<PendingRecord, MlsError> {
    if s.pending.Some? then Ok(s.pending.value) else Err(PendingCommitMissing)
  }

  function BindingOf(s: GroupState): Option<PendingBinding> {
    if s.pending.Some? then Some(s.pending.value.binding) else None
  }

  function Idle(s: GroupState): GroupState {
    s.(pending := None)
  }

  function Step(sha: Hash, s: GroupState, op: Op): Result<GroupState, MlsError> {
    match op
    case Prepare(record, commit, welcome, info) =>
      var _ :- Need(s.pending.None?, PendingCommitExists);
      var t := s.(pending := Some(record));
      var _ :- WriteCheck(sha, t, Wires(Some(commit), welcome, info));
      Ok(t)
    case Merge(a, resulting) =>
      var p :- Pending(s);
      var _ :- Need(&& a.binding == p.binding && a.resulting == StateOf(p.proposed)
                    && a.preparationBaseSha256 == p.preparationBaseSha256, AcceptanceBindingMismatch);
      var _ :- Need(resulting == p.proposed, ResultingRosterMismatch);
      Advance(sha, s, resulting)
    case Discard(binding) =>
      var p :- Pending(s);
      var _ :- Need(binding == p.binding, PendingBindingMismatch);
      Ok(Idle(s))
    case Receive(resulting) =>
      var _ :- Need(s.pending.None?, PendingCommitExists);
      Advance(sha, s, resulting)
    case ReceiveExternal(superseded, resulting) =>
      var _ :- Need(BindingOf(s) == superseded, PendingBindingMismatch);
      Advance(sha, Idle(s), resulting)
    case Message => Ok(s)
  }

  /** The engine's own rows and the group's three retry rows, before the state row is saved. */
  function Retried(rows: Rows, group: Bytes, op: Op): Rows {
    match op
    case Prepare(_, commit, welcome, info) => Stored(rows, group, Wires(Some(commit), welcome, info))
    case Merge(_, _) => Stored(rows, group, NoWires)
    case Discard(_) => Stored(rows, group, NoWires)
    case ReceiveExternal(superseded, _) => if superseded.Some? then Stored(rows, group, NoWires) else rows
    case Receive(_) => rows
    case Message => rows
  }

  function Written(sha: Hash, rows: Rows, t: GroupState, op: Op, engine: seq<Edit>): Result<Rows, MlsError> {
    Saved(sha, Retried(Edited(rows, engine), t.groupId, op), t)
  }

  /** What the operation answers once the rows have been loaded. */
  ghost function Answer(sha: Hash, entries: seq<StorageEntry>, group: Bytes, op: Op, engine: seq<Edit>, loaded: Result<GroupState, MlsError>)
    : Result<(GroupState, Batch), MlsError>
  {
    var s :- loaded;
    var t :- Step(sha, s, op);
    var rows :- Written(sha, Collect(entries), t, op, engine);
    match BatchOf(Collect(entries), rows, Some(group), [])
    case Ok(b) => Ok((t, b))
    case Err(_) => Err(InternalFailure)
  }

  /** The whole operation; stray reserved rows leave it open which of two errors loading reports. */
  ghost predicate MayAnswer(sha: Hash, entries: seq<StorageEntry>, group: Bytes, op: Op, engine: seq<Edit>,
                            r: Result<(GroupState, Batch), MlsError>)
  {
    if |group| != 16 then r == Err(LimitExceeded)
    else if ValidateEntries(entries, FORMAT_VERSION, Some(group)).Err? then r == Err(InvalidStorageSnapshot)
    else exists loaded :: LoadMayAnswer(sha, Collect(entries), group, loaded) && r == Answer(sha, entries, group, op, engine, loaded)
  }

  /** Creating a group: the rows at hand are the installation's alone, and nothing is loaded. */
  ghost function Creation(sha: Hash, entries: seq<StorageEntry>, incarnationId: Bytes, retention: u32, first: Roster, engine: seq<Edit>)
    : Result<(GroupState, Batch), MlsError>
  {
    var _ :- Need(|first.groupId| == 16 && Within(incarnationId, 1, 128), LimitExceeded);
    var _ :- Need(RetentionSupported(retention), UnsupportedRetention);
    var _ :- Need(ValidateEntries(entries, FORMAT_VERSION, None).Ok?, InvalidStorageSnapshot);
    var s :- New(sha, incarnationId, retention, first);
    var rows :- Saved(sha, Edited(Collect(entries), engine), s);
    match BatchOf(Collect(entries), rows, Some(first.groupId), [])
    case Ok(b) => Ok((s, b))
    case Err(_) => Err(InternalFailure)
  }

  // ---------------------------------------------------------------- the operations as written

  method ApplyEdits(engine: seq<Edit>, storage: SnapshotStorageProvider)
    modifies storage`current
    ensures storage.current == Edited(old(storage.current), engine)
  {
    for i := 0 to |engine|
      invariant storage.current == Edited(old(storage.current), engine[..i])
    {
      assert engine[..i + 1][..i] == engine[..i];
      match engine[i]
      case Write(key, value) => storage.WriteOpaque(key, value);
      case Delete(key) => storage.DeleteOpaque(key);
    }
    assert engine[..|engine|] == engine;
  }

  /** The state is changed in place, and with it the retry rows; the state row is not saved yet. */
  method Change(op: Op, local: LocalGroupState, storage: SnapshotStorageProvider) returns (r: Result<(), MlsError>)
    modifies local, storage`current
    ensures match Step(local.sha, old(local.State()), op)
            case Ok(t) => r.Ok? && local.State() == t && storage.current == Retried(old(storage.current), t.groupId, op)
            case Err(e) => r == Err(e)
  {
    hide Validate, ValidateRoster, ValidateWires, Stored, StateOf;
    match op
    case Prepare(record, commit, welcome, info) =>
      if local.pending.Some? {
        return Err(PendingCommitExists);
      }
      local.pending := Some(record);
      var t := local.Value();
      r := WriteRetryRows(local.sha, t, storage, commit, welcome, info);
    case Merge(a, resulting) =>
      if local.pending.None? {
        return Err(PendingCommitMissing);
      }
      var p := local.pending.value;
      if a.binding != p.binding || a.resulting != StateOf(p.proposed) || a.preparationBaseSha256 != p.preparationBaseSha256 {
        return Err(AcceptanceBindingMismatch);
      }
      if resulting != p.proposed {
        return Err(ResultingRosterMismatch);
      }
      var _ :- local.AdvanceTo(resulting);
      var t := local.Value();
      ClearRetryRows(t, storage);
      return Ok(());
    case Discard(binding) =>
      if local.pending.None? {
        return Err(PendingCommitMissing);
      }
      if binding != local.pending.value.binding {
        return Err(PendingBindingMismatch);
      }
      local.pending := None;
      var t := local.Value();
      ClearRetryRows(t, storage);
      return Ok(());
    case Receive(resulting) =>
      if local.pending.Some? {
        return Err(PendingCommitExists);
      }
      r := local.AdvanceTo(resulting);
    case ReceiveExternal(superseded, resulting) =>
      if (if local.pending.Some? then Some(local.pending.value.binding) else None) != superseded {
        return Err(PendingBindingMismatch);
      }
      if superseded.Some? {
        local.pending := None;
        var t := local.Value();
        ClearRetryRows(t, storage);
      }
      r := local.AdvanceTo(resulting);
    case Message =>
      return Ok(());
  }

  /** Validate and load the rows, let the engine and the operation change them, save, and give back the difference. */
  method Perform(sha: Hash, entries: seq<StorageEntry>, group: Bytes, op: Op, engine: seq<Edit>)
    returns (r: Result<(GroupState, Batch), MlsError>)
    ensures MayAnswer(sha, entries, group, op, engine, r)
  {
    hide LoadMayAnswer, Step, Retried, Edited, Encode, BatchOf, Collect, ValidateEntries;
    if |group| != 16 {
      return Err(LimitExceeded);
    }
    var valid := ValidateStorageEntries(entries, FORMAT_VERSION, Some(group));
    if valid.Err? {
      return Err(InvalidStorageSnapshot);
    }
    var storage := new SnapshotStorageProvider.FromEntries(entries);
    var loaded := Load(sha, storage, group);
    if loaded.Err? {
      return Err(loaded.error);
    }
    var local := new LocalGroupState(sha, loaded.value);
    ApplyEdits(engine, storage);
    var changed := Change(op, local, storage);
    if changed.Err? {
      return Err(changed.error);
    }
    var t := local.Value();
    var saved := Save(sha, t, storage);
    if saved.Err? {
      return Err(saved.error);
    }
    var batch := BatchFromProvider(storage, Some(group), []);
    return match batch case Ok(b) => Ok((t, b)) case Err(_) => Err(InternalFailure);
  }

  method Create(sha: Hash, entries: seq<StorageEntry>, incarnationId: Bytes, retention: u32, first: Roster, engine: seq<Edit>)
    returns (r: Result<(GroupState, Batch), MlsError>)
    ensures r == Creation(sha, entries, incarnationId, retention, first, engine)
  {
    hide Validate, Edited, Encode, BatchOf, Collect, ValidateEntries;
    if |first.groupId| != 16 || !Within(incarnationId, 1, 128) {
      return Err(LimitExceeded);
    }
    if !RetentionSupported(retention) {
      return Err(UnsupportedRetention);
    }
    var valid := ValidateStorageEntries(entries, FORMAT_VERSION, None);
    if valid.Err? {
      return Err(InvalidStorageSnapshot);
    }
    var storage := new SnapshotStorageProvider.FromEntries(entries);
    ApplyEdits(engine, storage);
    var s := GroupState(first.groupId, incarnationId, retention, first.epoch, first, [], None);
    var good := CheckGroup(sha, s);
    if good.Err? {
      return Err(good.error);
    }
    var saved := Save(sha, s, storage);
    if saved.Err? {
      return Err(saved.error);
    }
    var batch := BatchFromProvider(storage, Some(first.groupId), []);
    return match batch case Ok(b) => Ok((s, b)) case Err(_) => Err(InternalFailure);
  }

  // ---------------------------------------------------------------- what each operation needs

  /** A roster that may follow the current one. */
  predicate Next(sha: Hash, s: GroupState, r: Roster) {
    GoodRoster(sha, r) && r.groupId == s.groupId && r.epoch == s.current.epoch + 1
  }

  lemma IdleIsValid(sha: Hash, s: GroupState)
    requires Validate(sha, s).Ok?
    ensures Validate(sha, Idle(s)) == Ok(())
  {
    hide ValidateRoster, ValidateHistory, ValidatePending;
  }

  /** Advancing forgets what was pending, so it does not matter whether anything was. */
  lemma AdvanceExactly(sha: Hash, s: GroupState, r: Roster)
    requires Validate(sha, s).Ok?
    ensures Advance(sha, s, r) == Advance(sha, Idle(s), r)
    ensures Advance(sha, s, r).Ok? <==> Next(sha, s, r)
    ensures Advance(sha, s, r).Ok? ==>
              Validate(sha, Advance(sha, s, r).value).Ok? && Advance(sha, s, r).value.pending.None? && Advance(sha, s, r).value.groupId == s.groupId
  {
    hide Validate, ValidateRoster, GoodRoster;
    IdleIsValid(sha, s);
    RosterMeans(sha, r);
    if CheckAdvance(sha, s, r).Ok? {
      SlideKeepsValid(sha, s, r);
    }
  }

  lemma PreparingExactly(sha: Hash, s: GroupState, record: PendingRecord, wires: Wires)
    requires Validate(sha, s).Ok?
    ensures var t := s.(pending := Some(record));
            && (WriteCheck(sha, t, wires).Ok? <==> GoodPending(sha, record, s) && WiresMatch(sha, wires, HashesOf(t)))
            && (WriteCheck(sha, t, wires).Ok? ==> Validate(sha, t).Ok?)
  {
    hide Validate, GoodRoster;
    LocalGroup.ValidMeans(sha, s);
    LocalGroup.ValidMeans(sha, s.(pending := Some(record)));
  }

  /** The operations a valid state accepts. In particular a merge that names what is pending cannot fail. */
  predicate Acceptable(sha: Hash, s: GroupState, op: Op) {
    match op
    case Prepare(record, commit, welcome, info) =>
      && s.pending.None? && GoodPending(sha, record, s)
      && WiresMatch(sha, Wires(Some(commit), welcome, info), HashesOf(s.(pending := Some(record))))
    case Merge(a, resulting) =>
      && s.pending.Some? && a.binding == s.pending.value.binding && resulting == s.pending.value.proposed
      && a.resulting == ExpectedState(resulting.groupId, resulting.epoch, resulting.digest)
      && a.preparationBaseSha256 == s.pending.value.preparationBaseSha256
    case Discard(binding) => BindingOf(s) == Some(binding)
    case Receive(resulting) => s.pending.None? && Next(sha, s, resulting)
    case ReceiveExternal(superseded, resulting) => BindingOf(s) == superseded && Next(sha, s, resulting)
    case Message => true
  }

  lemma StepSucceedsExactly(sha: Hash, s: GroupState, op: Op)
    requires Validate(sha, s).Ok?
    ensures Step(sha, s, op).Ok? <==> Acceptable(sha, s, op)
    ensures Step(sha, s, op).Ok? ==> Validate(sha, Step(sha, s, op).value).Ok? && Step(sha, s, op).value.groupId == s.groupId
  {
    hide Validate, Advance, WriteCheck, GoodRoster, WiresMatch, HashesOf;
    match op
    case Prepare(record, commit, welcome, info) =>
      PreparingExactly(sha, s, record, Wires(Some(commit), welcome, info));
    case Merge(_, resulting) =>
      AdvanceExactly(sha, s, resulting);
      LocalGroup.ValidMeans(sha, s);
    case Discard(_) =>
      IdleIsValid(sha, s);
    case Receive(resulting) =>
      AdvanceExactly(sha, s, resulting);
    case ReceiveExternal(_, resulting) =>
      AdvanceExactly(sha, s, resulting);
    case Message =>
  }

  // ---------------------------------------------------------------- whole lives

  /** A refused operation leaves everything as it was. */
  function Stepped(sha: Hash, s: GroupState, op: Op): GroupState {
    var r := Step(sha, s, op);
    if r.Ok? then r.value else s
  }

  function Lived(sha: Hash, s: GroupState, ops: seq<Op>): GroupState {
    if ops == [] then s else Stepped(sha, Lived(sha, s, ops[..|ops| - 1]), ops[|ops| - 1])
  }

  /** The roster an operation moves the group to. */
  function Move(op: Op): seq<Roster> {
    match op
    case Merge(_, resulting) => [resulting]
    case Receive(resulting) => [resulting]
    case ReceiveExternal(_, resulting) => [resulting]
    case _ => []
  }

  /** The rosters of the accepted moves, in order. */
  function Moves(sha: Hash, s: GroupState, ops: seq<Op>): seq<Roster> {
    if ops == [] then [] else
      var n := |ops| - 1;
      Moves(sha, s, ops[..n]) + if Step(sha, Lived(sha, s, ops[..n]), ops[n]).Ok? then Move(ops[n]) else []
  }

  lemma {:induction false} LivedIsValid(sha: Hash, s: GroupState, ops: seq<Op>)
    requires Validate(sha, s).Ok?
    ensures Validate(sha, Lived(sha, s, ops)).Ok? && Lived(sha, s, ops).groupId == s.groupId
  {
    hide Validate, Step;
    if ops != [] {
      LivedIsValid(sha, s, ops[..|ops| - 1]);
      StepSucceedsExactly(sha, Lived(sha, s, ops[..|ops| - 1]), ops[|ops| - 1]);
    }
  }

  lemma StepMoves(sha: Hash, s: GroupState, op: Op)
    requires Validate(sha, s).Ok? && Step(sha, s, op).Ok?
    ensures Move(op) == [] ==> Idle(Step(sha, s, op).value) == Idle(s)
    ensures Move(op) != [] ==> Advance(sha, Idle(s), Move(op)[0]) == Ok(Idle(Step(sha, s, op).value)) && Move(op) == [Move(op)[0]]
  {
    hide Validate, Advance, WriteCheck;
    if Move(op) != [] {
      AdvanceExactly(sha, s, Move(op)[0]);
    }
  }

  /**
   * Whatever a device prepares, discards, loses to others or is refused, its state apart from the pending Commit is
   * that of the plain run through the rosters it moved to.
   */
  lemma {:induction false} LifeIsARun(sha: Hash, incarnationId: Bytes, retention: u32, first: Roster, ops: seq<Op>)
    requires New(sha, incarnationId, retention, first).Ok?
    ensures var s := New(sha, incarnationId, retention, first).value;
            Run(sha, incarnationId, retention, [first] + Moves(sha, s, ops)) == Ok(Idle(Lived(sha, s, ops)))
  {
    hide Validate, Step, Advance;
    var s := New(sha, incarnationId, retention, first).value;
    if ops == [] {
      assert [first] + Moves(sha, s, ops) == [first];
    } else {
      var n := |ops| - 1;
      LifeIsARun(sha, incarnationId, retention, first, ops[..n]);
      LivedIsValid(sha, s, ops[..n]);
      var (before, after) := ([first] + Moves(sha, s, ops[..n]), [first] + Moves(sha, s, ops));
      if Step(sha, Lived(sha, s, ops[..n]), ops[n]).Ok? {
        StepMoves(sha, Lived(sha, s, ops[..n]), ops[n]);
      }
      if |after| > |before| {
        assert after[..|after| - 1] == before;
      } else {
        assert after == before;
      }
    }
  }

  /** Every life answers a message's epoch as the plain run does: by the rosters it moved through. */
  lemma LifeAnswers(sha: Hash, incarnationId: Bytes, retention: u32, first: Roster, ops: seq<Op>, epoch: u64)
    requires New(sha, incarnationId, retention, first).Ok?
    ensures var s := New(sha, incarnationId, retention, first).value;
            var log := [first] + Moves(sha, s, ops);
            var last := first.epoch + |log| - 1;
            MessageRoster(sha, Lived(sha, s, ops), epoch) ==
              if epoch > last then Err(FutureMessageEpoch)
              else if epoch < first.epoch || epoch + retention < last then Err(PastEpochUnavailable)
              else Ok(log[epoch - first.epoch])
  {
    hide Validate, Run, Lived, Moves, FindEpoch;
    var s := New(sha, incarnationId, retention, first).value;
    LifeIsARun(sha, incarnationId, retention, first, ops);
    LivedIsValid(sha, s, ops);
    IdleIsValid(sha, Lived(sha, s, ops));
    RunAnswers(sha, incarnationId, retention, [first] + Moves(sha, s, ops), epoch);
  }

  // ---------------------------------------------------------------- every prepared Commit is settled once

  predicate Settles(op: Op) {
    op.Merge? || op.Discard? || (op.ReceiveExternal? && op.superseded.Some?)
  }

  function Prepared(sha: Hash, s: GroupState, ops: seq<Op>): nat {
    if ops == [] then 0 else
      var n := |ops| - 1;
      Prepared(sha, s, ops[..n]) + if ops[n].Prepare? && Step(sha, Lived(sha, s, ops[..n]), ops[n]).Ok? then 1 else 0
  }

  function Settled(sha: Hash, s: GroupState, ops: seq<Op>): nat {
    if ops == [] then 0 else
      var n := |ops| - 1;
      Settled(sha, s, ops[..n]) + if Settles(ops[n]) && Step(sha, Lived(sha, s, ops[..n]), ops[n]).Ok? then 1 else 0
  }

  /** The Commit prepared last among the accepted ones. */
  function Latest(sha: Hash, s: GroupState, ops: seq<Op>): Option<Op> {
    if ops == [] then None else
      var n := |ops| - 1;
      if ops[n].Prepare? && Step(sha, Lived(sha, s, ops[..n]), ops[n]).Ok? then Some(ops[n]) else Latest(sha, s, ops[..n])
  }

  lemma StepSettles(sha: Hash, s: GroupState, op: Op)
    requires Step(sha, s, op).Ok?
    ensures var t := Step(sha, s, op).value;
            && (op.Prepare? ==> s.pending.None? && t.pending == Some(op.record))
            && (Settles(op) ==> s.pending.Some? && t.pending.None?)
            && (!op.Prepare? && !Settles(op) ==> t.pending == s.pending)
            && (op.Merge? ==> t.current == s.pending.value.proposed)
  {
    hide CheckAdvance, WriteCheck;
  }

  /**
   * Of the Commits a device prepared, all but the pending one were merged, discarded or superseded, each once; and the
   * pending one is the one prepared last.
   */
  lemma {:induction false} EveryCommitIsSettledOnce(sha: Hash, s: GroupState, ops: seq<Op>)
    requires s.pending.None?
    ensures var t := Lived(sha, s, ops);
            && Prepared(sha, s, ops) == Settled(sha, s, ops) + (if t.pending.Some? then 1 else 0)
            && (t.pending.Some? ==>
                  var latest := Latest(sha, s, ops); latest.Some? && latest.value.Prepare? && t.pending == Some(latest.value.record))
  {
    hide Step;
    if ops != [] {
      var n := |ops| - 1;
      EveryCommitIsSettledOnce(sha, s, ops[..n]);
      if Step(sha, Lived(sha, s, ops[..n]), ops[n]).Ok? {
        StepSettles(sha, Lived(sha, s, ops[..n]), ops[n]);
      }
    }
  }

  // ---------------------------------------------------------------- through the caller's storage

  /** The engine keeps out of the package's reserved keys. */
  predicate Outside(engine: seq<Edit>) {
    forall i :: 0 <= i < |engine| ==> !(RESERVED <= engine[i].key)
  }

  lemma {:induction false} EngineKeepsReserved(rows: Rows, engine: seq<Edit>)
    requires Outside(engine)
    ensures var after := Edited(rows, engine);
            forall k :: RESERVED <= k ==> (k in after <==> k in rows) && (k in rows ==> after[k] == rows[k])
  {
    if engine != [] {
      assert forall i :: 0 <= i < |engine| - 1 ==> engine[..|engine| - 1][i] == engine[i];
      EngineKeepsReserved(rows, engine[..|engine| - 1]);
    }
  }

  /** The wires stored after an accepted operation. */
  function WiresAfter(wires: Wires, op: Op): Wires {
    match op
    case Prepare(_, commit, welcome, info) => Wires(Some(commit), welcome, info)
    case _ => if Settles(op) then NoWires else wires
  }

  /** Rows that hold a valid state, its wires, and no other reserved row. */
  predicate HoldsState(sha: Hash, rows: Rows, group: Bytes, s: GroupState, wires: Wires) {
    && Validate(sha, s).Ok? && s.groupId == group && NamespaceClean(rows, group)
    && Key(group, STATE) in rows && Encode(sha, s) == Ok(rows[Key(group, STATE)])
    && StoredWires(rows, group) == wires && WiresMatch(sha, wires, HashesOf(s))
  }

  predicate Holds(sha: Hash, entries: seq<StorageEntry>, group: Bytes, s: GroupState, wires: Wires) {
    ValidateEntries(entries, FORMAT_VERSION, Some(group)).Ok? && HoldsState(sha, Collect(entries), group, s, wires)
  }

  /** Such rows load as exactly this state, and give the exact wires while a Commit is pending. */
  lemma HeldIsLoaded(sha: Hash, rows: Rows, group: Bytes, s: GroupState, wires: Wires)
    requires HoldsState(sha, rows, group, s, wires)
    ensures forall r :: LoadMayAnswer(sha, rows, group, r) <==> r == Ok(s)
    ensures RetryBytesOf(sha, s, rows) == if s.pending.Some? then Ok(wires) else Err(PendingCommitMissing)
  {
    hide Validate, Encode, Decode, Key, Known, StoredWires, NamespaceClean;
    LoadSucceedsExactly(sha, rows, group, s);
    GroupIdIsFixed(sha, s);
  }

  lemma HeldGroupId(sha: Hash, rows: Rows, group: Bytes, s: GroupState, wires: Wires)
    requires HoldsState(sha, rows, group, s, wires)
    ensures |group| == 16
  {
    hide Validate;
    GroupIdIsFixed(sha, s);
  }

  lemma ReservedKeys(group: Bytes)
    ensures forall k :: k in Known(group) ==> RESERVED <= k
  {
    hide Key, Ascii;
    PrefixIsReserved();
    KnownKeysHavePrefix(group);
  }

  lemma RetriedMeans(rows: Rows, group: Bytes, op: Op, state: Bytes)
    ensures var after := Retried(rows, group, op)[Key(group, STATE) := state];
            && StoredWires(after, group) == WiresAfter(StoredWires(rows, group), op)
            && forall k :: k in after ==> k in Known(group) || k in rows
  {
    hide Key, Stored;
    KeysDiffer(group);
    match op {
      case Prepare(_, commit, welcome, info) => StoredMeans(rows, group, Wires(Some(commit), welcome, info), state);
      case _ => StoredMeans(rows, group, NoWires, state);
    }
  }

  /** The wires the operation leaves are those its state records the hashes of. */
  lemma WiresFollow(sha: Hash, s: GroupState, wires: Wires, op: Op)
    requires Validate(sha, s).Ok? && WiresMatch(sha, wires, HashesOf(s)) && Step(sha, s, op).Ok?
    ensures WiresMatch(sha, WiresAfter(wires, op), HashesOf(Step(sha, s, op).value))
  {
    hide Validate, CheckAdvance, WriteCheck;
    StepSucceedsExactly(sha, s, op);
  }

  lemma SameReserved(rows: Rows, after: Rows, group: Bytes)
    requires forall k :: RESERVED <= k ==> (k in after <==> k in rows) && (k in rows ==> after[k] == rows[k])
    ensures StoredWires(after, group) == StoredWires(rows, group)
    ensures NamespaceClean(rows, group) ==> NamespaceClean(after, group)
  {
    hide Key;
    ReservedKeys(group);
    assert Key(group, COMMIT) in Known(group) && Key(group, WELCOME) in Known(group) && Key(group, INFO) in Known(group);
  }

  lemma EditedHolds(sha: Hash, rows: Rows, group: Bytes, s: GroupState, wires: Wires, op: Op, engine: seq<Edit>)
    requires HoldsState(sha, rows, group, s, wires) && Outside(engine) && Step(sha, s, op).Ok?
    ensures var t := Step(sha, s, op).value;
            var written := Written(sha, rows, t, op, engine);
            written.Ok? && HoldsState(sha, written.value, group, t, WiresAfter(wires, op))
  {
    hide Validate, Encode, Step, Key, Known, StoredWires, Edited, Retried, WiresMatch, WiresAfter, HashesOf;
    var t := Step(sha, s, op).value;
    StepSucceedsExactly(sha, s, op);
    WiresFollow(sha, s, wires, op);
    EncodeFailsOnlyOnValidation(sha, t);
    EngineKeepsReserved(rows, engine);
    SameReserved(rows, Edited(rows, engine), group);
    RetriedMeans(Edited(rows, engine), group, op, Encode(sha, t).value);
  }

  /** One operation on the caller's rows: refused as on the state in memory, or answered by the batch to the next state. */
  lemma PerformedHolds(sha: Hash, entries: seq<StorageEntry>, group: Bytes, s: GroupState, wires: Wires, op: Op, engine: seq<Edit>,
                       r: Result<(GroupState, Batch), MlsError>)
    requires Holds(sha, entries, group, s, wires) && Outside(engine) && MayAnswer(sha, entries, group, op, engine, r)
    ensures match Step(sha, s, op)
            case Err(e) => r == Err(e)
            case Ok(t) => r.Ok? && r.value.0 == t && Holds(sha, Applied(entries, r.value.1), group, t, WiresAfter(wires, op))
  {
    hide HoldsState, Step, Written, LoadMayAnswer, ValidateEntries, Collect, Applied, BatchOf, EntriesOf, WiresAfter;
    HeldIsLoaded(sha, Collect(entries), group, s, wires);
    HeldGroupId(sha, Collect(entries), group, s, wires);
    assert r == Answer(sha, entries, group, op, engine, Ok(s));
    if Step(sha, s, op).Ok? {
      EditedHolds(sha, Collect(entries), group, s, wires, op, engine);
      var rows := Written(sha, Collect(entries), Step(sha, s, op).value, op, engine).value;
      BatchOfAGroup(Collect(entries), rows, group, []);
      ApplyCompletesTheOperation(entries, Some(group), rows);
      RowsStayValid(rows, group);
    }
  }

  /** Rows none of which is the package's own. */
  predicate Unsaved(rows: Rows) {
    forall k :: k in rows ==> !(Ascii("OpenMlsDart/") <= k)
  }

  /** Why an operation is refused before it starts: the group id, the rows handed over, and then the group's own rows. */
  lemma PerformRefusals(sha: Hash, entries: seq<StorageEntry>, group: Bytes, op: Op, engine: seq<Edit>, r: Result<(GroupState, Batch), MlsError>)
    requires MayAnswer(sha, entries, group, op, engine, r)
    ensures |group| != 16 ==> r == Err(LimitExceeded)
    ensures |group| == 16 && ValidateEntries(entries, FORMAT_VERSION, Some(group)).Err? ==> r == Err(InvalidStorageSnapshot)
    ensures |group| == 16 && ValidateEntries(entries, FORMAT_VERSION, Some(group)).Ok? && Unsaved(Collect(entries)) ==>
              r == Err(LocalMetadataMissing)
  {
    hide ValidateEntries, Collect, LoadMayAnswer, Step, Written, BatchOf, Unsaved;
    var rows := Collect(entries);
    if |group| == 16 && ValidateEntries(entries, FORMAT_VERSION, Some(group)).Ok? {
      var loaded :| LoadMayAnswer(sha, rows, group, loaded) && r == Answer(sha, entries, group, op, engine, loaded);
      if Unsaved(rows) {
        UnsavedIsMissing(sha, rows, group, loaded);
      }
    }
  }

  lemma UnsavedIsMissing(sha: Hash, rows: Rows, group: Bytes, loaded: Result<GroupState, MlsError>)
    requires |group| == 16 && LoadMayAnswer(sha, rows, group, loaded) && Unsaved(rows)
    ensures loaded == Err(LocalMetadataMissing)
  {
    hide Ascii, Key, Decode, StoredWires, ValidateWires;
    KnownKeysHavePrefix(group);
    PrefixIsReserved();
    assert RESERVED == Ascii("OpenMlsDart/");
    assert Key(group, STATE) in Known(group);
  }

  datatype Request = Request(op: Op, engine: seq<Edit>)

  function Ops(requests: seq<Request>): seq<Op> {
    seq(|requests|, i requires 0 <= i < |requests| => requests[i].op)
  }

  /** Requests served one after another, each on the rows the caller keeps; a batch is applied, an error changes nothing. */
  ghost predicate Session(sha: Hash, group: Bytes, requests: seq<Request>, answers: seq<Result<(GroupState, Batch), MlsError>>,
                          kept: seq<seq<StorageEntry>>)
  {
    && |answers| == |requests| && |kept| == |requests| + 1
    && forall i :: 0 <= i < |requests| ==>
         && MayAnswer(sha, kept[i], group, requests[i].op, requests[i].engine, answers[i])
         && kept[i + 1] == if answers[i].Ok? then Applied(kept[i], answers[i].value.1) else kept[i]
  }

  function Carried(sha: Hash, s: GroupState, wires: Wires, ops: seq<Op>): Wires {
    if ops == [] then wires else
      var n := |ops| - 1;
      var before := Carried(sha, s, wires, ops[..n]);
      if Step(sha, Lived(sha, s, ops[..n]), ops[n]).Ok? then WiresAfter(before, ops[n]) else before
  }

  lemma SessionStep(sha: Hash, group: Bytes, requests: seq<Request>, answers: seq<Result<(GroupState, Batch), MlsError>>,
                    kept: seq<seq<StorageEntry>>, n: nat, s: GroupState, wires: Wires)
    requires Session(sha, group, requests, answers, kept) && n < |requests|
    requires Outside(requests[n].engine) && Holds(sha, kept[n], group, s, wires)
    ensures Holds(sha, kept[n + 1], group, Stepped(sha, s, requests[n].op),
                  if Step(sha, s, requests[n].op).Ok? then WiresAfter(wires, requests[n].op) else wires)
    ensures match Step(sha, s, requests[n].op)
            case Err(e) => answers[n] == Err(e)
            case Ok(t) => answers[n].Ok? && answers[n].value.0 == t
  {
    hide Holds, Step, MayAnswer, Outside, Applied, WiresAfter;
    assert MayAnswer(sha, kept[n], group, requests[n].op, requests[n].engine, answers[n]);
    PerformedHolds(sha, kept[n], group, s, wires, requests[n].op, requests[n].engine, answers[n]);
  }

  /** The state and the wires before request `n`, had all requests so far been lived in memory. */
  function StateBefore(sha: Hash, s: GroupState, requests: seq<Request>, n: nat): GroupState
    requires n <= |requests|
  {
    Lived(sha, s, Ops(requests)[..n])
  }

  function WiresBefore(sha: Hash, s: GroupState, wires: Wires, requests: seq<Request>, n: nat): Wires
    requires n <= |requests|
  {
    Carried(sha, s, wires, Ops(requests)[..n])
  }

  lemma BeforeUnfolds(sha: Hash, s: GroupState, wires: Wires, requests: seq<Request>, n: nat)
    requires n < |requests|
    ensures var (t, op) := (StateBefore(sha, s, requests, n), requests[n].op);
            && StateBefore(sha, s, requests, n + 1) == Stepped(sha, t, op)
            && WiresBefore(sha, s, wires, requests, n + 1)
               == if Step(sha, t, op).Ok? then WiresAfter(WiresBefore(sha, s, wires, requests, n), op)
                  else WiresBefore(sha, s, wires, requests, n)
  {
    hide Step, WiresAfter;
    var ops := Ops(requests)[..n + 1];
    assert ops[..n] == Ops(requests)[..n] && ops[n] == requests[n].op;
  }

  /** In every session the rows hold the state of the same life lived in memory, and every answer is that life's. */
  lemma {:induction false} SessionIsALife(sha: Hash, group: Bytes, requests: seq<Request>, answers: seq<Result<(GroupState, Batch), MlsError>>,
                                          kept: seq<seq<StorageEntry>>, s: GroupState, wires: Wires, n: nat)
    requires Session(sha, group, requests, answers, kept) && n <= |requests|
    requires Holds(sha, kept[0], group, s, wires) && forall q :: q in requests ==> Outside(q.engine)
    ensures Holds(sha, kept[n], group, StateBefore(sha, s, requests, n), WiresBefore(sha, s, wires, requests, n))
    ensures n < |requests| ==>
              match Step(sha, StateBefore(sha, s, requests, n), requests[n].op)
              case Err(e) => answers[n] == Err(e)
              case Ok(t) => answers[n].Ok? && answers[n].value.0 == t
    decreases n
  {
    hide Holds, Step, Session, Outside, WiresAfter, StateBefore, WiresBefore, Stepped;
    SessionLength(sha, group, requests, answers, kept);
    if n == 0 {
      NothingBefore(sha, s, wires, requests);
    } else {
      SessionIsALife(sha, group, requests, answers, kept, s, wires, n - 1);
      BeforeUnfolds(sha, s, wires, requests, n - 1);
      assert requests[n - 1] in requests;
      SessionStep(sha, group, requests, answers, kept, n - 1, StateBefore(sha, s, requests, n - 1), WiresBefore(sha, s, wires, requests, n - 1));
    }
    if n < |requests| {
      assert requests[n] in requests;
      SessionStep(sha, group, requests, answers, kept, n, StateBefore(sha, s, requests, n), WiresBefore(sha, s, wires, requests, n));
    }
  }

  lemma NothingBefore(sha: Hash, s: GroupState, wires: Wires, requests: seq<Request>)
    ensures StateBefore(sha, s, requests, 0) == s && WiresBefore(sha, s, wires, requests, 0) == wires
  {
  }

  lemma SessionLength(sha: Hash, group: Bytes, requests: seq<Request>, answers: seq<Result<(GroupState, Batch), MlsError>>,
                      kept: seq<seq<StorageEntry>>)
    requires Session(sha, group, requests, answers, kept)
    ensures |kept| == |requests| + 1 && |answers| == |requests|
  {
    hide MayAnswer, Applied;
  }

  // ---------------------------------------------------------------- from the creation on

  lemma FirstSaveHolds(sha: Hash, rows: Rows, s: GroupState)
    requires Validate(sha, s).Ok? && s.pending.None? && forall k :: k in rows ==> !(RESERVED <= k)
    ensures Saved(sha, rows, s).Ok? && HoldsState(sha, Saved(sha, rows, s).value, s.groupId, s, NoWires)
  {
    hide Validate, Encode, Key;
    EncodeFailsOnlyOnValidation(sha, s);
    ReservedKeys(s.groupId);
    KeysDiffer(s.groupId);
    assert Key(s.groupId, COMMIT) in Known(s.groupId) && Key(s.groupId, WELCOME) in Known(s.groupId) && Key(s.groupId, INFO) in Known(s.groupId);
  }

  /** A created group's rows hold its state: rows of the installation alone cannot carry a reserved key. */
  lemma CreationHolds(sha: Hash, entries: seq<StorageEntry>, incarnationId: Bytes, retention: u32, first: Roster, engine: seq<Edit>)
    requires Outside(engine)
    ensures var r := Creation(sha, entries, incarnationId, retention, first, engine);
            && (r.Ok? <==> ValidateEntries(entries, FORMAT_VERSION, None).Ok? && New(sha, incarnationId, retention, first).Ok?)
            && (r.Ok? ==> Holds(sha, Applied(entries, r.value.1), first.groupId, New(sha, incarnationId, retention, first).value, NoWires))
  {
    hide HoldsState, Validate, Encode, Edited, Applied, BatchOf, EntriesOf, ValidateEntries, Collect, Key, IsGlobalKey;
    NewSucceedsExactly(sha, incarnationId, retention, first);
    if ValidateEntries(entries, FORMAT_VERSION, None).Ok? && New(sha, incarnationId, retention, first).Ok? {
      var (s, group, initial) := (New(sha, incarnationId, retention, first).value, first.groupId, Collect(entries));
      EncodeFailsOnlyOnValidation(sha, s);
      GroupIdIsFixed(sha, s);
      InstallationRowsOnly(entries, group);
      EngineKeepsReserved(initial, engine);
      forall k | k in Edited(initial, engine) ensures !(RESERVED <= k) {
        assert RESERVED <= k ==> k in initial;
      }
      FirstSaveHolds(sha, Edited(initial, engine), s);
      var rows := Saved(sha, Edited(initial, engine), s).value;
      BatchOfAGroup(initial, rows, group, []);
      ApplyCompletesTheOperation(entries, Some(group), rows);
      RowsStayValid(rows, group);
    }
  }

  /** Why a creation is refused, in the order the reasons are looked at. */
  lemma CreationRefusals(sha: Hash, entries: seq<StorageEntry>, incarnationId: Bytes, retention: u32, first: Roster, engine: seq<Edit>)
    ensures var r := Creation(sha, entries, incarnationId, retention, first, engine);
            var sized := |first.groupId| == 16 && 1 <= |incarnationId| <= 128;
            && (!sized ==> r == Err(LimitExceeded))
            && (sized && retention != 2 && retention != 4 ==> r == Err(UnsupportedRetention))
            && (sized && (retention == 2 || retention == 4) && ValidateEntries(entries, FORMAT_VERSION, None).Err? ==>
                  r == Err(InvalidStorageSnapshot))
  {
    hide ValidateEntries, New, BatchOf;
  }

  lemma InstallationRowsOnly(entries: seq<StorageEntry>, group: Bytes)
    requires ValidateEntries(entries, FORMAT_VERSION, None).Ok?
    ensures ValidateEntries(entries, FORMAT_VERSION, Some(group)).Ok?
    ensures forall k :: k in Collect(entries) ==> !(RESERVED <= k)
  {
    hide ValidateEntries, Collect, IsGlobalKey;
    SnapshotStorage.ValidMeans(entries, FORMAT_VERSION, None);
    SnapshotStorage.ValidMeans(entries, FORMAT_VERSION, Some(group));
    CollectMeans(entries);
    forall k | k in Collect(entries) ensures !(RESERVED <= k) {
      var e :| e in entries && e.key == k && e.value == Collect(entries)[k];
      assert InScope(e, None);
      GlobalIsNotReserved(k);
    }
  }

  lemma GlobalIsNotReserved(k: Bytes)
    requires IsGlobalKey(k)
    ensures !(RESERVED <= k)
  {
    assert "OpenMlsDart/"[0] == 'O' && "KeyPackage"[0] == 'K' && "Psk"[0] == 'P' && "EncryptionKeyPair"[0] == 'E' && "SignatureKeyPair"[0] == 'S';
    assert k[0] != RESERVED[0];
  }

  /** While a Commit is pending, the wires carried are those it was prepared with last. */
  lemma {:induction false} CarriedIsLatest(sha: Hash, s: GroupState, ops: seq<Op>)
    requires s.pending.None?
    ensures Lived(sha, s, ops).pending.Some? ==>
              var latest := Latest(sha, s, ops);
              && latest.Some? && latest.value.Prepare?
              && Carried(sha, s, NoWires, ops) == Wires(Some(latest.value.commit), latest.value.welcome, latest.value.info)
  {
    hide Step;
    if ops != [] {
      var n := |ops| - 1;
      CarriedIsLatest(sha, s, ops[..n]);
      if Step(sha, Lived(sha, s, ops[..n]), ops[n]).Ok? {
        StepSettles(sha, Lived(sha, s, ops[..n]), ops[n]);
      }
    }
  }

  /**
   * From its creation, through any session: the rows load as exactly one state, which apart from the pending Commit is
   * that of the plain run through the accepted moves; and while a Commit is pending, the bytes to send again are
   * exactly those it was prepared with last.
   */
  lemma DeviceLife(sha: Hash, entries: seq<StorageEntry>, incarnationId: Bytes, retention: u32, first: Roster, engine: seq<Edit>,
                   requests: seq<Request>, answers: seq<Result<(GroupState, Batch), MlsError>>, kept: seq<seq<StorageEntry>>)
    requires Outside(engine) && forall q :: q in requests ==> Outside(q.engine)
    requires Creation(sha, entries, incarnationId, retention, first, engine).Ok?
    requires Session(sha, first.groupId, requests, answers, kept)
    requires kept[0] == Applied(entries, Creation(sha, entries, incarnationId, retention, first, engine).value.1)
    ensures var s := New(sha, incarnationId, retention, first).value;
            var (t, rows, latest) := (Lived(sha, s, Ops(requests)), Collect(kept[|requests|]), Latest(sha, s, Ops(requests)));
            && (forall r :: LoadMayAnswer(sha, rows, first.groupId, r) <==> r == Ok(t))
            && Run(sha, incarnationId, retention, [first] + Moves(sha, s, Ops(requests))) == Ok(Idle(t))
            && (t.pending.None? ==> RetryBytesOf(sha, t, rows) == Err(PendingCommitMissing))
            && (t.pending.Some? ==>
                  && latest.Some? && latest.value.Prepare? && t.pending == Some(latest.value.record)
                  && RetryBytesOf(sha, t, rows) == Ok(Wires(Some(latest.value.commit), latest.value.welcome, latest.value.info)))
  {
    hide HoldsState, Validate, Step, LoadMayAnswer, RetryBytesOf, Session, Outside, Applied, Collect, Run, Moves, Creation, ValidateEntries,
         Lived, Latest, Carried;
    CreationHolds(sha, entries, incarnationId, retention, first, engine);
    var s := New(sha, incarnationId, retention, first).value;
    var n := |requests|;
    assert Ops(requests)[..n] == Ops(requests);
    SessionLength(sha, first.groupId, requests, answers, kept);
    SessionIsALife(sha, first.groupId, requests, answers, kept, s, NoWires, n);
    var t := Lived(sha, s, Ops(requests));
    HeldIsLoaded(sha, Collect(kept[n]), first.groupId, t, Carried(sha, s, NoWires, Ops(requests)));
    LifeIsARun(sha, incarnationId, retention, first, Ops(requests));
    EveryCommitIsSettledOnce(sha, s, Ops(requests));
    CarriedIsLatest(sha, s, Ops(requests));
  }
}
