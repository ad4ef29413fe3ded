/** Package-owned group metadata: the current roster, a sliding window of past rosters and a pending Commit. */
module LocalGroup {
  import opened Foundation
  import opened Errors
  import opened MlsTypes
  import opened Transcripts
  import opened RosterDelta

  const MAX_ROSTER_LEAVES := 256

  datatype PendingRecord = PendingRecord(
    binding: PendingBinding, proposed: Roster, preparationBaseSha256: Bytes, upstreamPendingSha256: Bytes)

  datatype GroupState = GroupState(
    groupId: Bytes, incarnationId: Bytes, retention: u32, joinEpoch: u64, current: Roster, history: seq<Roster>,
    pending: Option<PendingRecord>)

  // ---------------------------------------------------------------- validation, in the order of the code

  function Fixed(b: Bytes, n: nat): Result<(), MlsError> {
    Need(|b| == n, InvalidStorageSnapshot)
  }

  function OpaqueId(b: Bytes): Result<(), MlsError> {
    Need(Within(b, 1, 128), LimitExceeded)
  }

  function ValidateLeaves(leaves: seq<Leaf>): Result<(), MlsError> {
    if leaves == [] then Ok(()) else
    var _ :- Fixed(leaves[0].identity, 45);
    var _ :- Fixed(leaves[0].signatureKey, 32);
    ValidateLeaves(leaves[1..])
  }

  function ValidateRoster(sha: Hash, r: Roster): Result<(), MlsError> {
    var _ :- Fixed(r.groupId, 16);
    var _ :- Fixed(r.digest, 32);
    var _ :- Need(1 <= |r.leaves| <= MAX_ROSTER_LEAVES, LimitExceeded);
    var _ :- ValidateLeaves(r.leaves);
    Need(Canonical(r.leaves) && DigestOf(sha, r.groupId, r.epoch, r.leaves) == Ok(r.digest), InvalidStorageSnapshot)
  }

  function ValidateHistory(sha: Hash, history: seq<Roster>, groupId: Bytes, first: nat): Result<(), MlsError> {
    if history == [] then Ok(()) else
    var _ :- ValidateRoster(sha, history[0]);
    var _ :- Need(history[0].groupId == groupId && history[0].epoch == first, InvalidStorageSnapshot);
    ValidateHistory(sha, history[1..], groupId, first + 1)
  }

  function FixedIfPresent(b: Option<Bytes>): Result<(), MlsError> {
    if b.Some? then Fixed(b.value, 32) else Ok(())
  }

  function ValidatePending(sha: Hash, p: PendingRecord, s: GroupState): Result<(), MlsError> {
    var b := p.binding;
    var _ :- ValidateRoster(sha, p.proposed);
    var _ :- OpaqueId(b.transition.commandId);
    var _ :- Fixed(b.transition.contextSha256, 32);
    var _ :- Fixed(b.commitSha256, 32);
    var _ :- Fixed(b.aadSha256, 32);
    var _ :- Fixed(p.preparationBaseSha256, 32);
    var _ :- Fixed(p.upstreamPendingSha256, 32);
    var _ :- FixedIfPresent(b.welcomeSha256);
    var _ :- FixedIfPresent(b.groupInfoSha256);
    Need(&& b.groupId == s.groupId
         && b.incarnationId == s.incarnationId
         && b.previousState == StateOf(s.current)
         && b.author in s.current.leaves
         && p.proposed.groupId == s.groupId
         && s.current.epoch + 1 == p.proposed.epoch, PendingBindingMismatch)
  }

  function Min(a: nat, b: nat): nat {
    if a < b then a else b
  }

  function Validate(sha: Hash, s: GroupState): Result<(), MlsError> {
    var _ :- Need(RetentionSupported(s.retention), UnsupportedRetention);
    var _ :- Fixed(s.groupId, 16);
    var _ :- OpaqueId(s.incarnationId);
    var _ :- ValidateRoster(sha, s.current);
    var _ :- Need(s.current.groupId == s.groupId && s.joinEpoch <= s.current.epoch, InvalidStorageSnapshot);
    var count := Min(s.current.epoch - s.joinEpoch, s.retention);
    var _ :- Need(|s.history| == count, InvalidStorageSnapshot);
    var _ :- ValidateHistory(sha, s.history, s.groupId, s.current.epoch - count);
    if s.pending.Some? then ValidatePending(sha, s.pending.value, s) else Ok(())
  }

  // ---------------------------------------------------------------- operations on values

  function New(sha: Hash, incarnationId: Bytes, retention: u32, current: Roster): Result<GroupState, MlsError> {
    var s := GroupState(current.groupId, incarnationId, retention, current.epoch, current, [], None);
    var _ :- Validate(sha, s);
    Ok(s)
  }

  /** The oldest roster is dropped once the window is full. */
  function Slide(s: GroupState, next: Roster): GroupState {
    var history := s.history + [s.current];
    s.(current := next, history := if |history| > s.retention then history[1..] else history, pending := None)
  }

  /** What `advance` may refuse. The check that closes the code is not among these: it cannot fail. */
  function CheckAdvance(sha: Hash, s: GroupState, next: Roster): Result<(), MlsError> {
    var _ :- Validate(sha, s);
    var _ :- ValidateRoster(sha, next);
    var _ :- Need(next.groupId == s.groupId, GroupMismatch);
    Need(s.current.epoch + 1 == next.epoch, RequiredCommitEpochMismatch)
  }

  function Advance(sha: Hash, s: GroupState, next: Roster): Result<GroupState, MlsError> {
    var _ :- CheckAdvance(sha, s, next);
    Ok(Slide(s, next))
  }

  function FindEpoch(history: seq<Roster>, epoch: nat): Result<Roster, MlsError> {
    if history == [] then Err(PastEpochUnavailable)
    else if history[0].epoch == epoch then Ok(history[0])
    else FindEpoch(history[1..], epoch)
  }

  function MessageRoster(sha: Hash, s: GroupState, epoch: u64): Result<Roster, MlsError> {
    var _ :- Validate(sha, s);
    if epoch == s.current.epoch then Ok(s.current)
    else if epoch > s.current.epoch then Err(FutureMessageEpoch)
    else FindEpoch(s.history, epoch)
  }

  // ---------------------------------------------------------------- what validation means

  /** A roster of one to 256 bounded leaves in canonical order whose digest is its own. */
  predicate GoodRoster(sha: Hash, r: Roster) {
    && |r.groupId| == 16 && |r.digest| == 32 && 1 <= |r.leaves| <= 256 && Canonical(r.leaves)
    && (forall l :: l in r.leaves ==> |l.identity| == 45 && |l.signatureKey| == 32)
    && sha(RosterTranscript(r.groupId, r.epoch, r.leaves)) == r.digest
  }

  lemma {:induction false} LeavesMean(leaves: seq<Leaf>)
    ensures ValidateLeaves(leaves).Ok? <==> forall l :: l in leaves ==> |l.identity| == 45 && |l.signatureKey| == 32
  {
    if leaves != [] {
      LeavesMean(leaves[1..]);
      assert forall l :: l in leaves <==> l == leaves[0] || l in leaves[1..];
    }
  }

  /** A roster passes exactly when it is good; no length in it can overflow the transcript. */
  lemma RosterMeans(sha: Hash, r: Roster)
    ensures ValidateRoster(sha, r).Ok? <==> GoodRoster(sha, r)
  {
    hide ValidateLeaves, Canonical, RosterTranscript;
    LeavesMean(r.leaves);
  }

  /** The pending record belongs to this state and proposes its next epoch. */
  predicate GoodPending(sha: Hash, p: PendingRecord, s: GroupState) {
    var b := p.binding;
    && GoodRoster(sha, p.proposed) && p.proposed.groupId == s.groupId && p.proposed.epoch == s.current.epoch + 1
    && 1 <= |b.transition.commandId| <= 128 && |b.transition.contextSha256| == 32
    && |b.commitSha256| == 32 && |b.aadSha256| == 32 && |p.preparationBaseSha256| == 32 && |p.upstreamPendingSha256| == 32
    && (b.welcomeSha256.Some? ==> |b.welcomeSha256.value| == 32) && (b.groupInfoSha256.Some? ==> |b.groupInfoSha256.value| == 32)
    && b.groupId == s.groupId && b.incarnationId == s.incarnationId && b.author in s.current.leaves
    && b.previousState == ExpectedState(s.current.groupId, s.current.epoch, s.current.digest)
  }

  /** A full or still growing window of consecutive good rosters of the group, ending just before the current one. */
  predicate GoodHistory(sha: Hash, s: GroupState) {
    && s.joinEpoch <= s.current.epoch
    && |s.history| == Min(s.current.epoch - s.joinEpoch, s.retention)
    && forall i :: 0 <= i < |s.history| ==>
         && GoodRoster(sha, s.history[i]) && s.history[i].groupId == s.groupId
         && s.history[i].epoch + |s.history| == s.current.epoch + i
  }

  /** What a state must be for every operation on it to start. */
  lemma ValidMeans(sha: Hash, s: GroupState)
    ensures Validate(sha, s).Ok? <==>
              && (s.retention == 2 || s.retention == 4) && |s.groupId| == 16 && 1 <= |s.incarnationId| <= 128
              && GoodRoster(sha, s.current) && s.current.groupId == s.groupId && GoodHistory(sha, s)
              && (s.pending.Some? ==> GoodPending(sha, s.pending.value, s))
  {
    hide ValidateRoster, GoodRoster, ValidateHistory, ValidatePending, GoodPending;
    RosterMeans(sha, s.current);
    if s.joinEpoch <= s.current.epoch {
      HistoryMeans(sha, s.history, s.groupId, s.current.epoch - Min(s.current.epoch - s.joinEpoch, s.retention));
    }
    forall i | 0 <= i < |s.history| ensures ValidateRoster(sha, s.history[i]).Ok? <==> GoodRoster(sha, s.history[i]) {
      RosterMeans(sha, s.history[i]);
    }
    if s.pending.Some? {
      PendingMeans(sha, s.pending.value, s);
    }
  }

  lemma PendingMeans(sha: Hash, p: PendingRecord, s: GroupState)
    ensures ValidatePending(sha, p, s).Ok? <==> GoodPending(sha, p, s)
  {
    hide ValidateRoster, GoodRoster;
    RosterMeans(sha, p.proposed);
  }

  // ---------------------------------------------------------------- the closing validation cannot fail

  lemma {:induction false} HistoryMeans(sha: Hash, history: seq<Roster>, groupId: Bytes, first: nat)
    ensures ValidateHistory(sha, history, groupId, first).Ok? <==>
              forall i :: 0 <= i < |history| ==>
                ValidateRoster(sha, history[i]).Ok? && history[i].groupId == groupId && history[i].epoch == first + i
  {
    hide ValidateRoster;
    if history != [] {
      HistoryMeans(sha, history[1..], groupId, first + 1);
      var good := (i: nat, r: Roster) => ValidateRoster(sha, r).Ok? && r.groupId == groupId && r.epoch == first + i;
      if forall i :: 0 <= i < |history| ==> good(i, history[i]) {
        forall i | 0 <= i < |history| - 1 ensures good(i + 1, history[1..][i]) {
          assert good(i + 1, history[i + 1]);
        }
        assert good(0, history[0]);
      }
      if ValidateHistory(sha, history, groupId, first).Ok? {
        forall i | 0 <= i < |history| ensures good(i, history[i]) {
          assert i > 0 ==> history[i] == history[1..][i - 1];
        }
      }
    }
  }

  lemma SlideKeepsValid(sha: Hash, s: GroupState, next: Roster)
    requires CheckAdvance(sha, s, next).Ok?
    ensures Validate(sha, Slide(s, next)) == Ok(())
  {
    hide ValidateRoster, ValidateHistory, ValidatePending;
    var t := Slide(s, next);
    var before := Min(s.current.epoch - s.joinEpoch, s.retention);
    var after := Min(t.current.epoch - t.joinEpoch, t.retention);
    HistoryMeans(sha, s.history, s.groupId, s.current.epoch - before);
    HistoryMeans(sha, t.history, t.groupId, t.current.epoch - after);
  }

  // ---------------------------------------------------------------- the checks as written

  method CheckLeaves(leaves: seq<Leaf>) returns (r: Result<(), MlsError>)
    ensures r == ValidateLeaves(leaves)
  {
    for i := 0 to |leaves|
      invariant ValidateLeaves(leaves) == ValidateLeaves(leaves[i..])
    {
      assert leaves[i..][1..] == leaves[i + 1..];
      var _ :- Fixed(leaves[i].identity, 45);
      var _ :- Fixed(leaves[i].signatureKey, 32);
    }
    return Ok(());
  }

  /** Lengths, then every leaf, then the canonical order and the digest computed afresh. */
  method CheckRoster(sha: Hash, roster: Roster) returns (r: Result<(), MlsError>)
    ensures r == ValidateRoster(sha, roster)
  {
    hide ValidateLeaves, CheckCanonical, DigestOf;
    var _ :- Fixed(roster.groupId, 16);
    var _ :- Fixed(roster.digest, 32);
    if roster.leaves == [] || |roster.leaves| > MAX_ROSTER_LEAVES {
      return Err(LimitExceeded);
    }
    var _ :- CheckLeaves(roster.leaves);
    CanonicalExactly(roster.leaves);
    var canonical := ValidateCanonicalLeaves(roster.leaves);
    if canonical.Err? {
      return Err(InvalidStorageSnapshot);
    }
    var digest := RosterDigest(sha, roster.groupId, roster.epoch, roster.leaves);
    if digest.Err? || digest.value != roster.digest {
      return Err(InvalidStorageSnapshot);
    }
    return Ok(());
  }

  method CheckHistory(sha: Hash, history: seq<Roster>, groupId: Bytes, first: nat) returns (r: Result<(), MlsError>)
    ensures r == ValidateHistory(sha, history, groupId, first)
  {
    hide ValidateRoster;
    for index := 0 to |history|
      invariant ValidateHistory(sha, history, groupId, first) == ValidateHistory(sha, history[index..], groupId, first + index)
    {
      assert history[index..][1..] == history[index + 1..];
      var _ :- CheckRoster(sha, history[index]);
      if history[index].groupId != groupId || history[index].epoch != first + index {
        return Err(InvalidStorageSnapshot);
      }
    }
    return Ok(());
  }

  /** The pending record's own fields, hash by hash, and then what ties it to the state. */
  method CheckPending(sha: Hash, p: PendingRecord, s: GroupState) returns (r: Result<(), MlsError>)
    ensures r == ValidatePending(sha, p, s)
  {
    hide ValidateRoster;
    var b := p.binding;
    var _ :- CheckRoster(sha, p.proposed);
    var _ :- OpaqueId(b.transition.commandId);
    var _ :- Fixed(b.transition.contextSha256, 32);
    var hashes := [b.commitSha256, b.aadSha256, p.preparationBaseSha256, p.upstreamPendingSha256];
    for i := 0 to |hashes|
      invariant forall j :: 0 <= j < i ==> |hashes[j]| == 32
    {
      if |hashes[i]| != 32 {
        assert hashes[i] == hashes[0] || hashes[i] == hashes[1] || hashes[i] == hashes[2] || hashes[i] == hashes[3];
        assert !(|hashes[0]| == 32 && |hashes[1]| == 32 && |hashes[2]| == 32 && |hashes[3]| == 32);
        return Err(InvalidStorageSnapshot);
      }
    }
    assert |hashes[0]| == 32 && |hashes[1]| == 32 && |hashes[2]| == 32 && |hashes[3]| == 32;
    var optional := [b.welcomeSha256, b.groupInfoSha256];
    for i := 0 to |optional|
      invariant forall j :: 0 <= j < i ==> FixedIfPresent(optional[j]) == Ok(())
    {
      assert optional[i] == optional[0] || optional[i] == optional[1];
      if optional[i].Some? {
        var _ :- Fixed(optional[i].value, 32);
      }
    }
    assert FixedIfPresent(optional[0]).Ok? && FixedIfPresent(optional[1]).Ok?;
    if b.groupId != s.groupId || b.incarnationId != s.incarnationId || b.previousState != StateOf(s.current)
       || b.author !in s.current.leaves || p.proposed.groupId != s.groupId || s.current.epoch + 1 != p.proposed.epoch {
      return Err(PendingBindingMismatch);
    }
    return Ok(());
  }

  /** The whole state in the order of the code, with its loops over leaves, rosters and hashes. */
  method CheckGroup(sha: Hash, s: GroupState) returns (r: Result<(), MlsError>)
    ensures r == Validate(sha, s)
  {
    hide ValidateRoster, ValidateHistory, ValidatePending, RetentionSupported;
    if !RetentionSupported(s.retention) {
      return Err(UnsupportedRetention);
    }
    var _ :- Fixed(s.groupId, 16);
    var _ :- OpaqueId(s.incarnationId);
    var _ :- CheckRoster(sha, s.current);
    if s.current.groupId != s.groupId || s.joinEpoch > s.current.epoch {
      return Err(InvalidStorageSnapshot);
    }
    var count := Min(s.current.epoch - s.joinEpoch, s.retention);
    if |s.history| != count {
      return Err(InvalidStorageSnapshot);
    }
    var _ :- CheckHistory(sha, s.history, s.groupId, s.current.epoch - count);
    if s.pending.Some? {
      var _ :- CheckPending(sha, s.pending.value, s);
    }
    return Ok(());
  }

  // ---------------------------------------------------------------- the state machine as written

  class LocalGroupState {
    const sha: Hash
    var groupId: Bytes
    var incarnationId: Bytes
    var retention: u32
    var joinEpoch: u64
    var current: Roster
    var history: seq<Roster>
    var pending: Option<PendingRecord>

    ghost function State(): GroupState
      reads this
    {
      GroupState(groupId, incarnationId, retention, joinEpoch, current, history, pending)
    }

    constructor (sha: Hash, s: GroupState)
      ensures this.sha == sha && State() == s
    {
      this.sha := sha;
      groupId := s.groupId;
      incarnationId := s.incarnationId;
      retention := s.retention;
      joinEpoch := s.joinEpoch;
      current := s.current;
      history := s.history;
      pending := s.pending;
    }

    method Value() returns (s: GroupState)
      ensures s == State()
    {
      return GroupState(groupId, incarnationId, retention, joinEpoch, current, history, pending);
    }

    method Check() returns (r: Result<(), MlsError>)
      ensures r == Validate(sha, State())
    {
      var s := Value();
      r := CheckGroup(sha, s);
    }

    /** A failed advance changes nothing, and no failure comes after the change. */
    method AdvanceTo(resulting: Roster) returns (r: Result<(), MlsError>)
      modifies this
      ensures r == CheckAdvance(sha, old(State()), resulting)
      ensures State() == if r.Ok? then Slide(old(State()), resulting) else old(State())
      ensures r.Ok? ==> Validate(sha, State()).Ok?
    {
      hide Validate, ValidateRoster;
      var _ :- Check();
      var _ :- CheckRoster(sha, resulting);
      if resulting.groupId != groupId {
        return Err(GroupMismatch);
      }
      if current.epoch + 1 != resulting.epoch {
        return Err(RequiredCommitEpochMismatch);
      }
      SlideKeepsValid(sha, State(), resulting);
      ghost var target := Slide(State(), resulting);
      history := history + [current];
      current := resulting;
      if |history| > retention {
        history := history[1..];
      }
      pending := None;
      assert State() == target;
      r := Check();
    }

    method RosterAt(epoch: u64) returns (r: Result<Roster, MlsError>)
      ensures r == MessageRoster(sha, State(), epoch)
    {
      hide Validate;
      var _ :- Check();
      if epoch == current.epoch {
        return Ok(current);
      }
      if epoch > current.epoch {
        return Err(FutureMessageEpoch);
      }
      for i := 0 to |history|
        invariant FindEpoch(history, epoch) == FindEpoch(history[i..], epoch)
      {
        if history[i].epoch == epoch {
          return Ok(history[i]);
        }
      }
      return Err(PastEpochUnavailable);
    }
  }

  // ---------------------------------------------------------------- every run of the state machine

  /** Joining with the first roster and advancing through the others, all successfully. */
  function Run(sha: Hash, incarnationId: Bytes, retention: u32, log: seq<Roster>): Result<GroupState, MlsError>
    requires log != []
  {
    if |log| == 1 then New(sha, incarnationId, retention, log[0]) else
    var s :- Run(sha, incarnationId, retention, log[..|log| - 1]);
    Advance(sha, s, log[|log| - 1])
  }

  /** The last `retention` rosters before position `k`, or all of them. */
  function Window(log: seq<Roster>, k: nat, retention: nat): seq<Roster>
    requires k <= |log|
  {
    log[k - Min(k, retention)..k]
  }

  lemma WindowSlides(log: seq<Roster>, k: nat, retention: nat)
    requires k < |log| && retention > 0
    ensures var grown := Window(log, k, retention) + [log[k]];
            Window(log, k + 1, retention) == if |grown| > retention then grown[1..] else grown
  {
  }

  lemma WindowOfPrefix(log: seq<Roster>, n: nat, k: nat, retention: nat)
    requires k <= n <= |log|
    ensures Window(log[..n], k, retention) == Window(log, k, retention)
  {
  }

  lemma NewMeans(sha: Hash, incarnationId: Bytes, retention: u32, r: Roster)
    requires New(sha, incarnationId, retention, r).Ok?
    ensures var s := New(sha, incarnationId, retention, r).value;
            && Validate(sha, s).Ok? && s == GroupState(r.groupId, incarnationId, retention, r.epoch, r, [], None)
            && (retention == 2 || retention == 4)
  {
    hide ValidateRoster;
  }

  lemma AdvanceMeans(sha: Hash, s: GroupState, next: Roster)
    requires Advance(sha, s, next).Ok?
    ensures Advance(sha, s, next) == Ok(Slide(s, next)) && Validate(sha, Slide(s, next)).Ok?
    ensures next.groupId == s.groupId && next.epoch == s.current.epoch + 1
  {
    hide Validate, ValidateRoster, Slide;
    SlideKeepsValid(sha, s, next);
  }

  lemma RunStep(sha: Hash, incarnationId: Bytes, retention: u32, log: seq<Roster>)
    requires |log| > 1 && Run(sha, incarnationId, retention, log).Ok?
    ensures var before := Run(sha, incarnationId, retention, log[..|log| - 1]);
            var next := log[|log| - 1];
            && before.Ok? && Run(sha, incarnationId, retention, log) == Ok(Slide(before.value, next))
            && Validate(sha, Slide(before.value, next)).Ok?
            && next.groupId == before.value.groupId && next.epoch == before.value.current.epoch + 1
  {
    hide Validate, New, Advance, Slide;
    AdvanceMeans(sha, Run(sha, incarnationId, retention, log[..|log| - 1]).value, log[|log| - 1]);
  }

  /** The rosters of a run are of one group and count epochs one by one. */
  lemma {:induction false} RunEpochs(sha: Hash, incarnationId: Bytes, retention: u32, log: seq<Roster>)
    requires log != [] && Run(sha, incarnationId, retention, log).Ok?
    ensures var s := Run(sha, incarnationId, retention, log).value; s.current == log[|log| - 1] && s.groupId == log[0].groupId
    ensures forall i :: 0 <= i < |log| ==> log[i].epoch == log[0].epoch + i && log[i].groupId == log[0].groupId
  {
    hide Validate, New, Run;
    if |log| == 1 {
      RunOfOne(sha, incarnationId, retention, log);
    } else {
      var n := |log| - 1;
      RunStep(sha, incarnationId, retention, log);
      RunEpochs(sha, incarnationId, retention, log[..n]);
      assert log[..n][0] == log[0] && log[..n][n - 1] == log[n - 1];
      assert forall i :: 0 <= i < n ==> log[i] == log[..n][i];
    }
  }

  lemma RunOfOne(sha: Hash, incarnationId: Bytes, retention: u32, log: seq<Roster>)
    requires |log| == 1 && Run(sha, incarnationId, retention, log).Ok?
    ensures var s := Run(sha, incarnationId, retention, log).value;
            && Validate(sha, s).Ok? && s == GroupState(log[0].groupId, incarnationId, retention, log[0].epoch, log[0], [], None)
            && (retention == 2 || retention == 4)
  {
    hide Validate, New;
    NewMeans(sha, incarnationId, retention, log[0]);
  }

  /** After a run the history is the window before the current roster, in epoch order. */
  lemma {:induction false} RunShape(sha: Hash, incarnationId: Bytes, retention: u32, log: seq<Roster>)
    requires log != [] && Run(sha, incarnationId, retention, log).Ok?
    ensures retention == 2 || retention == 4
    ensures var s := Run(sha, incarnationId, retention, log).value;
            var n := |log| - 1;
            && Validate(sha, s).Ok?
            && s == GroupState(log[0].groupId, incarnationId, retention, log[0].epoch, log[n], Window(log, n, retention), None)
    ensures forall i :: 0 <= i < |log| ==> log[i].epoch == log[0].epoch + i && log[i].groupId == log[0].groupId
  {
    hide Validate, Run, Window;
    RunEpochs(sha, incarnationId, retention, log);
    if |log| == 1 {
      RunOfOne(sha, incarnationId, retention, log);
      FirstWindow(log, retention);
    } else {
      var n := |log| - 1;
      RunStep(sha, incarnationId, retention, log);
      RunShape(sha, incarnationId, retention, log[..n]);
      WindowOfPrefix(log, n, n - 1, retention);
      WindowSlides(log, n - 1, retention);
      assert log[..n][0] == log[0] && log[..n][n - 1] == log[n - 1];
    }
  }

  lemma FirstWindow(log: seq<Roster>, retention: nat)
    ensures Window(log, 0, retention) == []
  {
  }

  lemma {:induction false} FindInWindow(history: seq<Roster>, first: nat, epoch: nat)
    requires forall i :: 0 <= i < |history| ==> history[i].epoch == first + i
    ensures FindEpoch(history, epoch) ==
              if first <= epoch < first + |history| then Ok(history[epoch - first]) else Err(PastEpochUnavailable)
  {
    if history != [] {
      forall i | 0 <= i < |history[1..]| ensures history[1..][i].epoch == first + 1 + i {
        assert history[1..][i] == history[i + 1];
      }
      FindInWindow(history[1..], first + 1, epoch);
    }
  }

  /**
   * A message's epoch is answered with the roster that was current then, as long as it is at most `retention`
   * epochs old; later epochs and forgotten or never-joined ones get their own errors.
   */
  lemma RunAnswers(sha: Hash, incarnationId: Bytes, retention: u32, log: seq<Roster>, epoch: u64)
    requires log != [] && Run(sha, incarnationId, retention, log).Ok?
    ensures var s := Run(sha, incarnationId, retention, log).value;
            var last := log[0].epoch + |log| - 1;
            MessageRoster(sha, s, epoch) ==
              if epoch > last then Err(FutureMessageEpoch)
              else if epoch < log[0].epoch || epoch + retention < last then Err(PastEpochUnavailable)
              else Ok(log[epoch - log[0].epoch])
  {
    hide Validate, Run, FindEpoch, Window;
    RunShape(sha, incarnationId, retention, log);
    var last := log[|log| - 1];
    assert last.epoch == log[0].epoch + |log| - 1;
    if epoch < last.epoch {
      WindowAnswers(log, retention, epoch);
    }
  }

  lemma WindowAnswers(log: seq<Roster>, retention: nat, epoch: nat)
    requires log != [] && (forall i :: 0 <= i < |log| ==> log[i].epoch == log[0].epoch + i) && epoch < log[0].epoch + |log| - 1
    ensures FindEpoch(Window(log, |log| - 1, retention), epoch) ==
              if epoch < log[0].epoch || epoch + retention < log[0].epoch + |log| - 1 then Err(PastEpochUnavailable)
              else Ok(log[epoch - log[0].epoch])
  {
    hide FindEpoch;
    var n := |log| - 1;
    var low := n - Min(n, retention);
    var window := Window(log, n, retention);
    forall i | 0 <= i < |window| ensures window[i].epoch == log[0].epoch + low + i {
      assert window[i] == log[low + i];
    }
    FindInWindow(window, log[0].epoch + low, epoch);
  }

  /**
   * A valid state answers an epoch with its current roster or the one in its window of that epoch, refuses later ones as
   * future and all others as past; an invalid one answers with what is wrong with it.
   */
  lemma MessageAnswersExactly(sha: Hash, s: GroupState, epoch: u64)
    ensures var r := MessageRoster(sha, s, epoch);
            && (Validate(sha, s).Err? ==> r == Err(Validate(sha, s).error))
            && (Validate(sha, s).Ok? ==>
                  && (epoch == s.current.epoch ==> r == Ok(s.current))
                  && (epoch > s.current.epoch ==> r == Err(FutureMessageEpoch))
                  && (epoch < s.current.epoch ==>
                        if exists h :: h in s.history && h.epoch == epoch then r.Ok? && r.value in s.history && r.value.epoch == epoch
                        else r == Err(PastEpochUnavailable)))
  {
    hide Validate;
    FoundExactly(s.history, epoch);
  }

  lemma {:induction false} FoundExactly(history: seq<Roster>, epoch: nat)
    ensures if exists h :: h in history && h.epoch == epoch
            then FindEpoch(history, epoch).Ok? && FindEpoch(history, epoch).value in history && FindEpoch(history, epoch).value.epoch == epoch
            else FindEpoch(history, epoch) == Err(PastEpochUnavailable)
  {
    if history != [] {
      FoundExactly(history[1..], epoch);
      assert forall h :: h in history <==> h == history[0] || h in history[1..];
    }
  }

  /** What the log of one group must look like for every step to be accepted. */
  predicate GoodLog(sha: Hash, log: seq<Roster>)
    requires log != []
  {
    forall i :: 0 <= i < |log| ==>
      && ValidateRoster(sha, log[i]).Ok?
      && log[i].groupId == log[0].groupId
      && log[i].epoch == log[0].epoch + i
  }

  lemma NewSucceedsExactly(sha: Hash, incarnationId: Bytes, retention: u32, r: Roster)
    ensures New(sha, incarnationId, retention, r).Ok? <==>
              (retention == 2 || retention == 4) && 1 <= |incarnationId| <= 128 && ValidateRoster(sha, r).Ok?
  {
    hide ValidateLeaves;
  }

  /** Nothing but the log's shape, the retention and the incarnation id decides whether a run succeeds. */
  lemma {:induction false} RunSucceedsExactly(sha: Hash, incarnationId: Bytes, retention: u32, log: seq<Roster>)
    requires log != []
    ensures Run(sha, incarnationId, retention, log).Ok? <==>
              (retention == 2 || retention == 4) && 1 <= |incarnationId| <= 128 && GoodLog(sha, log)
  {
    hide ValidateRoster, Validate, RetentionSupported, Within, New;
    if |log| == 1 {
      NewSucceedsExactly(sha, incarnationId, retention, log[0]);
    } else {
      var n := |log| - 1;
      RunSucceedsExactly(sha, incarnationId, retention, log[..n]);
      if Run(sha, incarnationId, retention, log[..n]).Ok? {
        RunShape(sha, incarnationId, retention, log[..n]);
      }
      GoodLogGrows(sha, log);
    }
  }

  lemma GoodLogGrows(sha: Hash, log: seq<Roster>)
    requires |log| > 1
    ensures var n := |log| - 1;
            GoodLog(sha, log) <==>
              && GoodLog(sha, log[..n]) && ValidateRoster(sha, log[n]).Ok?
              && log[n].groupId == log[..n][0].groupId && log[n].epoch == log[..n][n - 1].epoch + 1
  {
    hide ValidateRoster;
    var n := |log| - 1;
    assert forall i :: 0 <= i < n ==> log[..n][i] == log[i];
  }

  // ---------------------------------------------------------------- the window refines an epoch map

  /** The reference bookkeeping: every past roster in a map, pruned by epoch. */
  datatype Store = Store(roster: Roster, history: map<nat, Roster>)

  function Earliest(epoch: nat, retention: nat): nat {
    if epoch < retention then 0 else epoch - retention
  }

  function StoreAdvance(s: Store, next: Roster, retention: nat): Store {
    var grown := s.history[s.roster.epoch := s.roster];
    Store(next, map e | e in grown && e >= Earliest(next.epoch, retention) :: grown[e])
  }

  class EpochStore {
    var roster: Roster
    var history: map<nat, Roster>

    constructor (roster: Roster)
      ensures this.roster == roster && history == map[]
    {
      this.roster := roster;
      history := map[];
    }

    method AdvanceTo(next: Roster, retention: nat)
      modifies this
      ensures Store(roster, history) == StoreAdvance(old(Store(roster, history)), next, retention)
    {
      history := history[roster.epoch := roster];
      roster := next;
      history := map e | e in history && e >= Earliest(next.epoch, retention) :: history[e];
    }
  }

  function StoreRun(log: seq<Roster>, retention: nat): Store
    requires log != []
  {
    if |log| == 1 then Store(log[0], map[])
    else StoreAdvance(StoreRun(log[..|log| - 1], retention), log[|log| - 1], retention)
  }

  function Lookup(s: Store, epoch: nat): Option<Roster> {
    if s.roster.epoch == epoch then Some(s.roster)
    else if epoch in s.history then Some(s.history[epoch])
    else None
  }

  /** The store holds the log's last roster, and the `retention` before it under their epochs. */
  ghost predicate HoldsLast(s: Store, log: seq<Roster>, retention: nat)
    requires log != []
  {
    var first, last := log[0].epoch, log[0].epoch + |log| - 1;
    && s.roster == log[|log| - 1]
    && (forall e :: e in s.history <==> first <= e < last && last <= e + retention)
    && forall e :: e in s.history ==> s.history[e] == log[e - first]
  }

  lemma {:induction false} StoreShape(log: seq<Roster>, retention: nat)
    requires log != [] && forall i :: 0 <= i < |log| ==> log[i].epoch == log[0].epoch + i
    ensures HoldsLast(StoreRun(log, retention), log, retention)
  {
    hide HoldsLast, StoreAdvance;
    var n := |log| - 1;
    if n == 0 {
      StoreStarts(log[0], retention);
      assert log == [log[0]];
    } else {
      StoreShape(log[..n], retention);
      StoreGrows(StoreRun(log[..n], retention), log, retention);
    }
  }

  lemma StoreGrows(s: Store, log: seq<Roster>, retention: nat)
    requires |log| > 1 && log[|log| - 2].epoch == log[0].epoch + |log| - 2 && log[|log| - 1].epoch == log[0].epoch + |log| - 1
    requires HoldsLast(s, log[..|log| - 1], retention)
    ensures HoldsLast(StoreAdvance(s, log[|log| - 1], retention), log, retention)
  {
    var (n, first) := (|log| - 1, log[0].epoch);
    var t := StoreAdvance(s, log[n], retention);
    assert log[..n][0] == log[0] && s.roster == log[n - 1] && log[n].epoch == first + n;
    forall e ensures e in t.history <==> first <= e < first + n && first + n <= e + retention {
      assert e in t.history <==> (e == first + n - 1 || e in s.history) && e >= Earliest(first + n, retention);
    }
    forall e | e in t.history ensures t.history[e] == log[e - first] {
      assert e == first + n - 1 || s.history[e] == log[..n][e - first];
    }
  }

  lemma StoreStarts(first: Roster, retention: nat)
    ensures HoldsLast(Store(first, map[]), [first], retention)
  {
  }

  /** On every run the window and the map give the same roster for the same epoch, or both none. */
  lemma WindowRefinesMap(sha: Hash, incarnationId: Bytes, retention: u32, log: seq<Roster>, epoch: u64)
    requires log != [] && Run(sha, incarnationId, retention, log).Ok?
    ensures var answer := MessageRoster(sha, Run(sha, incarnationId, retention, log).value, epoch);
            Lookup(StoreRun(log, retention), epoch) == if answer.Ok? then Some(answer.value) else None
  {
    hide Validate, Run, StoreRun, MessageRoster;
    RunShape(sha, incarnationId, retention, log);
    RunAnswers(sha, incarnationId, retention, log, epoch);
    StoreShape(log, retention);
  }

  /**
   * Two installations that follow one roster log from different join points, to different lengths and with
   * different retentions never answer one epoch with different rosters.
   */
  lemma InstallationsAgree(sha: Hash, log: seq<Roster>, epoch: u64,
                           idA: Bytes, retentionA: u32, fromA: nat, toA: nat,
                           idB: Bytes, retentionB: u32, fromB: nat, toB: nat)
    requires fromA < toA <= |log| && fromB < toB <= |log|
    requires forall i :: 0 <= i < |log| ==> log[i].epoch == log[0].epoch + i
    requires Run(sha, idA, retentionA, log[fromA..toA]).Ok? && Run(sha, idB, retentionB, log[fromB..toB]).Ok?
    ensures var a := MessageRoster(sha, Run(sha, idA, retentionA, log[fromA..toA]).value, epoch);
            var b := MessageRoster(sha, Run(sha, idB, retentionB, log[fromB..toB]).value, epoch);
            a.Ok? && b.Ok? ==> a == b
  {
    hide Validate, Run, MessageRoster;
    RunAnswers(sha, idA, retentionA, log[fromA..toA], epoch);
    RunAnswers(sha, idB, retentionB, log[fromB..toB], epoch);
    assert log[fromA..toA][0] == log[fromA] && log[fromB..toB][0] == log[fromB];
  }
}
