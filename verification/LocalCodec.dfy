/** The metadata codec: a lenient reader made strict by writing the result again and comparing. */
module LocalCodec {
  import opened Foundation
  import opened Errors
  import opened MlsTypes
  import opened Cbor
  import opened LocalGroup

  const SCHEMA := 1
  const PROFILE := 2
  const MAX_VALUE := 2 * MIB
  const U16 := 0x1_0000
  const U32 := 0x1_0000_0000
  const U64 := 0x1_0000_0000_0000_0000
  const Null := Simple(22)

  // ---------------------------------------------------------------- wire shapes

  function LeafItems(l: Leaf): seq<Tree> {
    var t := [Text(l.signatureKey)];
    var t := [Text(l.identity)] + t;
    [Number(l.index)] + t
  }

  function LeafTree(l: Leaf): Tree {
    List(LeafItems(l))
  }

  function LeafTrees(leaves: seq<Leaf>): (ts: seq<Tree>)
    ensures |ts| == |leaves|
  {
    if leaves == [] then [] else [LeafTree(leaves[0])] + LeafTrees(leaves[1..])
  }

  function StateTree(s: ExpectedState): Tree {
    var t := [Text(s.digest)];
    var t := [Number(s.epoch)] + t;
    List([Text(s.groupId)] + t)
  }

  function RosterTree(r: Roster): Tree {
    var t := [Text(r.digest)];
    var t := [List(LeafTrees(r.leaves))] + t;
    var t := [Number(r.epoch)] + t;
    List([Text(r.groupId)] + t)
  }

  function RosterTrees(rosters: seq<Roster>): (ts: seq<Tree>)
    ensures |ts| == |rosters|
  {
    if rosters == [] then [] else [RosterTree(rosters[0])] + RosterTrees(rosters[1..])
  }

  function OptionalTree(b: Option<Bytes>): Tree {
    if b.Some? then Text(b.value) else Null
  }

  function RecordItems(p: PendingRecord): seq<Tree> {
    var b := p.binding;
    var t := [Text(p.upstreamPendingSha256)];
    var t := [Text(p.preparationBaseSha256)] + t;
    var t := [RosterTree(p.proposed)] + t;
    var t := [OptionalTree(b.groupInfoSha256)] + t;
    var t := [OptionalTree(b.welcomeSha256)] + t;
    var t := [Text(b.aadSha256)] + t;
    var t := [Text(b.commitSha256)] + t;
    var t := [StateTree(b.previousState)] + t;
    var t := [LeafTree(b.author)] + t;
    var t := [Text(b.transition.contextSha256)] + t;
    var t := [Text(b.transition.commandId)] + t;
    var t := [Text(b.incarnationId)] + t;
    [Text(b.groupId)] + t
  }

  function RecordTree(p: Option<PendingRecord>): Tree {
    if p.None? then Null else List(RecordItems(p.value))
  }

  function GroupItems(s: GroupState): seq<Tree> {
    var t := [RecordTree(s.pending)];
    var t := [List(RosterTrees(s.history))] + t;
    var t := [RosterTree(s.current)] + t;
    var t := [Number(s.joinEpoch)] + t;
    var t := [Number(s.retention)] + t;
    var t := [Text(s.incarnationId)] + t;
    var t := [Text(s.groupId)] + t;
    var t := [Number(PROFILE)] + t;
    [Number(SCHEMA)] + t
  }

  function Encode(sha: Hash, s: GroupState): Result<Bytes, MlsError> {
    var _ :- Validate(sha, s);
    var out := Enc(List(GroupItems(s)));
    if |out| > MAX_VALUE then Err(LimitExceeded) else Ok(out)
  }

  // ---------------------------------------------------------------- lenient reader

  function GetCount(s: Bytes, maximum: nat): (r: Result<(nat, Bytes), MlsError>)
    ensures r.Ok? ==> r.value.0 <= maximum
  {
    match ReadLength(ARRAY, s)
    case None => Err(InvalidStorageSnapshot)
    case Some((None, _)) => Err(NoncanonicalEncoding)
    case Some((Some(n), k)) => if n > maximum then Err(LimitExceeded) else Ok((n, k))
  }

  function GetArray(s: Bytes, n: nat): Result<Bytes, MlsError> {
    var (m, k) :- GetCount(s, n);
    if m == n then Ok(k) else Err(InvalidStorageSnapshot)
  }

  function GetBytes(s: Bytes, minimum: nat, maximum: nat): Result<(Bytes, Bytes), MlsError> {
    match ReadBlob(s)
    case None => Err(InvalidStorageSnapshot)
    case Some((d, k)) => if Within(d, minimum, maximum) then Ok((d, k)) else Err(LimitExceeded)
  }

  function GetNumber(s: Bytes, limit: nat): (r: Result<(nat, Bytes), MlsError>)
    ensures r.Ok? ==> r.value.0 < limit
  {
    match ReadUint(s, limit)
    case None => Err(InvalidStorageSnapshot)
    case Some(v) => Ok(v)
  }

  function GetOptionalHash(s: Bytes): Result<(Option<Bytes>, Bytes), MlsError> {
    match Peek(s)
    case None => Err(InvalidStorageSnapshot)
    case Some(NullKind) => Ok((None, s[1..]))
    case Some(_) =>
      var (d, k) :- GetBytes(s, 32, 32);
      Ok((Some(d), k))
  }

  function GetLeaf(s: Bytes): Result<(Leaf, Bytes), MlsError> {
    var s :- GetArray(s, 3);
    var (index, s) :- GetNumber(s, U32);
    var (identity, s) :- GetBytes(s, 45, 45);
    var (signatureKey, s) :- GetBytes(s, 32, 32);
    Ok((Leaf(index, identity, signatureKey), s))
  }

  function GetLeaves(n: nat, s: Bytes): Result<(seq<Leaf>, Bytes), MlsError> {
    if n == 0 then Ok(([], s)) else
    var (l, k) :- GetLeaf(s);
    var (rest, k) :- GetLeaves(n - 1, k);
    Ok(([l] + rest, k))
  }

  function GetState(s: Bytes): Result<(ExpectedState, Bytes), MlsError> {
    var s :- GetArray(s, 3);
    var (groupId, s) :- GetBytes(s, 16, 16);
    var (epoch, s) :- GetNumber(s, U64);
    var (digest, s) :- GetBytes(s, 32, 32);
    Ok((ExpectedState(groupId, epoch, digest), s))
  }

  function GetRoster(s: Bytes): Result<(Roster, Bytes), MlsError> {
    var s :- GetArray(s, 4);
    var (groupId, s) :- GetBytes(s, 16, 16);
    var (epoch, s) :- GetNumber(s, U64);
    var (n, s) :- GetCount(s, MAX_ROSTER_LEAVES);
    if n == 0 then Err(LimitExceeded) else
    var (leaves, s) :- GetLeaves(n, s);
    var (digest, s) :- GetBytes(s, 32, 32);
    Ok((Roster(groupId, epoch, leaves, digest), s))
  }

  function GetRosters(n: nat, s: Bytes): Result<(seq<Roster>, Bytes), MlsError> {
    if n == 0 then Ok(([], s)) else
    var (r, k) :- GetRoster(s);
    var (rest, k) :- GetRosters(n - 1, k);
    Ok(([r] + rest, k))
  }

  function GetRecord(s: Bytes): Result<(PendingRecord, Bytes), MlsError> {
    var s :- GetArray(s, 13);
    var (groupId, s) :- GetBytes(s, 16, 16);
    var (incarnationId, s) :- GetBytes(s, 1, 128);
    var (commandId, s) :- GetBytes(s, 1, 128);
    var (context, s) :- GetBytes(s, 32, 32);
    var (author, s) :- GetLeaf(s);
    var (previous, s) :- GetState(s);
    var (commit, s) :- GetBytes(s, 32, 32);
    var (aad, s) :- GetBytes(s, 32, 32);
    var (welcome, s) :- GetOptionalHash(s);
    var (info, s) :- GetOptionalHash(s);
    var (proposed, s) :- GetRoster(s);
    var (base, s) :- GetBytes(s, 32, 32);
    var (upstream, s) :- GetBytes(s, 32, 32);
    var binding := PendingBinding(groupId, incarnationId, Transition(commandId, context), author, previous, commit, aad, welcome, info);
    Ok((PendingRecord(binding, proposed, base, upstream), s))
  }

  function GetOptionalRecord(s: Bytes): Result<(Option<PendingRecord>, Bytes), MlsError> {
    match Peek(s)
    case None => Err(InvalidStorageSnapshot)
    case Some(NullKind) => Ok((None, s[1..]))
    case Some(_) =>
      var (p, k) :- GetRecord(s);
      Ok((Some(p), k))
  }

  function GetGroup(s: Bytes): Result<(GroupState, Bytes), MlsError> {
    var s :- GetArray(s, 9);
    var (schema, s) :- GetNumber(s, U16);
    var _ :- Need(schema == SCHEMA, UnsupportedLocalMetadataVersion);
    var (profile, s) :- GetNumber(s, U16);
    var _ :- Need(profile == PROFILE, UnsupportedProfile);
    var (groupId, s) :- GetBytes(s, 16, 16);
    var (incarnationId, s) :- GetBytes(s, 1, 128);
    var (retention, s) :- GetNumber(s, U32);
    var _ :- Need(RetentionSupported(retention), UnsupportedRetention);
    var (joinEpoch, s) :- GetNumber(s, U64);
    var (current, s) :- GetRoster(s);
    var (n, s) :- GetCount(s, retention);
    var (history, s) :- GetRosters(n, s);
    var (pending, s) :- GetOptionalRecord(s);
    Ok((GroupState(groupId, incarnationId, retention, joinEpoch, current, history, pending), s))
  }

  /** Reading, validating, and writing again: only the exact bytes the encoder produces are accepted. */
  function Decode(sha: Hash, input: Bytes): Result<GroupState, MlsError> {
    if |input| > MAX_VALUE then Err(LimitExceeded) else
    var (s, rest) :- GetGroup(input);
    if rest != [] then Err(NoncanonicalEncoding) else
    var _ :- Validate(sha, s);
    var again :- Encode(sha, s);
    if again != input then Err(NoncanonicalEncoding) else Ok(s)
  }

  // ---------------------------------------------------------------- each reader inverts its writer

  lemma TextReads(d: Bytes, minimum: nat, maximum: nat, ts: seq<Tree>, k: Bytes)
    requires Within(d, minimum, maximum) && maximum < U64
    ensures GetBytes(EncItems([Text(d)] + ts) + k, minimum, maximum) == Ok((d, EncItems(ts) + k))
  {
    hide EncItems, ReadBlob;
    ItemBytes(Text(d), ts, k);
    ReadsBack();
  }

  lemma NumberReads(n: nat, limit: nat, ts: seq<Tree>, k: Bytes)
    requires n < limit <= U64
    ensures GetNumber(EncItems([Number(n)] + ts) + k, limit) == Ok((n, EncItems(ts) + k))
  {
    hide EncItems, ReadUint;
    ItemBytes(Number(n), ts, k);
    ReadsBack();
  }

  lemma OptionalReads(d: Option<Bytes>, ts: seq<Tree>, k: Bytes)
    requires FixedIfPresent(d).Ok?
    ensures GetOptionalHash(EncItems([OptionalTree(d)] + ts) + k) == Ok((d, EncItems(ts) + k))
  {
    hide EncItems, ReadBlob, Peek;
    ItemBytes(OptionalTree(d), ts, k);
    ReadsBack();
  }

  lemma ArrayReads(ts: seq<Tree>, maximum: nat, k: Bytes)
    requires |ts| <= maximum && |ts| < U64
    ensures GetCount(Enc(List(ts)) + k, maximum) == Ok((|ts|, EncItems(ts) + k))
  {
    hide Enc, EncItems, ReadLength;
    ListBytes(ts, k);
    ReadsBack();
  }

  lemma NoItems(k: Bytes)
    ensures EncItems([]) + k == k
  {
  }

  lemma LeafReads(l: Leaf, k: Bytes)
    requires |l.identity| == 45 && |l.signatureKey| == 32
    ensures GetLeaf(Enc(LeafTree(l)) + k) == Ok((l, k))
  {
    hide Enc, EncItems, GetCount, GetNumber, GetBytes;
    var t2 := [Text(l.signatureKey)];
    var t1 := [Text(l.identity)] + t2;
    ArrayReads([Number(l.index)] + t1, 3, k);
    NumberReads(l.index, U32, t1, k);
    TextReads(l.identity, 45, 45, t2, k);
    assert t2 == t2 + [];
    TextReads(l.signatureKey, 32, 32, [], k);
    NoItems(k);
  }

  lemma StateReads(s: ExpectedState, k: Bytes)
    requires |s.groupId| == 16 && |s.digest| == 32
    ensures GetState(Enc(StateTree(s)) + k) == Ok((s, k))
  {
    hide Enc, EncItems, GetCount, GetNumber, GetBytes;
    var t2 := [Text(s.digest)];
    var t1 := [Number(s.epoch)] + t2;
    ArrayReads([Text(s.groupId)] + t1, 3, k);
    TextReads(s.groupId, 16, 16, t1, k);
    NumberReads(s.epoch, U64, t2, k);
    assert t2 == t2 + [];
    TextReads(s.digest, 32, 32, [], k);
    NoItems(k);
  }

  lemma {:induction false} LeavesRead(leaves: seq<Leaf>, k: Bytes)
    requires ValidateLeaves(leaves).Ok?
    ensures GetLeaves(|leaves|, EncItems(LeafTrees(leaves)) + k) == Ok((leaves, k))
  {
    hide Enc, GetLeaf, LeafTree;
    if leaves == [] {
      NoItems(k);
    } else {
      var ts := LeafTrees(leaves[1..]);
      ItemBytes(LeafTree(leaves[0]), ts, k);
      LeafReads(leaves[0], EncItems(ts) + k);
      LeavesRead(leaves[1..], k);
      assert leaves == [leaves[0]] + leaves[1..];
    }
  }

  lemma RosterReads(sha: Hash, r: Roster, k: Bytes)
    requires ValidateRoster(sha, r).Ok?
    ensures GetRoster(Enc(RosterTree(r)) + k) == Ok((r, k))
  {
    hide Enc, EncItems, GetCount, GetNumber, GetBytes, GetLeaves, LeafTrees, ValidateLeaves;
    var t3 := [Text(r.digest)];
    var t2 := [List(LeafTrees(r.leaves))] + t3;
    var t1 := [Number(r.epoch)] + t2;
    ArrayReads([Text(r.groupId)] + t1, 4, k);
    TextReads(r.groupId, 16, 16, t1, k);
    NumberReads(r.epoch, U64, t2, k);
    ItemBytes(List(LeafTrees(r.leaves)), t3, k);
    ArrayReads(LeafTrees(r.leaves), MAX_ROSTER_LEAVES, EncItems(t3) + k);
    LeavesRead(r.leaves, EncItems(t3) + k);
    assert t3 == t3 + [];
    TextReads(r.digest, 32, 32, [], k);
    NoItems(k);
  }

  lemma {:induction false} RostersRead(sha: Hash, rosters: seq<Roster>, groupId: Bytes, first: nat, k: Bytes)
    requires ValidateHistory(sha, rosters, groupId, first).Ok?
    ensures GetRosters(|rosters|, EncItems(RosterTrees(rosters)) + k) == Ok((rosters, k))
  {
    hide Enc, GetRoster, RosterTree, ValidateRoster;
    if rosters == [] {
      NoItems(k);
    } else {
      var ts := RosterTrees(rosters[1..]);
      ItemBytes(RosterTree(rosters[0]), ts, k);
      RosterReads(sha, rosters[0], EncItems(ts) + k);
      RostersRead(sha, rosters[1..], groupId, first + 1, k);
      assert rosters == [rosters[0]] + rosters[1..];
    }
  }

  lemma {:induction false} MemberIsFixed(leaves: seq<Leaf>, l: Leaf)
    requires ValidateLeaves(leaves).Ok? && l in leaves
    ensures |l.identity| == 45 && |l.signatureKey| == 32
  {
    if l != leaves[0] {
      MemberIsFixed(leaves[1..], l);
    }
  }

  /** What a validated pending record says about its own fields. */
  lemma PendingFacts(sha: Hash, p: PendingRecord, s: GroupState)
    requires Validate(sha, s.(pending := None)).Ok? && ValidatePending(sha, p, s).Ok?
    ensures var b := p.binding;
            && |b.groupId| == 16 && Within(b.incarnationId, 1, 128) && Within(b.transition.commandId, 1, 128)
            && |b.transition.contextSha256| == 32 && |b.author.identity| == 45 && |b.author.signatureKey| == 32
            && |b.previousState.groupId| == 16 && |b.previousState.digest| == 32
            && |b.commitSha256| == 32 && |b.aadSha256| == 32
            && FixedIfPresent(b.welcomeSha256).Ok? && FixedIfPresent(b.groupInfoSha256).Ok?
            && |p.preparationBaseSha256| == 32 && |p.upstreamPendingSha256| == 32 && ValidateRoster(sha, p.proposed).Ok?
  {
    hide ValidateHistory, ValidateLeaves;
    MemberIsFixed(s.current.leaves, p.binding.author);
  }

  lemma RecordReads(sha: Hash, p: PendingRecord, s: GroupState, k: Bytes)
    requires Validate(sha, s.(pending := None)).Ok? && ValidatePending(sha, p, s).Ok?
    ensures GetRecord(Enc(List(RecordItems(p))) + k) == Ok((p, k))
  {
    hide Enc, EncItems, GetCount, GetBytes, GetOptionalHash, GetLeaf, GetState, GetRoster, LeafTree, StateTree, RosterTree, OptionalTree,
         Validate, ValidatePending, ValidateRoster;
    PendingFacts(sha, p, s);
    var b := p.binding;
    var t12 := [Text(p.upstreamPendingSha256)];
    var t11 := [Text(p.preparationBaseSha256)] + t12;
    var t10 := [RosterTree(p.proposed)] + t11;
    var t9 := [OptionalTree(b.groupInfoSha256)] + t10;
    var t8 := [OptionalTree(b.welcomeSha256)] + t9;
    var t7 := [Text(b.aadSha256)] + t8;
    var t6 := [Text(b.commitSha256)] + t7;
    var t5 := [StateTree(b.previousState)] + t6;
    var t4 := [LeafTree(b.author)] + t5;
    var t3 := [Text(b.transition.contextSha256)] + t4;
    var t2 := [Text(b.transition.commandId)] + t3;
    var t1 := [Text(b.incarnationId)] + t2;
    ArrayReads([Text(b.groupId)] + t1, 13, k);
    TextReads(b.groupId, 16, 16, t1, k);
    TextReads(b.incarnationId, 1, 128, t2, k);
    TextReads(b.transition.commandId, 1, 128, t3, k);
    TextReads(b.transition.contextSha256, 32, 32, t4, k);
    ItemBytes(LeafTree(b.author), t5, k);
    LeafReads(b.author, EncItems(t5) + k);
    ItemBytes(StateTree(b.previousState), t6, k);
    StateReads(b.previousState, EncItems(t6) + k);
    TextReads(b.commitSha256, 32, 32, t7, k);
    TextReads(b.aadSha256, 32, 32, t8, k);
    OptionalReads(b.welcomeSha256, t9, k);
    OptionalReads(b.groupInfoSha256, t10, k);
    ItemBytes(RosterTree(p.proposed), t11, k);
    RosterReads(sha, p.proposed, EncItems(t11) + k);
    TextReads(p.preparationBaseSha256, 32, 32, t12, k);
    assert t12 == t12 + [];
    TextReads(p.upstreamPendingSha256, 32, 32, [], k);
    NoItems(k);
  }

  lemma OptionalRecordReads(sha: Hash, s: GroupState, k: Bytes)
    requires Validate(sha, s).Ok?
    ensures GetOptionalRecord(EncItems([RecordTree(s.pending)]) + k) == Ok((s.pending, k))
  {
    hide EncItems, GetRecord, RecordItems, ValidateRoster, ValidateHistory, ValidatePending;
    assert [RecordTree(s.pending)] == [RecordTree(s.pending)] + [];
    ItemBytes(RecordTree(s.pending), [], k);
    NoItems(k);
    if s.pending.Some? {
      RecordReads(sha, s.pending.value, s, k);
      ArrayIsNotNull(RecordItems(s.pending.value), k);
    } else {
      assert ([NULL] + k)[1..] == k;
    }
  }

  lemma ArrayIsNotNull(ts: seq<Tree>, k: Bytes)
    ensures Peek(Enc(List(ts)) + k).Some? && Peek(Enc(List(ts)) + k) != Some(NullKind)
  {
    hide EncItems, Tail;
    ListBytes(ts, k);
    HeadParts(ARRAY, |ts|, EncItems(ts) + k);
  }

  /** A validated state, field by field, as far as the reader needs it. */
  lemma GroupFacts(sha: Hash, s: GroupState)
    requires Validate(sha, s).Ok?
    ensures RetentionSupported(s.retention) && |s.groupId| == 16 && Within(s.incarnationId, 1, 128)
    ensures ValidateRoster(sha, s.current).Ok? && |s.history| <= s.retention
    ensures exists first: nat :: ValidateHistory(sha, s.history, s.groupId, first).Ok?
  {
    hide ValidateRoster, ValidateHistory, ValidatePending;
  }

  lemma GroupReads(sha: Hash, s: GroupState, k: Bytes)
    requires Validate(sha, s).Ok?
    ensures GetGroup(Enc(List(GroupItems(s))) + k) == Ok((s, k))
  {
    hide Enc, EncItems, GetCount, GetBytes, GetNumber, GetRoster, GetRosters, GetOptionalRecord, RosterTree, RosterTrees, RecordTree,
         Validate, ValidateRoster, ValidateHistory;
    GroupFacts(sha, s);
    var first: nat :| ValidateHistory(sha, s.history, s.groupId, first).Ok?;
    var t8 := [RecordTree(s.pending)];
    var t7 := [List(RosterTrees(s.history))] + t8;
    var t6 := [RosterTree(s.current)] + t7;
    var t5 := [Number(s.joinEpoch)] + t6;
    var t4 := [Number(s.retention)] + t5;
    var t3 := [Text(s.incarnationId)] + t4;
    var t2 := [Text(s.groupId)] + t3;
    var t1 := [Number(PROFILE)] + t2;
    ArrayReads([Number(SCHEMA)] + t1, 9, k);
    NumberReads(SCHEMA, U16, t1, k);
    NumberReads(PROFILE, U16, t2, k);
    TextReads(s.groupId, 16, 16, t3, k);
    TextReads(s.incarnationId, 1, 128, t4, k);
    NumberReads(s.retention, U32, t5, k);
    NumberReads(s.joinEpoch, U64, t6, k);
    ItemBytes(RosterTree(s.current), t7, k);
    RosterReads(sha, s.current, EncItems(t7) + k);
    ItemBytes(List(RosterTrees(s.history)), t8, k);
    ArrayReads(RosterTrees(s.history), s.retention, EncItems(t8) + k);
    RostersRead(sha, s.history, s.groupId, first, EncItems(t8) + k);
    OptionalRecordReads(sha, s, k);
  }

  // ---------------------------------------------------------------- the size limit never binds

  const LEAF_SIZE := 113
  const ROSTER_SIZE := 93 + MAX_ROSTER_LEAVES * LEAF_SIZE

  lemma ItemSize(t: Tree, ts: seq<Tree>)
    ensures |EncItems([t] + ts)| == |Enc(t)| + |EncItems(ts)|
  {
    hide Enc;
    assert ([t] + ts)[1..] == ts;
  }

  lemma ScalarSize(t: Tree)
    requires t.Number? || t.Text? || t.Simple?
    ensures |Enc(t)| <= 9 + if t.Text? then |t.data| else 0
  {
  }

  lemma ListSize(ts: seq<Tree>)
    ensures |Enc(List(ts))| <= 9 + |EncItems(ts)|
  {
    hide EncItems;
  }

  lemma LeafSize(l: Leaf)
    requires |l.identity| == 45 && |l.signatureKey| == 32
    ensures |Enc(LeafTree(l))| <= LEAF_SIZE
  {
    hide Enc, EncItems;
    var t2 := [Text(l.signatureKey)];
    var t1 := [Text(l.identity)] + t2;
    ListSize([Number(l.index)] + t1);
    ItemSize(Number(l.index), t1);
    ItemSize(Text(l.identity), t2);
    assert t2 == t2 + [];
    ItemSize(Text(l.signatureKey), []);
    ScalarSize(Number(l.index));
    ScalarSize(Text(l.identity));
    ScalarSize(Text(l.signatureKey));
    NoItems([]);
  }

  lemma StateSize(s: ExpectedState)
    requires |s.groupId| == 16 && |s.digest| == 32
    ensures |Enc(StateTree(s))| <= 84
  {
    hide Enc, EncItems;
    var t2 := [Text(s.digest)];
    var t1 := [Number(s.epoch)] + t2;
    ListSize([Text(s.groupId)] + t1);
    ItemSize(Text(s.groupId), t1);
    ItemSize(Number(s.epoch), t2);
    assert t2 == t2 + [];
    ItemSize(Text(s.digest), []);
    ScalarSize(Text(s.groupId));
    ScalarSize(Number(s.epoch));
    ScalarSize(Text(s.digest));
    NoItems([]);
  }

  lemma {:induction false} LeavesSize(leaves: seq<Leaf>)
    requires ValidateLeaves(leaves).Ok?
    ensures |EncItems(LeafTrees(leaves))| <= |leaves| * LEAF_SIZE
  {
    hide Enc, LeafTree;
    if leaves != [] {
      ItemSize(LeafTree(leaves[0]), LeafTrees(leaves[1..]));
      LeafSize(leaves[0]);
      LeavesSize(leaves[1..]);
    }
  }

  lemma RosterSize(sha: Hash, r: Roster)
    requires ValidateRoster(sha, r).Ok?
    ensures |Enc(RosterTree(r))| <= ROSTER_SIZE
  {
    hide Enc, EncItems, LeafTrees, ValidateLeaves;
    var leaves := List(LeafTrees(r.leaves));
    var t3 := [Text(r.digest)];
    var t2 := [leaves] + t3;
    var t1 := [Number(r.epoch)] + t2;
    ListSize([Text(r.groupId)] + t1);
    ItemSize(Text(r.groupId), t1);
    ItemSize(Number(r.epoch), t2);
    ItemSize(leaves, t3);
    assert t3 == t3 + [];
    ItemSize(Text(r.digest), []);
    NoItems([]);
    ScalarSize(Text(r.groupId));
    ScalarSize(Number(r.epoch));
    ScalarSize(Text(r.digest));
    ListSize(LeafTrees(r.leaves));
    LeavesSize(r.leaves);
  }

  lemma {:induction false} RostersSize(sha: Hash, rosters: seq<Roster>, groupId: Bytes, first: nat)
    requires ValidateHistory(sha, rosters, groupId, first).Ok?
    ensures |EncItems(RosterTrees(rosters))| <= |rosters| * ROSTER_SIZE
  {
    hide Enc, RosterTree, ValidateRoster;
    if rosters != [] {
      ItemSize(RosterTree(rosters[0]), RosterTrees(rosters[1..]));
      RosterSize(sha, rosters[0]);
      RostersSize(sha, rosters[1..], groupId, first + 1);
    }
  }

  lemma OptionalSize(d: Option<Bytes>)
    requires FixedIfPresent(d).Ok?
    ensures |Enc(OptionalTree(d))| <= 41
  {
    ScalarSize(OptionalTree(d));
  }

  lemma RecordSize(sha: Hash, p: PendingRecord, s: GroupState)
    requires Validate(sha, s.(pending := None)).Ok? && ValidatePending(sha, p, s).Ok?
    ensures |Enc(List(RecordItems(p)))| <= 1000 + ROSTER_SIZE
  {
    hide Enc, EncItems, LeafTree, StateTree, RosterTree, OptionalTree, Validate, ValidatePending, ValidateRoster;
    PendingFacts(sha, p, s);
    var b := p.binding;
    var t12 := [Text(p.upstreamPendingSha256)];
    var t11 := [Text(p.preparationBaseSha256)] + t12;
    var t10 := [RosterTree(p.proposed)] + t11;
    var t9 := [OptionalTree(b.groupInfoSha256)] + t10;
    var t8 := [OptionalTree(b.welcomeSha256)] + t9;
    var t7 := [Text(b.aadSha256)] + t8;
    var t6 := [Text(b.commitSha256)] + t7;
    var t5 := [StateTree(b.previousState)] + t6;
    var t4 := [LeafTree(b.author)] + t5;
    var t3 := [Text(b.transition.contextSha256)] + t4;
    var t2 := [Text(b.transition.commandId)] + t3;
    var t1 := [Text(b.incarnationId)] + t2;
    ListSize([Text(b.groupId)] + t1);
    ItemSize(Text(b.groupId), t1);
    ScalarSize(Text(b.groupId));
    ItemSize(Text(b.incarnationId), t2);
    ScalarSize(Text(b.incarnationId));
    ItemSize(Text(b.transition.commandId), t3);
    ScalarSize(Text(b.transition.commandId));
    ItemSize(Text(b.transition.contextSha256), t4);
    ScalarSize(Text(b.transition.contextSha256));
    ItemSize(LeafTree(b.author), t5);
    LeafSize(b.author);
    ItemSize(StateTree(b.previousState), t6);
    StateSize(b.previousState);
    ItemSize(Text(b.commitSha256), t7);
    ScalarSize(Text(b.commitSha256));
    ItemSize(Text(b.aadSha256), t8);
    ScalarSize(Text(b.aadSha256));
    ItemSize(OptionalTree(b.welcomeSha256), t9);
    OptionalSize(b.welcomeSha256);
    ItemSize(OptionalTree(b.groupInfoSha256), t10);
    OptionalSize(b.groupInfoSha256);
    ItemSize(RosterTree(p.proposed), t11);
    RosterSize(sha, p.proposed);
    ItemSize(Text(p.preparationBaseSha256), t12);
    ScalarSize(Text(p.preparationBaseSha256));
    assert t12 == t12 + [];
    ItemSize(Text(p.upstreamPendingSha256), []);
    ScalarSize(Text(p.upstreamPendingSha256));
    NoItems([]);
  }

  lemma OptionalRecordSize(sha: Hash, s: GroupState)
    requires Validate(sha, s).Ok?
    ensures |Enc(RecordTree(s.pending))| <= 1000 + ROSTER_SIZE
  {
    hide Enc, RecordItems, ValidateRoster, ValidateHistory, ValidatePending;
    if s.pending.Some? {
      RecordSize(sha, s.pending.value, s);
    } else {
      ScalarSize(Null);
    }
  }

  /** At most six 256-leaf rosters: the current one, four past ones and a proposed one. */
  lemma GroupSize(sha: Hash, s: GroupState)
    requires Validate(sha, s).Ok?
    ensures |Enc(List(GroupItems(s)))| <= 2000 + 6 * ROSTER_SIZE
  {
    hide Enc, EncItems, RosterTree, RosterTrees, RecordTree, Validate, ValidateRoster, ValidateHistory;
    GroupFacts(sha, s);
    var first: nat :| ValidateHistory(sha, s.history, s.groupId, first).Ok?;
    var t8 := [RecordTree(s.pending)];
    var t7 := [List(RosterTrees(s.history))] + t8;
    var t6 := [RosterTree(s.current)] + t7;
    var t5 := [Number(s.joinEpoch)] + t6;
    var t4 := [Number(s.retention)] + t5;
    var t3 := [Text(s.incarnationId)] + t4;
    var t2 := [Text(s.groupId)] + t3;
    var t1 := [Number(PROFILE)] + t2;
    ListSize([Number(SCHEMA)] + t1);
    ItemSize(Number(SCHEMA), t1);
    ScalarSize(Number(SCHEMA));
    ItemSize(Number(PROFILE), t2);
    ScalarSize(Number(PROFILE));
    ItemSize(Text(s.groupId), t3);
    ScalarSize(Text(s.groupId));
    ItemSize(Text(s.incarnationId), t4);
    ScalarSize(Text(s.incarnationId));
    ItemSize(Number(s.retention), t5);
    ScalarSize(Number(s.retention));
    ItemSize(Number(s.joinEpoch), t6);
    ScalarSize(Number(s.joinEpoch));
    ItemSize(RosterTree(s.current), t7);
    RosterSize(sha, s.current);
    ItemSize(List(RosterTrees(s.history)), t8);
    ListSize(RosterTrees(s.history));
    RostersSize(sha, s.history, s.groupId, first);
    assert t8 == t8 + [];
    ItemSize(RecordTree(s.pending), []);
    OptionalRecordSize(sha, s);
    NoItems([]);
  }

  // ---------------------------------------------------------------- main results

  /** The bytes accepted for a state are the bytes written for it, and nothing else is accepted. */
  lemma DecodeIffEncode(sha: Hash, input: Bytes, s: GroupState)
    ensures Decode(sha, input) == Ok(s) <==> Encode(sha, s) == Ok(input)
  {
    hide GetGroup, Validate, Enc, GroupItems;
    if Encode(sha, s) == Ok(input) {
      GroupReads(sha, s, []);
      assert input + [] == input;
    }
  }

  /** Writing a state fails exactly when the state is not valid: the size limit is never what stops it. */
  lemma EncodeFailsOnlyOnValidation(sha: Hash, s: GroupState)
    ensures Validate(sha, s).Err? ==> Encode(sha, s) == Err(Validate(sha, s).error)
    ensures Validate(sha, s).Ok? ==> Encode(sha, s) == Ok(Enc(List(GroupItems(s))))
  {
    hide Validate, Enc, GroupItems;
    if Validate(sha, s).Ok? {
      GroupSize(sha, s);
    }
  }

  /** Every valid state survives being written and read. */
  lemma ValidStatesRoundTrip(sha: Hash, s: GroupState)
    requires Validate(sha, s).Ok?
    ensures Encode(sha, s).Ok? && Decode(sha, Encode(sha, s).value) == Ok(s)
  {
    hide Validate, Encode, Decode;
    EncodeFailsOnlyOnValidation(sha, s);
    DecodeIffEncode(sha, Encode(sha, s).value, s);
  }

  lemma FirstItems(ts: seq<Tree>)
    requires |ts| == 9 && ts[0] == Number(1) && ts[1] == Number(2)
    ensures LiesAt(Enc(List(ts)), 0, [0x89, 0x01, 0x02])
  {
    assert Head(ARRAY, 9) == [0x89] && Enc(ts[0]) == [0x01] && Enc(ts[1]) == [0x02];
    assert EncItems(ts) == [0x01] + ([0x02] + EncItems(ts[2..])) by {
      assert ts[1..][1..] == ts[2..];
    }
  }

  /** A saved state begins as an array of nine items: schema 1, profile 2. */
  lemma EncodingBegins(sha: Hash, s: GroupState)
    ensures Encode(sha, s).Ok? ==> LiesAt(Encode(sha, s).value, 0, [0x89, 0x01, 0x02])
  {
    hide Validate, RosterTree, RosterTrees, RecordTree, Enc, LiesAt;
    FirstItems(GroupItems(s));
  }

  /** A valid state with anything after it is not canonical, and what does not fit the limit is not read at all. */
  lemma NothingFollows(sha: Hash, s: GroupState, written: Bytes, k: Bytes)
    requires Encode(sha, s) == Ok(written) && k != []
    ensures Decode(sha, written + k) == Err(if |written| + |k| > 2097152 then LimitExceeded else NoncanonicalEncoding)
  {
    hide Validate, Enc, GroupItems, GetGroup;
    GroupReads(sha, s, k);
  }

  /** The names a saved state begins with are looked at in turn, and the first strange one is what it is refused for. */
  lemma StrangeNamesAreRefused(sha: Hash, version: nat, profile: nat, groupId: Bytes, incarnationId: Bytes, retention: nat, k: Bytes)
    requires version < 0x1_0000 && profile < 0x1_0000 && retention < 0x1_0000_0000
    requires |groupId| == 16 && 1 <= |incarnationId| <= 128
    ensures var items := [Number(version), Number(profile), Text(groupId), Text(incarnationId), Number(retention)];
            var input := [0x89] + (EncItems(items) + k);
            var r := Decode(sha, input);
            |input| <= 2097152 ==>
              && (version != 1 ==> r == Err(UnsupportedLocalMetadataVersion))
              && (version == 1 && profile != 2 ==> r == Err(UnsupportedProfile))
              && (version == 1 && profile == 2 && retention != 2 && retention != 4 ==> r == Err(UnsupportedRetention))
  {
    hide Validate, Encode, Enc, EncItems, GetBytes, GetNumber, GetRoster, GetRosters, GetOptionalRecord, ReadLength;
    var t4 := [Number(retention)];
    var t3 := [Text(incarnationId)] + t4;
    var t2 := [Text(groupId)] + t3;
    var t1 := [Number(profile)] + t2;
    var items := [Number(version)] + t1;
    assert items == [Number(version), Number(profile), Text(groupId), Text(incarnationId), Number(retention)];
    NineItems(EncItems(items) + k);
    NumberReads(version, U16, t1, k);
    NumberReads(profile, U16, t2, k);
    TextReads(groupId, 16, 16, t3, k);
    TextReads(incarnationId, 1, 128, t4, k);
    NumberReads(retention, U32, [], k);
    assert t4 + [] == t4;
  }

  lemma NineItems(k: Bytes)
    ensures GetArray([0x89] + k, 9) == Ok(k)
  {
    hide ReadLength;
    assert Head(ARRAY, 9) == [0x89];
    ReadsBack();
  }
}
