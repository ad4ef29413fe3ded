/** Contract version 3: the version 2 requests under a new stamp, and two requests of its own. */
module NativeV3 {
  import opened Foundation
  import opened Errors
  import opened Order
  import opened MlsTypes
  import opened Cbor
  import opened Preflight
  import opened NativeTypes
  import opened NativeLimits
  import opened NativeDecode
  import opened NativeRoundTrip

  datatype ExternalBinding = ExternalBinding(
    candidateId: Bytes, incarnationId: Bytes, transition: Transition, previousState: ExpectedState, oldLeaf: Leaf, author: Leaf,
    inputGroupInfoSha256: Bytes, resultingGroupInfoSha256: Bytes, commitSha256: Bytes, aadSha256: Bytes)

  datatype Acceptance = Acceptance(binding: ExternalBinding, resultingState: ExpectedState)

  datatype External = External(
    profile: u16, groupId: Bytes, incarnationId: Bytes, commit: Bytes, aad: Bytes, baseSha256: Bytes, retention: u32,
    acceptance: Acceptance, superseded: Option<PendingBinding>, storage: Snapshot)

  datatype Inspect = Inspect(
    profile: u16, groupId: Bytes, incarnationId: Bytes, current: ExpectedState, baseSha256: Bytes, retention: u32, storage: Snapshot)

  datatype Request3 = Member(member: Request) | Accept(accept: External) | InspectPending(inspect: Inspect)

  function Canonical3(r: Request3): Request3 {
    match r
    case Member(m) => Member(Canonical(m))
    case Accept(x) => Accept(x.(storage := SortedSnapshot(x.storage)))
    case InspectPending(i) => InspectPending(i.(storage := SortedSnapshot(i.storage)))
  }

  // ---------------------------------------------------------------- validation, in the order of the code

  function CheckId(b: Bytes): Result<(), MlsError> {
    Range(b, 1, 128)
  }

  function CheckBoundedLeaf(l: Leaf): Result<(), MlsError> {
    var _ :- Need(l.index <= 255, LimitExceeded);
    CheckLeaf(l)
  }

  function CheckOptionalHash(b: Option<Bytes>): Result<(), MlsError> {
    if b.Some? then Exact(b.value, 32) else Ok(())
  }

  function CheckPending(p: PendingBinding): Result<(), MlsError> {
    var _ :- Exact(p.groupId, 16);
    var _ :- CheckId(p.incarnationId);
    var _ :- CheckId(p.transition.commandId);
    var _ :- Exact(p.transition.contextSha256, 32);
    var _ :- CheckBoundedLeaf(p.author);
    var _ :- CheckState(p.previousState);
    var _ :- Exact(p.commitSha256, 32);
    var _ :- Exact(p.aadSha256, 32);
    var _ :- CheckOptionalHash(p.welcomeSha256);
    CheckOptionalHash(p.groupInfoSha256)
  }

  function CheckAcceptance(a: Acceptance): Result<(), MlsError> {
    var b := a.binding;
    var _ :- CheckId(b.candidateId);
    var _ :- CheckId(b.transition.commandId);
    var _ :- Exact(b.transition.contextSha256, 32);
    var _ :- CheckState(b.previousState);
    var _ :- CheckState(a.resultingState);
    var _ :- CheckBoundedLeaf(b.oldLeaf);
    var _ :- CheckBoundedLeaf(b.author);
    var _ :- Exact(b.inputGroupInfoSha256, 32);
    var _ :- Exact(b.resultingGroupInfoSha256, 32);
    var _ :- Exact(b.commitSha256, 32);
    Exact(b.aadSha256, 32)
  }

  function CheckExternal(sha: Hash, r: External): Result<(), MlsError> {
    var b := r.acceptance.binding;
    var _ :- CheckProfile(r.profile);
    var _ :- CheckRetention(r.retention);
    var _ :- Exact(r.groupId, 16);
    var _ :- CheckId(r.incarnationId);
    var _ :- Exact(r.baseSha256, 32);
    var _ :- Range(r.commit, 1, MESSAGE_MAX);
    var _ :- Range(r.aad, 1, AAD_MAX);
    var _ :- CheckAcceptance(r.acceptance);
    var _ :- Need(b.incarnationId == r.incarnationId && b.previousState.groupId == r.groupId
                  && r.acceptance.resultingState.groupId == r.groupId, GroupMismatch);
    var _ :- Need(b.previousState.epoch + 1 < U64 && b.previousState.epoch + 1 == r.acceptance.resultingState.epoch, ResultingEpochMismatch);
    var _ :- Need(sha(r.commit) == b.commitSha256, WireHashMismatch);
    var _ :- Need(sha(r.aad) == b.aadSha256, AadMismatch);
    if r.superseded.None? then Ok(()) else
    var p := r.superseded.value;
    var _ :- CheckPending(p);
    Need(p.groupId == r.groupId && p.incarnationId == r.incarnationId && p.previousState == b.previousState, PendingBindingMismatch)
  }

  function CheckInspect(r: Inspect): Result<(), MlsError> {
    var _ :- CheckProfile(r.profile);
    var _ :- CheckRetention(r.retention);
    var _ :- Exact(r.groupId, 16);
    var _ :- CheckId(r.incarnationId);
    var _ :- CheckState(r.current);
    var _ :- Exact(r.baseSha256, 32);
    Need(r.groupId == r.current.groupId, GroupMismatch)
  }

  // ---------------------------------------------------------------- wire shapes

  function PendingFields(p: PendingBinding): Fields {
    var f := Field(9, OptionalTree(p.groupInfoSha256), End);
    var f := Field(8, OptionalTree(p.welcomeSha256), f);
    var f := Field(7, Text(p.aadSha256), f);
    var f := Field(6, Text(p.commitSha256), f);
    var f := Field(5, StateTree(p.previousState), f);
    var f := Field(4, LeafTree(p.author), f);
    var f := Field(3, Text(p.transition.contextSha256), f);
    var f := Field(2, Text(p.transition.commandId), f);
    var f := Field(1, Text(p.incarnationId), f);
    Field(0, Text(p.groupId), f)
  }

  function PendingTree(p: Option<PendingBinding>): Tree {
    if p.None? then Null else Dict(PendingFields(p.value))
  }

  /** The incarnation id is not among the fields: the request carries it once. */
  function AcceptanceFields(a: Acceptance): Fields {
    var b := a.binding;
    var f := Field(10, Text(b.aadSha256), End);
    var f := Field(9, Text(b.commitSha256), f);
    var f := Field(8, Text(b.resultingGroupInfoSha256), f);
    var f := Field(7, Text(b.inputGroupInfoSha256), f);
    var f := Field(6, LeafTree(b.author), f);
    var f := Field(5, LeafTree(b.oldLeaf), f);
    var f := Field(4, StateTree(a.resultingState), f);
    var f := Field(3, StateTree(b.previousState), f);
    var f := Field(2, Text(b.transition.contextSha256), f);
    var f := Field(1, Text(b.transition.commandId), f);
    Field(0, Text(b.candidateId), f)
  }

  function ExternalFields(r: External): Fields {
    ExternalFieldsWith(r, SnapshotTree(r.storage))
  }

  function InspectFields(r: Inspect): Fields {
    InspectFieldsWith(r, SnapshotTree(r.storage))
  }

  /** The fields in wire order around a given storage value. */
  function ExternalFieldsWith(r: External, storage: Tree): Fields {
    var f := Field(9, storage, End);
    var f := Field(8, PendingTree(r.superseded), f);
    var f := Field(7, Dict(AcceptanceFields(r.acceptance)), f);
    var f := Field(6, Number(r.retention), f);
    var f := Field(5, Text(r.baseSha256), f);
    var f := Field(4, Text(r.aad), f);
    var f := Field(3, Text(r.commit), f);
    var f := Field(2, Text(r.incarnationId), f);
    var f := Field(1, Text(r.groupId), f);
    Field(0, Number(r.profile), f)
  }

  function InspectFieldsWith(r: Inspect, storage: Tree): Fields {
    var f := Field(6, storage, End);
    var f := Field(5, Number(r.retention), f);
    var f := Field(4, Text(r.baseSha256), f);
    var f := Field(3, StateTree(r.current), f);
    var f := Field(2, Text(r.incarnationId), f);
    var f := Field(1, Text(r.groupId), f);
    Field(0, Number(r.profile), f)
  }

  // ---------------------------------------------------------------- encoder

  /** The version bytes rewritten to 3, everything else kept. */
  function Restamp(frame: Bytes): Bytes
    requires |frame| >= 6
  {
    frame[4 := 0][5 := 3]
  }

  function EncodeRequest3(sha: Hash, r: Request3): Result<Bytes, MlsError> {
    match r
    case Member(m) =>
      var frame :- EncodeRequest(m);
      Ok(Restamp(frame))
    case Accept(x) =>
      var _ :- CheckExternal(sha, x);
      var _ :- CheckSnapshot(x.storage, Some(x.groupId));
      EncodeFrame(3, 4, Enc(Dict(ExternalFields(x))), REQUEST_MAX)
    case InspectPending(i) =>
      var _ :- CheckInspect(i);
      var _ :- CheckSnapshot(i.storage, Some(i.groupId));
      EncodeFrame(3, 5, Enc(Dict(InspectFields(i))), REQUEST_MAX)
  }

  // ---------------------------------------------------------------- decoder

  function GetPending(s: Bytes): Result<(Option<PendingBinding>, Bytes), MlsError> {
    match Peek(s)
    case None => Err(NoncanonicalEncoding)
    case Some(NullKind) => Ok((None, s[1..]))
    case Some(_) =>
      var (p, s) :- GetPendingMap(s);
      Ok((Some(p), s))
  }

  function GetPendingMap(s: Bytes): Result<(PendingBinding, Bytes), MlsError> {
    var s :- ExpectMap(s, 10);
    var (groupId, s) :- BlobAt(s, 0, 16, 16);
    var (incarnationId, s) :- BlobAt(s, 1, 1, 128);
    var (commandId, s) :- BlobAt(s, 2, 1, 128);
    var (context, s) :- BlobAt(s, 3, 32, 32);
    var (author, s) :- LeafAt(s, 4);
    var (previous, s) :- StateAt(s, 5);
    var (commit, s) :- BlobAt(s, 6, 32, 32);
    var (aad, s) :- BlobAt(s, 7, 32, 32);
    var (welcome, s) :- OptionalAt(s, 8, 32, 32);
    var (info, s) :- OptionalAt(s, 9, 32, 32);
    Ok((PendingBinding(groupId, incarnationId, Transition(commandId, context), author, previous, commit, aad, welcome, info), s))
  }

  function GetAcceptance(s: Bytes, incarnationId: Bytes): Result<(Acceptance, Bytes), MlsError> {
    var s :- ExpectMap(s, 11);
    var (candidateId, s) :- BlobAt(s, 0, 1, 128);
    var (commandId, s) :- BlobAt(s, 1, 1, 128);
    var (context, s) :- BlobAt(s, 2, 32, 32);
    var (previous, s) :- StateAt(s, 3);
    var (resulting, s) :- StateAt(s, 4);
    var (oldLeaf, s) :- LeafAt(s, 5);
    var (author, s) :- LeafAt(s, 6);
    var (input, s) :- BlobAt(s, 7, 32, 32);
    var (output, s) :- BlobAt(s, 8, 32, 32);
    var (commit, s) :- BlobAt(s, 9, 32, 32);
    var (aad, s) :- BlobAt(s, 10, 32, 32);
    var binding := ExternalBinding(candidateId, incarnationId, Transition(commandId, context), previous, oldLeaf, author,
                                   input, output, commit, aad);
    Ok((Acceptance(binding, resulting), s))
  }

  function AcceptanceAt(s: Bytes, key: nat, incarnationId: Bytes): Result<(Acceptance, Bytes), MlsError> {
    var k :- ExpectKey(s, key);
    GetAcceptance(k, incarnationId)
  }

  function PendingAt(s: Bytes, key: nat): Result<(Option<PendingBinding>, Bytes), MlsError> {
    var k :- ExpectKey(s, key);
    GetPending(k)
  }

  /** Public authority is checked before any storage row is read. */
  function GetExternal(sha: Hash, s: Bytes): Result<(External, Bytes), MlsError> {
    var s :- ExpectMap(s, 10);
    var (profile, s) :- NumberAt(s, 0, U16);
    var (groupId, s) :- BlobAt(s, 1, 16, 16);
    var (incarnationId, s) :- BlobAt(s, 2, 1, 128);
    var (commit, s) :- BlobAt(s, 3, 1, MESSAGE_MAX);
    var (aad, s) :- BlobAt(s, 4, 1, AAD_MAX);
    var (base, s) :- BlobAt(s, 5, 32, 32);
    var (retention, s) :- NumberAt(s, 6, U32);
    var (acceptance, s) :- AcceptanceAt(s, 7, incarnationId);
    var (superseded, s) :- PendingAt(s, 8);
    var r := External(profile, groupId, incarnationId, commit, aad, base, retention, acceptance, superseded, Snapshot(0, []));
    var _ :- CheckExternal(sha, r);
    var (storage, s) :- SnapshotAt(s, 9, Some(groupId));
    Ok((r.(storage := storage), s))
  }

  function GetInspect(s: Bytes): Result<(Inspect, Bytes), MlsError> {
    var s :- ExpectMap(s, 7);
    var (profile, s) :- NumberAt(s, 0, U16);
    var (groupId, s) :- BlobAt(s, 1, 16, 16);
    var (incarnationId, s) :- BlobAt(s, 2, 1, 128);
    var (current, s) :- StateAt(s, 3);
    var (base, s) :- BlobAt(s, 4, 32, 32);
    var (retention, s) :- NumberAt(s, 5, U32);
    var r := Inspect(profile, groupId, incarnationId, current, base, retention, Snapshot(0, []));
    var _ :- CheckInspect(r);
    var (storage, s) :- SnapshotAt(s, 6, Some(groupId));
    Ok((r.(storage := storage), s))
  }

  function DecodeRequest3(sha: Hash, frame: Bytes): Result<Request3, MlsError> {
    var (op, payload) :- DecodeHeader(3, frame);
    if !(1 <= op <= 5) then Err(UnsupportedOperation) else
    var _ :- Recognise(payload);
    var (request, rest) :- GetRequest3(sha, op, payload);
    if rest != [] then Err(NoncanonicalEncoding) else Ok(request)
  }

  function GetRequest3(sha: Hash, op: nat, s: Bytes): Result<(Request3, Bytes), MlsError>
    requires 1 <= op <= 5
  {
    if op <= 2 then
      var (r, k) :- GetProcess(s, if op == 1 then Application else Commit);
      Ok((Member(r), k))
    else if op == 3 then
      var (r, k) :- GetJoin(s);
      Ok((Member(r), k))
    else if op == 4 then
      var (r, k) :- GetExternal(sha, s);
      Ok((Accept(r), k))
    else
      var (r, k) :- GetInspect(s);
      Ok((InspectPending(r), k))
  }

  // ---------------------------------------------------------------- operations 1 to 3 are version 2 restamped

  function AsMember(r: Result<Request, MlsError>): Result<Request3, MlsError> {
    match r
    case Ok(m) => Ok(Member(m))
    case Err(e) => Err(e)
  }

  lemma RestampedHeader(frame: Bytes)
    requires |frame| >= 6 && frame[4..6] == BE(2, 2)
    ensures DecodeHeader(3, Restamp(frame)) == DecodeHeader(2, frame)
  {
    PowValues();
    FromBEInvertsBE(2, 2);
    FromBEInvertsBE(2, 3);
    assert BE(2, 3) == [0, 3] by { assert BE(1, 0) == [0] by { assert BE(0, 0) == []; } }
    var g := Restamp(frame);
    assert g[..4] == frame[..4] && g[4..6] == [0, 3];
    if |frame| >= HEADER {
      assert g[8..12] == frame[8..12] && g[HEADER..] == frame[HEADER..];
    }
  }

  /** Any version 2 frame of operations 1 to 3, malformed ones included, means the same under version 3. */
  lemma RestampMeansTheSame(sha: Hash, frame: Bytes)
    requires |frame| >= 6 && frame[4..6] == BE(2, 2)
    requires |frame| > 6 ==> 1 <= frame[6] <= 3
    ensures DecodeRequest3(sha, Restamp(frame)) == AsMember(DecodeRequest(frame))
  {
    hide DecodeHeader, GetProcess, GetJoin, GetExternal, GetInspect, Recognise, Restamp, BE;
    RestampedHeader(frame);
    if DecodeHeader(2, frame).Ok? {
      HeaderOperation(2, frame);
    }
  }

  lemma HeaderOperation(version: u16, frame: Bytes)
    requires DecodeHeader(version, frame).Ok?
    ensures |frame| >= HEADER && DecodeHeader(version, frame).value.0 == frame[6]
  {
  }

  // ---------------------------------------------------------------- each new reader inverts its writer

  lemma PendingReads(p: PendingBinding, k: Bytes)
    requires CheckPending(p).Ok?
    ensures GetPendingMap(Enc(Dict(PendingFields(p))) + k) == Ok((p, k))
  {
    hide Enc, EncEntries, ExpectMap, BlobAt, OptionalAt, LeafAt, StateAt, StateTree, LeafTree, OptionalTree, CheckState, CheckLeaf, Count;
    var f0 := PendingFields(p);
    var f1 := f0.more; var f2 := f1.more; var f3 := f2.more; var f4 := f3.more; var f5 := f4.more;
    var f6 := f5.more; var f7 := f6.more; var f8 := f7.more; var f9 := f8.more;
    PendingFits(p);
    MapReads(f0, k);
    BlobReads(0, p.groupId, 16, 16, f1, k);
    BlobReads(1, p.incarnationId, 1, 128, f2, k);
    BlobReads(2, p.transition.commandId, 1, 128, f3, k);
    BlobReads(3, p.transition.contextSha256, 32, 32, f4, k);
    LeafFieldReads(4, p.author, f5, k);
    StateFieldReads(5, p.previousState, f6, k);
    BlobReads(6, p.commitSha256, 32, 32, f7, k);
    BlobReads(7, p.aadSha256, 32, 32, f8, k);
    OptionalReads(8, p.welcomeSha256, 32, 32, f9, k);
    OptionalReads(9, p.groupInfoSha256, 32, 32, End, k);
    NoEntries(k);
  }

  lemma AcceptanceReads(a: Acceptance, k: Bytes)
    requires CheckAcceptance(a).Ok?
    ensures GetAcceptance(Enc(Dict(AcceptanceFields(a))) + k, a.binding.incarnationId) == Ok((a, k))
  {
    hide Enc, EncEntries, ExpectMap, BlobAt, LeafAt, StateAt, StateTree, LeafTree, CheckState, CheckLeaf, Count;
    var b := a.binding;
    var f0 := AcceptanceFields(a);
    var f1 := f0.more; var f2 := f1.more; var f3 := f2.more; var f4 := f3.more; var f5 := f4.more;
    var f6 := f5.more; var f7 := f6.more; var f8 := f7.more; var f9 := f8.more; var f10 := f9.more;
    AcceptanceFits(a);
    MapReads(f0, k);
    BlobReads(0, b.candidateId, 1, 128, f1, k);
    BlobReads(1, b.transition.commandId, 1, 128, f2, k);
    BlobReads(2, b.transition.contextSha256, 32, 32, f3, k);
    StateFieldReads(3, b.previousState, f4, k);
    StateFieldReads(4, a.resultingState, f5, k);
    LeafFieldReads(5, b.oldLeaf, f6, k);
    LeafFieldReads(6, b.author, f7, k);
    BlobReads(7, b.inputGroupInfoSha256, 32, 32, f8, k);
    BlobReads(8, b.resultingGroupInfoSha256, 32, 32, f9, k);
    BlobReads(9, b.commitSha256, 32, 32, f10, k);
    BlobReads(10, b.aadSha256, 32, 32, End, k);
    NoEntries(k);
  }

  lemma AcceptanceFieldReads(key: nat, a: Acceptance, more: Fields, k: Bytes)
    requires key < 0x100 && CheckAcceptance(a).Ok?
    ensures AcceptanceAt(EncEntries(Field(key, Dict(AcceptanceFields(a)), more)) + k, key, a.binding.incarnationId)
         == Ok((a, EncEntries(more) + k))
  {
    hide EncEntries, ExpectKey, GetAcceptance, Enc, AcceptanceFields, CheckAcceptance;
    KeyReads(key, Dict(AcceptanceFields(a)), more, k);
    AcceptanceReads(a, EncEntries(more) + k);
  }

  lemma PendingFieldReads(key: nat, p: Option<PendingBinding>, more: Fields, k: Bytes)
    requires key < 0x100 && (p.Some? ==> CheckPending(p.value).Ok?)
    ensures PendingAt(EncEntries(Field(key, PendingTree(p), more)) + k, key) == Ok((p, EncEntries(more) + k))
  {
    hide EncEntries, ExpectKey, GetPendingMap, PendingFields, CheckPending;
    var rest := EncEntries(more) + k;
    KeyReads(key, PendingTree(p), more, k);
    if p.Some? {
      PendingReads(p.value, rest);
      MapIsNotNull(PendingFields(p.value), rest);
    } else {
      assert ([NULL] + rest)[1..] == rest;
    }
  }

  lemma MapIsNotNull(es: Fields, k: Bytes)
    ensures Peek(Enc(Dict(es)) + k).Some? && Peek(Enc(Dict(es)) + k) != Some(NullKind)
  {
    hide EncEntries, Count, Tail;
    DictBytes(es, k);
    HeadParts(MAP, Count(es), EncEntries(es) + k);
  }

  lemma ExternalReads(sha: Hash, r: External, rows: seq<StorageEntry>, k: Bytes)
    requires CheckExternal(sha, r).Ok? && Receivable(rows, Some(r.groupId)) && r.storage == Snapshot(1, SortBy(EntryKey, rows))
    requires Count(ExternalFieldsWith(r, WireTree(1, rows))) == 10
    ensures GetExternal(sha, Enc(Dict(ExternalFieldsWith(r, WireTree(1, rows)))) + k) == Ok((r, k))
  {
    hide Enc, EncEntries, ExpectMap, NumberAt, BlobAt, SnapshotAt, AcceptanceAt, PendingAt, WireTree, PendingTree, AcceptanceFields,
         Receivable, CheckAcceptance, CheckPending, SortBy, Count;
    var f0 := ExternalFieldsWith(r, WireTree(1, rows));
    var f1 := f0.more; var f2 := f1.more; var f3 := f2.more; var f4 := f3.more;
    var f5 := f4.more; var f6 := f5.more; var f7 := f6.more; var f8 := f7.more; var f9 := f8.more;
    MapReads(f0, k);
    NumberReads(0, r.profile, U16, f1, k);
    BlobReads(1, r.groupId, 16, 16, f2, k);
    BlobReads(2, r.incarnationId, 1, 128, f3, k);
    BlobReads(3, r.commit, 1, MESSAGE_MAX, f4, k);
    BlobReads(4, r.aad, 1, AAD_MAX, f5, k);
    BlobReads(5, r.baseSha256, 32, 32, f6, k);
    NumberReads(6, r.retention, U32, f7, k);
    AcceptanceFieldReads(7, r.acceptance, f8, k);
    PendingFieldReads(8, r.superseded, f9, k);
    WireFieldReads(9, rows, Some(r.groupId), End, k);
    NoEntries(k);
    var bare := r.(storage := Snapshot(0, []));
    assert CheckExternal(sha, bare) == CheckExternal(sha, r);
  }

  lemma InspectReads(r: Inspect, rows: seq<StorageEntry>, k: Bytes)
    requires CheckInspect(r).Ok? && Receivable(rows, Some(r.groupId)) && r.storage == Snapshot(1, SortBy(EntryKey, rows))
    requires Count(InspectFieldsWith(r, WireTree(1, rows))) == 7
    ensures GetInspect(Enc(Dict(InspectFieldsWith(r, WireTree(1, rows)))) + k) == Ok((r, k))
  {
    hide Enc, EncEntries, ExpectMap, NumberAt, BlobAt, StateAt, SnapshotAt, WireTree, StateTree, Receivable, CheckState, SortBy, Count;
    var f0 := InspectFieldsWith(r, WireTree(1, rows));
    var f1 := f0.more; var f2 := f1.more; var f3 := f2.more; var f4 := f3.more; var f5 := f4.more; var f6 := f5.more;
    MapReads(f0, k);
    NumberReads(0, r.profile, U16, f1, k);
    BlobReads(1, r.groupId, 16, 16, f2, k);
    BlobReads(2, r.incarnationId, 1, 128, f3, k);
    StateFieldReads(3, r.current, f4, k);
    BlobReads(4, r.baseSha256, 32, 32, f5, k);
    NumberReads(5, r.retention, U32, f6, k);
    WireFieldReads(6, rows, Some(r.groupId), End, k);
    NoEntries(k);
  }

  // ---------------------------------------------------------------- scan budgets

  lemma OptionalField(key: nat, d: Option<Bytes>, more: Fields, previous: Option<nat>, count: nat, nodes: nat)
    requires key < 0x100 && CheckOptionalHash(d).Ok?
    requires (previous.Some? ==> previous.value < key) && Fits(more, Some(key), count, 5, nodes)
    ensures Fits(Field(key, OptionalTree(d), more), previous, count + 1, 5, nodes + 2)
  {
    hide Fits, Shaped, Height, Nodes;
    SmallFits(0, if d.Some? then d.value else []);
    FieldFits(key, OptionalTree(d), more, previous, count, 5, nodes, 1);
  }

  lemma PendingFits(p: PendingBinding)
    requires CheckPending(p).Ok?
    ensures Count(PendingFields(p)) == 10
    ensures var t := Dict(PendingFields(p)); Shaped(t) && Height(t) <= 5 && Nodes(t) <= 33
  {
    hide Fits, Shaped, Height, Nodes, StateTree, LeafTree, CheckState, CheckLeaf, OptionalTree;
    var f0 := PendingFields(p);
    var f1 := f0.more; var f2 := f1.more; var f3 := f2.more; var f4 := f3.more; var f5 := f4.more;
    var f6 := f5.more; var f7 := f6.more; var f8 := f7.more; var f9 := f8.more;
    NothingFits(Some(9), 5);
    OptionalField(9, p.groupInfoSha256, End, Some(8), 0, 0);
    OptionalField(8, p.welcomeSha256, f9, Some(7), 1, 2);
    TextField(7, p.aadSha256, f8, Some(6), 2, 4);
    TextField(6, p.commitSha256, f7, Some(5), 3, 6);
    StateField(5, p.previousState, f6, Some(4), 4, 8);
    LeafField(4, p.author, f5, Some(3), 5, 16);
    TextField(3, p.transition.contextSha256, f4, Some(2), 6, 24);
    TextField(2, p.transition.commandId, f3, Some(1), 7, 26);
    TextField(1, p.incarnationId, f2, Some(0), 8, 28);
    TextField(0, p.groupId, f1, None, 9, 30);
    DictFits(f0, 10, 5, 32);
    FitsCount(f0, None, 10, 5, 32);
  }

  lemma AcceptanceFits(a: Acceptance)
    requires CheckAcceptance(a).Ok?
    ensures Count(AcceptanceFields(a)) == 11
    ensures var t := Dict(AcceptanceFields(a)); Shaped(t) && Height(t) <= 5 && Nodes(t) <= 47
  {
    hide Fits, Shaped, Height, Nodes, StateTree, LeafTree, CheckState, CheckLeaf;
    var b := a.binding;
    var f0 := AcceptanceFields(a);
    var f1 := f0.more; var f2 := f1.more; var f3 := f2.more; var f4 := f3.more; var f5 := f4.more;
    var f6 := f5.more; var f7 := f6.more; var f8 := f7.more; var f9 := f8.more; var f10 := f9.more;
    NothingFits(Some(10), 5);
    TextField(10, b.aadSha256, End, Some(9), 0, 0);
    TextField(9, b.commitSha256, f10, Some(8), 1, 2);
    TextField(8, b.resultingGroupInfoSha256, f9, Some(7), 2, 4);
    TextField(7, b.inputGroupInfoSha256, f8, Some(6), 3, 6);
    LeafField(6, b.author, f7, Some(5), 4, 8);
    LeafField(5, b.oldLeaf, f6, Some(4), 5, 16);
    StateField(4, a.resultingState, f5, Some(3), 6, 24);
    StateField(3, b.previousState, f4, Some(2), 7, 32);
    TextField(2, b.transition.contextSha256, f3, Some(1), 8, 40);
    TextField(1, b.transition.commandId, f2, Some(0), 9, 42);
    TextField(0, b.candidateId, f1, None, 10, 44);
    DictFits(f0, 11, 5, 46);
    FitsCount(f0, None, 11, 5, 46);
  }

  /** A field one level deeper than the version 2 fields reach. */
  lemma DeepField(key: nat, t: Tree, more: Fields, previous: Option<nat>, count: nat, nodes: nat, size: nat)
    requires key < 0x100 && Shaped(t) && Height(t) <= 5 && Nodes(t) <= size
    requires (previous.Some? ==> previous.value < key) && Fits(more, Some(key), count, 6, nodes)
    ensures Fits(Field(key, t, more), previous, count + 1, 6, nodes + 1 + size)
  {
    hide Fits, Shaped, Height, Nodes;
    FieldFits(key, t, more, previous, count, 6, nodes, size);
  }

  lemma ExternalFits(sha: Hash, r: External, t: Tree)
    requires CheckExternal(sha, r).Ok? && StorageFits(t)
    ensures Count(ExternalFieldsWith(r, t)) == 10 && InProfile(Dict(ExternalFieldsWith(r, t)))
  {
    hide Fits, Shaped, Height, Nodes, PendingTree, AcceptanceFields, CheckAcceptance, CheckPending;
    var f0 := ExternalFieldsWith(r, t);
    var f1 := f0.more; var f2 := f1.more; var f3 := f2.more; var f4 := f3.more;
    var f5 := f4.more; var f6 := f5.more; var f7 := f6.more; var f8 := f7.more; var f9 := f8.more;
    NothingFits(Some(9), 6);
    DeepField(9, t, End, Some(8), 0, 0, 28700);
    PendingTreeFits(r.superseded);
    DeepField(8, PendingTree(r.superseded), f9, Some(7), 1, 28701, 33);
    AcceptanceFits(r.acceptance);
    DeepField(7, Dict(AcceptanceFields(r.acceptance)), f8, Some(6), 2, 28735, 47);
    SmallFits(r.retention, r.baseSha256);
    DeepField(6, Number(r.retention), f7, Some(5), 3, 28783, 1);
    DeepField(5, Text(r.baseSha256), f6, Some(4), 4, 28785, 1);
    SmallFits(0, r.aad);
    DeepField(4, Text(r.aad), f5, Some(3), 5, 28787, 1);
    SmallFits(0, r.commit);
    DeepField(3, Text(r.commit), f4, Some(2), 6, 28789, 1);
    SmallFits(0, r.incarnationId);
    DeepField(2, Text(r.incarnationId), f3, Some(1), 7, 28791, 1);
    SmallFits(r.profile, r.groupId);
    DeepField(1, Text(r.groupId), f2, Some(0), 8, 28793, 1);
    DeepField(0, Number(r.profile), f1, None, 9, 28795, 1);
    DictFits(f0, 10, 6, 28797);
    FitsCount(f0, None, 10, 6, 28797);
  }

  lemma PendingTreeFits(p: Option<PendingBinding>)
    requires p.Some? ==> CheckPending(p.value).Ok?
    ensures var t := PendingTree(p); Shaped(t) && Height(t) <= 5 && Nodes(t) <= 33
  {
    hide Shaped, Height, Nodes, PendingFields, CheckPending;
    SmallFits(0, []);
    if p.Some? {
      PendingFits(p.value);
    }
  }

  lemma InspectFits(r: Inspect, t: Tree)
    requires CheckInspect(r).Ok? && StorageFits(t)
    ensures Count(InspectFieldsWith(r, t)) == 7 && InProfile(Dict(InspectFieldsWith(r, t)))
  {
    hide Fits, Shaped, Height, Nodes, StorageFits, StateTree, CheckState;
    var f0 := InspectFieldsWith(r, t);
    var f1 := f0.more; var f2 := f1.more; var f3 := f2.more; var f4 := f3.more; var f5 := f4.more; var f6 := f5.more;
    NothingFits(Some(6), 5);
    StorageField(6, t, End, Some(5), 0, 0);
    NumberField(5, r.retention, f6, Some(4), 1, 28701);
    TextField(4, r.baseSha256, f5, Some(3), 2, 28703);
    StateField(3, r.current, f4, Some(2), 3, 28705);
    TextField(2, r.incarnationId, f3, Some(1), 4, 28713);
    TextField(1, r.groupId, f2, Some(0), 5, 28715);
    NumberField(0, r.profile, f1, None, 6, 28717);
    DictFits(f0, 7, 5, 28719);
    FitsCount(f0, None, 7, 5, 28719);
  }

  // ---------------------------------------------------------------- the frame limit never binds

  lemma OptionalSize(key: nat, d: Option<Bytes>, more: Fields, b: nat)
    requires CheckOptionalHash(d).Ok? && |EncEntries(more)| <= b
    ensures |EncEntries(Field(key, OptionalTree(d), more))| <= 50 + b
  {
    hide EncEntries, Enc;
    SmallSize(0, if d.Some? then d.value else []);
    FieldSize(key, OptionalTree(d), more, 41, b);
  }

  lemma PendingSize(p: PendingBinding)
    requires CheckPending(p).Ok?
    ensures |Enc(Dict(PendingFields(p)))| <= 2000
  {
    hide EncEntries, Head, StateTree, LeafTree, CheckState, CheckLeaf, OptionalTree;
    var f0 := PendingFields(p);
    var f1 := f0.more; var f2 := f1.more; var f3 := f2.more; var f4 := f3.more; var f5 := f4.more;
    var f6 := f5.more; var f7 := f6.more; var f8 := f7.more; var f9 := f8.more;
    assert |EncEntries(End)| == 0 by { NoEntries([]); }
    OptionalSize(9, p.groupInfoSha256, End, 0);
    OptionalSize(8, p.welcomeSha256, f9, 50);
    TextSize(7, p.aadSha256, f8, 100);
    TextSize(6, p.commitSha256, f7, 200);
    StateSize(p.previousState);
    FieldSize(5, StateTree(p.previousState), f6, 140, 300);
    LeafSize(p.author);
    FieldSize(4, LeafTree(p.author), f5, 140, 500);
    TextSize(3, p.transition.contextSha256, f4, 700);
    TextSize(2, p.transition.commandId, f3, 800);
    TextSize(1, p.incarnationId, f2, 1000);
    TextSize(0, p.groupId, f1, 1200);
    HeadSize(MAP, Count(f0));
  }

  lemma AcceptanceSize(a: Acceptance)
    requires CheckAcceptance(a).Ok?
    ensures |Enc(Dict(AcceptanceFields(a)))| <= 2000
  {
    hide EncEntries, Head, StateTree, LeafTree, CheckState, CheckLeaf;
    var b := a.binding;
    var f0 := AcceptanceFields(a);
    var f1 := f0.more; var f2 := f1.more; var f3 := f2.more; var f4 := f3.more; var f5 := f4.more;
    var f6 := f5.more; var f7 := f6.more; var f8 := f7.more; var f9 := f8.more; var f10 := f9.more;
    assert |EncEntries(End)| == 0 by { NoEntries([]); }
    TextSize(10, b.aadSha256, End, 0);
    TextSize(9, b.commitSha256, f10, 50);
    TextSize(8, b.resultingGroupInfoSha256, f9, 100);
    TextSize(7, b.inputGroupInfoSha256, f8, 150);
    LeafSize(b.author);
    FieldSize(6, LeafTree(b.author), f7, 140, 200);
    LeafSize(b.oldLeaf);
    FieldSize(5, LeafTree(b.oldLeaf), f6, 140, 400);
    StateSize(a.resultingState);
    FieldSize(4, StateTree(a.resultingState), f5, 140, 600);
    StateSize(b.previousState);
    FieldSize(3, StateTree(b.previousState), f4, 140, 800);
    TextSize(2, b.transition.contextSha256, f3, 1000);
    TextSize(1, b.transition.commandId, f2, 1100);
    TextSize(0, b.candidateId, f1, 1300);
    HeadSize(MAP, Count(f0));
  }

  lemma PendingTreeSize(p: Option<PendingBinding>)
    requires p.Some? ==> CheckPending(p.value).Ok?
    ensures |Enc(PendingTree(p))| <= 2000
  {
    hide PendingFields, CheckPending;
    SmallSize(0, []);
    if p.Some? {
      PendingSize(p.value);
    }
  }

  lemma ExternalSize(sha: Hash, r: External)
    requires CheckExternal(sha, r).Ok? && CheckSnapshot(r.storage, Some(r.groupId)).Ok?
    ensures HEADER + |Enc(Dict(ExternalFields(r)))| <= REQUEST_MAX
  {
    hide EncEntries, Head, SnapshotTree, PendingTree, AcceptanceFields, CheckSnapshot, CheckAcceptance, CheckPending;
    var f0 := ExternalFields(r);
    var f1 := f0.more; var f2 := f1.more; var f3 := f2.more; var f4 := f3.more;
    var f5 := f4.more; var f6 := f5.more; var f7 := f6.more; var f8 := f7.more; var f9 := f8.more;
    var n := 6 * MIB + 300000;
    assert |EncEntries(End)| == 0 by { NoEntries([]); }
    SnapshotSize(r.storage, Some(r.groupId));
    FieldSize(9, SnapshotTree(r.storage), End, n, 0);
    PendingTreeSize(r.superseded);
    FieldSize(8, PendingTree(r.superseded), f9, 2000, n + 9);
    AcceptanceSize(r.acceptance);
    FieldSize(7, Dict(AcceptanceFields(r.acceptance)), f8, 2000, n + 2100);
    NumberSize(6, r.retention, f7, n + 4200);
    TextSize(5, r.baseSha256, f6, n + 4300);
    TextSize(4, r.aad, f5, n + 4400);
    TextSize(3, r.commit, f4, n + 21000);
    TextSize(2, r.incarnationId, f3, n + MIB + 22000);
    TextSize(1, r.groupId, f2, n + MIB + 23000);
    NumberSize(0, r.profile, f1, n + MIB + 24000);
    HeadSize(MAP, Count(f0));
  }

  lemma InspectSize(r: Inspect)
    requires CheckInspect(r).Ok? && CheckSnapshot(r.storage, Some(r.groupId)).Ok?
    ensures HEADER + |Enc(Dict(InspectFields(r)))| <= REQUEST_MAX
  {
    hide EncEntries, Head, SnapshotTree, StateTree, CheckSnapshot, CheckState;
    var f0 := InspectFields(r);
    var f1 := f0.more; var f2 := f1.more; var f3 := f2.more; var f4 := f3.more; var f5 := f4.more; var f6 := f5.more;
    var n := 6 * MIB + 300000;
    assert |EncEntries(End)| == 0 by { NoEntries([]); }
    SnapshotSize(r.storage, Some(r.groupId));
    FieldSize(6, SnapshotTree(r.storage), End, n, 0);
    NumberSize(5, r.retention, f6, n + 9);
    TextSize(4, r.baseSha256, f5, n + 100);
    StateSize(r.current);
    FieldSize(3, StateTree(r.current), f4, 140, n + 200);
    TextSize(2, r.incarnationId, f3, n + 400);
    TextSize(1, r.groupId, f2, n + 600);
    NumberSize(0, r.profile, f1, n + 700);
    HeadSize(MAP, Count(f0));
  }

  // ---------------------------------------------------------------- main results

  /** Only the checks on fields and storage make the version 3 encoder fail: the 12 MiB frame always suffices. */
  lemma EncoderFailsOnlyOnFields3(sha: Hash, r: Request3)
    ensures EncodeRequest3(sha, r).Ok? <==>
              match r
              case Member(m) => CheckRequest(m).Ok?
              case Accept(x) => CheckExternal(sha, x).Ok? && CheckSnapshot(x.storage, Some(x.groupId)).Ok?
              case InspectPending(i) => CheckInspect(i).Ok? && CheckSnapshot(i.storage, Some(i.groupId)).Ok?
  {
    hide CheckRequest, CheckExternal, CheckInspect, CheckSnapshot, Enc, EncodeRequest, Restamp;
    match r {
      case Member(m) =>
        EncoderFailsOnlyOnFields(m);
      case Accept(x) =>
        if CheckExternal(sha, x).Ok? && CheckSnapshot(x.storage, Some(x.groupId)).Ok? {
          ExternalSize(sha, x);
        }
      case InspectPending(i) =>
        if CheckInspect(i).Ok? && CheckSnapshot(i.storage, Some(i.groupId)).Ok? {
          InspectSize(i);
        }
    }
  }

  /**
   * Decoding inverts encoding for every operation, up to the order of the storage rows. The acceptance's
   * incarnation id is not sent, and still returns, because validation forces the two copies to agree.
   */
  lemma DecodeInvertsEncode3(sha: Hash, r: Request3)
    requires EncodeRequest3(sha, r).Ok?
    ensures DecodeRequest3(sha, EncodeRequest3(sha, r).value) == Ok(Canonical3(r))
  {
    match r {
      case Member(m) => MemberRoundTrip(sha, m);
      case Accept(x) => ExternalRoundTrip(sha, x);
      case InspectPending(i) => InspectRoundTrip(sha, i);
    }
  }

  lemma MemberRoundTrip(sha: Hash, m: Request)
    requires EncodeRequest(m).Ok?
    ensures DecodeRequest3(sha, Restamp(EncodeRequest(m).value)) == Ok(Member(Canonical(m)))
  {
    hide DecodeRequest3, DecodeRequest, Canonical, CheckRequest, RequestTree, Enc;
    var frame := EncodeRequest(m).value;
    DecodeInvertsEncode(m);
    assert frame[4..6] == BE(2, 2) && 1 <= frame[6] <= 3 by { FrameStamp(2, Opcode(m), Enc(RequestTree(m))); }
    RestampMeansTheSame(sha, frame);
  }

  lemma FrameStamp(version: u16, op: byte, payload: Bytes)
    ensures var f := Frame(version, op, payload); |f| >= HEADER && f[4..6] == BE(2, version) && f[6] == op
  {
    var f := Frame(version, op, payload);
    assert f[4..6] == BE(2, version);
  }

  /** A checked request is decoded from its frame, in whatever order its rows are sent. */
  lemma ExternalWireDecodes(sha: Hash, x: External, rows: seq<StorageEntry>)
    requires CheckExternal(sha, x).Ok? && Receivable(rows, Some(x.groupId)) && x.storage == Snapshot(1, SortBy(EntryKey, rows))
    requires HEADER + |Enc(Dict(ExternalFieldsWith(x, WireTree(1, rows))))| <= REQUEST_MAX
    ensures DecodeRequest3(sha, Frame(3, 4, Enc(Dict(ExternalFieldsWith(x, WireTree(1, rows)))))) == Ok(Accept(x))
  {
    hide Enc, DecodeHeader, Frame, Recognise, GetExternal, ExternalFieldsWith, CheckExternal, Receivable, WireTree, SortBy, Count, InProfile,
         RowInBounds, Volume, Shaped, Height, Nodes;
    var payload := Enc(Dict(ExternalFieldsWith(x, WireTree(1, rows))));
    HeaderReads(3, 4, payload);
    ReceivableFits(rows, Some(x.groupId));
    ExternalFits(sha, x, WireTree(1, rows));
    AcceptsExactlyTheProfile(payload);
    assert payload + [] == payload;
    ExternalReads(sha, x, rows, []);
  }

  lemma ReceivableFits(rows: seq<StorageEntry>, expected: Option<Bytes>)
    requires Receivable(rows, expected)
    ensures StorageFits(WireTree(1, rows))
  {
    hide RowInBounds, Volume, Shaped, Height, Nodes, WireTree;
    WireFits(rows);
  }

  lemma InspectWireDecodes(sha: Hash, i: Inspect, rows: seq<StorageEntry>)
    requires CheckInspect(i).Ok? && Receivable(rows, Some(i.groupId)) && i.storage == Snapshot(1, SortBy(EntryKey, rows))
    requires HEADER + |Enc(Dict(InspectFieldsWith(i, WireTree(1, rows))))| <= REQUEST_MAX
    ensures DecodeRequest3(sha, Frame(3, 5, Enc(Dict(InspectFieldsWith(i, WireTree(1, rows)))))) == Ok(InspectPending(i))
  {
    hide Enc, DecodeHeader, Frame, Recognise, GetInspect, InspectFieldsWith, CheckInspect, Receivable, WireTree, SortBy, Count, InProfile,
         RowInBounds, Volume, Shaped, Height, Nodes;
    var payload := Enc(Dict(InspectFieldsWith(i, WireTree(1, rows))));
    HeaderReads(3, 5, payload);
    ReceivableFits(rows, Some(i.groupId));
    InspectFits(i, WireTree(1, rows));
    AcceptsExactlyTheProfile(payload);
    assert payload + [] == payload;
    InspectReads(i, rows, []);
  }

  /** Sorting the rows changes nothing else that is sent or checked. */
  lemma SortedSends(sha: Hash, x: External)
    requires CheckExternal(sha, x).Ok? && CheckSnapshot(x.storage, Some(x.groupId)).Ok?
    ensures var (rows, y) := (SortBy(EntryKey, x.storage.entries), x.(storage := SortedSnapshot(x.storage)));
            && CheckExternal(sha, y).Ok? && Receivable(rows, Some(y.groupId)) && y.storage == Snapshot(1, SortBy(EntryKey, rows))
            && ExternalFields(x) == ExternalFieldsWith(y, WireTree(1, rows))
  {
    hide CheckSnapshot, SortBy, Receivable, WireTree, CheckAcceptance, CheckPending, PendingTree, AcceptanceFields;
    SortedIsReceivable(x.storage, Some(x.groupId));
  }

  lemma ExternalRoundTrip(sha: Hash, x: External)
    requires EncodeRequest3(sha, Accept(x)).Ok?
    ensures DecodeRequest3(sha, EncodeRequest3(sha, Accept(x)).value) == Ok(Canonical3(Accept(x)))
  {
    hide Enc, Frame, DecodeRequest3, ExternalFields, ExternalFieldsWith, CheckExternal, CheckSnapshot, Receivable, WireTree, SortBy;
    SortedSends(sha, x);
    ExternalWireDecodes(sha, x.(storage := SortedSnapshot(x.storage)), SortBy(EntryKey, x.storage.entries));
  }

  lemma SortedInspects(i: Inspect)
    requires CheckInspect(i).Ok? && CheckSnapshot(i.storage, Some(i.groupId)).Ok?
    ensures var (rows, y) := (SortBy(EntryKey, i.storage.entries), i.(storage := SortedSnapshot(i.storage)));
            && CheckInspect(y).Ok? && Receivable(rows, Some(y.groupId)) && y.storage == Snapshot(1, SortBy(EntryKey, rows))
            && InspectFields(i) == InspectFieldsWith(y, WireTree(1, rows))
  {
    hide CheckSnapshot, SortBy, Receivable, WireTree, CheckState, StateTree;
    SortedIsReceivable(i.storage, Some(i.groupId));
  }

  lemma InspectRoundTrip(sha: Hash, i: Inspect)
    requires EncodeRequest3(sha, InspectPending(i)).Ok?
    ensures DecodeRequest3(sha, EncodeRequest3(sha, InspectPending(i)).value) == Ok(Canonical3(InspectPending(i)))
  {
    hide Enc, Frame, DecodeRequest3, InspectFields, InspectFieldsWith, CheckInspect, CheckSnapshot, Receivable, WireTree, SortBy;
    SortedInspects(i);
    InspectWireDecodes(sha, i.(storage := SortedSnapshot(i.storage)), SortBy(EntryKey, i.storage.entries));
  }
}
