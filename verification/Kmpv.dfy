/** KMPV frames: the public validator's requests, read leniently and accepted only when writing them again gives the input. */
module Kmpv {
  import opened Foundation
  import opened ExternalErrors
  import opened MlsTypes
  import opened Cbor
  import opened ExternalDelta
  import L = LocalCodec

  const VERSION := 1
  const REQUEST_MAX_BYTES := 4 * MIB
  const HEADER := 12
  const MAX_MLS_BYTES := MIB
  const MAX_AAD_BYTES := 16 * 1024
  const MAGIC: Bytes := Ascii("KMPV")

  datatype SnapshotRequest = SnapshotRequest(
    profile: u16, groupInfo: Bytes, sha256: Bytes, expected: ExpectedState, expectedSigner: Leaf)

  datatype SuccessorRequest = SuccessorRequest(
    base: SnapshotRequest, commit: Bytes, commitSha256: Bytes, expectedAad: Bytes, authorizedOld: Leaf,
    newIdentity: Bytes, newSignatureKey: Bytes, nextGroupInfo: Bytes, nextSha256: Bytes)

  datatype Request = Snapshot(snapshot: SnapshotRequest) | Successor(successor: SuccessorRequest)

  // ---------------------------------------------------------------- bounds

  predicate GoodState(s: ExpectedState) {
    |s.groupId| == 16 && |s.digest| == 32
  }

  predicate SmallLeaf(l: Leaf) {
    l.index <= 255 && |l.identity| == 45 && |l.signatureKey| == 32
  }

  predicate SnapshotInBounds(r: SnapshotRequest) {
    Within(r.groupInfo, 1, 1048576) && |r.sha256| == 32 && GoodState(r.expected) && SmallLeaf(r.expectedSigner)
  }

  predicate SuccessorInBounds(r: SuccessorRequest) {
    && SnapshotInBounds(r.base) && Within(r.commit, 1, 1048576) && |r.commitSha256| == 32
    && Within(r.expectedAad, 1, 16384) && SmallLeaf(r.authorizedOld) && |r.newIdentity| == 45
    && |r.newSignatureKey| == 32 && Within(r.nextGroupInfo, 1, 1048576) && |r.nextSha256| == 32
  }

  predicate InBounds(r: Request) {
    match r
    case Snapshot(s) => SnapshotInBounds(s)
    case Successor(s) => SuccessorInBounds(s)
  }

  // ---------------------------------------------------------------- encoder

  function SnapshotItems(r: SnapshotRequest): seq<Tree> {
    var t := [L.LeafTree(r.expectedSigner)];
    var t := [L.StateTree(r.expected)] + t;
    var t := [Text(r.sha256)] + t;
    var t := [Text(r.groupInfo)] + t;
    [Number(r.profile)] + t
  }

  function SuccessorItems(r: SuccessorRequest): seq<Tree> {
    var t := [Text(r.nextSha256)];
    var t := [Text(r.nextGroupInfo)] + t;
    var t := [Text(r.newSignatureKey)] + t;
    var t := [Text(r.newIdentity)] + t;
    var t := [L.LeafTree(r.authorizedOld)] + t;
    var t := [Text(r.expectedAad)] + t;
    var t := [Text(r.commitSha256)] + t;
    var t := [Text(r.commit)] + t;
    [List(SnapshotItems(r.base))] + t
  }

  function Payload(r: Request): Bytes {
    match r
    case Snapshot(s) => Enc(List(SnapshotItems(s)))
    case Successor(s) => Enc(List(SuccessorItems(s)))
  }

  function Operation(r: Request): byte {
    if r.Snapshot? then 1 else 2
  }

  function Frame(operation: byte, payload: Bytes): Bytes {
    MAGIC + BE(2, VERSION) + [operation] + [0] + BE(4, |payload|) + payload
  }

  function Encode(r: Request): Result<Bytes, ExternalError> {
    var payload := Payload(r);
    if |payload| > REQUEST_MAX_BYTES - HEADER then Err(LimitExceeded) else Ok(Frame(Operation(r), payload))
  }

  // ---------------------------------------------------------------- lenient reader

  function GetArray(n: nat, s: Bytes): Result<Bytes, ExternalError> {
    match ReadLength(ARRAY, s)
    case Some((Some(m), k)) => if m == n then Ok(k) else Err(InvalidFrame)
    case _ => Err(InvalidFrame)
  }

  function GetBytes(minimum: nat, maximum: nat, s: Bytes): (r: Result<(Bytes, Bytes), ExternalError>)
    ensures r.Ok? ==> Within(r.value.0, minimum, maximum)
  {
    match ReadBlob(s)
    case None => Err(InvalidFrame)
    case Some((d, k)) => if Within(d, minimum, maximum) then Ok((d, k)) else Err(LimitExceeded)
  }

  function GetNumber(limit: nat, s: Bytes): (r: Result<(nat, Bytes), ExternalError>)
    ensures r.Ok? ==> r.value.0 < limit
  {
    match ReadUint(s, limit)
    case None => Err(InvalidFrame)
    case Some(v) => Ok(v)
  }

  function GetLeaf(s: Bytes): (r: Result<(Leaf, Bytes), ExternalError>)
    ensures r.Ok? ==> Bounded(r.value.0)
  {
    var k :- GetArray(3, s);
    var (index, k) :- GetNumber(L.U32, k);
    var (identity, k) :- GetBytes(45, 45, k);
    var (signatureKey, k) :- GetBytes(32, 32, k);
    var l := Leaf(index, identity, signatureKey);
    var _ :- Need(Bounded(l), LimitExceeded);
    Ok((l, k))
  }

  function GetState(s: Bytes): (r: Result<(ExpectedState, Bytes), ExternalError>)
    ensures r.Ok? ==> GoodState(r.value.0)
  {
    var k :- GetArray(3, s);
    var (groupId, k) :- GetBytes(16, 16, k);
    var (epoch, k) :- GetNumber(L.U64, k);
    var (digest, k) :- GetBytes(32, 32, k);
    Ok((ExpectedState(groupId, epoch, digest), k))
  }

  function GetSnapshot(s: Bytes): (r: Result<(SnapshotRequest, Bytes), ExternalError>)
    ensures r.Ok? ==> SnapshotInBounds(r.value.0)
  {
    var k :- GetArray(5, s);
    var (profile, k) :- GetNumber(L.U16, k);
    var (groupInfo, k) :- GetBytes(1, MAX_MLS_BYTES, k);
    var (sha256, k) :- GetBytes(32, 32, k);
    var (expected, k) :- GetState(k);
    var (signer, k) :- GetLeaf(k);
    Ok((SnapshotRequest(profile, groupInfo, sha256, expected, signer), k))
  }

  function GetSuccessor(s: Bytes): (r: Result<(SuccessorRequest, Bytes), ExternalError>)
    ensures r.Ok? ==> SuccessorInBounds(r.value.0)
  {
    var k :- GetArray(9, s);
    var (base, k) :- GetSnapshot(k);
    var (commit, k) :- GetBytes(1, MAX_MLS_BYTES, k);
    var (commitSha256, k) :- GetBytes(32, 32, k);
    var (aad, k) :- GetBytes(1, MAX_AAD_BYTES, k);
    var (outgoing, k) :- GetLeaf(k);
    var (identity, k) :- GetBytes(45, 45, k);
    var (signatureKey, k) :- GetBytes(32, 32, k);
    var (next, k) :- GetBytes(1, MAX_MLS_BYTES, k);
    var (nextSha256, k) :- GetBytes(32, 32, k);
    Ok((SuccessorRequest(base, commit, commitSha256, aad, outgoing, identity, signatureKey, next, nextSha256), k))
  }

  function GetRequest(operation: byte, s: Bytes): (r: Result<(Request, Bytes), ExternalError>)
    ensures r.Ok? ==> InBounds(r.value.0) && Operation(r.value.0) == operation
  {
    if operation == 1 then
      var (s, k) :- GetSnapshot(s);
      Ok((Snapshot(s), k))
    else if operation == 2 then
      var (s, k) :- GetSuccessor(s);
      Ok((Successor(s), k))
    else Err(UnsupportedOperation)
  }

  function Decode(input: Bytes): Result<Request, ExternalError> {
    if |input| > REQUEST_MAX_BYTES then Err(LimitExceeded)
    else if |input| < HEADER || input[..4] != MAGIC || input[7] != 0 then Err(InvalidFrame)
    else if FromBE(input[4..6]) != VERSION then Err(UnsupportedVersion)
    else if FromBE(input[8..12]) != |input| - HEADER then Err(InvalidFrame)
    else
      var (r, rest) :- GetRequest(input[6], input[HEADER..]);
      if rest != [] then Err(InvalidFrame)
      else if Payload(r) != input[HEADER..] then Err(NoncanonicalEncoding)
      else Ok(r)
  }

  // ---------------------------------------------------------------- each reader inverts its writer

  lemma TextReads(d: Bytes, minimum: nat, maximum: nat, ts: seq<Tree>, k: Bytes)
    requires Within(d, minimum, maximum) && maximum < L.U64
    ensures GetBytes(minimum, maximum, EncItems([Text(d)] + ts) + k) == Ok((d, EncItems(ts) + k))
  {
    hide EncItems, ReadBlob;
    ItemBytes(Text(d), ts, k);
    ReadsBack();
  }

  lemma NumberReads(n: nat, limit: nat, ts: seq<Tree>, k: Bytes)
    requires n < limit <= L.U64
    ensures GetNumber(limit, EncItems([Number(n)] + ts) + k) == Ok((n, EncItems(ts) + k))
  {
    hide EncItems, ReadUint;
    ItemBytes(Number(n), ts, k);
    ReadsBack();
  }

  lemma ArrayReads(ts: seq<Tree>, n: nat, k: Bytes)
    requires |ts| == n < L.U64
    ensures GetArray(n, Enc(List(ts)) + k) == Ok(EncItems(ts) + k)
  {
    hide Enc, EncItems, ReadLength;
    ListBytes(ts, k);
    ReadsBack();
  }

  lemma LeafReads(l: Leaf, k: Bytes)
    requires Bounded(l)
    ensures GetLeaf(Enc(L.LeafTree(l)) + k) == Ok((l, k))
  {
    hide Enc, EncItems, GetArray, GetNumber, GetBytes;
    var t2 := [Text(l.signatureKey)];
    var t1 := [Text(l.identity)] + t2;
    ArrayReads([Number(l.index)] + t1, 3, k);
    NumberReads(l.index, L.U32, t1, k);
    TextReads(l.identity, 45, 45, t2, k);
    assert t2 == t2 + [];
    TextReads(l.signatureKey, 32, 32, [], k);
    L.NoItems(k);
  }

  lemma StateReads(s: ExpectedState, k: Bytes)
    requires GoodState(s)
    ensures GetState(Enc(L.StateTree(s)) + k) == Ok((s, k))
  {
    hide Enc, EncItems, GetArray, GetNumber, GetBytes;
    var t2 := [Text(s.digest)];
    var t1 := [Number(s.epoch)] + t2;
    ArrayReads([Text(s.groupId)] + t1, 3, k);
    TextReads(s.groupId, 16, 16, t1, k);
    NumberReads(s.epoch, L.U64, t2, k);
    assert t2 == t2 + [];
    TextReads(s.digest, 32, 32, [], k);
    L.NoItems(k);
  }

  lemma SnapshotReads(r: SnapshotRequest, k: Bytes)
    requires SnapshotInBounds(r)
    ensures GetSnapshot(Enc(List(SnapshotItems(r))) + k) == Ok((r, k))
  {
    hide Enc, EncItems, GetArray, GetNumber, GetBytes, GetLeaf, GetState, L.LeafTree, L.StateTree;
    var t4 := [L.LeafTree(r.expectedSigner)];
    var t3 := [L.StateTree(r.expected)] + t4;
    var t2 := [Text(r.sha256)] + t3;
    var t1 := [Text(r.groupInfo)] + t2;
    ArrayReads([Number(r.profile)] + t1, 5, k);
    NumberReads(r.profile, L.U16, t1, k);
    TextReads(r.groupInfo, 1, MAX_MLS_BYTES, t2, k);
    TextReads(r.sha256, 32, 32, t3, k);
    ItemBytes(L.StateTree(r.expected), t4, k);
    StateReads(r.expected, EncItems(t4) + k);
    assert t4 == t4 + [];
    ItemBytes(L.LeafTree(r.expectedSigner), [], k);
    L.NoItems(k);
    LeafReads(r.expectedSigner, k);
  }

  lemma SuccessorReads(r: SuccessorRequest, k: Bytes)
    requires SuccessorInBounds(r)
    ensures GetSuccessor(Enc(List(SuccessorItems(r))) + k) == Ok((r, k))
  {
    hide Enc, EncItems, GetArray, GetBytes, GetLeaf, GetSnapshot, SnapshotItems, SnapshotInBounds, L.LeafTree;
    var t8 := [Text(r.nextSha256)];
    var t7 := [Text(r.nextGroupInfo)] + t8;
    var t6 := [Text(r.newSignatureKey)] + t7;
    var t5 := [Text(r.newIdentity)] + t6;
    var t4 := [L.LeafTree(r.authorizedOld)] + t5;
    var t3 := [Text(r.expectedAad)] + t4;
    var t2 := [Text(r.commitSha256)] + t3;
    var t1 := [Text(r.commit)] + t2;
    ArrayReads([List(SnapshotItems(r.base))] + t1, 9, k);
    ItemBytes(List(SnapshotItems(r.base)), t1, k);
    SnapshotReads(r.base, EncItems(t1) + k);
    TextReads(r.commit, 1, MAX_MLS_BYTES, t2, k);
    TextReads(r.commitSha256, 32, 32, t3, k);
    TextReads(r.expectedAad, 1, MAX_AAD_BYTES, t4, k);
    ItemBytes(L.LeafTree(r.authorizedOld), t5, k);
    LeafReads(r.authorizedOld, EncItems(t5) + k);
    TextReads(r.newIdentity, 45, 45, t6, k);
    TextReads(r.newSignatureKey, 32, 32, t7, k);
    TextReads(r.nextGroupInfo, 1, MAX_MLS_BYTES, t8, k);
    assert t8 == t8 + [];
    TextReads(r.nextSha256, 32, 32, [], k);
    L.NoItems(k);
  }

  lemma RequestReads(r: Request)
    requires InBounds(r)
    ensures GetRequest(Operation(r), Payload(r)) == Ok((r, []))
  {
    hide Enc, GetSnapshot, GetSuccessor, SnapshotItems, SuccessorItems, SnapshotInBounds, SuccessorInBounds;
    assert Payload(r) + [] == Payload(r);
    match r
    case Snapshot(s) => SnapshotReads(s, []);
    case Successor(s) => SuccessorReads(s, []);
  }

  // ---------------------------------------------------------------- sizes

  lemma SnapshotSize(r: SnapshotRequest)
    requires SnapshotInBounds(r)
    ensures |Enc(List(SnapshotItems(r)))| <= MAX_MLS_BYTES + 500
  {
    hide Enc, EncItems, L.LeafTree, L.StateTree;
    var t4 := [L.LeafTree(r.expectedSigner)];
    var t3 := [L.StateTree(r.expected)] + t4;
    var t2 := [Text(r.sha256)] + t3;
    var t1 := [Text(r.groupInfo)] + t2;
    L.ListSize([Number(r.profile)] + t1);
    L.ItemSize(Number(r.profile), t1);
    L.ScalarSize(Number(r.profile));
    L.ItemSize(Text(r.groupInfo), t2);
    L.ScalarSize(Text(r.groupInfo));
    L.ItemSize(Text(r.sha256), t3);
    L.ScalarSize(Text(r.sha256));
    L.ItemSize(L.StateTree(r.expected), t4);
    L.StateSize(r.expected);
    assert t4 == t4 + [];
    L.ItemSize(L.LeafTree(r.expectedSigner), []);
    L.LeafSize(r.expectedSigner);
    L.NoItems([]);
  }

  lemma SuccessorSize(r: SuccessorRequest)
    requires SuccessorInBounds(r)
    ensures |Enc(List(SuccessorItems(r)))| <= 3 * MAX_MLS_BYTES + MAX_AAD_BYTES + 1500
  {
    hide Enc, EncItems, SnapshotItems, SnapshotInBounds, L.LeafTree;
    var t8 := [Text(r.nextSha256)];
    var t7 := [Text(r.nextGroupInfo)] + t8;
    var t6 := [Text(r.newSignatureKey)] + t7;
    var t5 := [Text(r.newIdentity)] + t6;
    var t4 := [L.LeafTree(r.authorizedOld)] + t5;
    var t3 := [Text(r.expectedAad)] + t4;
    var t2 := [Text(r.commitSha256)] + t3;
    var t1 := [Text(r.commit)] + t2;
    L.ListSize([List(SnapshotItems(r.base))] + t1);
    L.ItemSize(List(SnapshotItems(r.base)), t1);
    SnapshotSize(r.base);
    L.ItemSize(Text(r.commit), t2);
    L.ScalarSize(Text(r.commit));
    L.ItemSize(Text(r.commitSha256), t3);
    L.ScalarSize(Text(r.commitSha256));
    L.ItemSize(Text(r.expectedAad), t4);
    L.ScalarSize(Text(r.expectedAad));
    L.ItemSize(L.LeafTree(r.authorizedOld), t5);
    L.LeafSize(r.authorizedOld);
    L.ItemSize(Text(r.newIdentity), t6);
    L.ScalarSize(Text(r.newIdentity));
    L.ItemSize(Text(r.newSignatureKey), t7);
    L.ScalarSize(Text(r.newSignatureKey));
    L.ItemSize(Text(r.nextGroupInfo), t8);
    L.ScalarSize(Text(r.nextGroupInfo));
    assert t8 == t8 + [];
    L.ItemSize(Text(r.nextSha256), []);
    L.ScalarSize(Text(r.nextSha256));
    L.NoItems([]);
  }

  // ---------------------------------------------------------------- main results

  /** The 4 MiB limit never stops a request whose fields are in bounds. */
  lemma EncodeNeverHitsTheLimit(r: Request)
    requires InBounds(r)
    ensures Encode(r) == Ok(Frame(Operation(r), Payload(r)))
  {
    hide Enc, SnapshotItems, SuccessorItems, SnapshotInBounds, SuccessorInBounds, Frame;
    match r
    case Snapshot(s) => SnapshotSize(s);
    case Successor(s) => SuccessorSize(s);
  }

  /** The fields of a frame, by position. */
  lemma FrameParts(operation: byte, payload: Bytes)
    requires |payload| < 0x1_0000_0000
    ensures var f := Frame(operation, payload);
            && |f| == HEADER + |payload| && f[..4] == MAGIC && FromBE(f[4..6]) == VERSION
            && f[6] == operation && f[7] == 0 && FromBE(f[8..12]) == |payload| && f[HEADER..] == payload
  {
    hide BE, FromBE, Ascii;
    PowValues();
    FromBEInvertsBE(2, VERSION);
    FromBEInvertsBE(4, |payload|);
    var f := Frame(operation, payload);
    assert f[4..6] == BE(2, VERSION) && f[8..12] == BE(4, |payload|);
  }

  lemma FrameIsDetermined(input: Bytes)
    requires |input| >= HEADER && input[..4] == MAGIC && input[7] == 0 && FromBE(input[4..6]) == VERSION
    requires FromBE(input[8..12]) == |input| - HEADER
    ensures input == Frame(input[6], input[HEADER..])
  {
    hide BE, FromBE, Ascii;
    BEInvertsFromBE(input[4..6]);
    BEInvertsFromBE(input[8..12]);
    assert |input[HEADER..]| == |input| - HEADER;
    assert input == input[..4] + input[4..6] + [input[6]] + [input[7]] + input[8..12] + input[HEADER..];
  }

  /** Decoding accepts exactly the frames the encoder makes of requests whose fields are in bounds. */
  lemma DecodeIffEncode(input: Bytes, r: Request)
    ensures Decode(input) == Ok(r) <==> InBounds(r) && Encode(r) == Ok(input)
  {
    hide GetRequest, Payload, InBounds, Frame, BE, FromBE, Ascii;
    if Decode(input).Ok? {
      FrameIsDetermined(input);
      EncodeNeverHitsTheLimit(Decode(input).value);
    }
    if InBounds(r) && Encode(r) == Ok(input) {
      FrameParts(Operation(r), Payload(r));
      RequestReads(r);
    }
  }

  // ---------------------------------------------------------------- frames by offset

  /** A request frame: magic KMPV, version 1, operation, the request flag, the payload's length, and the payload. */
  predicate FrameOf(input: Bytes, operation: byte, payload: Bytes) {
    && LiesAt(input, 0, [0x4b, 0x4d, 0x50, 0x56])
    && LiesAt(input, 4, BE(2, 1))
    && LiesAt(input, 6, [operation])
    && LiesAt(input, 7, [0])
    && LiesAt(input, 8, BE(4, |payload|))
    && RunsFrom(input, 12, payload)
  }

  lemma MagicBytes()
    ensures MAGIC == [0x4b, 0x4d, 0x50, 0x56]
  {
  }

  lemma FrameLies(input: Bytes, operation: byte, payload: Bytes)
    ensures FrameOf(input, operation, payload) <==> input == Frame(operation, payload)
  {
    hide LiesAt, RunsFrom, BE, Ascii;
    MagicBytes();
    var t4 := BE(4, |payload|) + payload;
    var t3 := [0] + t4;
    var t2 := [operation] + t3;
    var t1 := BE(2, 1) + t2;
    assert Frame(operation, payload) == MAGIC + t1 by {
      Regroup(MAGIC + BE(2, 1) + [operation] + [0], BE(4, |payload|), payload);
      Regroup(MAGIC + BE(2, 1) + [operation], [0], t4);
      Regroup(MAGIC + BE(2, 1), [operation], t3);
      Regroup(MAGIC, BE(2, 1), t2);
    }
    FromEnds(input, Frame(operation, payload));
    Peel(input, 0, MAGIC, t1);
    Peel(input, 4, BE(2, 1), t2);
    Peel(input, 6, [operation], t3);
    Peel(input, 7, [0], t4);
    Peel(input, 8, BE(4, |payload|), payload);
  }

  /** A frame is decoded to a request exactly when its bytes are laid out so around that request's payload, and it is in bounds. */
  lemma DecodedExactly(input: Bytes, r: Request)
    ensures Decode(input) == Ok(r) <==> InBounds(r) && FrameOf(input, if r.Snapshot? then 1 else 2, Payload(r))
  {
    hide Decode, Encode, Payload, InBounds, FrameOf, Frame;
    DecodeIffEncode(input, r);
    FrameLies(input, if r.Snapshot? then 1 else 2, Payload(r));
    if InBounds(r) {
      EncodeNeverHitsTheLimit(r);
    }
  }
}
