/** The KMPV codec as written: a writer appended to and a decoder advanced field by field. */
module KmpvCodec {
  import opened Foundation
  import opened ExternalErrors
  import opened MlsTypes
  import opened Cbor
  import opened ExternalDelta
  import opened Kmpv
  import L = LocalCodec
  import M = LocalMetadata

  class Decoder {
    var rest: Bytes

    constructor (bytes: Bytes)
      ensures rest == bytes
    {
      rest := bytes;
    }

    method Array(n: nat) returns (r: Result<(), ExternalError>)
      modifies this
      ensures Skips(GetArray(n, old(rest)), r, rest)
    {
      hide ReadLength;
      var length := ReadLength(ARRAY, rest);
      if length.None? || length.value.0 != Some(n) {
        return Err(InvalidFrame);
      }
      rest := length.value.1;
      return Ok(());
    }

    method Bytes(minimum: nat, maximum: nat) returns (r: Result<Bytes, ExternalError>)
      modifies this
      ensures Follows(GetBytes(minimum, maximum, old(rest)), r, rest)
    {
      hide ReadBlob;
      var b := ReadBlob(rest);
      if b.None? {
        return Err(InvalidFrame);
      }
      if |b.value.0| < minimum || |b.value.0| > maximum {
        return Err(LimitExceeded);
      }
      rest := b.value.1;
      return Ok(b.value.0);
    }

    method Number(limit: nat) returns (r: Result<nat, ExternalError>)
      modifies this
      ensures Follows(GetNumber(limit, old(rest)), r, rest)
    {
      hide ReadUint;
      var n := ReadUint(rest, limit);
      if n.None? {
        return Err(InvalidFrame);
      }
      rest := n.value.1;
      return Ok(n.value.0);
    }
  }

  method DecodeLeaf(d: Decoder) returns (r: Result<Leaf, ExternalError>)
    modifies d
    ensures Follows(GetLeaf(old(d.rest)), r, d.rest)
  {
    hide GetArray, GetNumber, GetBytes;
    var _ :- d.Array(3);
    var index :- d.Number(L.U32);
    var identity :- d.Bytes(45, 45);
    var signatureKey :- d.Bytes(32, 32);
    var l := Leaf(index, identity, signatureKey);
    if !Bounded(l) {
      return Err(LimitExceeded);
    }
    return Ok(l);
  }

  method DecodeState(d: Decoder) returns (r: Result<ExpectedState, ExternalError>)
    modifies d
    ensures Follows(GetState(old(d.rest)), r, d.rest)
  {
    hide GetArray, GetNumber, GetBytes;
    var _ :- d.Array(3);
    var groupId :- d.Bytes(16, 16);
    var epoch :- d.Number(L.U64);
    var digest :- d.Bytes(32, 32);
    return Ok(ExpectedState(groupId, epoch, digest));
  }

  method DecodeSnapshot(d: Decoder) returns (r: Result<SnapshotRequest, ExternalError>)
    modifies d
    ensures Follows(GetSnapshot(old(d.rest)), r, d.rest)
  {
    hide GetArray, GetNumber, GetBytes, GetState, GetLeaf;
    var _ :- d.Array(5);
    var profile :- d.Number(L.U16);
    var groupInfo :- d.Bytes(1, MAX_MLS_BYTES);
    var sha256 :- d.Bytes(32, 32);
    var expected :- DecodeState(d);
    var signer :- DecodeLeaf(d);
    return Ok(SnapshotRequest(profile, groupInfo, sha256, expected, signer));
  }

  method DecodeSuccessor(d: Decoder) returns (r: Result<SuccessorRequest, ExternalError>)
    modifies d
    ensures Follows(GetSuccessor(old(d.rest)), r, d.rest)
  {
    hide GetArray, GetBytes, GetSnapshot, GetLeaf;
    var _ :- d.Array(9);
    var base :- DecodeSnapshot(d);
    var commit :- d.Bytes(1, MAX_MLS_BYTES);
    var commitSha256 :- d.Bytes(32, 32);
    var aad :- d.Bytes(1, MAX_AAD_BYTES);
    var outgoing :- DecodeLeaf(d);
    var identity :- d.Bytes(45, 45);
    var signatureKey :- d.Bytes(32, 32);
    var next :- d.Bytes(1, MAX_MLS_BYTES);
    var nextSha256 :- d.Bytes(32, 32);
    return Ok(SuccessorRequest(base, commit, commitSha256, aad, outgoing, identity, signatureKey, next, nextSha256));
  }

  method DecodeRequest(input: Bytes) returns (r: Result<Request, ExternalError>)
    ensures r == Decode(input)
  {
    hide FromBE, GetSnapshot, GetSuccessor, SnapshotItems, SuccessorItems;
    if |input| > REQUEST_MAX_BYTES {
      return Err(LimitExceeded);
    }
    if |input| < HEADER || input[..4] != MAGIC || input[7] != 0 {
      return Err(InvalidFrame);
    }
    if FromBE(input[4..6]) != VERSION {
      return Err(UnsupportedVersion);
    }
    if FromBE(input[8..12]) != |input| - HEADER {
      return Err(InvalidFrame);
    }
    var d := new Decoder(input[HEADER..]);
    var request: Request;
    match input[6] {
      case 1 =>
        var s :- DecodeSnapshot(d);
        request := Snapshot(s);
      case 2 =>
        var s :- DecodeSuccessor(d);
        request := Successor(s);
      case _ =>
        return Err(UnsupportedOperation);
    }
    if d.rest != [] {
      return Err(InvalidFrame);
    }
    var again := WritePayload(request);
    if again != input[HEADER..] {
      return Err(NoncanonicalEncoding);
    }
    return Ok(request);
  }

  method PutSnapshotRequest(e: M.Encoder, r: SnapshotRequest)
    modifies e
    ensures e.out == old(e.out) + Enc(List(SnapshotItems(r)))
  {
    hide Enc, EncItems, L.LeafTree, L.StateTree;
    ghost var t4 := [L.LeafTree(r.expectedSigner)];
    ghost var t3 := [L.StateTree(r.expected)] + t4;
    ghost var t2 := [Text(r.sha256)] + t3;
    ghost var t1 := [Text(r.groupInfo)] + t2;
    e.Open([Cbor.Number(r.profile)] + t1, 5);
    e.Item(Cbor.Number(r.profile), t1);
    e.Item(Text(r.groupInfo), t2);
    e.Item(Text(r.sha256), t3);
    M.ItemIsPut(e.out, L.StateTree(r.expected), t4);
    M.ExpectedEncode(e, r.expected);
    assert t4 == t4 + [];
    M.ItemIsPut(e.out, L.LeafTree(r.expectedSigner), []);
    M.LeafEncode(e, r.expectedSigner);
    M.NoMore(e.out);
  }

  method WritePayload(r: Request) returns (out: Bytes)
    ensures out == Payload(r)
  {
    hide Enc, EncItems, SnapshotItems, L.LeafTree;
    var e := new M.Encoder();
    assert [] + Payload(r) == Payload(r);
    match r
    case Snapshot(s) =>
      PutSnapshotRequest(e, s);
      out := e.out;
    case Successor(s) =>
      ghost var t8 := [Text(s.nextSha256)];
      ghost var t7 := [Text(s.nextGroupInfo)] + t8;
      ghost var t6 := [Text(s.newSignatureKey)] + t7;
      ghost var t5 := [Text(s.newIdentity)] + t6;
      ghost var t4 := [L.LeafTree(s.authorizedOld)] + t5;
      ghost var t3 := [Text(s.expectedAad)] + t4;
      ghost var t2 := [Text(s.commitSha256)] + t3;
      ghost var t1 := [Text(s.commit)] + t2;
      e.Open([List(SnapshotItems(s.base))] + t1, 9);
      M.ItemIsPut(e.out, List(SnapshotItems(s.base)), t1);
      PutSnapshotRequest(e, s.base);
      e.Item(Text(s.commit), t2);
      e.Item(Text(s.commitSha256), t3);
      e.Item(Text(s.expectedAad), t4);
      M.ItemIsPut(e.out, L.LeafTree(s.authorizedOld), t5);
      M.LeafEncode(e, s.authorizedOld);
      e.Item(Text(s.newIdentity), t6);
      e.Item(Text(s.newSignatureKey), t7);
      e.Item(Text(s.nextGroupInfo), t8);
      assert t8 == t8 + [];
      e.Item(Text(s.nextSha256), []);
      M.NoMore(e.out);
      out := e.out;
  }

  method EncodeRequest(r: Request) returns (result: Result<Bytes, ExternalError>)
    ensures result == Encode(r)
  {
    hide BE, Payload;
    var payload := WritePayload(r);
    if |payload| > REQUEST_MAX_BYTES - HEADER {
      return Err(LimitExceeded);
    }
    var out := MAGIC;
    out := out + BE(2, VERSION);
    out := out + [Operation(r)];
    out := out + [0];
    out := out + BE(4, |payload|);
    out := out + payload;
    return Ok(out);
  }
}
