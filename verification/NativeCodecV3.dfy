/** The version 3 codec as written, on top of the version 2 decoder and encoder. */
module NativeCodecV3 {
  import opened Foundation
  import opened Errors
  import opened MlsTypes
  import opened Cbor
  import opened NativeTypes
  import opened NativeDecode
  import opened NativeV3
  import opened NativeCodec
  import Preflight

  // ---------------------------------------------------------------- decoder

  method DecodePendingMap(d: Decoder) returns (r: Result<PendingBinding, MlsError>)
    modifies d
    ensures Follows(GetPendingMap(old(d.rest)), r, d.rest)
  {
    hide ExpectMap, BlobAt, OptionalAt, LeafAt, StateAt;
    var _ :- d.Map(10);
    var groupId :- d.Blob(0, 16, 16);
    var incarnationId :- d.Blob(1, 1, 128);
    var commandId :- d.Blob(2, 1, 128);
    var context :- d.Blob(3, 32, 32);
    var author :- DecodeLeaf(d, 4);
    var previous :- DecodeExpectedRoster(d, 5);
    var commit :- d.Blob(6, 32, 32);
    var aad :- d.Blob(7, 32, 32);
    var welcome :- d.Optional(8, 32, 32);
    var info :- d.Optional(9, 32, 32);
    return Ok(PendingBinding(groupId, incarnationId, Transition(commandId, context), author, previous, commit, aad, welcome, info));
  }

  method DecodePending(d: Decoder, key: nat) returns (r: Result<Option<PendingBinding>, MlsError>)
    modifies d
    ensures Follows(PendingAt(old(d.rest), key), r, d.rest)
  {
    hide ExpectKey, GetPendingMap, Peek;
    var _ :- d.Key(key);
    var kind := Peek(d.rest);
    if kind.None? {
      return Err(NoncanonicalEncoding);
    }
    if kind.value == NullKind {
      NullHasAByte(d.rest);
      d.rest := d.rest[1..];
      return Ok(None);
    }
    var p :- DecodePendingMap(d);
    return Ok(Some(p));
  }

  /** The binding's incarnation id comes from the request, not from the wire. */
  method DecodeAcceptance(d: Decoder, key: nat, incarnationId: Bytes) returns (r: Result<Acceptance, MlsError>)
    modifies d
    ensures Follows(AcceptanceAt(old(d.rest), key, incarnationId), r, d.rest)
  {
    hide ExpectKey, ExpectMap, BlobAt, LeafAt, StateAt;
    var _ :- d.Key(key);
    var _ :- d.Map(11);
    var candidateId :- d.Blob(0, 1, 128);
    var commandId :- d.Blob(1, 1, 128);
    var context :- d.Blob(2, 32, 32);
    var previous :- DecodeExpectedRoster(d, 3);
    var resulting :- DecodeExpectedRoster(d, 4);
    var oldLeaf :- DecodeLeaf(d, 5);
    var author :- DecodeLeaf(d, 6);
    var input :- d.Blob(7, 32, 32);
    var output :- d.Blob(8, 32, 32);
    var commit :- d.Blob(9, 32, 32);
    var aad :- d.Blob(10, 32, 32);
    var binding := ExternalBinding(candidateId, incarnationId, Transition(commandId, context), previous, oldLeaf, author,
                                   input, output, commit, aad);
    return Ok(Acceptance(binding, resulting));
  }

  method DecodeExternal(sha: Hash, d: Decoder) returns (r: Result<External, MlsError>)
    modifies d
    ensures Follows(GetExternal(sha, old(d.rest)), r, d.rest)
  {
    hide ExpectMap, NumberAt, BlobAt, AcceptanceAt, PendingAt, SnapshotAt, CheckExternal;
    var _ :- d.Map(10);
    var profile :- d.Number(0, U16);
    var groupId :- d.Blob(1, 16, 16);
    var incarnationId :- d.Blob(2, 1, 128);
    var commit :- d.Blob(3, 1, MESSAGE_MAX);
    var aad :- d.Blob(4, 1, AAD_MAX);
    var base :- d.Blob(5, 32, 32);
    var retention :- d.Number(6, U32);
    var acceptance :- DecodeAcceptance(d, 7, incarnationId);
    var superseded :- DecodePending(d, 8);
    var request := External(profile, groupId, incarnationId, commit, aad, base, retention, acceptance, superseded, Snapshot(0, []));
    var _ :- CheckExternal(sha, request);
    var storage :- DecodeStorageSnapshot(d, 9, Some(groupId));
    return Ok(request.(storage := storage));
  }

  method DecodeInspect(d: Decoder) returns (r: Result<Inspect, MlsError>)
    modifies d
    ensures Follows(GetInspect(old(d.rest)), r, d.rest)
  {
    hide ExpectMap, NumberAt, BlobAt, StateAt, SnapshotAt, CheckInspect;
    var _ :- d.Map(7);
    var profile :- d.Number(0, U16);
    var groupId :- d.Blob(1, 16, 16);
    var incarnationId :- d.Blob(2, 1, 128);
    var current :- DecodeExpectedRoster(d, 3);
    var base :- d.Blob(4, 32, 32);
    var retention :- d.Number(5, U32);
    var request := Inspect(profile, groupId, incarnationId, current, base, retention, Snapshot(0, []));
    var _ :- CheckInspect(request);
    var storage :- DecodeStorageSnapshot(d, 6, Some(groupId));
    return Ok(request.(storage := storage));
  }

  method DecodeNativeRequest3(sha: Hash, frame: Bytes) returns (r: Result<Request3, MlsError>)
    ensures r == DecodeRequest3(sha, frame)
  {
    hide DecodeHeader, Preflight.Recognise, GetProcess, GetJoin, GetExternal, GetInspect;
    var header :- DecodeHeader(3, frame);
    var op := header.0;
    if !(1 <= op <= 5) {
      return Err(UnsupportedOperation);
    }
    var _ :- Preflight.PreflightCbor(header.1);
    var d := new Decoder(header.1);
    var request: Request3;
    if op == 1 || op == 2 {
      var m :- DecodeProcessRequest(d, if op == 1 then Application else Commit);
      request := Member(m);
    } else if op == 3 {
      var m :- DecodeWelcomeRequest(d);
      request := Member(m);
    } else if op == 4 {
      var x :- DecodeExternal(sha, d);
      request := Accept(x);
    } else {
      var i :- DecodeInspect(d);
      request := InspectPending(i);
    }
    if d.rest != [] {
      return Err(NoncanonicalEncoding);
    }
    return Ok(request);
  }

  // ---------------------------------------------------------------- encoder

  /** Opens a map whose entries come next. */
  method OpenMap(e: Encoder, ghost fields: Fields, n: nat)
    requires n == Count(fields)
    modifies e
    ensures e.out + EncEntries(fields) == old(e.out) + Enc(Dict(fields))
  {
    hide Head, EncEntries, Count;
    Regroup(e.out, Head(MAP, n), EncEntries(fields));
    e.Put(Head(MAP, n));
  }

  method EncodePending(e: Encoder, p: Option<PendingBinding>)
    requires p.Some? ==> CheckPending(p.value).Ok?
    modifies e
    ensures e.out == old(e.out) + Enc(PendingTree(p))
  {
    hide Enc, EncEntries, CheckPending, OptionalTree, StateTree, LeafTree, Count;
    if p.None? {
      e.Put(Enc(Null));
      return;
    }
    var b := p.value;
    PendingFits(b);
    ghost var f0 := PendingFields(b);
    ghost var f1 := f0.more; ghost var f2 := f1.more; ghost var f3 := f2.more; ghost var f4 := f3.more; ghost var f5 := f4.more;
    ghost var f6 := f5.more; ghost var f7 := f6.more; ghost var f8 := f7.more; ghost var f9 := f8.more;
    OpenMap(e, f0, 10);
    PutEntry(e, 0, Text(b.groupId), f1);
    PutEntry(e, 1, Text(b.incarnationId), f2);
    PutEntry(e, 2, Text(b.transition.commandId), f3);
    PutEntry(e, 3, Text(b.transition.contextSha256), f4);
    PutEntry(e, 4, LeafTree(b.author), f5);
    PutEntry(e, 5, StateTree(b.previousState), f6);
    PutEntry(e, 6, Text(b.commitSha256), f7);
    PutEntry(e, 7, Text(b.aadSha256), f8);
    PutEntry(e, 8, OptionalTree(b.welcomeSha256), f9);
    PutEntry(e, 9, OptionalTree(b.groupInfoSha256), End);
    NothingMore(e.out);
  }

  method EncodeAcceptance(e: Encoder, a: Acceptance)
    requires CheckAcceptance(a).Ok?
    modifies e
    ensures e.out == old(e.out) + Enc(Dict(AcceptanceFields(a)))
  {
    hide Enc, EncEntries, CheckAcceptance, StateTree, LeafTree, Count;
    var b := a.binding;
    AcceptanceFits(a);
    ghost var f0 := AcceptanceFields(a);
    ghost var f1 := f0.more; ghost var f2 := f1.more; ghost var f3 := f2.more; ghost var f4 := f3.more; ghost var f5 := f4.more;
    ghost var f6 := f5.more; ghost var f7 := f6.more; ghost var f8 := f7.more; ghost var f9 := f8.more; ghost var f10 := f9.more;
    OpenMap(e, f0, 11);
    PutEntry(e, 0, Text(b.candidateId), f1);
    PutEntry(e, 1, Text(b.transition.commandId), f2);
    PutEntry(e, 2, Text(b.transition.contextSha256), f3);
    PutEntry(e, 3, StateTree(b.previousState), f4);
    PutEntry(e, 4, StateTree(a.resultingState), f5);
    PutEntry(e, 5, LeafTree(b.oldLeaf), f6);
    PutEntry(e, 6, LeafTree(b.author), f7);
    PutEntry(e, 7, Text(b.inputGroupInfoSha256), f8);
    PutEntry(e, 8, Text(b.resultingGroupInfoSha256), f9);
    PutEntry(e, 9, Text(b.commitSha256), f10);
    PutEntry(e, 10, Text(b.aadSha256), End);
    NothingMore(e.out);
  }

  method EncodeExternal(sha: Hash, x: External) returns (r: Result<Bytes, MlsError>)
    ensures r == EncodeRequest3(sha, Accept(x))
  {
    hide Enc, EncEntries, Uint, CheckExternal, CheckSnapshot, AcceptanceFields, PendingTree, SnapshotTree, Count;
    var _ :- CheckExternal(sha, x);
    AcceptanceIsChecked(sha, x);
    var e := new Encoder();
    ghost var f0 := ExternalFields(x);
    ghost var f1 := f0.more; ghost var f2 := f1.more; ghost var f3 := f2.more; ghost var f4 := f3.more;
    ghost var f5 := f4.more; ghost var f6 := f5.more; ghost var f7 := f6.more; ghost var f8 := f7.more; ghost var f9 := f8.more;
    TenFields(x);
    OpenMap(e, f0, 10);
    assert [] + Enc(Dict(f0)) == Enc(Dict(f0));
    PutEntry(e, 0, Number(x.profile), f1);
    PutEntry(e, 1, Text(x.groupId), f2);
    PutEntry(e, 2, Text(x.incarnationId), f3);
    PutEntry(e, 3, Text(x.commit), f4);
    PutEntry(e, 4, Text(x.aad), f5);
    PutEntry(e, 5, Text(x.baseSha256), f6);
    PutEntry(e, 6, Number(x.retention), f7);
    EntryWritten(e.out, 7, Dict(AcceptanceFields(x.acceptance)), f8);
    e.Put(Uint(7));
    EncodeAcceptance(e, x.acceptance);
    EntryWritten(e.out, 8, PendingTree(x.superseded), f9);
    e.Put(Uint(8));
    EncodePending(e, x.superseded);
    var _ :- PutSnapshot(e, 9, x.storage, Some(x.groupId), End);
    NothingMore(e.out);
    r := EncodeFrame3(4, e.out);
  }

  lemma AcceptanceIsChecked(sha: Hash, x: External)
    requires CheckExternal(sha, x).Ok?
    ensures CheckAcceptance(x.acceptance).Ok? && (x.superseded.Some? ==> CheckPending(x.superseded.value).Ok?)
  {
    hide CheckAcceptance, CheckPending;
  }

  lemma TenFields(x: External)
    ensures Count(ExternalFields(x)) == 10
  {
    hide SnapshotTree, PendingTree, AcceptanceFields;
    var f0 := ExternalFields(x);
    var f1 := f0.more; var f2 := f1.more; var f3 := f2.more; var f4 := f3.more;
    var f5 := f4.more; var f6 := f5.more; var f7 := f6.more; var f8 := f7.more; var f9 := f8.more;
    assert Count(End) == 0;
    assert Count(f9) == 1; assert Count(f8) == 2; assert Count(f7) == 3; assert Count(f6) == 4; assert Count(f5) == 5;
    assert Count(f4) == 6; assert Count(f3) == 7; assert Count(f2) == 8; assert Count(f1) == 9; assert Count(f0) == 10;
  }

  lemma SevenFields(i: Inspect)
    ensures Count(InspectFields(i)) == 7
  {
    hide SnapshotTree, StateTree;
    var f0 := InspectFields(i);
    var f1 := f0.more; var f2 := f1.more; var f3 := f2.more; var f4 := f3.more; var f5 := f4.more; var f6 := f5.more;
    assert Count(End) == 0;
    assert Count(f6) == 1; assert Count(f5) == 2; assert Count(f4) == 3; assert Count(f3) == 4;
    assert Count(f2) == 5; assert Count(f1) == 6; assert Count(f0) == 7;
  }

  method EncodeInspect(sha: Hash, i: Inspect) returns (r: Result<Bytes, MlsError>)
    ensures r == EncodeRequest3(sha, InspectPending(i))
  {
    hide Enc, EncEntries, CheckInspect, CheckSnapshot, SnapshotTree, StateTree, Count;
    var _ :- CheckInspect(i);
    var e := new Encoder();
    ghost var f0 := InspectFields(i);
    ghost var f1 := f0.more; ghost var f2 := f1.more; ghost var f3 := f2.more; ghost var f4 := f3.more; ghost var f5 := f4.more;
    ghost var f6 := f5.more;
    SevenFields(i);
    OpenMap(e, f0, 7);
    assert [] + Enc(Dict(f0)) == Enc(Dict(f0));
    PutEntry(e, 0, Number(i.profile), f1);
    PutEntry(e, 1, Text(i.groupId), f2);
    PutEntry(e, 2, Text(i.incarnationId), f3);
    PutEntry(e, 3, StateTree(i.current), f4);
    PutEntry(e, 4, Text(i.baseSha256), f5);
    PutEntry(e, 5, Number(i.retention), f6);
    var _ :- PutSnapshot(e, 6, i.storage, Some(i.groupId), End);
    NothingMore(e.out);
    r := EncodeFrame3(5, e.out);
  }

  method EncodeFrame3(op: byte, payload: Bytes) returns (r: Result<Bytes, MlsError>)
    ensures r == EncodeFrame(3, op, payload, REQUEST_MAX)
  {
    hide BE;
    if |payload| > REQUEST_MAX - HEADER {
      return Err(LimitExceeded);
    }
    var out := MAGIC;
    out := out + BE(2, 3);
    out := out + [op, 0];
    out := out + BE(4, |payload|);
    out := out + payload;
    return Ok(out);
  }

  lemma FrameHasVersion(m: Request)
    requires EncodeRequest(m).Ok?
    ensures |EncodeRequest(m).value| >= 6
  {
    hide CheckRequest, Enc, BE;
  }

  /** A member request is encoded as version 2 and its two version bytes are overwritten. */
  method EncodeNativeRequest3(sha: Hash, q: Request3) returns (r: Result<Bytes, MlsError>)
    ensures r == EncodeRequest3(sha, q)
  {
    hide EncodeRequest, CheckExternal, CheckInspect, CheckSnapshot, Enc;
    match q
    case InspectPending(i) =>
      r := EncodeInspect(sha, i);
    case Member(m) =>
      var frame :- EncodeNativeRequest(m);
      FrameHasVersion(m);
      frame := frame[4 := 0];
      frame := frame[5 := 3];
      return Ok(frame);
    case Accept(x) =>
      r := EncodeExternal(sha, x);
  }
}
