/** Exactly which frames the version 3 decoder accepts, and what an accepted external Commit or inspection agrees on. */
module NativeExact3 {
  import opened Foundation
  import opened Errors
  import opened Order
  import opened MlsTypes
  import opened Cbor
  import opened Preflight
  import opened NativeTypes
  import opened NativeLimits
  import opened NativeDecode
  import opened NativeRoundTrip
  import opened NativeExact
  import opened NativeV3

  // ---------------------------------------------------------------- the bounds in figures

  predicate SmallLeaf(l: Leaf) {
    l.index <= 255 && |l.identity| == 45 && |l.signatureKey| == 32
  }

  predicate PendingInBounds(p: PendingBinding) {
    && |p.groupId| == 16 && 1 <= |p.incarnationId| <= 128
    && 1 <= |p.transition.commandId| <= 128 && |p.transition.contextSha256| == 32
    && SmallLeaf(p.author) && |p.previousState.groupId| == 16 && |p.previousState.digest| == 32
    && |p.commitSha256| == 32 && |p.aadSha256| == 32
    && (p.welcomeSha256.Some? ==> |p.welcomeSha256.value| == 32) && (p.groupInfoSha256.Some? ==> |p.groupInfoSha256.value| == 32)
  }

  predicate AcceptanceInBounds(a: Acceptance) {
    var b := a.binding;
    && 1 <= |b.candidateId| <= 128 && 1 <= |b.transition.commandId| <= 128 && |b.transition.contextSha256| == 32
    && |b.previousState.groupId| == 16 && |b.previousState.digest| == 32
    && |a.resultingState.groupId| == 16 && |a.resultingState.digest| == 32
    && SmallLeaf(b.oldLeaf) && SmallLeaf(b.author)
    && |b.inputGroupInfoSha256| == 32 && |b.resultingGroupInfoSha256| == 32 && |b.commitSha256| == 32 && |b.aadSha256| == 32
  }

  /**
   * An external Commit in bounds whose parts agree: one group and one incarnation throughout, the epoch after the
   * previous one, the hashes of its own bytes, and a superseded Commit prepared on the same state.
   */
  predicate ExternalAgrees(sha: Hash, r: External) {
    var b := r.acceptance.binding;
    && r.profile == 2 && (r.retention == 2 || r.retention == 4)
    && |r.groupId| == 16 && 1 <= |r.incarnationId| <= 128 && |r.baseSha256| == 32
    && 1 <= |r.commit| <= 1048576 && 1 <= |r.aad| <= 16384
    && AcceptanceInBounds(r.acceptance)
    && b.incarnationId == r.incarnationId && b.previousState.groupId == r.groupId && r.acceptance.resultingState.groupId == r.groupId
    && r.acceptance.resultingState.epoch == b.previousState.epoch + 1
    && sha(r.commit) == b.commitSha256 && sha(r.aad) == b.aadSha256
    && (r.superseded.Some? ==>
          var p := r.superseded.value;
          PendingInBounds(p) && p.groupId == r.groupId && p.incarnationId == r.incarnationId && p.previousState == b.previousState)
  }

  predicate InspectAgrees(r: Inspect) {
    && r.profile == 2 && (r.retention == 2 || r.retention == 4)
    && |r.groupId| == 16 && 1 <= |r.incarnationId| <= 128 && |r.baseSha256| == 32
    && r.current.groupId == r.groupId && |r.current.digest| == 32
  }

  lemma PendingCheckedExactly(p: PendingBinding)
    ensures CheckPending(p).Ok? <==> PendingInBounds(p)
  {
  }

  lemma AcceptanceCheckedExactly(a: Acceptance)
    ensures CheckAcceptance(a).Ok? <==> AcceptanceInBounds(a)
  {
  }

  lemma ExternalCheckedExactly(sha: Hash, r: External)
    ensures CheckExternal(sha, r).Ok? <==> ExternalAgrees(sha, r)
  {
    hide CheckPending, PendingInBounds, CheckAcceptance, AcceptanceInBounds;
    AcceptanceCheckedExactly(r.acceptance);
    if r.superseded.Some? {
      PendingCheckedExactly(r.superseded.value);
    }
  }

  lemma InspectCheckedExactly(r: Inspect)
    ensures CheckInspect(r).Ok? <==> InspectAgrees(r)
  {
  }

  // ---------------------------------------------------------------- the encoder

  /** The version 3 encoder sends exactly the requests that are in bounds and agree, with rows of the scopes their labels demand. */
  lemma EncodedExactly3(sha: Hash, r: Request3)
    ensures EncodeRequest3(sha, r).Ok? <==>
              match r
              case Member(m) => InBounds(m) && m.storage.format == 1 && Sendable(m.storage.entries, GroupOfRequest(m))
              case Accept(x) => ExternalAgrees(sha, x) && x.storage.format == 1 && Sendable(x.storage.entries, Some(x.groupId))
              case InspectPending(i) => InspectAgrees(i) && i.storage.format == 1 && Sendable(i.storage.entries, Some(i.groupId))
  {
    hide CheckRequest, CheckExternal, CheckInspect, CheckSnapshot, EncodeRequest3, InBounds, Sendable;
    EncoderFailsOnlyOnFields3(sha, r);
    match r {
      case Member(m) => CheckedExactly(m);
      case Accept(x) =>
        ExternalCheckedExactly(sha, x);
        if ExternalAgrees(sha, x) {
          SnapshotCheckedExactly(x.storage, Some(x.groupId));
        }
      case InspectPending(i) =>
        InspectCheckedExactly(i);
        if InspectAgrees(i) {
          SnapshotCheckedExactly(i.storage, Some(i.groupId));
        }
    }
  }

  // ---------------------------------------------------------------- records read back

  lemma PendingMapIs(t: Tree, k: Bytes)
    requires Shaped(t) && GetPendingMap(Enc(t) + k).Ok?
    ensures var (p, s) := GetPendingMap(Enc(t) + k).value; t == Dict(PendingFields(p)) && s == k
  {
    hide Enc, EncEntries, ExpectMap, BlobAt, OptionalAt, LeafAt, StateAt, StateTree, LeafTree, OptionalTree, Shaped;
    DictIs(t, 10, k);
    DictEntries(t);
    var f0 := t.entries;
    BlobAtIs(f0, None, 0, 16, 16, k);
    var f1 := f0.more;
    BlobAtIs(f1, Some(0), 1, 1, 128, k);
    var f2 := f1.more;
    BlobAtIs(f2, Some(1), 2, 1, 128, k);
    var f3 := f2.more;
    BlobAtIs(f3, Some(2), 3, 32, 32, k);
    var f4 := f3.more;
    LeafAtIs(f4, Some(3), 4, k);
    var f5 := f4.more;
    StateAtIs(f5, Some(4), 5, k);
    var f6 := f5.more;
    BlobAtIs(f6, Some(5), 6, 32, 32, k);
    var f7 := f6.more;
    BlobAtIs(f7, Some(6), 7, 32, 32, k);
    var f8 := f7.more;
    OptionalAtIs(f8, Some(7), 8, 32, 32, k);
    var f9 := f8.more;
    OptionalAtIs(f9, Some(8), 9, 32, 32, k);
    assert f9.more == End;
    NoEntries(k);
  }

  lemma PendingAtIs(es: Fields, previous: Option<nat>, key: nat, k: Bytes)
    requires Count(es) > 0 && ShapedEntries(es, previous) && PendingAt(EncEntries(es) + k, key).Ok?
    ensures var (p, s) := PendingAt(EncEntries(es) + k, key).value;
            Continues(es, key) && es == Field(key, PendingTree(p), es.more) && s == EncEntries(es.more) + k
  {
    hide Enc, EncEntries, ExpectKey, GetPendingMap, PendingFields, Shaped;
    KeyIs(es, previous, key, k);
    var rest := EncEntries(es.more) + k;
    FirstByteTells(es.value, rest);
    if Peek(Enc(es.value) + rest) == Some(NullKind) {
      NullBytes();
      assert (Enc(es.value) + rest)[1..] == rest;
    } else {
      PendingMapIs(es.value, rest);
    }
  }

  lemma AcceptanceIs(t: Tree, incarnationId: Bytes, k: Bytes)
    requires Shaped(t) && GetAcceptance(Enc(t) + k, incarnationId).Ok?
    ensures var (a, s) := GetAcceptance(Enc(t) + k, incarnationId).value;
            t == Dict(AcceptanceFields(a)) && s == k && a.binding.incarnationId == incarnationId
  {
    hide Enc, EncEntries, ExpectMap, BlobAt, LeafAt, StateAt, StateTree, LeafTree, Shaped;
    DictIs(t, 11, k);
    DictEntries(t);
    var f0 := t.entries;
    BlobAtIs(f0, None, 0, 1, 128, k);
    var f1 := f0.more;
    BlobAtIs(f1, Some(0), 1, 1, 128, k);
    var f2 := f1.more;
    BlobAtIs(f2, Some(1), 2, 32, 32, k);
    var f3 := f2.more;
    StateAtIs(f3, Some(2), 3, k);
    var f4 := f3.more;
    StateAtIs(f4, Some(3), 4, k);
    var f5 := f4.more;
    LeafAtIs(f5, Some(4), 5, k);
    var f6 := f5.more;
    LeafAtIs(f6, Some(5), 6, k);
    var f7 := f6.more;
    BlobAtIs(f7, Some(6), 7, 32, 32, k);
    var f8 := f7.more;
    BlobAtIs(f8, Some(7), 8, 32, 32, k);
    var f9 := f8.more;
    BlobAtIs(f9, Some(8), 9, 32, 32, k);
    var f10 := f9.more;
    BlobAtIs(f10, Some(9), 10, 32, 32, k);
    assert f10.more == End;
    NoEntries(k);
  }

  lemma AcceptanceAtIs(es: Fields, previous: Option<nat>, key: nat, incarnationId: Bytes, k: Bytes)
    requires Count(es) > 0 && ShapedEntries(es, previous) && AcceptanceAt(EncEntries(es) + k, key, incarnationId).Ok?
    ensures var (a, s) := AcceptanceAt(EncEntries(es) + k, key, incarnationId).value;
            && Continues(es, key) && es == Field(key, Dict(AcceptanceFields(a)), es.more) && s == EncEntries(es.more) + k
            && a.binding.incarnationId == incarnationId
  {
    hide Enc, EncEntries, ExpectKey, GetAcceptance, AcceptanceFields, Shaped;
    KeyIs(es, previous, key, k);
    AcceptanceIs(es.value, incarnationId, EncEntries(es.more) + k);
  }

  lemma ExternalIs(sha: Hash, t: Tree) returns (rows: seq<StorageEntry>)
    requires Shaped(t) && GetExternal(sha, Enc(t) + []).Ok?
    ensures var (r, s) := GetExternal(sha, Enc(t) + []).value;
            && CheckExternal(sha, r).Ok? && s == [] && t == Dict(ExternalFieldsWith(r, WireTree(1, rows)))
            && Receivable(rows, Some(r.groupId)) && r.storage == Snapshot(1, SortBy(EntryKey, rows))
  {
    hide Enc, EncEntries, ExpectMap, NumberAt, BlobAt, AcceptanceAt, PendingAt, SnapshotAt, WireTree, PendingTree, AcceptanceFields,
         Receivable, CheckAcceptance, CheckPending, SortBy, Shaped;
    DictIs(t, 10, []);
    DictEntries(t);
    var r := GetExternal(sha, Enc(t) + []).value.0;
    var f0 := t.entries;
    NumberAtIs(f0, None, 0, U16, []);
    var f1 := f0.more;
    BlobAtIs(f1, Some(0), 1, 16, 16, []);
    var f2 := f1.more;
    BlobAtIs(f2, Some(1), 2, 1, 128, []);
    var f3 := f2.more;
    BlobAtIs(f3, Some(2), 3, 1, MESSAGE_MAX, []);
    var f4 := f3.more;
    BlobAtIs(f4, Some(3), 4, 1, AAD_MAX, []);
    var f5 := f4.more;
    BlobAtIs(f5, Some(4), 5, 32, 32, []);
    var f6 := f5.more;
    NumberAtIs(f6, Some(5), 6, U32, []);
    var f7 := f6.more;
    AcceptanceAtIs(f7, Some(6), 7, r.incarnationId, []);
    var f8 := f7.more;
    PendingAtIs(f8, Some(7), 8, []);
    var f9 := f8.more;
    rows := SnapshotAtIs(f9, Some(8), 9, Some(r.groupId), []);
    assert f9.more == End;
    NoEntries([]);
    assert CheckExternal(sha, r) == CheckExternal(sha, r.(storage := Snapshot(0, [])));
  }

  lemma InspectIs(t: Tree) returns (rows: seq<StorageEntry>)
    requires Shaped(t) && GetInspect(Enc(t) + []).Ok?
    ensures var (r, s) := GetInspect(Enc(t) + []).value;
            && CheckInspect(r).Ok? && s == [] && t == Dict(InspectFieldsWith(r, WireTree(1, rows)))
            && Receivable(rows, Some(r.groupId)) && r.storage == Snapshot(1, SortBy(EntryKey, rows))
  {
    hide Enc, EncEntries, ExpectMap, NumberAt, BlobAt, StateAt, SnapshotAt, WireTree, StateTree, Receivable, CheckState, SortBy, Shaped;
    DictIs(t, 7, []);
    DictEntries(t);
    var r := GetInspect(Enc(t) + []).value.0;
    var f0 := t.entries;
    NumberAtIs(f0, None, 0, U16, []);
    var f1 := f0.more;
    BlobAtIs(f1, Some(0), 1, 16, 16, []);
    var f2 := f1.more;
    BlobAtIs(f2, Some(1), 2, 1, 128, []);
    var f3 := f2.more;
    StateAtIs(f3, Some(2), 3, []);
    var f4 := f3.more;
    BlobAtIs(f4, Some(3), 4, 32, 32, []);
    var f5 := f4.more;
    NumberAtIs(f5, Some(4), 5, U32, []);
    var f6 := f5.more;
    rows := SnapshotAtIs(f6, Some(5), 6, Some(r.groupId), []);
    assert f6.more == End;
    NoEntries([]);
    assert CheckInspect(r) == CheckInspect(r.(storage := Snapshot(0, [])));
  }

  // ---------------------------------------------------------------- main result

  /** The frame carries this request, in bounds and in agreement with itself, its rows sent in this order. */
  predicate Carries3(sha: Hash, frame: Bytes, r: Request3, rows: seq<StorageEntry>) {
    && |frame| <= 12582912
    && match r
       case Member(m) =>
         && FrameOf(frame, 3, OperationByte(m), Enc(RequestTreeWith(m, WireTree(1, rows))))
         && InBounds(m) && Receivable(rows, GroupOfRequest(m)) && m.storage == Snapshot(1, SortBy(EntryKey, rows))
       case Accept(x) =>
         && FrameOf(frame, 3, 4, Enc(Dict(ExternalFieldsWith(x, WireTree(1, rows)))))
         && ExternalAgrees(sha, x) && Receivable(rows, Some(x.groupId)) && x.storage == Snapshot(1, SortBy(EntryKey, rows))
       case InspectPending(i) =>
         && FrameOf(frame, 3, 5, Enc(Dict(InspectFieldsWith(i, WireTree(1, rows)))))
         && InspectAgrees(i) && Receivable(rows, Some(i.groupId)) && i.storage == Snapshot(1, SortBy(EntryKey, rows))
  }

  lemma MemberDecodes(sha: Hash, m: Request, rows: seq<StorageEntry>)
    requires FieldsInBounds(m) && Receivable(rows, GroupOfRequest(m)) && m.storage == Snapshot(1, SortBy(EntryKey, rows))
    requires HEADER + |Enc(RequestTreeWith(m, WireTree(1, rows)))| <= REQUEST_MAX
    ensures DecodeRequest3(sha, Frame(3, OperationByte(m), Enc(RequestTreeWith(m, WireTree(1, rows)))))
            == SettingsAnswer(m, Member(m))
  {
    hide FieldsInBounds, Receivable, WireTree, RequestTreeWith, Enc, GetProcess, GetJoin, GetExternal, GetInspect, Recognise, DecodeHeader, Frame,
         InProfile, SortBy;
    var payload := Enc(RequestTreeWith(m, WireTree(1, rows)));
    HeaderReads(3, OperationByte(m), payload);
    WireRequestFits(m, rows);
    AcceptsExactlyTheProfile(payload);
    assert payload + [] == payload;
    if m.Process? {
      ProcessWireReads(m, rows, []);
      ProcessIsNotWelcome(m);
    } else {
      JoinWireReads(m, rows, []);
    }
  }

  lemma CarriedDecodes3(sha: Hash, frame: Bytes, r: Request3, rows: seq<StorageEntry>)
    requires Carries3(sha, frame, r, rows)
    ensures DecodeRequest3(sha, frame) == Ok(r)
  {
    hide FrameOf, Frame, FieldsInBounds, Receivable, WireTree, RequestTreeWith, ExternalFieldsWith, InspectFieldsWith, Enc, DecodeRequest3, SortBy,
         ExternalAgrees, InspectAgrees, CheckExternal, CheckInspect;
    match r {
      case Member(m) =>
        var payload := Enc(RequestTreeWith(m, WireTree(1, rows)));
        FrameLies(frame, 3, OperationByte(m), payload);
        FrameLength(3, OperationByte(m), payload);
        MemberDecodes(sha, m, rows);
      case Accept(x) =>
        var payload := Enc(Dict(ExternalFieldsWith(x, WireTree(1, rows))));
        FrameLies(frame, 3, 4, payload);
        FrameLength(3, 4, payload);
        ExternalCheckedExactly(sha, x);
        ExternalWireDecodes(sha, x, rows);
      case InspectPending(i) =>
        var payload := Enc(Dict(InspectFieldsWith(i, WireTree(1, rows))));
        FrameLies(frame, 3, 5, payload);
        FrameLength(3, 5, payload);
        InspectCheckedExactly(i);
        InspectWireDecodes(sha, i, rows);
    }
  }

  lemma DecodedIsCarried3(sha: Hash, frame: Bytes) returns (rows: seq<StorageEntry>)
    requires DecodeRequest3(sha, frame).Ok?
    ensures Carries3(sha, frame, DecodeRequest3(sha, frame).value, rows)
  {
    hide FrameOf, Frame, InBounds, Receivable, WireTree, RequestTreeWith, ExternalFieldsWith, InspectFieldsWith, Enc, GetProcess, GetJoin,
         GetExternal, GetInspect, Recognise, DecodeHeader, InProfile, SortBy, Shaped, ExternalAgrees, InspectAgrees, CheckExternal, CheckInspect;
    var (op, payload) := DecodeHeader(3, frame).value;
    HeaderReadExactly(3, frame, op, payload);
    AcceptsExactlyTheProfile(payload);
    var t :| InProfile(t) && Enc(t) == payload;
    ProfileIsShaped(t);
    assert Enc(t) + [] == payload;
    if op <= 2 {
      rows := ProcessIs(t, if op == 1 then Application else Commit);
    } else if op == 3 {
      rows := JoinIs(t);
    } else if op == 4 {
      rows := ExternalIs(sha, t);
      ExternalCheckedExactly(sha, GetExternal(sha, payload).value.0);
    } else {
      rows := InspectIs(t);
      InspectCheckedExactly(GetInspect(payload).value.0);
    }
  }

  /** The version 3 decoder accepts a frame as a request exactly when it carries that request, its rows in any order. */
  lemma DecodedExactly3(sha: Hash, frame: Bytes, r: Request3)
    ensures DecodeRequest3(sha, frame) == Ok(r) <==> exists rows :: Carries3(sha, frame, r, rows)
  {
    hide DecodeRequest3, Carries3;
    if DecodeRequest3(sha, frame) == Ok(r) {
      var rows := DecodedIsCarried3(sha, frame);
    }
    forall rows | Carries3(sha, frame, r, rows) ensures DecodeRequest3(sha, frame) == Ok(r) {
      CarriedDecodes3(sha, frame, r, rows);
    }
  }

  /** A frame of another version, or of an operation the version does not have, is refused as that, whatever it carries. */
  lemma StrangeFramesAreRefused(sha: Hash, frame: Bytes, version: u16, op: byte, payload: Bytes)
    requires FrameOf(frame, version, op, payload) && |frame| <= 12582912
    ensures version != 2 ==> DecodeRequest(frame) == Err(UnsupportedContractVersion)
    ensures version == 2 && op !in {1, 2, 3} ==> DecodeRequest(frame) == Err(UnsupportedOperation)
    ensures version != 3 ==> DecodeRequest3(sha, frame) == Err(UnsupportedContractVersion)
    ensures version == 3 && op !in {1, 2, 3, 4, 5} ==> DecodeRequest3(sha, frame) == Err(UnsupportedOperation)
  {
    hide FrameOf, Frame, Recognise, GetProcess, GetJoin, GetRequest3, BE, FromBE;
    FrameLies(frame, version, op, payload);
    FrameLength(version, op, payload);
    HeaderReads(version, op, payload);
    VersionIsSeen(frame, version, op, payload);
  }

  lemma VersionIsSeen(frame: Bytes, version: u16, op: byte, payload: Bytes)
    requires DecodeHeader(version, frame) == Ok((op, payload))
    ensures forall other: u16 :: other != version ==> DecodeHeader(other, frame) == Err(UnsupportedContractVersion)
  {
  }

  /** What one version reads the other refuses as another version's. */
  lemma VersionsNeverMix(sha: Hash, frame: Bytes)
    ensures DecodeRequest(frame).Ok? ==> DecodeRequest3(sha, frame) == Err(UnsupportedContractVersion)
    ensures DecodeRequest3(sha, frame).Ok? ==> DecodeRequest(frame) == Err(UnsupportedContractVersion)
  {
    hide DecodeHeader, DecodePayload, Recognise, GetRequest3;
    if DecodeRequest(frame).Ok? {
      var (op, payload) := DecodeHeader(2, frame).value;
      VersionIsSeen(frame, 2, op, payload);
    }
    if DecodeRequest3(sha, frame).Ok? {
      var (op, payload) := DecodeHeader(3, frame).value;
      VersionIsSeen(frame, 3, op, payload);
    }
  }

  /**
   * A member request whose other fields are in bounds is refused by either version for its profile, and for its
   * retention if the profile is right.
   */
  lemma StrangeSettingsAreRefused(sha: Hash, frame: Bytes, version: u16, r: Request, rows: seq<StorageEntry>)
    requires version in {2, 3} && |frame| <= 12582912 && FieldsInBounds(r) && Receivable(rows, GroupOfRequest(r))
    requires FrameOf(frame, version, OperationByte(r), Enc(RequestTreeWith(r, WireTree(1, rows))))
    ensures r.profile != 2 ==>
              if version == 2 then DecodeRequest(frame) == Err(UnsupportedProfile)
              else DecodeRequest3(sha, frame) == Err(UnsupportedProfile)
    ensures r.profile == 2 && r.retention != 2 && r.retention != 4 ==>
              if version == 2 then DecodeRequest(frame) == Err(UnsupportedRetention)
              else DecodeRequest3(sha, frame) == Err(UnsupportedRetention)
  {
    hide FrameOf, Frame, FieldsInBounds, Receivable, WireTree, RequestTreeWith, Enc, DecodeRequest, DecodeRequest3, SortBy;
    var sent := r.(storage := Snapshot(1, SortBy(EntryKey, rows)));
    var payload := Enc(RequestTreeWith(r, WireTree(1, rows)));
    SameTree(r, sent.storage, WireTree(1, rows));
    FrameLies(frame, version, OperationByte(r), payload);
    FrameLength(version, OperationByte(r), payload);
    if version == 2 {
      OperationBytesAgree(sent);
      WireAnswers(sent, rows);
    } else {
      MemberDecodes(sha, sent, rows);
    }
  }

  /** A request's rows are sent as they are given, whatever snapshot it holds. */
  lemma SameTree(r: Request, storage: Snapshot, t: Tree)
    ensures RequestTreeWith(r.(storage := storage), t) == RequestTreeWith(r, t)
    ensures FieldsInBounds(r) ==> FieldsInBounds(r.(storage := storage))
    ensures OperationByte(r.(storage := storage)) == OperationByte(r) && GroupOfRequest(r.(storage := storage)) == GroupOfRequest(r)
  {
  }

  lemma OperationBytesAgree(r: Request)
    requires FieldsInBounds(r)
    ensures OperationByte(r) == Opcode(r)
  {
    if r.Process? {
      ProcessIsNotWelcome(r);
    }
  }
}
