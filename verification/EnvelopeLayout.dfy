/** Where each field of an envelope bundle lies, and which bytes are accepted, byte by byte. */
module EnvelopeLayout {
  import opened Foundation
  import opened EnvelopeCodec
  import opened EnvelopeRoundTrip

  // ---------------------------------------------------------------- the conditions in full

  /** An RFC 9562 UUID: not all zero, version 1 to 8 in the high half of byte 6, variant 10 in byte 8. */
  predicate Uuid(b: Bytes) {
    |b| == 16 && (exists i :: 0 <= i < 16 && b[i] != 0) && 0x10 <= b[6] < 0x90 && 0x80 <= b[8] < 0xc0
  }

  predicate NonZero(b: Bytes) {
    exists i :: 0 <= i < |b| && b[i] != 0
  }

  /** RunsFrom 1 to the largest integer a web client represents exactly. */
  predicate Generation(n: nat) {
    1 <= n <= 9007199254740991
  }

  /** Initial is the first generation of an account; a rotation or a reset follows the generation before it. */
  predicate Shape(t: Tbs, signed: bool) {
    && (t.kind == Initial ==> t.generation == 1 && t.previousGeneration == 0 && t.resetReason == None && !signed)
    && (t.kind == Rotation ==> t.generation >= 2 && t.previousGeneration + 1 == t.generation && t.resetReason == None && signed)
    && (t.kind == ContinuityReset ==> t.generation >= 2 && t.previousGeneration + 1 == t.generation && t.resetReason != None && !signed)
  }

  // ---------------------------------------------------------------- fields by offset

  /** X25519 with HKDF-SHA256 and AES-128-GCM (RFC 9180), signing with Ed25519. */
  const SUITE: Bytes := [0x00, 0x20, 0x00, 0x01, 0x00, 0x01, 0x08, 0x07]

  /** The 107 signed bytes of a public bundle. */
  predicate TbsAt(b: Bytes, t: Tbs) {
    && |b| == 107
    && LiesAt(b, 0, [1])
    && LiesAt(b, 1, t.accountId)
    && LiesAt(b, 17, BE(8, t.generation))
    && LiesAt(b, 25, SUITE)
    && LiesAt(b, 33, t.hpkeKey)
    && LiesAt(b, 65, t.signatureKey)
    && LiesAt(b, 97, [match t.kind case Initial => 1 case Rotation => 2 case ContinuityReset => 3])
    && LiesAt(b, 98, BE(8, t.previousGeneration))
    && LiesAt(b, 106, [if t.resetReason.Some? then t.resetReason.value else 0])
  }

  predicate TbsGood(t: Tbs) {
    && Uuid(t.accountId) && Generation(t.generation) && t.previousGeneration <= 9007199254740991
    && NonZero(t.hpkeKey) && NonZero(t.signatureKey)
  }

  predicate CompleteAt(b: Bytes, p: PublicBundle) {
    && |b| == (if p.transition.Some? then 236 else 172)
    && TbsAt(p.tbsBytes, p.tbs)
    && LiesAt(b, 0, p.tbsBytes)
    && LiesAt(b, 107, p.selfSignature)
    && LiesAt(b, 171, if p.transition.Some? then [1] + p.transition.value else [0])
  }

  predicate CandidateAt(b: Bytes, p: PublicBundle) {
    && |b| == 171 && p.transition == None
    && TbsAt(p.tbsBytes, p.tbs)
    && LiesAt(b, 0, p.tbsBytes)
    && LiesAt(b, 107, p.selfSignature)
  }

  predicate PrivateAt(b: Bytes, p: PrivateBundle) {
    && (p.signaturePrivate.Some? <==> p.state.ActiveFull?)
    && |b| == (if p.state.ActiveFull? then 187 else 155)
    && LiesAt(b, 0, [1])
    && LiesAt(b, 1, [if p.state.ActiveFull? then 1 else 2])
    && LiesAt(b, 2, p.authority.accountId)
    && LiesAt(b, 18, BE(8, p.authority.generation))
    && LiesAt(b, 26, p.authority.rootInstallationId)
    && LiesAt(b, 42, BE(8, p.authority.rootGeneration))
    && LiesAt(b, 50, SUITE)
    && LiesAt(b, 58, p.hpkePrivate)
    && LiesAt(b, 90, p.hpkePublic)
    && LiesAt(b, 122, if p.signaturePrivate.Some? then [1] + p.signaturePrivate.value else [0])
    && LiesAt(b, |b| - 32, p.signaturePublic)
  }

  predicate AuthorityGood(a: Authority) {
    Uuid(a.accountId) && Uuid(a.rootInstallationId) && Generation(a.generation) && Generation(a.rootGeneration)
  }

  // ---------------------------------------------------------------- the conditions are those of the code

  lemma UuidMeans(b: Id)
    ensures IsCanonicalUuid(b) <==> Uuid(b)
  {
    if exists x :: x in b && x != 0 {
      var x :| x in b && x != 0;
      var i :| 0 <= i < 16 && b[i] == x;
    }
    if Uuid(b) {
      var i :| 0 <= i < 16 && b[i] != 0;
      assert b[i] in b;
    }
  }

  lemma NonZeroMeans(b: Bytes)
    ensures !IsZero(b) <==> NonZero(b)
  {
    if NonZero(b) {
      var i :| 0 <= i < |b| && b[i] != 0;
      assert b[i] in b;
    }
  }

  lemma ConditionsMean(t: Tbs, signed: bool)
    ensures GoodTbs(t) <==> TbsGood(t)
    ensures BundleShape(t, signed) <==> Shape(t, signed)
  {
    hide Uuid, NonZero, IsCanonicalUuid, IsZero;
    UuidMeans(t.accountId);
    NonZeroMeans(t.hpkeKey);
    NonZeroMeans(t.signatureKey);
  }

  lemma AuthorityMeans(a: Authority)
    ensures GoodAuthority(a) <==> AuthorityGood(a)
  {
    hide Uuid, IsCanonicalUuid;
    UuidMeans(a.accountId);
    UuidMeans(a.rootInstallationId);
  }

  // ---------------------------------------------------------------- offsets

  lemma SuiteBytes(k: Bytes)
    ensures SuiteTo(k) == SUITE + k
  {
    assert BE(2, 0x0020) == [0x00, 0x20] && BE(2, 0x0001) == [0x00, 0x01] && BE(2, 0x0807) == [0x08, 0x07] by { TwoBytes(); }
    assert [0x00, 0x20] + ([0x00, 0x01] + ([0x00, 0x01] + ([0x08, 0x07] + k))) == SUITE + k;
  }

  lemma TwoBytes()
    ensures BE(2, 0x0020) == [0x00, 0x20] && BE(2, 0x0001) == [0x00, 0x01] && BE(2, 0x0807) == [0x08, 0x07]
  {
    BigEndian(2, 0x0020, 0); BigEndian(2, 0x0020, 1);
    BigEndian(2, 0x0001, 0); BigEndian(2, 0x0001, 1);
    BigEndian(2, 0x0807, 0); BigEndian(2, 0x0807, 1);
    assert ByteOf(0x0020, 1) == 0 && ByteOf(0x0001, 1) == 0 && ByteOf(0x0807, 1) == 8;
  }

  lemma TbsBytesAt(t: Tbs, b: Bytes)
    ensures b == TbsBytes(t) <==> TbsAt(b, t)
  {
    hide BE, SuiteTo, LiesAt, RunsFrom;
    var t8 := [ReasonByte(t.resetReason)] + [];
    var t7 := BE(8, t.previousGeneration) + t8;
    var t6 := [KindByte(t.kind)] + t7;
    var t5 := t.signatureKey + t6;
    var t4 := t.hpkeKey + t5;
    var t3 := SUITE + t4;
    var t2 := BE(8, t.generation) + t3;
    var t1 := t.accountId + t2;
    SuiteBytes(t4);
    FromEnds(b, TbsBytes(t));
    Peel(b, 0, [1], t1);
    Peel(b, 1, t.accountId, t2);
    Peel(b, 17, BE(8, t.generation), t3);
    Peel(b, 25, SUITE, t4);
    Peel(b, 33, t.hpkeKey, t5);
    Peel(b, 65, t.signatureKey, t6);
    Peel(b, 97, [KindByte(t.kind)], t7);
    Peel(b, 98, BE(8, t.previousGeneration), t8);
    Peel(b, 106, [ReasonByte(t.resetReason)], []);
  }

  // ---------------------------------------------------------------- exactly these bytes are accepted

  /** A public bundle is accepted exactly when its bytes are laid out so and its fields satisfy the conditions in full. */
  lemma CompleteAcceptedExactly(b: Bytes, p: PublicBundle)
    ensures ParseComplete(b) == Ok(p) <==> CompleteAt(b, p) && TbsGood(p.tbs) && Shape(p.tbs, p.transition.Some?)
  {
    hide ParseComplete, TbsBytes, TbsAt, GoodTbs, BundleShape, TbsGood, Shape, LiesAt, RunsFrom;
    CompleteParsesExactly(b, p);
    ConditionsMean(p.tbs, p.transition.Some?);
    TbsBytesAt(p.tbs, p.tbsBytes);
    TbsLength(p.tbsBytes, p.tbs);
    var last := if p.transition.Some? then [1] + p.transition.value else [0];
    assert PresentTo(p.transition, []) == last + [] by { assert p.transition.Some? ==> p.transition.value + [] == p.transition.value; }
    FromEnds(b, CompleteBytes(p.tbsBytes, p.selfSignature, p.transition));
    Peel(b, 0, p.tbsBytes, p.selfSignature + (last + []));
    Peel(b, 107, p.selfSignature, last + []);
    Peel(b, 171, last, []);
  }

  lemma TbsLength(b: Bytes, t: Tbs)
    ensures TbsAt(b, t) ==> |b| == 107
  {
  }

  lemma CandidateAcceptedExactly(b: Bytes, p: PublicBundle)
    ensures ParseCandidate(b) == Ok(p) <==> CandidateAt(b, p) && TbsGood(p.tbs) && p.tbs.kind == Rotation && Shape(p.tbs, true)
  {
    hide ParseCandidate, TbsBytes, TbsAt, GoodTbs, BundleShape, TbsGood, Shape, LiesAt, RunsFrom;
    CandidateParsesExactly(b, p);
    ConditionsMean(p.tbs, true);
    TbsBytesAt(p.tbs, p.tbsBytes);
    TbsLength(p.tbsBytes, p.tbs);
    FromEnds(b, CandidateBytes(p.tbsBytes, p.selfSignature));
    Peel(b, 0, p.tbsBytes, p.selfSignature + []);
    Peel(b, 107, p.selfSignature, []);
  }

  lemma PrivateBytesAt(p: PrivateBundle, b: Bytes)
    requires p.signaturePrivate.Some? <==> p.state.ActiveFull?
    ensures b == PrivateBytes(p) <==> PrivateAt(b, p)
  {
    hide BE, SuiteTo, LiesAt, RunsFrom;
    var a := p.authority;
    var key := if p.signaturePrivate.Some? then [1] + p.signaturePrivate.value else [0];
    var t10 := p.signaturePublic + [];
    var t9 := key + t10;
    var t8 := p.hpkePublic + t9;
    var t7 := p.hpkePrivate + t8;
    var t6 := SUITE + t7;
    var t5 := BE(8, a.rootGeneration) + t6;
    var t4 := a.rootInstallationId + t5;
    var t3 := BE(8, a.generation) + t4;
    var t2 := a.accountId + t3;
    var t1 := [StateByte(p.state)] + t2;
    SuiteBytes(t7);
    PresentIsKey(p.signaturePrivate, t10);
    FromEnds(b, PrivateBytes(p));
    Peel(b, 0, [1], t1);
    Peel(b, 1, [StateByte(p.state)], t2);
    Peel(b, 2, a.accountId, t3);
    Peel(b, 18, BE(8, a.generation), t4);
    Peel(b, 26, a.rootInstallationId, t5);
    Peel(b, 42, BE(8, a.rootGeneration), t6);
    Peel(b, 50, SUITE, t7);
    Peel(b, 58, p.hpkePrivate, t8);
    Peel(b, 90, p.hpkePublic, t9);
    Peel(b, 122, key, t10);
    Peel(b, 122 + |key|, p.signaturePublic, []);
    PrivateLength(p);
  }

  lemma PresentIsKey(part: Option<Bytes>, k: Bytes)
    ensures PresentTo(part, k) == (if part.Some? then [1] + part.value else [0]) + k
  {
  }

  lemma PrivateAcceptedExactly(b: Bytes, p: PrivateBundle)
    ensures DecodePrivate(b) == Ok(p) <==>
              && PrivateAt(b, p) && AuthorityGood(p.authority)
              && NonZero(p.hpkePrivate) && NonZero(p.hpkePublic) && NonZero(p.signaturePublic)
  {
    hide DecodePrivate, PrivateBytes, GoodAuthority, AuthorityGood, IsZero, NonZero, LiesAt;
    PrivateParsesExactly(b, p);
    AuthorityMeans(p.authority);
    NonZeroMeans(p.hpkePrivate);
    NonZeroMeans(p.hpkePublic);
    NonZeroMeans(p.signaturePublic);
    if p.signaturePrivate.Some? <==> p.state.ActiveFull? {
      PrivateBytesAt(p, b);
    }
  }
}
