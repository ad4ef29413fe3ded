/** Every envelope parser accepts exactly what its encoder writes. */
module EnvelopeRoundTrip {
  import opened Foundation
  import opened EnvelopeCodec

  // ---------------------------------------------------------------- field by field

  lemma ArrayReads(b: Bytes, n: nat, k: Bytes)
    requires |b| == n
    ensures ReadArray(n, b + k) == Ok((b, k))
  {
  }

  lemma IntReads(w: nat, n: nat, k: Bytes)
    requires n < Pow256(w)
    ensures ReadInt(w, BE(w, n) + k) == Ok((n, k))
  {
    ArrayReads(BE(w, n), w, k);
    FromBEInvertsBE(w, n);
  }

  lemma U64Reads(n: u64, k: Bytes)
    ensures ReadU64(BE(8, n) + k) == Ok((n, k))
  {
    PowValues();
    IntReads(8, n, k);
  }

  lemma ByteReads(b: byte, k: Bytes)
    ensures ReadByte([b] + k) == Ok((b, k))
  {
    ArrayReads([b], 1, k);
  }

  lemma IntIsRead(w: nat, s: Bytes)
    requires ReadInt(w, s).Ok?
    ensures s == BE(w, ReadInt(w, s).value.0) + ReadInt(w, s).value.1
  {
    BEInvertsFromBE(s[..w]);
  }

  lemma U64IsRead(s: Bytes)
    requires ReadU64(s).Ok?
    ensures s == BE(8, ReadU64(s).value.0) + ReadU64(s).value.1
  {
    IntIsRead(8, s);
  }

  lemma ByteIsRead(s: Bytes)
    requires ReadByte(s).Ok?
    ensures s == [ReadByte(s).value.0] + ReadByte(s).value.1
  {
    assert s[..1] == [s[0]];
  }

  lemma SuiteReads(e: EnvelopeError, k: Bytes)
    ensures ReadSuite(e, SuiteTo(k)) == Ok(k)
  {
    hide ReadInt, BE;
    PowValues();
    var t3 := BE(2, SIGNATURE_SCHEME_ID) + k;
    var t2 := BE(2, HPKE_AEAD_ID) + t3;
    var t1 := BE(2, HPKE_KDF_ID) + t2;
    IntReads(2, HPKE_KEM_ID, t1);
    IntReads(2, HPKE_KDF_ID, t2);
    IntReads(2, HPKE_AEAD_ID, t3);
    IntReads(2, SIGNATURE_SCHEME_ID, k);
  }

  lemma SuiteIsRead(e: EnvelopeError, s: Bytes)
    requires ReadSuite(e, s).Ok?
    ensures s == SuiteTo(ReadSuite(e, s).value)
  {
    hide ReadInt, BE;
    var t1 := ReadInt(2, s).value.1;
    var t2 := ReadInt(2, t1).value.1;
    var t3 := ReadInt(2, t2).value.1;
    IntIsRead(2, s);
    IntIsRead(2, t1);
    IntIsRead(2, t2);
    IntIsRead(2, t3);
  }

  lemma PresentReads(n: nat, e: EnvelopeError, part: Option<Bytes>, k: Bytes)
    requires part.Some? ==> |part.value| == n
    ensures ReadPresent(n, e, PresentTo(part, k)) == Ok((part, k))
  {
    hide ReadArray, ReadByte;
    if part.Some? {
      ByteReads(1, part.value + k);
      ArrayReads(part.value, n, k);
    } else {
      ByteReads(0, k);
    }
  }

  lemma PresentIsRead(n: nat, e: EnvelopeError, s: Bytes)
    requires ReadPresent(n, e, s).Ok?
    ensures var (part, k) := ReadPresent(n, e, s).value;
            s == PresentTo(part, k) && (part.Some? ==> |part.value| == n)
  {
    hide ReadArray, ReadByte;
    ByteIsRead(s);
  }

  // ---------------------------------------------------------------- public bundles

  lemma TbsReads(t: Tbs)
    requires GoodTbs(t)
    ensures ParseTbs(TbsBytes(t)) == Ok(t)
  {
    hide ReadArray, ReadU64, ReadByte, ReadSuite, BE, SuiteTo, GoodTbs;
    var t7 := [ReasonByte(t.resetReason)] + [];
    var t6 := BE(8, t.previousGeneration) + t7;
    var t5 := [KindByte(t.kind)] + t6;
    var t4 := t.signatureKey + t5;
    var t3 := t.hpkeKey + t4;
    var t2 := SuiteTo(t3);
    var t1 := BE(8, t.generation) + t2;
    ByteReads(FORMAT_VERSION, t.accountId + t1);
    ArrayReads(t.accountId, 16, t1);
    U64Reads(t.generation, t2);
    SuiteReads(NonCanonicalEncoding, t3);
    ArrayReads(t.hpkeKey, 32, t4);
    ArrayReads(t.signatureKey, 32, t5);
    ByteReads(KindByte(t.kind), t6);
    U64Reads(t.previousGeneration, t7);
    ByteReads(ReasonByte(t.resetReason), []);
    GoodTbsIgnoresReason(t);
  }

  lemma GoodTbsIgnoresReason(t: Tbs)
    ensures GoodTbs(t.(resetReason := None)) <==> GoodTbs(t)
  {
    hide IsCanonicalUuid, IsZero;
  }

  lemma TbsIsRead(b: Bytes)
    requires ParseTbs(b).Ok?
    ensures b == TbsBytes(ParseTbs(b).value) && GoodTbs(ParseTbs(b).value)
  {
    hide ReadArray, ReadU64, ReadByte, ReadSuite, BE, SuiteTo, GoodTbs;
    var t1 := ReadByte(b).value.1;
    var t2 := ReadArray(16, t1).value.1;
    var t3 := ReadU64(t2).value.1;
    var t4 := ReadSuite(NonCanonicalEncoding, t3).value;
    var t5 := ReadArray(32, t4).value.1;
    var t6 := ReadArray(32, t5).value.1;
    var t7 := ReadByte(t6).value.1;
    var t8 := ReadU64(t7).value.1;
    ByteIsRead(b);
    U64IsRead(t2);
    SuiteIsRead(NonCanonicalEncoding, t3);
    ByteIsRead(t6);
    U64IsRead(t7);
    ByteIsRead(t8);
    GoodTbsIgnoresReason(ParseTbs(b).value);
  }

  lemma CompleteLength(p: PublicBundle)
    requires |p.tbsBytes| == TBS_BYTES
    ensures |CompleteBytes(p.tbsBytes, p.selfSignature, p.transition)| == if p.transition.Some? then ROTATION_BYTES else NO_TRANSITION_BYTES
  {
  }

  /** A public bundle is accepted exactly when it is the encoding of well-formed fields of the right shape. */
  lemma CompleteParsesExactly(input: Bytes, p: PublicBundle)
    ensures ParseComplete(input) == Ok(p) <==>
              && GoodTbs(p.tbs) && BundleShape(p.tbs, p.transition.Some?) && p.tbsBytes == TbsBytes(p.tbs)
              && input == CompleteBytes(p.tbsBytes, p.selfSignature, p.transition)
  {
    hide ReadArray, ReadPresent, ParseTbs, TbsBytes, PresentTo, GoodTbs, BundleShape;
    if ParseComplete(input).Ok? {
      var (tbsBytes, t1) := ReadArray(TBS_BYTES, input).value;
      var t2 := ReadArray(64, t1).value.1;
      TbsIsRead(tbsBytes);
      PresentIsRead(64, NonCanonicalEncoding, t2);
    }
    if GoodTbs(p.tbs) && BundleShape(p.tbs, p.transition.Some?) && p.tbsBytes == TbsBytes(p.tbs)
       && input == CompleteBytes(p.tbsBytes, p.selfSignature, p.transition) {
      CompleteLength(p);
      var t2 := PresentTo(p.transition, []);
      ArrayReads(p.tbsBytes, TBS_BYTES, p.selfSignature + t2);
      TbsReads(p.tbs);
      ArrayReads(p.selfSignature, 64, t2);
      PresentReads(64, NonCanonicalEncoding, p.transition, []);
    }
  }

  /** A rotation candidate likewise: the shape of a rotation, still without the predecessor's signature. */
  lemma CandidateParsesExactly(input: Bytes, p: PublicBundle)
    ensures ParseCandidate(input) == Ok(p) <==>
              && GoodTbs(p.tbs) && p.tbs.kind.Rotation? && BundleShape(p.tbs, true) && p.transition.None?
              && p.tbsBytes == TbsBytes(p.tbs) && input == CandidateBytes(p.tbsBytes, p.selfSignature)
  {
    hide ReadArray, ParseTbs, TbsBytes, GoodTbs, BundleShape;
    if ParseCandidate(input).Ok? {
      TbsIsRead(ReadArray(TBS_BYTES, input).value.0);
    }
    if GoodTbs(p.tbs) && p.tbs.kind.Rotation? && BundleShape(p.tbs, true) && p.transition.None?
       && p.tbsBytes == TbsBytes(p.tbs) && input == CandidateBytes(p.tbsBytes, p.selfSignature) {
      ArrayReads(p.tbsBytes, TBS_BYTES, p.selfSignature + []);
      TbsReads(p.tbs);
      ArrayReads(p.selfSignature, 64, []);
    }
  }

  // ---------------------------------------------------------------- private bundles

  lemma AuthorityReads(a: Authority, k: Bytes)
    ensures ReadAuthority(AuthorityTo(a, k)) == Ok((a, k))
  {
    hide ReadArray, ReadU64, BE;
    var t3 := BE(8, a.rootGeneration) + k;
    var t2 := a.rootInstallationId + t3;
    var t1 := BE(8, a.generation) + t2;
    ArrayReads(a.accountId, 16, t1);
    U64Reads(a.generation, t2);
    ArrayReads(a.rootInstallationId, 16, t3);
    U64Reads(a.rootGeneration, k);
  }

  lemma AuthorityIsRead(s: Bytes)
    requires ReadAuthority(s).Ok?
    ensures s == AuthorityTo(ReadAuthority(s).value.0, ReadAuthority(s).value.1)
  {
    hide ReadArray, ReadU64, BE;
    var t1 := ReadArray(16, s).value.1;
    var t2 := ReadU64(t1).value.1;
    var t3 := ReadArray(16, t2).value.1;
    U64IsRead(t1);
    U64IsRead(t3);
  }

  lemma PrivateLength(p: PrivateBundle)
    requires p.signaturePrivate.Some? <==> p.state.ActiveFull?
    ensures |PrivateBytes(p)| == if p.state.ActiveFull? then PRIVATE_BUNDLE_ACTIVE_BYTES else PRIVATE_BUNDLE_RETIRED_BYTES
  {
    hide BE;
  }

  /** A private bundle is accepted exactly when it is the encoding of one whose signing key is there while it is active. */
  lemma PrivateParsesExactly(input: Bytes, p: PrivateBundle)
    ensures DecodePrivate(input) == Ok(p) <==> GoodPrivate(p) && input == PrivateBytes(p)
  {
    hide ReadArray, ReadByte, ReadAuthority, ReadSuite, ReadPresent, SuiteTo, AuthorityTo, PresentTo, GoodAuthority, IsZero;
    if DecodePrivate(input).Ok? {
      var t1 := ReadByte(input).value.1;
      var t2 := ReadByte(t1).value.1;
      var t3 := ReadAuthority(t2).value.1;
      var t4 := ReadSuite(PrivateBundleInvalid, t3).value;
      var t5 := ReadArray(32, t4).value.1;
      var t6 := ReadArray(32, t5).value.1;
      ByteIsRead(input);
      ByteIsRead(t1);
      AuthorityIsRead(t2);
      SuiteIsRead(PrivateBundleInvalid, t3);
      PresentIsRead(32, PrivateBundleInvalid, t6);
    }
    if GoodPrivate(p) && input == PrivateBytes(p) {
      PrivateLength(p);
      PrivateReads(p);
    }
  }

  lemma PrivateReads(p: PrivateBundle)
    requires GoodPrivate(p)
    ensures ReadPrivate(PrivateBytes(p)) == Ok(p)
  {
    hide ReadArray, ReadByte, ReadAuthority, ReadSuite, ReadPresent, SuiteTo, AuthorityTo, PresentTo, GoodAuthority, IsZero;
    var t7 := p.signaturePublic + [];
    var t6 := PresentTo(p.signaturePrivate, t7);
    var t5 := p.hpkePublic + t6;
    var t4 := p.hpkePrivate + t5;
    var t3 := SuiteTo(t4);
    var t2 := AuthorityTo(p.authority, t3);
    ByteReads(FORMAT_VERSION, [StateByte(p.state)] + t2);
    ByteReads(StateByte(p.state), t2);
    AuthorityReads(p.authority, t3);
    SuiteReads(PrivateBundleInvalid, t4);
    ArrayReads(p.hpkePrivate, 32, t5);
    ArrayReads(p.hpkePublic, 32, t6);
    PresentReads(32, PrivateBundleInvalid, p.signaturePrivate, t7);
    ArrayReads(p.signaturePublic, 32, []);
  }
}
