/** The envelope codec as written: a cursor moving over its input, a fixed buffer filled by position, appended outputs. */
module EnvelopeCursor {
  import opened Foundation
  import opened EnvelopeCodec
  import opened EnvelopeRoundTrip

  class Cursor {
    const input: Bytes
    var position: nat

    ghost predicate Valid()
      reads this
    {
      position <= |input|
    }

    /** What is still to be read. */
    ghost function Rest(): Bytes
      reads this
      requires Valid()
    {
      input[position..]
    }

    constructor (input: Bytes)
      ensures this.input == input && position == 0 && Valid() && Rest() == input
    {
      this.input := input;
      position := 0;
    }

    method Take(n: nat) returns (r: Result<Bytes, EnvelopeError>)
      requires Valid()
      modifies this
      ensures Valid()
      ensures Follows(ReadArray(n, old(Rest())), r, Rest())
    {
      var end := position + n;
      if end > |input| {
        return Err(NonCanonicalEncoding);
      }
      assert input[position..end] == input[position..][..n] && input[end..] == input[position..][n..];
      r := Ok(input[position..end]);
      position := end;
    }

    method ReadU8() returns (r: Result<byte, EnvelopeError>)
      requires Valid()
      modifies this
      ensures Valid()
      ensures Follows(ReadByte(old(Rest())), r, Rest())
    {
      var b :- Take(1);
      return Ok(b[0]);
    }

    method ReadU16() returns (r: Result<nat, EnvelopeError>)
      requires Valid()
      modifies this
      ensures Valid()
      ensures Follows(ReadInt(2, old(Rest())), r, Rest())
    {
      var b :- Take(2);
      return Ok(FromBE(b));
    }

    method ReadU64() returns (r: Result<u64, EnvelopeError>)
      requires Valid()
      modifies this
      ensures Valid()
      ensures Follows(EnvelopeCodec.ReadU64(old(Rest())), r, Rest())
    {
      var b :- Take(8);
      PowValues();
      return Ok(FromBE(b));
    }

    method IsFinished() returns (done: bool)
      requires Valid()
      ensures done <==> Rest() == []
    {
      done := position == |input|;
    }

    /** The four algorithm identifiers, each compared as soon as it is read. */
    method Suite(mismatch: EnvelopeError) returns (r: Result<(), EnvelopeError>)
      requires Valid()
      modifies this
      ensures Valid()
      ensures Skips(ReadSuite(mismatch, old(Rest())), r, Rest())
    {
      hide ReadInt;
      var kem :- ReadU16();
      if kem != HPKE_KEM_ID {
        return Err(mismatch);
      }
      var kdf :- ReadU16();
      if kdf != HPKE_KDF_ID {
        return Err(mismatch);
      }
      var aead :- ReadU16();
      if aead != HPKE_AEAD_ID {
        return Err(mismatch);
      }
      var scheme :- ReadU16();
      if scheme != SIGNATURE_SCHEME_ID {
        return Err(mismatch);
      }
      return Ok(());
    }

    /** The account and root a private bundle belongs to. */
    method Owner() returns (r: Result<Authority, EnvelopeError>)
      requires Valid()
      modifies this
      ensures Valid()
      ensures Follows(ReadAuthority(old(Rest())), r, Rest())
    {
      hide ReadArray, EnvelopeCodec.ReadU64;
      var accountId :- Take(16);
      var generation :- ReadU64();
      var rootInstallationId :- Take(16);
      var rootGeneration :- ReadU64();
      return Ok(Authority(accountId, generation, rootInstallationId, rootGeneration));
    }

    method Present(n: nat, wrongByte: EnvelopeError) returns (r: Result<Option<Bytes>, EnvelopeError>)
      requires Valid()
      modifies this
      ensures Valid()
      ensures Follows(ReadPresent(n, wrongByte, old(Rest())), r, Rest())
    {
      hide ReadArray, ReadByte;
      var present :- ReadU8();
      if present == 0 {
        return Ok(None);
      }
      if present != 1 {
        return Err(wrongByte);
      }
      var part :- Take(n);
      return Ok(Some(part));
    }
  }

  method ParsePublicBundleTbs(input: Bytes) returns (r: Result<Tbs, EnvelopeError>)
    ensures r == ParseTbs(input)
  {
    hide ReadArray, ReadByte, ReadSuite, EnvelopeCodec.ReadU64, GoodTbs, KindOf, ReasonOf, Cursor.Rest;
    var c := new Cursor(input);
    var version :- c.ReadU8();
    if version != FORMAT_VERSION {
      return Err(UnsupportedVersion);
    }
    var accountId :- c.Take(16);
    var generation :- c.ReadU64();
    var _ :- c.Suite(NonCanonicalEncoding);
    var hpkeKey :- c.Take(32);
    var signatureKey :- c.Take(32);
    var kindByte :- c.ReadU8();
    var kind :- KindOf(kindByte);
    var previousGeneration :- c.ReadU64();
    var reasonByte :- c.ReadU8();
    var finished := c.IsFinished();
    var t := Tbs(accountId, generation, hpkeKey, signatureKey, kind, previousGeneration, None);
    if !finished || !GoodTbs(t) {
      return Err(NonCanonicalEncoding);
    }
    var reason :- ReasonOf(reasonByte);
    return Ok(t.(resetReason := reason));
  }

  method ParseCompletePublicBundle(input: Bytes) returns (r: Result<PublicBundle, EnvelopeError>)
    ensures r == ParseComplete(input)
  {
    hide ReadArray, ReadPresent, ParseTbs, BundleShape;
    if |input| > PUBLIC_BUNDLE_MAX_BYTES || (|input| != NO_TRANSITION_BYTES && |input| != ROTATION_BYTES) {
      return Err(NonCanonicalEncoding);
    }
    var c := new Cursor(input);
    var tbsBytes :- c.Take(TBS_BYTES);
    var tbs :- ParsePublicBundleTbs(tbsBytes);
    var selfSignature :- c.Take(64);
    var transition :- c.Present(64, NonCanonicalEncoding);
    var finished := c.IsFinished();
    if !finished {
      return Err(NonCanonicalEncoding);
    }
    if !BundleShape(tbs, transition.Some?) {
      return Err(NonCanonicalEncoding);
    }
    return Ok(PublicBundle(tbs, tbsBytes, selfSignature, transition));
  }

  method ParseRotationCandidate(input: Bytes) returns (r: Result<PublicBundle, EnvelopeError>)
    ensures r == ParseCandidate(input)
  {
    hide ReadArray, ParseTbs, BundleShape;
    if |input| != CANDIDATE_BYTES {
      return Err(NonCanonicalEncoding);
    }
    var c := new Cursor(input);
    var tbsBytes :- c.Take(TBS_BYTES);
    var tbs :- ParsePublicBundleTbs(tbsBytes);
    var selfSignature :- c.Take(64);
    var finished := c.IsFinished();
    if !finished || !tbs.kind.Rotation? {
      return Err(NonCanonicalEncoding);
    }
    if !BundleShape(tbs, true) {
      return Err(NonCanonicalEncoding);
    }
    return Ok(PublicBundle(tbs, tbsBytes, selfSignature, None));
  }

  method DecodePrivateBundle(input: Bytes) returns (r: Result<PrivateBundle, EnvelopeError>)
    ensures r == DecodePrivate(input)
  {
    hide ReadPrivate;
    if |input| > PRIVATE_BUNDLE_MAX_BYTES {
      return Err(PrivateBundleInvalid);
    }
    if |input| != PRIVATE_BUNDLE_ACTIVE_BYTES && |input| != PRIVATE_BUNDLE_RETIRED_BYTES {
      return Err(PrivateBundleInvalid);
    }
    r := PrivateFields(input);
  }

  method PrivateFields(input: Bytes) returns (r: Result<PrivateBundle, EnvelopeError>)
    ensures r == ReadPrivate(input)
  {
    hide ReadArray, ReadByte, ReadSuite, ReadPresent, ReadAuthority, StateOfByte, GoodAuthority, GoodPrivate, Cursor.Rest;
    var c := new Cursor(input);
    var version :- c.ReadU8();
    if version != FORMAT_VERSION {
      return Err(PrivateBundleInvalid);
    }
    var stateByte :- c.ReadU8();
    var state :- StateOfByte(stateByte);
    var authority :- c.Owner();
    if !GoodAuthority(authority) {
      return Err(PrivateBundleInvalid);
    }
    var _ :- c.Suite(PrivateBundleInvalid);
    var hpkePrivate :- c.Take(32);
    var hpkePublic :- c.Take(32);
    var signaturePrivate :- c.Present(32, PrivateBundleInvalid);
    var signaturePublic :- c.Take(32);
    var finished := c.IsFinished();
    var p := PrivateBundle(state, authority, hpkePrivate, hpkePublic, signaturePrivate, signaturePublic);
    if !finished || !GoodPrivate(p) {
      return Err(PrivateBundleInvalid);
    }
    return Ok(p);
  }

  /** Copies a value into the buffer behind what has been written, and answers where it ends. */
  method WriteBytes(output: array<byte>, cursor: nat, value: Bytes, ghost written: Bytes) returns (end: nat)
    requires cursor + |value| <= output.Length && output[..cursor] == written
    modifies output
    ensures end == cursor + |value| && output[..end] == written + value
  {
    end := cursor + |value|;
    forall i | 0 <= i < |value| {
      output[cursor + i] := value[i];
    }
    assert output[..cursor] == written && output[cursor..end] == value;
    assert output[..end] == output[..cursor] + output[cursor..end];
  }

  method EncodePublicBundleTbs(t: Tbs) returns (output: array<byte>)
    ensures output.Length == TBS_BYTES && output[..] == TbsBytes(t)
  {
    hide BE, TbsBytes, KindByte, ReasonByte;
    output := new byte[TBS_BYTES](_ => 0);
    var cursor := 0;
    ghost var w: Bytes := [];
    cursor := WriteBytes(output, cursor, [FORMAT_VERSION], w);
    w := w + [FORMAT_VERSION];
    cursor := WriteBytes(output, cursor, t.accountId, w);
    w := w + t.accountId;
    cursor := WriteBytes(output, cursor, BE(8, t.generation), w);
    w := w + BE(8, t.generation);
    cursor := WriteBytes(output, cursor, BE(2, HPKE_KEM_ID), w);
    w := w + BE(2, HPKE_KEM_ID);
    cursor := WriteBytes(output, cursor, BE(2, HPKE_KDF_ID), w);
    w := w + BE(2, HPKE_KDF_ID);
    cursor := WriteBytes(output, cursor, BE(2, HPKE_AEAD_ID), w);
    w := w + BE(2, HPKE_AEAD_ID);
    cursor := WriteBytes(output, cursor, BE(2, SIGNATURE_SCHEME_ID), w);
    w := w + BE(2, SIGNATURE_SCHEME_ID);
    cursor := WriteBytes(output, cursor, t.hpkeKey, w);
    w := w + t.hpkeKey;
    cursor := WriteBytes(output, cursor, t.signatureKey, w);
    w := w + t.signatureKey;
    cursor := WriteBytes(output, cursor, [KindByte(t.kind)], w);
    w := w + [KindByte(t.kind)];
    cursor := WriteBytes(output, cursor, BE(8, t.previousGeneration), w);
    w := w + BE(8, t.previousGeneration);
    cursor := WriteBytes(output, cursor, [ReasonByte(t.resetReason)], w);
    w := w + [ReasonByte(t.resetReason)];
    assert output[..] == output[..cursor];
    TbsFromLeft(t);
    assert [] + [FORMAT_VERSION] == [FORMAT_VERSION];
  }

  /** Appending the fields one after another gives the same bytes as nesting them. */
  lemma TbsFromLeft(t: Tbs)
    ensures TbsBytes(t) ==
              [FORMAT_VERSION] + t.accountId + BE(8, t.generation) + BE(2, HPKE_KEM_ID) + BE(2, HPKE_KDF_ID) + BE(2, HPKE_AEAD_ID)
              + BE(2, SIGNATURE_SCHEME_ID) + t.hpkeKey + t.signatureKey + [KindByte(t.kind)]
              + BE(8, t.previousGeneration) + [ReasonByte(t.resetReason)]
  {
    hide BE;
    var a1 := [FORMAT_VERSION];
    var a2 := a1 + t.accountId;
    var a3 := a2 + BE(8, t.generation);
    var a4 := a3 + BE(2, HPKE_KEM_ID);
    var a5 := a4 + BE(2, HPKE_KDF_ID);
    var a6 := a5 + BE(2, HPKE_AEAD_ID);
    var a7 := a6 + BE(2, SIGNATURE_SCHEME_ID);
    var a8 := a7 + t.hpkeKey;
    var a9 := a8 + t.signatureKey;
    var a10 := a9 + [KindByte(t.kind)];
    var a11 := a10 + BE(8, t.previousGeneration);
    var r11 := [ReasonByte(t.resetReason)] + [];
    var r10 := BE(8, t.previousGeneration) + r11;
    var r9 := [KindByte(t.kind)] + r10;
    var r8 := t.signatureKey + r9;
    var r7 := t.hpkeKey + r8;
    var r6 := BE(2, SIGNATURE_SCHEME_ID) + r7;
    var r5 := BE(2, HPKE_AEAD_ID) + r6;
    var r4 := BE(2, HPKE_KDF_ID) + r5;
    var r3 := BE(2, HPKE_KEM_ID) + r4;
    var r2 := BE(8, t.generation) + r3;
    Regroup(a1, t.accountId, r2);
    Regroup(a2, BE(8, t.generation), r3);
    Regroup(a3, BE(2, HPKE_KEM_ID), r4);
    Regroup(a4, BE(2, HPKE_KDF_ID), r5);
    Regroup(a5, BE(2, HPKE_AEAD_ID), r6);
    Regroup(a6, BE(2, SIGNATURE_SCHEME_ID), r7);
    Regroup(a7, t.hpkeKey, r8);
    Regroup(a8, t.signatureKey, r9);
    Regroup(a9, [KindByte(t.kind)], r10);
    Regroup(a10, BE(8, t.previousGeneration), r11);
  }
}
