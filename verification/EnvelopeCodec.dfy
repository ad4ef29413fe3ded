/** The fixed-length account-envelope bundles: public bundles, rotation candidates and private bundles. */
module EnvelopeCodec {
  import opened Foundation

  datatype EnvelopeError =
    | AuthorityMismatch
    | UnsupportedVersion
    | NonCanonicalEncoding
    | SignatureInvalid
    | BoundsExceeded
    | PrivateBundleInvalid
    | InternalCryptoFailure

  type Id = b: Bytes | |b| == 16 witness seq(16, _ => 0)
  type Key = b: Bytes | |b| == 32 witness seq(32, _ => 0)
  type Signature = b: Bytes | |b| == 64 witness seq(64, _ => 0)

  const FORMAT_VERSION := 1
  const PRIVATE_BUNDLE_ACTIVE_BYTES := 187
  const PRIVATE_BUNDLE_RETIRED_BYTES := 155
  const PRIVATE_BUNDLE_MAX_BYTES := 256
  const TBS_BYTES := 107
  const CANDIDATE_BYTES := 171
  const NO_TRANSITION_BYTES := 172
  const ROTATION_BYTES := 236
  const PUBLIC_BUNDLE_MAX_BYTES := 256
  const MAX_WEB_SAFE_INTEGER: u64 := 0x1F_FFFF_FFFF_FFFF
  const HPKE_KEM_ID := 0x0020
  const HPKE_KDF_ID := 0x0001
  const HPKE_AEAD_ID := 0x0001
  const SIGNATURE_SCHEME_ID := 0x0807

  datatype Kind = Initial | Rotation | ContinuityReset
  /** Why continuity was reset: identity, chat store, root move, key loss, recovery or compromise. */
  type Reason = n: nat | 1 <= n <= 6 witness 1

  datatype Tbs = Tbs(
    accountId: Id, generation: u64, hpkeKey: Key, signatureKey: Key, kind: Kind, previousGeneration: u64,
    resetReason: Option<Reason>)

  datatype PublicBundle = PublicBundle(tbs: Tbs, tbsBytes: Bytes, selfSignature: Signature, transition: Option<Signature>)

  datatype Authority = Authority(
    accountId: Id, generation: u64, rootInstallationId: Id, rootGeneration: u64)

  datatype BundleState = ActiveFull | RetiredDecryptOnly

  datatype PrivateBundle = PrivateBundle(
    state: BundleState, authority: Authority, hpkePrivate: Key, hpkePublic: Key, signaturePrivate: Option<Key>,
    signaturePublic: Key)

  // ---------------------------------------------------------------- conditions on the fields

  /** An RFC 9562 UUID of versions 1 to 8 in the usual variant. */
  predicate IsCanonicalUuid(value: Id) {
    (exists b :: b in value && b != 0) && value[8] / 64 == 2 && 1 <= value[6] / 16 <= 8
  }

  predicate IsZero(b: Bytes) {
    forall x :: x in b ==> x == 0
  }

  predicate SafeGeneration(n: nat) {
    1 <= n <= MAX_WEB_SAFE_INTEGER
  }

  predicate GoodAuthority(a: Authority) {
    && IsCanonicalUuid(a.accountId) && IsCanonicalUuid(a.rootInstallationId)
    && SafeGeneration(a.generation) && SafeGeneration(a.rootGeneration)
  }

  predicate GoodTbs(t: Tbs) {
    && IsCanonicalUuid(t.accountId) && SafeGeneration(t.generation) && t.previousGeneration <= MAX_WEB_SAFE_INTEGER
    && !IsZero(t.hpkeKey) && !IsZero(t.signatureKey)
  }

  /** Which generations, reasons and signatures go with each kind of activation. */
  predicate BundleShape(t: Tbs, hasTransition: bool) {
    match t.kind
    case Initial => t.generation == 1 && t.previousGeneration == 0 && t.resetReason.None? && !hasTransition
    case Rotation => t.generation > 1 && t.previousGeneration == t.generation - 1 && t.resetReason.None? && hasTransition
    case ContinuityReset => t.generation > 1 && t.previousGeneration == t.generation - 1 && t.resetReason.Some? && !hasTransition
  }

  predicate GoodPrivate(p: PrivateBundle) {
    && GoodAuthority(p.authority) && !IsZero(p.hpkePrivate) && !IsZero(p.hpkePublic) && !IsZero(p.signaturePublic)
    && (p.signaturePrivate.Some? <==> p.state.ActiveFull?)
  }

  // ---------------------------------------------------------------- encoders

  function KindByte(k: Kind): byte {
    match k
    case Initial => 1
    case Rotation => 2
    case ContinuityReset => 3
  }

  function StateByte(s: BundleState): byte {
    if s.ActiveFull? then 1 else 2
  }

  function ReasonByte(r: Option<Reason>): byte {
    if r.Some? then r.value else 0
  }

  function SuiteTo(k: Bytes): Bytes {
    BE(2, HPKE_KEM_ID) + (BE(2, HPKE_KDF_ID) + (BE(2, HPKE_AEAD_ID) + (BE(2, SIGNATURE_SCHEME_ID) + k)))
  }

  function TbsTo(t: Tbs, k: Bytes): Bytes {
    var s := [KindByte(t.kind)] + (BE(8, t.previousGeneration) + ([ReasonByte(t.resetReason)] + k));
    var s := SuiteTo(t.hpkeKey + (t.signatureKey + s));
    [FORMAT_VERSION] + (t.accountId + (BE(8, t.generation) + s))
  }

  function TbsBytes(t: Tbs): (b: Bytes)
    ensures |b| == TBS_BYTES
  {
    TbsTo(t, [])
  }

  /** An optional part behind a presence byte. */
  function PresentTo(part: Option<Bytes>, k: Bytes): Bytes {
    if part.Some? then [1] + (part.value + k) else [0] + k
  }

  function CompleteBytes(tbsBytes: Bytes, selfSignature: Signature, transition: Option<Signature>): Bytes {
    tbsBytes + (selfSignature + PresentTo(transition, []))
  }

  function CandidateBytes(tbsBytes: Bytes, selfSignature: Signature): Bytes {
    tbsBytes + (selfSignature + [])
  }

  function AuthorityTo(a: Authority, k: Bytes): Bytes {
    a.accountId + (BE(8, a.generation) + (a.rootInstallationId + (BE(8, a.rootGeneration) + k)))
  }

  function PrivateBytes(p: PrivateBundle): Bytes {
    var s := PresentTo(p.signaturePrivate, p.signaturePublic + []);
    var s := SuiteTo(p.hpkePrivate + (p.hpkePublic + s));
    [FORMAT_VERSION] + ([StateByte(p.state)] + AuthorityTo(p.authority, s))
  }

  // ---------------------------------------------------------------- readers

  type Read<T> = Result<(T, Bytes), EnvelopeError>

  function ReadArray(n: nat, s: Bytes): (r: Read<Bytes>)
    ensures r.Ok? ==> |r.value.0| == n && s == r.value.0 + r.value.1
  {
    if |s| < n then Err(NonCanonicalEncoding) else Ok((s[..n], s[n..]))
  }

  function ReadInt(w: nat, s: Bytes): Read<nat> {
    var (b, k) :- ReadArray(w, s);
    Ok((FromBE(b), k))
  }

  function ReadU64(s: Bytes): Read<u64> {
    var (n, k) :- ReadInt(8, s);
    PowValues();
    Ok((n, k))
  }

  function ReadByte(s: Bytes): Read<byte> {
    var (b, k) :- ReadArray(1, s);
    Ok((b[0], k))
  }

  function ReadSuite(mismatch: EnvelopeError, s: Bytes): Result<Bytes, EnvelopeError> {
    var (kem, k) :- ReadInt(2, s);
    var _ :- Need(kem == HPKE_KEM_ID, mismatch);
    var (kdf, k) :- ReadInt(2, k);
    var _ :- Need(kdf == HPKE_KDF_ID, mismatch);
    var (aead, k) :- ReadInt(2, k);
    var _ :- Need(aead == HPKE_AEAD_ID, mismatch);
    var (scheme, k) :- ReadInt(2, k);
    var _ :- Need(scheme == SIGNATURE_SCHEME_ID, mismatch);
    Ok(k)
  }

  function KindOf(b: byte): Result<Kind, EnvelopeError> {
    if b == 1 then Ok(Initial) else if b == 2 then Ok(Rotation) else if b == 3 then Ok(ContinuityReset) else Err(NonCanonicalEncoding)
  }

  function ReasonOf(b: byte): Result<Option<Reason>, EnvelopeError> {
    if b == 0 then Ok(None) else if b <= 6 then Ok(Some(b)) else Err(NonCanonicalEncoding)
  }

  function StateOfByte(b: byte): Result<BundleState, EnvelopeError> {
    if b == 1 then Ok(ActiveFull) else if b == 2 then Ok(RetiredDecryptOnly) else Err(PrivateBundleInvalid)
  }

  function ParseTbs(input: Bytes): Result<Tbs, EnvelopeError> {
    var (version, k) :- ReadByte(input);
    var _ :- Need(version == FORMAT_VERSION, UnsupportedVersion);
    var (accountId, k) :- ReadArray(16, k);
    var (generation, k) :- ReadU64(k);
    var k :- ReadSuite(NonCanonicalEncoding, k);
    var (hpkeKey, k) :- ReadArray(32, k);
    var (signatureKey, k) :- ReadArray(32, k);
    var (kindByte, k) :- ReadByte(k);
    var kind :- KindOf(kindByte);
    var (previousGeneration, k) :- ReadU64(k);
    var (reasonByte, k) :- ReadByte(k);
    var t := Tbs(accountId, generation, hpkeKey, signatureKey, kind, previousGeneration, None);
    var _ :- Need(k == [] && GoodTbs(t), NonCanonicalEncoding);
    var reason :- ReasonOf(reasonByte);
    Ok(t.(resetReason := reason))
  }

  function ReadPresent(n: nat, wrongByte: EnvelopeError, s: Bytes): (r: Read<Option<Bytes>>)
    ensures r.Ok? && r.value.0.Some? ==> |r.value.0.value| == n
  {
    var (present, k) :- ReadByte(s);
    if present == 0 then Ok((None, k))
    else if present == 1 then
      var (part, k) :- ReadArray(n, k);
      Ok((Some(part), k))
    else Err(wrongByte)
  }

  function ParseComplete(input: Bytes): Result<PublicBundle, EnvelopeError> {
    var _ :- Need(|input| <= PUBLIC_BUNDLE_MAX_BYTES && (|input| == NO_TRANSITION_BYTES || |input| == ROTATION_BYTES), NonCanonicalEncoding);
    ReadComplete(input)
  }

  function ReadComplete(input: Bytes): Result<PublicBundle, EnvelopeError> {
    var (tbsBytes, k) :- ReadArray(TBS_BYTES, input);
    var tbs :- ParseTbs(tbsBytes);
    var (selfSignature, k) :- ReadArray(64, k);
    var (transition, k) :- ReadPresent(64, NonCanonicalEncoding, k);
    var _ :- Need(k == [], NonCanonicalEncoding);
    var _ :- Need(BundleShape(tbs, transition.Some?), NonCanonicalEncoding);
    Ok(PublicBundle(tbs, tbsBytes, selfSignature, transition))
  }

  function ParseCandidate(input: Bytes): Result<PublicBundle, EnvelopeError> {
    var _ :- Need(|input| == CANDIDATE_BYTES, NonCanonicalEncoding);
    ReadCandidate(input)
  }

  function ReadCandidate(input: Bytes): Result<PublicBundle, EnvelopeError> {
    var (tbsBytes, k) :- ReadArray(TBS_BYTES, input);
    var tbs :- ParseTbs(tbsBytes);
    var (selfSignature, k) :- ReadArray(64, k);
    var _ :- Need(k == [] && tbs.kind.Rotation?, NonCanonicalEncoding);
    var _ :- Need(BundleShape(tbs, true), NonCanonicalEncoding);
    Ok(PublicBundle(tbs, tbsBytes, selfSignature, None))
  }

  function ReadAuthority(s: Bytes): Read<Authority> {
    var (accountId, k) :- ReadArray(16, s);
    var (generation, k) :- ReadU64(k);
    var (rootInstallationId, k) :- ReadArray(16, k);
    var (rootGeneration, k) :- ReadU64(k);
    Ok((Authority(accountId, generation, rootInstallationId, rootGeneration), k))
  }

  function DecodePrivate(input: Bytes): Result<PrivateBundle, EnvelopeError> {
    var _ :- Need(|input| <= PRIVATE_BUNDLE_MAX_BYTES, PrivateBundleInvalid);
    var _ :- Need(|input| == PRIVATE_BUNDLE_ACTIVE_BYTES || |input| == PRIVATE_BUNDLE_RETIRED_BYTES, PrivateBundleInvalid);
    ReadPrivate(input)
  }

  function ReadPrivate(input: Bytes): Result<PrivateBundle, EnvelopeError> {
    var (version, k) :- ReadByte(input);
    var _ :- Need(version == FORMAT_VERSION, PrivateBundleInvalid);
    var (stateByte, k) :- ReadByte(k);
    var state :- StateOfByte(stateByte);
    var (authority, k) :- ReadAuthority(k);
    var _ :- Need(GoodAuthority(authority), PrivateBundleInvalid);
    var k :- ReadSuite(PrivateBundleInvalid, k);
    var (hpkePrivate, k) :- ReadArray(32, k);
    var (hpkePublic, k) :- ReadArray(32, k);
    var (signaturePrivate, k) :- ReadPresent(32, PrivateBundleInvalid, k);
    var (signaturePublic, k) :- ReadArray(32, k);
    var p := PrivateBundle(state, authority, hpkePrivate, hpkePublic, signaturePrivate, signaturePublic);
    var _ :- Need(k == [] && GoodPrivate(p), PrivateBundleInvalid);
    Ok(p)
  }
}
