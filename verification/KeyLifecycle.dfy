/** Honest devices: every chain they create verifies, and a retired bundle still opens but no longer loads as active. */
module KeyLifecycle {
  import opened Foundation
  import opened MlsTypes
  import opened EnvelopeCodec
  import opened EnvelopeRoundTrip
  import opened RotationChain

  // ---------------------------------------------------------------- retirement

  /** A private bundle that loads while being required to be active. */
  lemma LoadedMeans(c: Crypto, bytes: Bytes, expected: Authority, requireActive: bool)
    ensures LoadPrivate(c, bytes, expected, requireActive).Ok? ==>
              var p := LoadPrivate(c, bytes, expected, requireActive).value;
              && GoodPrivate(p) && bytes == PrivateBytes(p) && p.authority == expected && (requireActive ==> p.state.ActiveFull?)
              && ValidatePrivateCrypto(c, p).Ok?
  {
    hide DecodePrivate, GoodPrivate, PrivateBytes, ValidatePrivateCrypto;
    if DecodePrivate(bytes).Ok? {
      PrivateParsesExactly(bytes, DecodePrivate(bytes).value);
    }
  }

  lemma RetiredLoads(c: Crypto, p: PrivateBundle, bytes: Bytes)
    requires DecodePrivate(bytes) == Ok(Retire(p)) && ValidatePrivateCrypto(c, p).Ok?
    ensures LoadPrivate(c, bytes, p.authority, false) == Ok(Retire(p))
  {
    hide DecodePrivate;
  }

  /** What authorising gives back is the predecessor itself, without its signing key and in the retired state. */
  lemma AuthorizingRetires(c: Crypto, expected: Authority, previousPrivate: Bytes, candidate: Bytes)
    requires AuthorizeSuccessor(c, expected, previousPrivate, candidate).Ok?
    ensures DecodePrivate(previousPrivate).Ok?
    ensures var p := DecodePrivate(previousPrivate).value;
            var retired := AuthorizeSuccessor(c, expected, previousPrivate, candidate).value.retired;
            && p.state.ActiveFull?
            && DecodePrivate(retired) == Ok(Retire(p))
            && LoadPrivate(c, retired, expected, false) == Ok(Retire(p))
  {
    hide DecodePrivate, PrivateBytes, ParseCandidate, VerifySelf, SignDomain, VerifyDomain, VerifyBundle, GoodAuthority, IsZero, LoadPrivate;
    LoadedMeans(c, previousPrivate, expected, true);
    var p := LoadPrivate(c, previousPrivate, expected, true).value;
    PrivateParsesExactly(previousPrivate, p);
    PrivateParsesExactly(PrivateBytes(Retire(p)), Retire(p));
    RetiredLoads(c, p, PrivateBytes(Retire(p)));
  }

  /** Nobody can load the bytes as an active bundle, whatever authority they are expected for. */
  ghost predicate NeverActive(c: Crypto, bytes: Bytes) {
    forall e: Authority :: LoadPrivate(c, bytes, e, true).Err?
  }

  lemma RetiredNeverActive(c: Crypto, retired: Bytes)
    requires DecodePrivate(retired).Ok? && DecodePrivate(retired).value.state.RetiredDecryptOnly?
    ensures NeverActive(c, retired)
  {
    hide DecodePrivate, ValidatePrivateCrypto;
  }

  /**
   * The bytes an authorisation gives back still load for decryption, and never again as active: neither of the
   * operations that create and authorise public bundles takes them, for any authority.
   */
  lemma AuthorizedBytesNeverSign(c: Crypto, expected: Authority, previousPrivate: Bytes, candidate: Bytes)
    requires AuthorizeSuccessor(c, expected, previousPrivate, candidate).Ok?
    ensures var retired := AuthorizeSuccessor(c, expected, previousPrivate, candidate).value.retired;
            && LoadPrivate(c, retired, expected, false).Ok?
            && NeverActive(c, retired)
            && (forall e: Authority, other: Bytes :: AuthorizeSuccessor(c, e, retired, other).Err?)
            && (forall id: Id, generation: u64, kind: Kind, reason: Option<Reason>, previous: u64, e: Authority ::
                  CreateSelfSigned(c, id, generation, kind, reason, previous, e, retired).Err?)
  {
    hide DecodePrivate, LoadPrivate, ParseCandidate, VerifySelf, SignDomain, VerifyDomain, VerifyBundle, GoodAuthority, PrivateBytes,
         TbsBytes, CompleteBytes, CandidateBytes;
    AuthorizingRetires(c, expected, previousPrivate, candidate);
    RetiredNeverActive(c, AuthorizeSuccessor(c, expected, previousPrivate, candidate).value.retired);
  }

  /** One try at authorising a candidate with the private bundle a device keeps. */
  datatype Attempt = Attempt(expected: Authority, candidate: Bytes)

  /** What a device keeps after the attempts, each success replacing its bundle by the retired one, and the successors made. */
  function Attempts(c: Crypto, kept: Bytes, attempts: seq<Attempt>): (Bytes, seq<Bytes>)
    decreases |attempts|
  {
    if attempts == [] then (kept, []) else
    match AuthorizeSuccessor(c, attempts[0].expected, kept, attempts[0].candidate)
    case Err(_) => Attempts(c, kept, attempts[1..])
    case Ok(a) =>
      var (last, successors) := Attempts(c, a.retired, attempts[1..]);
      (last, [a.successor] + successors)
  }

  lemma {:induction false} NothingAfterRetiring(c: Crypto, kept: Bytes, attempts: seq<Attempt>)
    requires NeverActive(c, kept)
    ensures Attempts(c, kept, attempts) == (kept, [])
    decreases |attempts|
  {
    hide LoadPrivate, GoodAuthority;
    if attempts != [] {
      assert LoadPrivate(c, kept, attempts[0].expected, true).Err?;
      NothingAfterRetiring(c, kept, attempts[1..]);
    }
  }

  /**
   * However often and for whatever candidates a device tries, its bundle authorises at most one successor; what it
   * keeps afterwards is its bundle as it was, or the retired form of it, which still decrypts.
   */
  lemma {:induction false} OneSuccessorAtMost(c: Crypto, kept: Bytes, attempts: seq<Attempt>)
    ensures var (last, successors) := Attempts(c, kept, attempts);
            && |successors| <= 1
            && (successors == [] ==> last == kept)
            && (successors != [] ==>
                  && DecodePrivate(kept).Ok? && DecodePrivate(last) == Ok(Retire(DecodePrivate(kept).value))
                  && LoadPrivate(c, last, DecodePrivate(kept).value.authority, false).Ok? && NeverActive(c, last))
    decreases |attempts|
  {
    hide AuthorizeSuccessor, DecodePrivate, LoadPrivate, NeverActive;
    if attempts != [] {
      var (e, candidate) := (attempts[0].expected, attempts[0].candidate);
      var tried := AuthorizeSuccessor(c, e, kept, candidate);
      if tried.Ok? {
        AuthorizingRetires(c, e, kept, candidate);
        AuthorizedBytesNeverSign(c, e, kept, candidate);
        NothingAfterRetiring(c, tried.value.retired, attempts[1..]);
        AuthorityOfLoaded(c, tried.value.retired, e);
      } else {
        OneSuccessorAtMost(c, kept, attempts[1..]);
      }
    }
  }

  lemma AuthorityOfLoaded(c: Crypto, bytes: Bytes, expected: Authority)
    requires LoadPrivate(c, bytes, expected, false).Ok?
    ensures DecodePrivate(bytes).Ok? && DecodePrivate(bytes).value.authority == expected
  {
    hide DecodePrivate, ValidatePrivateCrypto;
  }

  /** The retired bytes tell everything about the active bundle except its signing key, and nothing about that. */
  lemma RetiringForgetsExactlyTheKey(p: PrivateBundle, q: PrivateBundle)
    requires GoodPrivate(p) && GoodPrivate(q) && p.state.ActiveFull? && q.state.ActiveFull?
    ensures PrivateBytes(Retire(p)) == PrivateBytes(Retire(q)) <==> p.(signaturePrivate := q.signaturePrivate) == q
    ensures |PrivateBytes(Retire(p))| == PRIVATE_BUNDLE_RETIRED_BYTES
  {
    hide PrivateBytes, DecodePrivate, GoodAuthority, IsZero;
    PrivateLength(Retire(p));
    PrivateParsesExactly(PrivateBytes(Retire(p)), Retire(p));
    PrivateParsesExactly(PrivateBytes(Retire(q)), Retire(q));
  }

  // ---------------------------------------------------------------- honest devices

  datatype Device = Device(hpkePrivate: Key, hpkePublic: Key, signaturePrivate: Key, signaturePublic: Key)

  /** The one assumption on signatures: verification accepts what the matching key signs, when signing succeeds. */
  ghost predicate SignsFor(c: Crypto, privateKey: Key, publicKey: Key) {
    forall m: Bytes :: c.sign(m, privateKey).Some? ==>
      |c.sign(m, privateKey).value| == 64 && c.verify(m, publicKey, c.sign(m, privateKey).value)
  }

  ghost predicate Honest(c: Crypto, d: Device) {
    && !IsZero(d.hpkePrivate) && !IsZero(d.hpkePublic) && !IsZero(d.signaturePublic)
    && c.hpkeMatches(d.hpkePrivate, d.hpkePublic) && SignsFor(c, d.signaturePrivate, d.signaturePublic)
  }

  /** The account and the root its devices act for. */
  datatype Account = Account(id: Id, root: Id, rootGeneration: u64)

  function AuthorityOf(a: Account, generation: u64): Authority {
    Authority(a.id, generation, a.root, a.rootGeneration)
  }

  predicate GoodAccount(a: Account) {
    IsCanonicalUuid(a.id) && IsCanonicalUuid(a.root) && SafeGeneration(a.rootGeneration)
  }

  function PrivateOf(a: Account, generation: u64, d: Device): PrivateBundle {
    PrivateBundle(ActiveFull, AuthorityOf(a, generation), d.hpkePrivate, d.hpkePublic, Some(d.signaturePrivate), d.signaturePublic)
  }

  function TbsOf(a: Account, generation: u64, d: Device, kind: Kind, reason: Option<Reason>): Tbs
    requires generation > 0
  {
    Tbs(a.id, generation, d.hpkePublic, d.signaturePublic, kind, generation - 1, reason)
  }

  function AnchorKind(reason: Option<Reason>): Kind {
    if reason.None? then Initial else ContinuityReset
  }

  /** The first device's own bundle. */
  function AnchorBundle(c: Crypto, a: Account, first: u64, reason: Option<Reason>, d: Device): Result<Bytes, EnvelopeError>
    requires first > 0
  {
    var own :- CreateSelfSigned(c, a.id, first, AnchorKind(reason), reason, first - 1, AuthorityOf(a, first),
                                PrivateBytes(PrivateOf(a, first, d)));
    Ok(own.bytes)
  }

  /** A later device creates its candidate and the device before it authorises that. */
  function NextBundle(c: Crypto, a: Account, generation: u64, before: Device, d: Device): Result<Bytes, EnvelopeError>
    requires generation < MAX_WEB_SAFE_INTEGER
  {
    var own :- CreateSelfSigned(c, a.id, generation + 1, Rotation, None, generation, AuthorityOf(a, generation + 1),
                                PrivateBytes(PrivateOf(a, generation + 1, d)));
    var signed :- AuthorizeSuccessor(c, AuthorityOf(a, generation), PrivateBytes(PrivateOf(a, generation, before)), own.bytes);
    Ok(signed.successor)
  }

  /** The public bundles of a line of devices, oldest first. */
  function HonestRun(c: Crypto, a: Account, first: nat, reason: Option<Reason>, devices: seq<Device>): Result<seq<Bytes>, EnvelopeError>
    requires devices != [] && 1 <= first && first + |devices| - 1 <= MAX_WEB_SAFE_INTEGER
    decreases |devices|
  {
    var n := |devices| - 1;
    if n == 0 then
      var anchor :- AnchorBundle(c, a, first, reason, devices[0]);
      Ok([anchor])
    else
      var before :- HonestRun(c, a, first, reason, devices[..n]);
      var next :- NextBundle(c, a, first + n - 1, devices[n - 1], devices[n]);
      Ok(before + [next])
  }

  /** The signing primitive gives an answer. */
  predicate Signs(c: Crypto, d: Device, message: Bytes) {
    c.sign(message, d.signaturePrivate).Some?
  }

  /** The device passes its self-test and signs its own bundle. */
  predicate SignsOwn(c: Crypto, t: Tbs, d: Device) {
    Signs(c, d, SELF_TEST) && Signs(c, d, SELF_DOMAIN + TbsBytes(t))
  }

  function OwnSignature(c: Crypto, t: Tbs, d: Device): Result<Signature, EnvelopeError> {
    SignDomain(c, SELF_DOMAIN, TbsBytes(t), d.signaturePrivate)
  }

  /** The device signs the bundle of its successor. */
  predicate SignsNext(c: Crypto, before: Device, t: Tbs, d: Device) {
    OwnSignature(c, t, d).Ok? && Signs(c, before, TRANSITION_DOMAIN + (TbsBytes(t) + OwnSignature(c, t, d).value))
  }

  lemma HonestLoads(c: Crypto, a: Account, generation: u64, d: Device)
    requires GoodAccount(a) && SafeGeneration(generation) && Honest(c, d)
    ensures GoodAuthority(AuthorityOf(a, generation))
    ensures LoadPrivate(c, PrivateBytes(PrivateOf(a, generation, d)), AuthorityOf(a, generation), true)
            == if Signs(c, d, SELF_TEST) then Ok(PrivateOf(a, generation, d)) else Err(PrivateBundleInvalid)
  {
    hide DecodePrivate, PrivateBytes, IsCanonicalUuid, IsZero;
    var p := PrivateOf(a, generation, d);
    assert GoodPrivate(p);
    PrivateParsesExactly(PrivateBytes(p), p);
  }

  lemma HonestSigns(c: Crypto, d: Device, domain: Bytes, message: Bytes)
    requires Honest(c, d) && |domain| + |message| <= TRANSCRIPT_MAX_BYTES
    ensures var signed := SignDomain(c, domain, message, d.signaturePrivate);
            && (signed.Ok? <==> Signs(c, d, domain + message))
            && (signed.Ok? ==> VerifyDomain(c, domain, message, d.signaturePublic, signed.value).Ok?)
  {
    hide IsZero;
  }

  lemma HonestOwn(c: Crypto, a: Account, generation: u64, d: Device, kind: Kind, reason: Option<Reason>)
    requires GoodAccount(a) && SafeGeneration(generation) && Honest(c, d)
    ensures var t := TbsOf(a, generation, d, kind, reason);
            && GoodTbs(t) && (OwnSignature(c, t, d).Ok? <==> Signs(c, d, SELF_DOMAIN + TbsBytes(t)))
            && (OwnSignature(c, t, d).Ok? ==> VerifySelf(c, PublicBundle(t, TbsBytes(t), OwnSignature(c, t, d).value, None)).Ok?)
  {
    hide TbsBytes, SignDomain, VerifyDomain, IsCanonicalUuid, IsZero, Ascii;
    HonestSigns(c, d, SELF_DOMAIN, TbsBytes(TbsOf(a, generation, d, kind, reason)));
  }

  /** An honest anchor, made exactly when its device signs: initial at generation 1, or a reset with a reason at a later one. */
  lemma HonestAnchor(c: Crypto, a: Account, first: nat, reason: Option<Reason>, d: Device)
    requires GoodAccount(a) && SafeGeneration(first) && Honest(c, d) && (reason.None? <==> first == 1)
    ensures var anchor := AnchorBundle(c, a, first, reason, d);
            var t := TbsOf(a, first, d, AnchorKind(reason), reason);
            && (anchor.Ok? <==> SignsOwn(c, t, d))
            && (anchor.Ok? ==> ParseComplete(anchor.value).Ok? && VerifySelf(c, ParseComplete(anchor.value).value).Ok?
                               && ParseComplete(anchor.value).value.tbs == t)
  {
    hide LoadPrivate, PrivateBytes, TbsBytes, CompleteBytes, ParseComplete, VerifySelf, SignDomain, GoodAuthority, GoodTbs, Honest, VerifyBundle,
         Signs;
    HonestLoads(c, a, first, d);
    HonestOwn(c, a, first, d, AnchorKind(reason), reason);
    var t := TbsOf(a, first, d, AnchorKind(reason), reason);
    if SignsOwn(c, t, d) {
      var p := PublicBundle(t, TbsBytes(t), OwnSignature(c, t, d).value, None);
      var bundle := CompleteBytes(p.tbsBytes, p.selfSignature, None);
      CompleteParsesExactly(bundle, p);
      VerifySelfIgnoresTransition(c, p, None);
      BundleVerifies(c, bundle);
    }
  }

  lemma VerifySelfIgnoresTransition(c: Crypto, p: PublicBundle, transition: Option<Signature>)
    ensures VerifySelf(c, p.(transition := transition)) == VerifySelf(c, p)
  {
  }

  /** One honest rotation, made exactly when both devices sign: created, authorised, and linked to the bundle before it. */
  lemma HonestRotation(c: Crypto, a: Account, generation: nat, before: Device, d: Device, kind: Kind, reason: Option<Reason>, previous: Bytes)
    requires GoodAccount(a) && SafeGeneration(generation) && generation < MAX_WEB_SAFE_INTEGER && Honest(c, before) && Honest(c, d)
    requires ParseComplete(previous).Ok? && VerifySelf(c, ParseComplete(previous).value).Ok?
    requires ParseComplete(previous).value.tbs == TbsOf(a, generation, before, kind, reason)
    requires Signs(c, before, SELF_TEST)
    ensures var next := NextBundle(c, a, generation, before, d);
            var t := TbsOf(a, generation + 1, d, Rotation, None);
            && (next.Ok? <==> SignsOwn(c, t, d) && SignsNext(c, before, t, d))
            && (next.Ok? ==> Link(c, previous, next.value) && ParseComplete(next.value).Ok?
                             && ParseComplete(next.value).value.tbs == t)
  {
    hide LoadPrivate, PrivateBytes, TbsBytes, CompleteBytes, CandidateBytes, ParseComplete, ParseCandidate, VerifySelf, SignDomain, VerifyDomain,
         GoodAuthority, GoodTbs, Honest, VerifyBundle, Ascii, Signs;
    HonestLoads(c, a, generation + 1, d);
    HonestLoads(c, a, generation, before);
    HonestOwn(c, a, generation + 1, d, Rotation, None);
    var t := TbsOf(a, generation + 1, d, Rotation, None);
    if SignsOwn(c, t, d) {
      var p := PublicBundle(t, TbsBytes(t), OwnSignature(c, t, d).value, None);
      CandidateParsesExactly(CandidateBytes(p.tbsBytes, p.selfSignature), p);
      var message := p.tbsBytes + p.selfSignature;
      HonestSigns(c, before, TRANSITION_DOMAIN, message);
      if SignsNext(c, before, t, d) {
        var transition := SignDomain(c, TRANSITION_DOMAIN, message, before.signaturePrivate).value;
        var q := p.(transition := Some(transition));
        CompleteParsesExactly(CompleteBytes(q.tbsBytes, q.selfSignature, q.transition), q);
        VerifySelfIgnoresTransition(c, p, Some(transition));
        BundleVerifies(c, CompleteBytes(q.tbsBytes, q.selfSignature, q.transition));
      }
    }
  }

  lemma ChainGrows(c: Crypto, bundles: seq<Bytes>, next: Bytes)
    requires bundles != [] && Chain(c, bundles) && Link(c, bundles[|bundles| - 1], next)
    ensures Chain(c, bundles + [next])
  {
    hide Link;
    var grown := bundles + [next];
    forall i | 0 <= i < |grown| - 1 ensures Link(c, grown[i], grown[i + 1]) {
      assert i < |bundles| - 1 ==> Link(c, bundles[i], bundles[i + 1]);
    }
  }

  /** What the device at `i` in the line signs for itself. */
  function TbsAt(a: Account, first: nat, reason: Option<Reason>, devices: seq<Device>, i: nat): Tbs
    requires i < |devices| && 1 <= first && first + |devices| - 1 <= MAX_WEB_SAFE_INTEGER
  {
    if i == 0 then TbsOf(a, first, devices[0], AnchorKind(reason), reason) else TbsOf(a, first + i, devices[i], Rotation, None)
  }

  /** The signing primitive answers for the bundle at `i`, to its device and to the one before it. */
  predicate SignsAt(c: Crypto, a: Account, first: nat, reason: Option<Reason>, devices: seq<Device>, i: nat)
    requires i < |devices| && 1 <= first && first + |devices| - 1 <= MAX_WEB_SAFE_INTEGER
  {
    var t := TbsAt(a, first, reason, devices, i);
    SignsOwn(c, t, devices[i]) && (i > 0 ==> SignsNext(c, devices[i - 1], t, devices[i]))
  }

  predicate AllSign(c: Crypto, a: Account, first: nat, reason: Option<Reason>, devices: seq<Device>)
    requires devices != [] && 1 <= first && first + |devices| - 1 <= MAX_WEB_SAFE_INTEGER
  {
    forall i :: 0 <= i < |devices| ==> SignsAt(c, a, first, reason, devices, i)
  }

  lemma AllSignButLast(c: Crypto, a: Account, first: nat, reason: Option<Reason>, devices: seq<Device>)
    requires |devices| > 1 && 1 <= first && first + |devices| - 1 <= MAX_WEB_SAFE_INTEGER
    ensures var n := |devices| - 1;
            AllSign(c, a, first, reason, devices) <==>
              AllSign(c, a, first, reason, devices[..n]) && SignsAt(c, a, first, reason, devices, n)
  {
    hide SignsOwn, SignsNext;
    var n := |devices| - 1;
    assert forall i :: 0 <= i < n ==> SignsAt(c, a, first, reason, devices, i) == SignsAt(c, a, first, reason, devices[..n], i);
  }

  /** A chain of self-signed bundles, one per device, the last of them the last device's own. */
  predicate IsRunOf(c: Crypto, a: Account, first: nat, reason: Option<Reason>, devices: seq<Device>, run: seq<Bytes>)
    requires devices != [] && 1 <= first && first + |devices| - 1 <= MAX_WEB_SAFE_INTEGER
  {
    var n := |devices| - 1;
    && |run| == |devices| && Chain(c, run)
    && ParseComplete(run[n]).Ok? && VerifySelf(c, ParseComplete(run[n]).value).Ok?
    && ParseComplete(run[n]).value.tbs == TbsAt(a, first, reason, devices, n)
  }

  lemma RunUnfolds(c: Crypto, a: Account, first: nat, reason: Option<Reason>, devices: seq<Device>)
    requires |devices| > 1 && 1 <= first && first + |devices| - 1 <= MAX_WEB_SAFE_INTEGER
    ensures var n := |devices| - 1;
            var before := HonestRun(c, a, first, reason, devices[..n]);
            var next := NextBundle(c, a, first + n - 1, devices[n - 1], devices[n]);
            && (HonestRun(c, a, first, reason, devices).Ok? <==> before.Ok? && next.Ok?)
            && (before.Ok? && next.Ok? ==> HonestRun(c, a, first, reason, devices) == Ok(before.value + [next.value]))
  {
    hide AnchorBundle, NextBundle;
  }

  function LastKind(reason: Option<Reason>, n: nat): (Kind, Option<Reason>) {
    if n <= 1 then (AnchorKind(reason), reason) else (Rotation, None)
  }

  /** The last bundle of a run is what the next device's bundle links to. */
  lemma LastOfRun(c: Crypto, a: Account, first: nat, reason: Option<Reason>, devices: seq<Device>, before: seq<Bytes>)
    requires |devices| > 1 && 1 <= first && first + |devices| - 1 <= MAX_WEB_SAFE_INTEGER
    requires var n := |devices| - 1;
             IsRunOf(c, a, first, reason, devices[..n], before) && AllSign(c, a, first, reason, devices[..n])
    ensures var n := |devices| - 1;
            var (kind, why) := LastKind(reason, n);
            && |before| == n && ParseComplete(before[n - 1]).Ok? && VerifySelf(c, ParseComplete(before[n - 1]).value).Ok?
            && ParseComplete(before[n - 1]).value.tbs == TbsOf(a, first + n - 1, devices[n - 1], kind, why)
            && Signs(c, devices[n - 1], SELF_TEST)
  {
    hide ParseComplete, VerifySelf, Chain, Signs, SignsNext;
    var n := |devices| - 1;
    assert SignsAt(c, a, first, reason, devices[..n], n - 1);
    assert devices[..n][n - 1] == devices[n - 1];
  }

  lemma RunExtends(c: Crypto, a: Account, first: nat, reason: Option<Reason>, devices: seq<Device>, before: seq<Bytes>, next: Bytes,
                   own: PublicBundle)
    requires |devices| > 1 && 1 <= first && first + |devices| - 1 <= MAX_WEB_SAFE_INTEGER
    requires ParseComplete(next) == Ok(own) && own.tbs == TbsOf(a, first + |devices| - 1, devices[|devices| - 1], Rotation, None)
    requires |before| == |devices| - 1 && Link(c, before[|before| - 1], next)
    requires IsRunOf(c, a, first, reason, devices[..|devices| - 1], before)
    ensures IsRunOf(c, a, first, reason, devices, before + [next])
  {
    hide ParseComplete, VerifySelf, Chain, Link, TbsOf, TbsAt;
    LinkEnds(c, before[|devices| - 2], next);
    LastTbs(a, first, reason, devices);
    ChainGrows(c, before, next);
  }

  lemma LinkEnds(c: Crypto, previous: Bytes, next: Bytes)
    requires Link(c, previous, next)
    ensures ParseComplete(next).Ok? && VerifySelf(c, ParseComplete(next).value).Ok?
  {
    hide ParseComplete, VerifySelf, VerifyTransition;
  }

  lemma LastTbs(a: Account, first: nat, reason: Option<Reason>, devices: seq<Device>)
    requires |devices| > 1 && 1 <= first && first + |devices| - 1 <= MAX_WEB_SAFE_INTEGER
    ensures var n := |devices| - 1; TbsAt(a, first, reason, devices, n) == TbsOf(a, first + n, devices[n], Rotation, None)
  {
  }

  /** One more honest device at the end of a run. */
  lemma HonestRunGrows(c: Crypto, a: Account, first: nat, reason: Option<Reason>, devices: seq<Device>)
    requires |devices| > 1 && 1 <= first && first + |devices| - 1 <= MAX_WEB_SAFE_INTEGER
    requires GoodAccount(a) && Honest(c, devices[|devices| - 2]) && Honest(c, devices[|devices| - 1])
    requires var before := HonestRun(c, a, first, reason, devices[..|devices| - 1]);
             && before.Ok? && IsRunOf(c, a, first, reason, devices[..|devices| - 1], before.value)
             && AllSign(c, a, first, reason, devices[..|devices| - 1])
    ensures var run := HonestRun(c, a, first, reason, devices);
            && (run.Ok? <==> SignsAt(c, a, first, reason, devices, |devices| - 1))
            && (run.Ok? ==> IsRunOf(c, a, first, reason, devices, run.value))
  {
    hide ParseComplete, VerifySelf, HonestRun, NextBundle, Link, Honest, GoodAccount, IsRunOf, SignsOwn, SignsNext, Signs, AllSign, TbsOf, LastKind;
    var n := |devices| - 1;
    var before := HonestRun(c, a, first, reason, devices[..n]).value;
    LastOfRun(c, a, first, reason, devices, before);
    var (kind, why) := LastKind(reason, n);
    HonestRotation(c, a, first + n - 1, devices[n - 1], devices[n], kind, why, before[n - 1]);
    RunUnfolds(c, a, first, reason, devices);
    var next := NextBundle(c, a, first + n - 1, devices[n - 1], devices[n]);
    if next.Ok? {
      LinkEnds(c, before[n - 1], next.value);
      RunExtends(c, a, first, reason, devices, before, next.value, ParseComplete(next.value).value);
    }
  }

  /** Honest devices, however many, get their bundles exactly when every signature they need is made, and these form a chain. */
  lemma {:induction false} HonestRunsChain(c: Crypto, a: Account, first: nat, reason: Option<Reason>, devices: seq<Device>)
    requires devices != [] && 1 <= first && first + |devices| - 1 <= MAX_WEB_SAFE_INTEGER
    requires GoodAccount(a) && (reason.None? <==> first == 1) && forall d :: d in devices ==> Honest(c, d)
    ensures HonestRun(c, a, first, reason, devices).Ok? <==> AllSign(c, a, first, reason, devices)
    ensures HonestRun(c, a, first, reason, devices).Ok? ==>
              IsRunOf(c, a, first, reason, devices, HonestRun(c, a, first, reason, devices).value)
    decreases |devices|
  {
    hide HonestRun, IsRunOf, Honest, GoodAccount, NextBundle, AllSign, SignsAt;
    var n := |devices| - 1;
    if n == 0 {
      LoneRun(c, a, first, reason, devices[0]);
      assert devices == [devices[0]];
    } else {
      assert forall d :: d in devices[..n] ==> d in devices;
      HonestRunsChain(c, a, first, reason, devices[..n]);
      AllSignButLast(c, a, first, reason, devices);
      RunUnfolds(c, a, first, reason, devices);
      if HonestRun(c, a, first, reason, devices[..n]).Ok? {
        assert devices[n - 1] in devices && devices[n] in devices;
        HonestRunGrows(c, a, first, reason, devices);
      }
    }
  }

  lemma LoneRun(c: Crypto, a: Account, first: nat, reason: Option<Reason>, d: Device)
    requires SafeGeneration(first) && GoodAccount(a) && (reason.None? <==> first == 1) && Honest(c, d)
    ensures var run := HonestRun(c, a, first, reason, [d]);
            && (run.Ok? <==> AllSign(c, a, first, reason, [d]))
            && (run.Ok? ==> IsRunOf(c, a, first, reason, [d], run.value))
  {
    hide ParseComplete, VerifySelf, AnchorBundle, NextBundle, Honest, GoodAccount, Chain, SignsOwn;
    HonestAnchor(c, a, first, reason, d);
    assert AllSign(c, a, first, reason, [d]) <==> SignsAt(c, a, first, reason, [d], 0);
    if HonestRun(c, a, first, reason, [d]).Ok? {
      OneIsAChain(c, HonestRun(c, a, first, reason, [d]).value);
    }
  }

  /**
   * Whoever pinned an honest device's bundle accepts the following rotations, up to 32 at a time, and ends at the last
   * of them; when there are none the pin is unchanged. The bundles exist exactly when every signature is made.
   */
  lemma HonestRunsVerify(c: Crypto, a: Account, first: nat, reason: Option<Reason>, devices: seq<Device>)
    requires 1 <= |devices| <= CONTINUITY_MAX_LINKS + 1 && 1 <= first && first + |devices| - 1 <= MAX_WEB_SAFE_INTEGER
    requires GoodAccount(a) && (reason.None? <==> first == 1) && forall d :: d in devices ==> Honest(c, d)
    ensures HonestRun(c, a, first, reason, devices).Ok? <==> AllSign(c, a, first, reason, devices)
    ensures HonestRun(c, a, first, reason, devices).Ok? ==>
              var run := HonestRun(c, a, first, reason, devices).value;
              |run| == |devices| &&
              var answer := VerifyContinuity(c, Some(run[0]), run[1..], false);
              && answer.Ok? && answer.value.bundle == run[|run| - 1]
              && answer.value.disposition == if |devices| == 1 then PinnedUnchanged else RotationChainVerified
  {
    hide ParseComplete, VerifySelf, HonestRun, VerifyLinks, Chain, Honest, GoodAccount, AllSign;
    HonestRunsChain(c, a, first, reason, devices);
    if HonestRun(c, a, first, reason, devices).Ok? {
      var run := HonestRun(c, a, first, reason, devices).value;
      assert [run[0]] + run[1..] == run;
      ChainAcceptedExactly(c, run[0], run[1..]);
      BundleVerifies(c, run[0]);
      BundleVerifies(c, run[|run| - 1]);
      var uncapped := VerifyUncapped(c, Some(run[0]), run[1..], false);
      assert uncapped.Ok?;
      ByteCapNeverBinds(c, Some(run[0]), run[1..], false);
    }
  }

  // ---------------------------------------------------------------- resets

  /** A reset is reported alone and only as a candidate: one bundle, same account, next generation, self-signed. */
  lemma ResetReportedExactly(c: Crypto, pinned: Bytes, response: seq<Bytes>)
    requires VerifyBundle(c, pinned).Ok?
    ensures var r := VerifyFromPin(c, pinned, response, false);
            r.Ok? && r.value.disposition.ResetAnchorRequiresAcceptance? <==>
              && |response| == 1 && VerifyBundle(c, response[0]).Ok?
              && VerifyBundle(c, response[0]).value.tbs.kind.ContinuityReset?
              && Succeeds(VerifyBundle(c, pinned).value.tbs, VerifyBundle(c, response[0]).value.tbs)
  {
    hide ParseComplete, VerifySelf, VerifyTransition, Succeeds, VerifyLinks, VerifyBundle;
    BundleVerifies(c, pinned);
    if |response| > 1 {
      LaterLinksNeverReset(c, ParseComplete(pinned).value, pinned, response, 0, |response|);
    }
    if |response| == 1 {
      BundleVerifies(c, response[0]);
      assert response == [response[0]];
      LoneLink(c, ParseComplete(pinned).value, pinned, response[0]);
    }
  }

  lemma LoneLink(c: Crypto, previous: PublicBundle, bundle: Bytes, link: Bytes)
    ensures var r := VerifyLinks(c, previous, bundle, [link], 0, 1);
            r.Ok? && r.value.disposition.ResetAnchorRequiresAcceptance? <==>
              && ParseComplete(link).Ok? && VerifySelf(c, ParseComplete(link).value).Ok?
              && Succeeds(previous.tbs, ParseComplete(link).value.tbs) && ParseComplete(link).value.tbs.kind.ContinuityReset?
  {
    hide ParseComplete, VerifySelf, VerifyTransition, Succeeds, VerifyBundle;
    BundleVerifies(c, link);
    assert [link][1..] == [];
    if ParseComplete(link).Ok? {
      LaterLinksNeverReset(c, ParseComplete(link).value, link, [], 1, 1);
    }
  }

  lemma {:induction false} LaterLinksNeverReset(c: Crypto, previous: PublicBundle, bundle: Bytes, links: seq<Bytes>, index: nat, total: nat)
    requires total > 1 || index > 0
    ensures var r := VerifyLinks(c, previous, bundle, links, index, total); r.Ok? ==> !r.value.disposition.ResetAnchorRequiresAcceptance?
    decreases |links|
  {
    hide ParseComplete, VerifySelf, VerifyTransition, Succeeds, VerifyBundle;
    if links != [] && ParseComplete(links[0]).Ok? {
      LaterLinksNeverReset(c, ParseComplete(links[0]).value, links[0], links[1..], index + 1, total);
    }
  }
}
