/** Account-envelope keys: creating and authorising public bundles, and verifying rotation chains from a pin. */
module RotationChain {
  import opened Foundation
  import opened MlsTypes
  import opened EnvelopeCodec
  import opened EnvelopeRoundTrip
  import opened EnvelopeCursor

  const SELF_DOMAIN: Bytes := Ascii("openmls_dart/account-envelope/bundle-self-signature/v1") + [0]
  const TRANSITION_DOMAIN: Bytes := Ascii("openmls_dart/account-envelope/bundle-transition-signature/v1") + [0]
  const DIGEST_DOMAIN: Bytes := Ascii("openmls_dart/account-envelope/bundle-digest/v1") + [0]
  const SELF_TEST: Bytes := Ascii("openmls_dart/account-envelope/key-self-test/v1") + [0]
  const TRANSCRIPT_MAX_BYTES := 4096
  const CONTINUITY_MAX_LINKS := 32
  const CONTINUITY_MAX_CANONICAL_BYTES := 65536

  /**
   * The primitives: signing, verifying (message, public key, signature), the trial encryption that tells whether an
   * HPKE key pair belongs together, and the digest.
   */
  datatype Crypto = Crypto(
    sign: (Bytes, Bytes) -> Option<Bytes>, verify: (Bytes, Bytes, Bytes) -> bool, hpkeMatches: (Bytes, Bytes) -> bool, sha: Hash)

  // ---------------------------------------------------------------- signatures over a domain and a message

  function Transcript(domain: Bytes, message: Bytes): Result<Bytes, EnvelopeError> {
    var _ :- Need(|domain| + |message| <= TRANSCRIPT_MAX_BYTES, BoundsExceeded);
    Ok(domain + message)
  }

  function SignDomain(c: Crypto, domain: Bytes, message: Bytes, key: Key): Result<Signature, EnvelopeError> {
    var t :- Transcript(domain, message);
    match c.sign(t, key)
    case None => Err(InternalCryptoFailure)
    case Some(s) => if |s| == 64 then Ok(s) else Err(InternalCryptoFailure)
  }

  function VerifyDomain(c: Crypto, domain: Bytes, message: Bytes, key: Key, signature: Signature): Result<(), EnvelopeError> {
    var t :- Transcript(domain, message);
    Need(c.verify(t, key, signature), SignatureInvalid)
  }

  function VerifySelf(c: Crypto, p: PublicBundle): Result<(), EnvelopeError> {
    VerifyDomain(c, SELF_DOMAIN, p.tbsBytes, p.tbs.signatureKey, p.selfSignature)
  }

  function ValidatePrivateCrypto(c: Crypto, p: PrivateBundle): Result<(), EnvelopeError> {
    var _ :- match p.signaturePrivate
      case None => Ok(())
      case Some(key) => (match c.sign(SELF_TEST, key)
        case None => Err(PrivateBundleInvalid)
        case Some(s) => Need(c.verify(SELF_TEST, p.signaturePublic, s), PrivateBundleInvalid));
    Need(c.hpkeMatches(p.hpkePrivate, p.hpkePublic), PrivateBundleInvalid)
  }

  function LoadPrivate(c: Crypto, bytes: Bytes, expected: Authority, requireActive: bool): Result<PrivateBundle, EnvelopeError> {
    var p :- DecodePrivate(bytes);
    var _ :- Need(p.authority == expected, PrivateBundleInvalid);
    var _ :- Need(!requireActive || p.state.ActiveFull?, PrivateBundleInvalid);
    var _ :- ValidatePrivateCrypto(c, p);
    Ok(p)
  }

  // ---------------------------------------------------------------- public bundles

  datatype Summary = Summary(tbs: Tbs, digest: Bytes)

  function BundleDigest(c: Crypto, bundle: Bytes): Result<Bytes, EnvelopeError> {
    var p :- ParseComplete(bundle);
    var _ :- VerifySelf(c, p);
    Ok(c.sha(DIGEST_DOMAIN + bundle))
  }

  function VerifyBundle(c: Crypto, bundle: Bytes): Result<Summary, EnvelopeError> {
    var p :- ParseComplete(bundle);
    var _ :- VerifySelf(c, p);
    var digest :- BundleDigest(c, bundle);
    Ok(Summary(p.tbs, digest))
  }

  datatype SelfSigned = CanonicalBundle(bytes: Bytes) | RotationCandidate(bytes: Bytes)

  function CreateSelfSigned(c: Crypto, accountId: Id, generation: u64, kind: Kind, reason: Option<Reason>, previousGeneration: u64,
                            expected: Authority, privateBundle: Bytes): Result<SelfSigned, EnvelopeError>
  {
    var _ :- Need(GoodAuthority(expected), AuthorityMismatch);
    var _ :- Need(accountId == expected.accountId && generation == expected.generation, AuthorityMismatch);
    var p :- LoadPrivate(c, privateBundle, expected, true);
    var t := Tbs(accountId, generation, p.hpkePublic, p.signaturePublic, kind, previousGeneration, reason);
    var _ :- Need(BundleShape(t, kind.Rotation?), NonCanonicalEncoding);
    var key :- match p.signaturePrivate case Some(k) => Ok(k) case None => Err(PrivateBundleInvalid);
    var signature :- SignDomain(c, SELF_DOMAIN, TbsBytes(t), key);
    if kind.Rotation? then Ok(RotationCandidate(CandidateBytes(TbsBytes(t), signature))) else
    var bundle := CompleteBytes(TbsBytes(t), signature, None);
    var _ :- VerifyBundle(c, bundle);
    Ok(CanonicalBundle(bundle))
  }

  function Retire(p: PrivateBundle): PrivateBundle {
    p.(state := RetiredDecryptOnly, signaturePrivate := None)
  }

  /** The authorised successor and the retired predecessor. */
  datatype Authorized = Authorized(successor: Bytes, retired: Bytes)

  function AuthorizeSuccessor(c: Crypto, expected: Authority, previousPrivate: Bytes, candidate: Bytes): Result<Authorized, EnvelopeError> {
    var _ :- Need(GoodAuthority(expected), AuthorityMismatch);
    var previous :- LoadPrivate(c, previousPrivate, expected, true);
    var p :- ParseCandidate(candidate);
    var _ :- VerifySelf(c, p);
    var _ :- Need(&& p.tbs.accountId == previous.authority.accountId
                  && p.tbs.previousGeneration == previous.authority.generation
                  && p.tbs.generation == previous.authority.generation + 1, AuthorityMismatch);
    var key :- match previous.signaturePrivate case Some(k) => Ok(k) case None => Err(PrivateBundleInvalid);
    var message := p.tbsBytes + p.selfSignature;
    var transition :- SignDomain(c, TRANSITION_DOMAIN, message, key);
    var _ :- VerifyDomain(c, TRANSITION_DOMAIN, message, previous.signaturePublic, transition);
    var successor := CompleteBytes(p.tbsBytes, p.selfSignature, Some(transition));
    var _ :- VerifyBundle(c, successor);
    Ok(Authorized(successor, PrivateBytes(Retire(previous))))
  }

  // ---------------------------------------------------------------- continuity

  datatype Disposition =
    | FirstObservation
    | PinnedUnchanged
    | RotationChainVerified
    | ResetAnchorRequiresAcceptance
    | ManualReanchorVerified

  datatype Continuity = Continuity(disposition: Disposition, bundle: Bytes, summary: Summary)

  function ContinuityResult(c: Crypto, disposition: Disposition, bundle: Bytes): Result<Continuity, EnvelopeError> {
    var summary :- VerifyBundle(c, bundle);
    Ok(Continuity(disposition, bundle, summary))
  }

  predicate Succeeds(previous: Tbs, next: Tbs) {
    && next.accountId == previous.accountId
    && next.previousGeneration == previous.generation
    && next.generation == previous.generation + 1
  }

  function VerifyTransition(c: Crypto, previous: PublicBundle, next: PublicBundle): Result<(), EnvelopeError> {
    var signature :- match next.transition case Some(s) => Ok(s) case None => Err(NonCanonicalEncoding);
    VerifyDomain(c, TRANSITION_DOMAIN, next.tbsBytes + next.selfSignature, previous.tbs.signatureKey, signature)
  }

  /** The remaining links of a response of `total` links, `index` of them already followed. */
  function VerifyLinks(c: Crypto, previous: PublicBundle, bundle: Bytes, links: seq<Bytes>, index: nat, total: nat)
    : Result<Continuity, EnvelopeError>
    decreases |links|
  {
    if links == [] then ContinuityResult(c, RotationChainVerified, bundle) else
    var next :- ParseComplete(links[0]);
    var _ :- VerifySelf(c, next);
    var _ :- Need(Succeeds(previous.tbs, next.tbs), AuthorityMismatch);
    match next.tbs.kind
    case Rotation =>
      var _ :- VerifyTransition(c, previous, next);
      VerifyLinks(c, next, links[0], links[1..], index + 1, total)
    case ContinuityReset =>
      if index == 0 && total == 1 then ContinuityResult(c, ResetAnchorRequiresAcceptance, links[0]) else Err(NonCanonicalEncoding)
    case Initial => Err(NonCanonicalEncoding)
  }

  function VerifyFromPin(c: Crypto, pinned: Bytes, response: seq<Bytes>, manual: bool): Result<Continuity, EnvelopeError> {
    var pin :- VerifyBundle(c, pinned);
    if manual then
      if |response| != 1 then Err(NonCanonicalEncoding) else
      var summary :- VerifyBundle(c, response[0]);
      var _ :- Need(summary.tbs.accountId == pin.tbs.accountId, AuthorityMismatch);
      Ok(Continuity(ManualReanchorVerified, response[0], summary))
    else if response == [] then Ok(Continuity(PinnedUnchanged, pinned, pin))
    else if |response| > CONTINUITY_MAX_LINKS then Err(BoundsExceeded)
    else
      var previous :- ParseComplete(pinned);
      var _ :- VerifySelf(c, previous);
      VerifyLinks(c, previous, pinned, response, 0, |response|)
  }

  function TotalBytes(bundles: seq<Bytes>): nat {
    if bundles == [] then 0 else TotalBytes(bundles[..|bundles| - 1]) + |bundles[|bundles| - 1]|
  }

  function VerifyUncapped(c: Crypto, pin: Option<Bytes>, response: seq<Bytes>, manual: bool): Result<Continuity, EnvelopeError> {
    match pin
    case None => if |response| != 1 || manual then Err(NonCanonicalEncoding) else ContinuityResult(c, FirstObservation, response[0])
    case Some(pinned) => VerifyFromPin(c, pinned, response, manual)
  }

  function VerifyContinuity(c: Crypto, pin: Option<Bytes>, response: seq<Bytes>, manual: bool): Result<Continuity, EnvelopeError> {
    if TotalBytes(response) > CONTINUITY_MAX_CANONICAL_BYTES then Err(BoundsExceeded) else VerifyUncapped(c, pin, response, manual)
  }

  // ---------------------------------------------------------------- the loops as written

  method VerifyContinuityFromPin(c: Crypto, pinned: Bytes, response: seq<Bytes>, manual: bool) returns (r: Result<Continuity, EnvelopeError>)
    ensures r == VerifyFromPin(c, pinned, response, manual)
  {
    hide ParseComplete, VerifySelf, VerifyTransition, VerifyBundle, Succeeds;
    var pin :- VerifyBundle(c, pinned);
    if manual {
      if |response| != 1 {
        return Err(NonCanonicalEncoding);
      }
      var summary :- VerifyBundle(c, response[0]);
      if summary.tbs.accountId != pin.tbs.accountId {
        return Err(AuthorityMismatch);
      }
      return Ok(Continuity(ManualReanchorVerified, response[0], summary));
    }
    if response == [] {
      return Ok(Continuity(PinnedUnchanged, pinned, pin));
    }
    if |response| > CONTINUITY_MAX_LINKS {
      return Err(BoundsExceeded);
    }
    var previous :- ParseCompletePublicBundle(pinned);
    var _ :- VerifySelf(c, previous);
    var currentBundle := pinned;
    ghost var first := previous;
    for index := 0 to |response|
      invariant VerifyLinks(c, first, pinned, response, 0, |response|)
             == VerifyLinks(c, previous, currentBundle, response[index..], index, |response|)
    {
      var bundle := response[index];
      var current :- ParseCompletePublicBundle(bundle);
      var _ :- VerifySelf(c, current);
      if !Succeeds(previous.tbs, current.tbs) {
        return Err(AuthorityMismatch);
      }
      match current.tbs.kind {
        case Rotation =>
          var _ :- VerifyTransition(c, previous, current);
        case ContinuityReset =>
          if index == 0 && |response| == 1 {
            r := ContinuityResult(c, ResetAnchorRequiresAcceptance, bundle);
            return r;
          }
          return Err(NonCanonicalEncoding);
        case Initial =>
          return Err(NonCanonicalEncoding);
      }
      currentBundle := bundle;
      previous := current;
    }
    r := ContinuityResult(c, RotationChainVerified, currentBundle);
  }

  method VerifyContinuityResponse(c: Crypto, pin: Option<Bytes>, response: seq<Bytes>, manual: bool)
    returns (r: Result<Continuity, EnvelopeError>)
    ensures r == VerifyContinuity(c, pin, response, manual)
  {
    hide ContinuityResult, VerifyFromPin;
    var total := 0;
    for i := 0 to |response|
      invariant total == TotalBytes(response[..i])
    {
      assert response[..i + 1][..i] == response[..i];
      total := total + |response[i]|;
    }
    assert response[..|response|] == response;
    if total > CONTINUITY_MAX_CANONICAL_BYTES {
      return Err(BoundsExceeded);
    }
    match pin
    case None =>
      if |response| != 1 || manual {
        return Err(NonCanonicalEncoding);
      }
      r := ContinuityResult(c, FirstObservation, response[0]);
    case Some(pinned) =>
      r := VerifyContinuityFromPin(c, pinned, response, manual);
  }

  /** The predecessor's bundle is loaded active, signs once, and is given back without its signing key. */
  method AuthorizeSuccessorBundle(c: Crypto, expected: Authority, previousPrivate: Bytes, candidateBytes: Bytes)
    returns (r: Result<Authorized, EnvelopeError>)
    ensures r == AuthorizeSuccessor(c, expected, previousPrivate, candidateBytes)
  {
    hide LoadPrivate, ParseCandidate, VerifySelf, SignDomain, VerifyDomain, VerifyBundle, GoodAuthority, CompleteBytes, PrivateBytes;
    if !GoodAuthority(expected) {
      return Err(AuthorityMismatch);
    }
    var previous :- LoadPrivate(c, previousPrivate, expected, true);
    var candidate :- ParseRotationCandidate(candidateBytes);
    var _ :- VerifySelf(c, candidate);
    if candidate.tbs.accountId != previous.authority.accountId
       || candidate.tbs.previousGeneration != previous.authority.generation
       || candidate.tbs.generation != previous.authority.generation + 1 {
      return Err(AuthorityMismatch);
    }
    if previous.signaturePrivate.None? {
      return Err(PrivateBundleInvalid);
    }
    var message := candidate.tbsBytes + candidate.selfSignature;
    var transition :- SignDomain(c, TRANSITION_DOMAIN, message, previous.signaturePrivate.value);
    var _ :- VerifyDomain(c, TRANSITION_DOMAIN, message, previous.signaturePublic, transition);
    var authorized := CompleteBytes(candidate.tbsBytes, candidate.selfSignature, Some(transition));
    var _ :- VerifyBundle(c, authorized);
    previous := previous.(state := RetiredDecryptOnly);
    previous := previous.(signaturePrivate := None);
    return Ok(Authorized(authorized, PrivateBytes(previous)));
  }

  // ---------------------------------------------------------------- what an accepted chain is

  /** Both bundles are self-signed, and the second is the first one's rotation, signed by the first one's key. */
  predicate Link(c: Crypto, previous: Bytes, next: Bytes) {
    && ParseComplete(previous).Ok? && VerifySelf(c, ParseComplete(previous).value).Ok?
    && ParseComplete(next).Ok? && VerifySelf(c, ParseComplete(next).value).Ok?
    && Succeeds(ParseComplete(previous).value.tbs, ParseComplete(next).value.tbs)
    && ParseComplete(next).value.tbs.kind.Rotation?
    && VerifyTransition(c, ParseComplete(previous).value, ParseComplete(next).value).Ok?
  }

  predicate Chain(c: Crypto, bundles: seq<Bytes>) {
    forall i :: 0 <= i < |bundles| - 1 ==> Link(c, bundles[i], bundles[i + 1])
  }

  predicate ChainVerified(r: Result<Continuity, EnvelopeError>) {
    r.Ok? && r.value.disposition.RotationChainVerified?
  }

  lemma ChainHead(c: Crypto, a: Bytes, b: Bytes, rest: seq<Bytes>)
    ensures Chain(c, [a, b] + rest) <==> Link(c, a, b) && Chain(c, [b] + rest)
  {
    hide Link;
    var (whole, tail) := ([a, b] + rest, [b] + rest);
    assert forall i :: 0 <= i < |tail| ==> tail[i] == whole[i + 1];
    if Chain(c, whole) {
      assert Link(c, whole[0], whole[1]);
      forall i | 0 <= i < |tail| - 1 ensures Link(c, tail[i], tail[i + 1]) {
        assert Link(c, whole[i + 1], whole[i + 2]);
      }
    }
    if Link(c, a, b) && Chain(c, tail) {
      forall i | 0 <= i < |whole| - 1 ensures Link(c, whole[i], whole[i + 1]) {
        assert i > 0 ==> Link(c, tail[i - 1], tail[i]);
      }
    }
  }

  lemma OneIsAChain(c: Crypto, bundles: seq<Bytes>)
    requires |bundles| == 1
    ensures Chain(c, bundles)
  {
  }

  lemma FirstLink(c: Crypto, bundles: seq<Bytes>)
    requires |bundles| > 1 && !Link(c, bundles[0], bundles[1])
    ensures !Chain(c, bundles)
  {
    hide Link;
    assert bundles[0 + 1] == bundles[1];
  }

  /** A parsed, self-signed bundle has a digest too. */
  lemma BundleVerifies(c: Crypto, bundle: Bytes)
    ensures VerifyBundle(c, bundle).Ok? <==> ParseComplete(bundle).Ok? && VerifySelf(c, ParseComplete(bundle).value).Ok?
    ensures VerifyBundle(c, bundle).Ok? ==>
              VerifyBundle(c, bundle).value == Summary(ParseComplete(bundle).value.tbs, c.sha(DIGEST_DOMAIN + bundle))
  {
    hide ParseComplete, VerifySelf;
  }

  lemma {:induction false} LinksVerifiedExactly(c: Crypto, previous: PublicBundle, bundle: Bytes, links: seq<Bytes>, index: nat, total: nat)
    requires ParseComplete(bundle) == Ok(previous) && VerifySelf(c, previous).Ok?
    ensures ChainVerified(VerifyLinks(c, previous, bundle, links, index, total)) <==> Chain(c, [bundle] + links)
    ensures ChainVerified(VerifyLinks(c, previous, bundle, links, index, total)) ==>
              VerifyLinks(c, previous, bundle, links, index, total) == ContinuityResult(c, RotationChainVerified, ([bundle] + links)[|links|])
    decreases |links|
  {
    hide ParseComplete, VerifySelf, VerifyTransition, VerifyBundle, Succeeds, Chain;
    BundleVerifies(c, bundle);
    if links == [] {
      assert [bundle] + links == [bundle];
      OneIsAChain(c, [bundle]);
    } else {
      assert [bundle] + links == [bundle, links[0]] + links[1..];
      ChainHead(c, bundle, links[0], links[1..]);
      if Link(c, bundle, links[0]) {
        LinksVerifiedExactly(c, ParseComplete(links[0]).value, links[0], links[1..], index + 1, total);
        assert ([links[0]] + links[1..])[|links| - 1] == ([bundle] + links)[|links|];
      }
    }
  }

  /**
   * From a pin, a response is accepted as a rotation chain exactly when it has 1 to 32 bundles and every one of them is
   * self-signed, the next generation of the same account, and signed by the bundle before it; the answer is its last bundle.
   */
  lemma ChainAcceptedExactly(c: Crypto, pinned: Bytes, response: seq<Bytes>)
    ensures ChainVerified(VerifyFromPin(c, pinned, response, false)) <==>
              1 <= |response| <= CONTINUITY_MAX_LINKS && Chain(c, [pinned] + response)
    ensures ChainVerified(VerifyFromPin(c, pinned, response, false)) ==>
              VerifyFromPin(c, pinned, response, false) == ContinuityResult(c, RotationChainVerified, response[|response| - 1])
  {
    hide ParseComplete, VerifySelf, VerifyBundle, VerifyLinks, Chain;
    BundleVerifies(c, pinned);
    if VerifyBundle(c, pinned).Ok? {
      if response != [] {
        LinksVerifiedExactly(c, ParseComplete(pinned).value, pinned, response, 0, |response|);
        assert ([pinned] + response)[|response|] == response[|response| - 1];
      }
    } else if response != [] {
      var whole := [pinned] + response;
      assert !Link(c, whole[0], whole[1]);
      FirstLink(c, whole);
    }
  }

  lemma ChainSplits(c: Crypto, a: seq<Bytes>, x: Bytes, b: seq<Bytes>)
    ensures Chain(c, a + [x] + b) <==> Chain(c, a + [x]) && Chain(c, [x] + b)
  {
    hide Link;
    var (whole, first, second) := (a + [x] + b, a + [x], [x] + b);
    assert forall i :: 0 <= i < |first| ==> first[i] == whole[i];
    assert forall i :: 0 <= i < |second| ==> second[i] == whole[|a| + i];
    if Chain(c, whole) {
      forall i | 0 <= i < |first| - 1 ensures Link(c, first[i], first[i + 1]) {
        assert Link(c, whole[i], whole[i + 1]);
      }
      forall i | 0 <= i < |second| - 1 ensures Link(c, second[i], second[i + 1]) {
        assert Link(c, whole[|a| + i], whole[|a| + i + 1]);
      }
    }
    if Chain(c, first) && Chain(c, second) {
      forall i | 0 <= i < |whole| - 1 ensures Link(c, whole[i], whole[i + 1]) {
        if i < |a| {
          assert Link(c, first[i], first[i + 1]);
        } else {
          assert Link(c, second[i - |a|], second[i - |a| + 1]);
        }
      }
    }
  }

  /** A response is accepted exactly when it is accepted in two parts, moving the pin to the end of the first. */
  lemma ChainsComposeAndSplit(c: Crypto, pinned: Bytes, a: seq<Bytes>, b: seq<Bytes>)
    requires a != [] && b != [] && |a| + |b| <= CONTINUITY_MAX_LINKS
    ensures ChainVerified(VerifyFromPin(c, pinned, a + b, false)) <==>
              ChainVerified(VerifyFromPin(c, pinned, a, false)) && ChainVerified(VerifyFromPin(c, a[|a| - 1], b, false))
  {
    hide VerifyFromPin, Chain;
    ChainAcceptedExactly(c, pinned, a + b);
    ChainAcceptedExactly(c, pinned, a);
    ChainAcceptedExactly(c, a[|a| - 1], b);
    var front := [pinned] + a[..|a| - 1];
    assert [pinned] + a == front + [a[|a| - 1]];
    assert [pinned] + (a + b) == front + [a[|a| - 1]] + b;
    ChainSplits(c, front, a[|a| - 1], b);
  }

  /** A bundle that follows another cannot be an initial one: its shape would make the predecessor generation zero. */
  lemma InitialArmIsUnreachable(previous: Bytes, next: Bytes)
    requires ParseComplete(previous).Ok? && ParseComplete(next).Ok?
    requires Succeeds(ParseComplete(previous).value.tbs, ParseComplete(next).value.tbs)
    ensures !ParseComplete(next).value.tbs.kind.Initial?
    ensures ParseComplete(next).value.tbs.kind.Rotation? ==> ParseComplete(next).value.transition.Some?
  {
    hide ParseComplete, TbsBytes, CompleteBytes;
    CompleteParsesExactly(previous, ParseComplete(previous).value);
    CompleteParsesExactly(next, ParseComplete(next).value);
  }

  // ---------------------------------------------------------------- the byte cap

  lemma {:induction false} SmallBundles(bundles: seq<Bytes>)
    requires forall b :: b in bundles ==> |b| <= PUBLIC_BUNDLE_MAX_BYTES
    ensures TotalBytes(bundles) <= |bundles| * PUBLIC_BUNDLE_MAX_BYTES
  {
    if bundles != [] {
      SmallBundles(bundles[..|bundles| - 1]);
    }
  }

  lemma {:induction false} LinksAreSmall(c: Crypto, previous: PublicBundle, bundle: Bytes, links: seq<Bytes>, index: nat, total: nat)
    requires VerifyLinks(c, previous, bundle, links, index, total).Ok? && |links| + index == total
    ensures forall b :: b in links ==> |b| <= PUBLIC_BUNDLE_MAX_BYTES
    decreases |links|
  {
    hide VerifySelf, VerifyTransition, VerifyBundle, Succeeds, ReadComplete;
    if links != [] {
      var next := ParseComplete(links[0]).value;
      assert |links[0]| <= PUBLIC_BUNDLE_MAX_BYTES;
      if next.tbs.kind.Rotation? {
        LinksAreSmall(c, next, links[0], links[1..], index + 1, total);
      } else {
        assert links == [links[0]];
      }
    }
  }

  /** Whatever is accepted without the cap on the response's total size stays far below it. */
  lemma ByteCapNeverBinds(c: Crypto, pin: Option<Bytes>, response: seq<Bytes>, manual: bool)
    requires VerifyUncapped(c, pin, response, manual).Ok?
    ensures TotalBytes(response) <= CONTINUITY_MAX_LINKS * PUBLIC_BUNDLE_MAX_BYTES
    ensures VerifyContinuity(c, pin, response, manual) == VerifyUncapped(c, pin, response, manual)
  {
    hide VerifySelf, VerifyLinks, ReadComplete;
    if pin.None? || manual {
      assert response == [response[0]];
      BundleVerifies(c, response[0]);
    } else if response != [] {
      LinksAreSmall(c, ParseComplete(pin.value).value, pin.value, response, 0, |response|);
    }
    SmallBundles(response);
  }
}
