/** What every answer about an account's bundles means: which responses, candidates and private bundles are accepted. */
module ContinuityAnswers {
  import opened Foundation
  import opened MlsTypes
  import opened EnvelopeCodec
  import opened EnvelopeLayout
  import EnvelopeRoundTrip
  import opened RotationChain
  import KeyLifecycle

  // ---------------------------------------------------------------- signatures, each under its own domain

  function SelfMessage(p: PublicBundle): Bytes {
    Ascii("openmls_dart/account-envelope/bundle-self-signature/v1") + [0] + p.tbsBytes
  }

  function TransitionMessage(p: PublicBundle): Bytes {
    Ascii("openmls_dart/account-envelope/bundle-transition-signature/v1") + [0] + (p.tbsBytes + p.selfSignature)
  }

  function DigestMessage(bundle: Bytes): Bytes {
    Ascii("openmls_dart/account-envelope/bundle-digest/v1") + [0] + bundle
  }

  const TestMessage: Bytes := Ascii("openmls_dart/account-envelope/key-self-test/v1") + [0]

  /** A message signed for one purpose is never a message of another. */
  lemma PurposesNeverMeet(p: PublicBundle, q: PublicBundle, bundle: Bytes)
    ensures SelfMessage(p) != TransitionMessage(q) && SelfMessage(p) != DigestMessage(bundle) && SelfMessage(p) != TestMessage
    ensures TransitionMessage(q) != DigestMessage(bundle) && TransitionMessage(q) != TestMessage && DigestMessage(bundle) != TestMessage
  {
    var (s, t, d, k) := ("openmls_dart/account-envelope/bundle-self-signature/v1",
                         "openmls_dart/account-envelope/bundle-transition-signature/v1",
                         "openmls_dart/account-envelope/bundle-digest/v1", "openmls_dart/account-envelope/key-self-test/v1");
    assert s[30] == 'b' && t[30] == 'b' && d[30] == 'b' && k[30] == 'k' && s[37] == 's' && t[37] == 't' && d[37] == 'd';
    assert SelfMessage(p)[30] == Ascii(s)[30] && SelfMessage(p)[37] == Ascii(s)[37];
    assert TransitionMessage(q)[30] == Ascii(t)[30] && TransitionMessage(q)[37] == Ascii(t)[37];
    assert DigestMessage(bundle)[30] == Ascii(d)[30] && DigestMessage(bundle)[37] == Ascii(d)[37];
    assert TestMessage[30] == Ascii(k)[30];
  }

  /** Well-formed bytes whose own key signed their first part. */
  predicate SelfSignedBundle(c: Crypto, bundle: Bytes) {
    ParseComplete(bundle).Ok? &&
    var p := ParseComplete(bundle).value;
    c.verify(SelfMessage(p), p.tbs.signatureKey, p.selfSignature)
  }

  function TbsOfBundle(bundle: Bytes): Tbs
    requires ParseComplete(bundle).Ok?
  {
    ParseComplete(bundle).value.tbs
  }

  /** What is reported about a bundle: its fields and its digest. */
  function SummaryOf(c: Crypto, bundle: Bytes): Summary
    requires ParseComplete(bundle).Ok?
  {
    Summary(TbsOfBundle(bundle), c.sha(DigestMessage(bundle)))
  }

  lemma MessagesFit(p: PublicBundle)
    requires |p.tbsBytes| == 107
    ensures |SELF_DOMAIN| + |p.tbsBytes| <= TRANSCRIPT_MAX_BYTES && |TRANSITION_DOMAIN| + |p.tbsBytes + p.selfSignature| <= TRANSCRIPT_MAX_BYTES
    ensures SELF_DOMAIN + p.tbsBytes == SelfMessage(p) && TRANSITION_DOMAIN + (p.tbsBytes + p.selfSignature) == TransitionMessage(p)
  {
  }

  lemma ParsedLength(bundle: Bytes)
    requires ParseComplete(bundle).Ok?
    ensures |ParseComplete(bundle).value.tbsBytes| == 107
  {
    hide ParseComplete, TbsGood, Shape;
    CompleteAcceptedExactly(bundle, ParseComplete(bundle).value);
  }

  lemma VerifiedMeans(c: Crypto, bundle: Bytes)
    ensures VerifyBundle(c, bundle).Ok? <==> SelfSignedBundle(c, bundle)
    ensures SelfSignedBundle(c, bundle) ==> VerifyBundle(c, bundle) == Ok(SummaryOf(c, bundle))
    ensures ParseComplete(bundle).Ok? ==> (VerifySelf(c, ParseComplete(bundle).value).Ok? <==> SelfSignedBundle(c, bundle))
  {
    hide ParseComplete, SelfMessage;
    BundleVerifies(c, bundle);
    if ParseComplete(bundle).Ok? {
      ParsedLength(bundle);
      MessagesFit(ParseComplete(bundle).value);
    }
  }

  /** A message is signed exactly when domain and message together are at most 4096 bytes and the primitive gives 64 bytes. */
  lemma SignedExactly(c: Crypto, domain: Bytes, message: Bytes, key: Key)
    ensures SignDomain(c, domain, message, key).Ok? <==> |domain| + |message| <= 4096 && Made(c.sign(domain + message, key))
    ensures SignDomain(c, domain, message, key).Ok? ==> Some(SignDomain(c, domain, message, key).value) == c.sign(domain + message, key)
  {
  }

  lemma SignatureVerifiedExactly(c: Crypto, domain: Bytes, message: Bytes, key: Key, signature: Signature)
    ensures VerifyDomain(c, domain, message, key, signature).Ok? <==>
              |domain| + |message| <= 4096 && c.verify(domain + message, key, signature)
  {
  }

  /** The bundles of a response written one after another. */
  function Joined(bundles: seq<Bytes>): Bytes {
    if bundles == [] then [] else Joined(bundles[..|bundles| - 1]) + bundles[|bundles| - 1]
  }

  lemma {:induction false} TotalIsLength(bundles: seq<Bytes>)
    ensures TotalBytes(bundles) == |Joined(bundles)|
  {
    if bundles != [] {
      TotalIsLength(bundles[..|bundles| - 1]);
    }
  }

  /** A response of more than 64 KiB is refused as too large before anything else is looked at. */
  lemma OversizedIsRefused(c: Crypto, pin: Option<Bytes>, response: seq<Bytes>, manual: bool)
    ensures |Joined(response)| > 65536 ==> VerifyContinuity(c, pin, response, manual) == Err(BoundsExceeded)
  {
    hide VerifyUncapped, TotalBytes, Joined;
    TotalIsLength(response);
  }

  // ---------------------------------------------------------------- the answers without a chain

  /** Without a pin exactly one self-signed bundle is taken, and never as a re-anchoring. */
  lemma FirstObservedExactly(c: Crypto, response: seq<Bytes>, manual: bool)
    ensures var r := VerifyContinuity(c, None, response, manual);
            && (r.Ok? <==> !manual && |response| == 1 && SelfSignedBundle(c, response[0]))
            && (r.Ok? ==> r == Ok(Continuity(FirstObservation, response[0], SummaryOf(c, response[0]))))
  {
    hide VerifyBundle, SelfSignedBundle, ParseComplete;
    if |response| == 1 {
      VerifiedMeans(c, response[0]);
      LoneBundleIsSmall(c, response);
    }
  }

  lemma LoneBundleIsSmall(c: Crypto, response: seq<Bytes>)
    requires |response| == 1
    ensures SelfSignedBundle(c, response[0]) ==> TotalBytes(response) <= CONTINUITY_MAX_CANONICAL_BYTES
  {
    hide TbsGood, Shape, TbsAt, LiesAt;
    assert response[..0] == [];
    if SelfSignedBundle(c, response[0]) {
      CompleteAcceptedExactly(response[0], ParseComplete(response[0]).value);
    }
  }

  /** With the operator's word, exactly one self-signed bundle of the pinned account replaces a self-signed pin. */
  lemma ReanchoredExactly(c: Crypto, pinned: Bytes, response: seq<Bytes>)
    ensures var r := VerifyContinuity(c, Some(pinned), response, true);
            && (r.Ok? <==> |response| == 1 && SelfSignedBundle(c, pinned) && SelfSignedBundle(c, response[0])
                           && TbsOfBundle(response[0]).accountId == TbsOfBundle(pinned).accountId)
            && (r.Ok? ==> r == Ok(Continuity(ManualReanchorVerified, response[0], SummaryOf(c, response[0]))))
  {
    hide VerifyBundle, SelfSignedBundle, ParseComplete;
    SelfSignedParses(c, pinned);
    VerifiedMeans(c, pinned);
    if |response| == 1 {
      SelfSignedParses(c, response[0]);
      VerifiedMeans(c, response[0]);
      LoneBundleIsSmall(c, response);
    }
  }

  lemma SelfSignedParses(c: Crypto, bundle: Bytes)
    ensures SelfSignedBundle(c, bundle) ==> ParseComplete(bundle).Ok?
  {
  }

  /** An empty response leaves a self-signed pin as it is. */
  lemma UnchangedExactly(c: Crypto, pinned: Bytes)
    ensures var r := VerifyContinuity(c, Some(pinned), [], false);
            && (r.Ok? <==> SelfSignedBundle(c, pinned))
            && (r.Ok? ==> r == Ok(Continuity(PinnedUnchanged, pinned, SummaryOf(c, pinned))))
  {
    hide VerifyBundle, SelfSignedBundle, ParseComplete;
    VerifiedMeans(c, pinned);
  }

  // ---------------------------------------------------------------- chains and resets

  /** The next generation of the same account. */
  predicate NextGeneration(previous: Tbs, next: Tbs) {
    && next.accountId == previous.accountId
    && next.generation == previous.generation + 1 && next.previousGeneration == previous.generation
  }

  /** `next` rotates `previous`, whose key signed it. */
  predicate Rotates(c: Crypto, previous: Bytes, next: Bytes)
    requires ParseComplete(previous).Ok? && ParseComplete(next).Ok?
  {
    var (p, q) := (ParseComplete(previous).value, ParseComplete(next).value);
    && q.tbs.kind == Rotation && NextGeneration(p.tbs, q.tbs)
    && q.transition.Some? && c.verify(TransitionMessage(q), p.tbs.signatureKey, q.transition.value)
  }

  predicate RotatesAt(c: Crypto, bundles: seq<Bytes>, i: nat)
    requires i + 1 < |bundles|
  {
    SelfSignedBundle(c, bundles[i]) && SelfSignedBundle(c, bundles[i + 1]) && Rotates(c, bundles[i], bundles[i + 1])
  }

  /** Every bundle is self-signed and rotates the one before it. */
  predicate Rotations(c: Crypto, bundles: seq<Bytes>) {
    forall i :: 0 <= i < |bundles| - 1 ==> RotatesAt(c, bundles, i)
  }

  lemma LinkMeans(c: Crypto, previous: Bytes, next: Bytes)
    ensures Link(c, previous, next) <==>
              SelfSignedBundle(c, previous) && SelfSignedBundle(c, next) && Rotates(c, previous, next)
  {
    hide ParseComplete, VerifySelf, SelfMessage, TransitionMessage, SELF_DOMAIN, TRANSITION_DOMAIN;
    VerifiedMeans(c, previous);
    VerifiedMeans(c, next);
    if ParseComplete(next).Ok? {
      ParsedLength(next);
      MessagesFit(ParseComplete(next).value);
    }
  }

  lemma ChainMeans(c: Crypto, bundles: seq<Bytes>)
    ensures Chain(c, bundles) <==> Rotations(c, bundles)
  {
    hide Link, RotatesAt;
    forall i | 0 <= i < |bundles| - 1 ensures Link(c, bundles[i], bundles[i + 1]) <==> RotatesAt(c, bundles, i) {
      LinkIsRotation(c, bundles, i);
    }
    if Chain(c, bundles) {
      forall i | 0 <= i < |bundles| - 1 ensures RotatesAt(c, bundles, i) {
        assert Link(c, bundles[i], bundles[i + 1]);
      }
    }
    if Rotations(c, bundles) {
      forall i | 0 <= i < |bundles| - 1 ensures Link(c, bundles[i], bundles[i + 1]) {
        assert RotatesAt(c, bundles, i);
      }
    }
  }

  lemma LinkIsRotation(c: Crypto, bundles: seq<Bytes>, i: nat)
    requires i + 1 < |bundles|
    ensures Link(c, bundles[i], bundles[i + 1]) <==> RotatesAt(c, bundles, i)
  {
    hide Link, SelfSignedBundle, Rotates;
    SelfSignedParses(c, bundles[i]);
    SelfSignedParses(c, bundles[i + 1]);
    LinkMeans(c, bundles[i], bundles[i + 1]);
  }

  /** A reset: one self-signed bundle of the next generation that no key of the pinned one signed. */
  predicate Resets(c: Crypto, pinned: Bytes, response: seq<Bytes>) {
    && |response| == 1 && SelfSignedBundle(c, pinned) && SelfSignedBundle(c, response[0])
    && TbsOfBundle(response[0]).kind == ContinuityReset && NextGeneration(TbsOfBundle(pinned), TbsOfBundle(response[0]))
  }

  /**
   * From a pin, without the operator's word, a non-empty response is taken exactly as a chain of 1 to 32 rotations of
   * the pinned bundle, ending at the last one, or as a lone reset that still needs to be accepted; never otherwise.
   */
  lemma FollowedExactly(c: Crypto, pinned: Bytes, response: seq<Bytes>)
    requires response != []
    ensures var r := VerifyContinuity(c, Some(pinned), response, false);
            var last := response[|response| - 1];
            && (r.Ok? <==> (|response| <= 32 && Rotations(c, [pinned] + response)) || Resets(c, pinned, response))
            && (r.Ok? ==> ParseComplete(last).Ok?)
            && (r.Ok? ==> r == Ok(Continuity(if Resets(c, pinned, response) then ResetAnchorRequiresAcceptance else RotationChainVerified,
                                             last, SummaryOf(c, last))))
  {
    hide ParseComplete, VerifySelf, VerifyBundle, VerifyFromPin, Rotations, Chain, SelfSignedBundle, SelfMessage, DigestMessage, TotalBytes;
    var uncapped := VerifyUncapped(c, Some(pinned), response, false);
    var last := response[|response| - 1];
    ChainAcceptedExactly(c, pinned, response);
    ChainMeans(c, [pinned] + response);
    VerifiedMeans(c, last);
    SelfSignedParses(c, last);
    ResetMeans(c, pinned, response);
    OnlyChainsAndResets(c, pinned, response);
    if uncapped.Ok? {
      ByteCapNeverBinds(c, Some(pinned), response, false);
    }
  }

  lemma ResetMeans(c: Crypto, pinned: Bytes, response: seq<Bytes>)
    requires response != []
    ensures var r := VerifyFromPin(c, pinned, response, false);
            && (r.Ok? && r.value.disposition.ResetAnchorRequiresAcceptance? <==> Resets(c, pinned, response))
            && (Resets(c, pinned, response) ==> r == Ok(Continuity(ResetAnchorRequiresAcceptance, response[0], SummaryOf(c, response[0]))))
  {
    hide ParseComplete, VerifySelf, VerifyTransition, VerifyBundle, SelfSignedBundle, SelfMessage, DigestMessage, VerifyLinks;
    VerifiedMeans(c, pinned);
    SelfSignedParses(c, pinned);
    if SelfSignedBundle(c, pinned) {
      KeyLifecycle.ResetReportedExactly(c, pinned, response);
    }
    if |response| == 1 {
      VerifiedMeans(c, response[0]);
      SelfSignedParses(c, response[0]);
      if Resets(c, pinned, response) {
        assert response == [response[0]];
        LoneReset(c, pinned, response[0]);
      }
    }
  }

  lemma LoneReset(c: Crypto, pinned: Bytes, link: Bytes)
    requires Resets(c, pinned, [link])
    ensures VerifyFromPin(c, pinned, [link], false) == Ok(Continuity(ResetAnchorRequiresAcceptance, link, SummaryOf(c, link)))
  {
    hide ParseComplete, VerifySelf, VerifyTransition, VerifyBundle, SelfSignedBundle, SelfMessage, DigestMessage;
    VerifiedMeans(c, pinned);
    VerifiedMeans(c, link);
    SelfSignedParses(c, pinned);
    SelfSignedParses(c, link);
    assert VerifySelf(c, ParseComplete(pinned).value).Ok? && VerifySelf(c, ParseComplete(link).value).Ok?;
  }

  lemma {:induction false} LinksEndTwoWays(c: Crypto, previous: PublicBundle, bundle: Bytes, links: seq<Bytes>, index: nat, total: nat)
    ensures var r := VerifyLinks(c, previous, bundle, links, index, total);
            r.Ok? ==> r.value.disposition.RotationChainVerified? || r.value.disposition.ResetAnchorRequiresAcceptance?
    decreases |links|
  {
    hide ParseComplete, VerifySelf, VerifyTransition, Succeeds, VerifyBundle;
    if links != [] && ParseComplete(links[0]).Ok? {
      LinksEndTwoWays(c, ParseComplete(links[0]).value, links[0], links[1..], index + 1, total);
    }
  }

  lemma OnlyChainsAndResets(c: Crypto, pinned: Bytes, response: seq<Bytes>)
    requires response != []
    ensures var r := VerifyFromPin(c, pinned, response, false);
            r.Ok? ==> r.value.disposition.RotationChainVerified? || r.value.disposition.ResetAnchorRequiresAcceptance?
  {
    hide ParseComplete, VerifySelf, VerifyBundle, VerifyLinks;
    if ParseComplete(pinned).Ok? {
      LinksEndTwoWays(c, ParseComplete(pinned).value, pinned, response, 0, |response|);
    }
  }

  /**
   * Why a response that fits is refused although its first bundle is self-signed: too few or too many bundles for what is
   * asked, another account's bundle for a re-anchoring, or a first link that does not come right after the pin.
   */
  lemma ContinuityRefusals(c: Crypto, pinned: Bytes, response: seq<Bytes>)
    requires |Joined(response)| <= 65536 && SelfSignedBundle(c, pinned)
    requires response != [] ==> SelfSignedBundle(c, response[0])
    ensures |response| != 1 ==>
              && VerifyContinuity(c, None, response, false) == Err(NonCanonicalEncoding)
              && VerifyContinuity(c, Some(pinned), response, true) == Err(NonCanonicalEncoding)
    ensures VerifyContinuity(c, None, response, true) == Err(NonCanonicalEncoding)
    ensures |response| == 1 && TbsOfBundle(response[0]).accountId != TbsOfBundle(pinned).accountId ==>
              VerifyContinuity(c, Some(pinned), response, true) == Err(AuthorityMismatch)
    ensures |response| > 32 ==> VerifyContinuity(c, Some(pinned), response, false) == Err(BoundsExceeded)
    ensures 1 <= |response| <= 32 && !NextGeneration(TbsOfBundle(pinned), TbsOfBundle(response[0])) ==>
              VerifyContinuity(c, Some(pinned), response, false) == Err(AuthorityMismatch)
  {
    hide ParseComplete, VerifySelf, VerifyBundle, SelfSignedBundle, VerifyTransition, TotalBytes, Joined;
    TotalIsLength(response);
    SelfSignedParses(c, pinned);
    VerifiedMeans(c, pinned);
    if response != [] {
      SelfSignedParses(c, response[0]);
      VerifiedMeans(c, response[0]);
    }
  }

  // ---------------------------------------------------------------- private bundles, creating and authorising

  /** Bytes that decode, belong to the authority, and hold keys that work; active ones if asked for. */
  predicate Usable(c: Crypto, bytes: Bytes, expected: Authority, active: bool) {
    DecodePrivate(bytes).Ok? &&
    var p := DecodePrivate(bytes).value;
    && p.authority == expected && (active ==> p.state == ActiveFull)
    && (p.signaturePrivate.Some? ==>
          var test := c.sign(TestMessage, p.signaturePrivate.value);
          test.Some? && c.verify(TestMessage, p.signaturePublic, test.value))
    && c.hpkeMatches(p.hpkePrivate, p.hpkePublic)
  }

  lemma UsableMeans(c: Crypto, bytes: Bytes, expected: Authority, active: bool)
    ensures LoadPrivate(c, bytes, expected, active).Ok? <==> Usable(c, bytes, expected, active)
    ensures Usable(c, bytes, expected, active) ==> LoadPrivate(c, bytes, expected, active) == DecodePrivate(bytes)
  {
    hide DecodePrivate;
    assert SELF_TEST == TestMessage;
  }

  /** A signature of the right length. */
  predicate Made(signature: Option<Bytes>) {
    signature.Some? && |signature.value| == 64
  }

  /** What may be authorised: a self-signed rotation of the predecessor's account into the generation after its own. */
  predicate Authorisable(c: Crypto, p: PrivateBundle, candidate: Bytes) {
    ParseCandidate(candidate).Ok? &&
    var q := ParseCandidate(candidate).value;
    && c.verify(SelfMessage(q), q.tbs.signatureKey, q.selfSignature)
    && q.tbs.accountId == p.authority.accountId
    && q.tbs.previousGeneration == p.authority.generation && q.tbs.generation == p.authority.generation + 1
  }

  lemma AuthorisingAccepts(c: Crypto, expected: Authority, previousPrivate: Bytes, candidate: Bytes)
    ensures var r := AuthorizeSuccessor(c, expected, previousPrivate, candidate);
            && (r.Ok? <==>
                  && AuthorityGood(expected) && Usable(c, previousPrivate, expected, true)
                  && Authorisable(c, DecodePrivate(previousPrivate).value, candidate)
                  && TransitionMade(c, DecodePrivate(previousPrivate).value, candidate))
            && (r.Ok? ==> ParseComplete(r.value.successor) == Ok(AuthorisedBundle(c, DecodePrivate(previousPrivate).value, candidate)))
  {
    hide Retire, DecodePrivate, ParseCandidate, ParseComplete, LoadPrivate, VerifyBundle, GoodAuthority, AuthorityGood, PrivateBytes, CompleteBytes,
         SelfMessage, TransitionMessage, Usable, SELF_DOMAIN, TRANSITION_DOMAIN;
    AuthorityMeans(expected);
    UsableMeans(c, previousPrivate, expected, true);
    if Usable(c, previousPrivate, expected, true) {
      UsableIsActive(c, previousPrivate, expected);
      var p := DecodePrivate(previousPrivate).value;
      if ParseCandidate(candidate).Ok? {
        var q := ParseCandidate(candidate).value;
        CandidateLength(candidate);
        MessagesFit(q);
        if Authorisable(c, p, candidate) && TransitionMade(c, p, candidate) {
          SuccessorParses(c, candidate, c.sign(TransitionMessage(q), p.signaturePrivate.value).value);
        }
      }
    }
  }

  /**
   * Authorising succeeds exactly for a usable active predecessor, a candidate it may authorise, and a signature that is
   * made and verifies; the successor is the candidate with that signature, and what comes back is the predecessor retired.
   */
  lemma AuthorisedExactly(c: Crypto, expected: Authority, previousPrivate: Bytes, candidate: Bytes)
    ensures var r := AuthorizeSuccessor(c, expected, previousPrivate, candidate);
            && (r.Ok? <==>
                  && AuthorityGood(expected) && Usable(c, previousPrivate, expected, true)
                  && Authorisable(c, DecodePrivate(previousPrivate).value, candidate)
                  && TransitionMade(c, DecodePrivate(previousPrivate).value, candidate))
            && (r.Ok? ==>
                  && ParseComplete(r.value.successor) == Ok(AuthorisedBundle(c, DecodePrivate(previousPrivate).value, candidate))
                  && DecodePrivate(r.value.retired)
                     == Ok(DecodePrivate(previousPrivate).value.(state := RetiredDecryptOnly, signaturePrivate := None)))
  {
    hide AuthorizeSuccessor, DecodePrivate, ParseComplete, Usable, Authorisable, TransitionMade, AuthorisedBundle;
    AuthorisingAccepts(c, expected, previousPrivate, candidate);
    if AuthorizeSuccessor(c, expected, previousPrivate, candidate).Ok? {
      KeyLifecycle.AuthorizingRetires(c, expected, previousPrivate, candidate);
    }
  }

  predicate TransitionMade(c: Crypto, p: PrivateBundle, candidate: Bytes) {
    && ParseCandidate(candidate).Ok? && p.signaturePrivate.Some? &&
    var m := TransitionMessage(ParseCandidate(candidate).value);
    var s := c.sign(m, p.signaturePrivate.value);
    Made(s) && c.verify(m, p.signaturePublic, s.value)
  }

  /** The candidate with the predecessor's signature. */
  function AuthorisedBundle(c: Crypto, p: PrivateBundle, candidate: Bytes): PublicBundle
    requires TransitionMade(c, p, candidate)
  {
    var q := ParseCandidate(candidate).value;
    q.(transition := Some(c.sign(TransitionMessage(q), p.signaturePrivate.value).value))
  }

  /** A candidate its own key signed is refused for its account and generation alone. */
  lemma StrangersAreRefused(c: Crypto, expected: Authority, previousPrivate: Bytes, candidate: Bytes)
    requires AuthorityGood(expected) && Usable(c, previousPrivate, expected, true) && ParseCandidate(candidate).Ok?
    requires var q := ParseCandidate(candidate).value;
             && c.verify(SelfMessage(q), q.tbs.signatureKey, q.selfSignature)
             && !(q.tbs.accountId == expected.accountId
                  && q.tbs.previousGeneration == expected.generation && q.tbs.generation == expected.generation + 1)
    ensures AuthorizeSuccessor(c, expected, previousPrivate, candidate) == Err(AuthorityMismatch)
  {
    hide DecodePrivate, ParseCandidate, LoadPrivate, GoodAuthority, AuthorityGood, SelfMessage, TransitionMessage, Usable, SELF_DOMAIN;
    AuthorityMeans(expected);
    UsableMeans(c, previousPrivate, expected, true);
    UsableIsActive(c, previousPrivate, expected);
    CandidateLength(candidate);
    MessagesFit(ParseCandidate(candidate).value);
  }

  lemma UsableIsActive(c: Crypto, bytes: Bytes, expected: Authority)
    requires Usable(c, bytes, expected, true)
    ensures DecodePrivate(bytes).Ok? && DecodePrivate(bytes).value.authority == expected
    ensures DecodePrivate(bytes).value.state == ActiveFull && DecodePrivate(bytes).value.signaturePrivate.Some?
  {
    hide DecodePrivate, AuthorityGood, NonZero, LiesAt;
    PrivateAcceptedExactly(bytes, DecodePrivate(bytes).value);
  }

  lemma CandidateLength(candidate: Bytes)
    requires ParseCandidate(candidate).Ok?
    ensures |ParseCandidate(candidate).value.tbsBytes| == 107
  {
    hide ParseCandidate, TbsGood, Shape, LiesAt;
    CandidateAcceptedExactly(candidate, ParseCandidate(candidate).value);
  }

  /** A candidate becomes a complete bundle by the signature appended to it. */
  lemma SuccessorParses(c: Crypto, candidate: Bytes, signature: Signature)
    requires ParseCandidate(candidate).Ok? &&
             var q := ParseCandidate(candidate).value; c.verify(SelfMessage(q), q.tbs.signatureKey, q.selfSignature)
    ensures var q := ParseCandidate(candidate).value;
            var successor := CompleteBytes(q.tbsBytes, q.selfSignature, Some(signature));
            && ParseComplete(successor) == Ok(q.(transition := Some(signature))) && VerifyBundle(c, successor).Ok?
  {
    hide ParseCandidate, ParseComplete, VerifyBundle, GoodTbs, BundleShape, TbsBytes, CompleteBytes;
    var q := ParseCandidate(candidate).value;
    var p := q.(transition := Some(signature));
    var successor := CompleteBytes(q.tbsBytes, q.selfSignature, Some(signature));
    EnvelopeRoundTrip.CandidateParsesExactly(candidate, q);
    EnvelopeRoundTrip.CompleteParsesExactly(successor, p);
    VerifiedMeans(c, successor);
  }

  // ---------------------------------------------------------------- creating

  /** The fields a device asks to have signed: its own keys under the account and generation asked for. */
  function Requested(p: PrivateBundle, accountId: Id, generation: u64, kind: Kind, reason: Option<Reason>, previousGeneration: u64): Tbs {
    Tbs(accountId, generation, p.hpkePublic, p.signaturePublic, kind, previousGeneration, reason)
  }

  /** The self-signature of those fields. */
  function SelfMade(c: Crypto, p: PrivateBundle, t: Tbs): Option<Bytes>
    requires p.signaturePrivate.Some?
  {
    c.sign(Ascii("openmls_dart/account-envelope/bundle-self-signature/v1") + [0] + TbsBytes(t), p.signaturePrivate.value)
  }

  /**
   * A bundle is created exactly for the device's own authority with a usable active private bundle, fields of a shape
   * their kind allows, and a signature that is made - and, unless it is only a candidate, verifies.
   */
  lemma CreatedExactly(c: Crypto, accountId: Id, generation: u64, kind: Kind, reason: Option<Reason>, previousGeneration: u64,
                       expected: Authority, privateBundle: Bytes)
    ensures var r := CreateSelfSigned(c, accountId, generation, kind, reason, previousGeneration, expected, privateBundle);
            && (r.Ok? <==>
                  && AuthorityGood(expected) && accountId == expected.accountId && generation == expected.generation
                  && Usable(c, privateBundle, expected, true)
                  && var p := DecodePrivate(privateBundle).value;
                     var t := Requested(p, accountId, generation, kind, reason, previousGeneration);
                     && Shape(t, kind == Rotation) && p.signaturePrivate.Some? && Made(SelfMade(c, p, t))
                     && (kind != Rotation ==> c.verify(Ascii("openmls_dart/account-envelope/bundle-self-signature/v1") + [0] + TbsBytes(t),
                                                       p.signaturePublic, SelfMade(c, p, t).value)))
            && (r.Ok? ==>
                  var p := DecodePrivate(privateBundle).value;
                  var t := Requested(p, accountId, generation, kind, reason, previousGeneration);
                  var b := PublicBundle(t, TbsBytes(t), SelfMade(c, p, t).value, None);
                  if kind == Rotation then r.value.RotationCandidate? && ParseCandidate(r.value.bytes) == Ok(b)
                  else r.value.CanonicalBundle? && ParseComplete(r.value.bytes) == Ok(b))
  {
    hide DecodePrivate, ParseCandidate, ParseComplete, LoadPrivate, VerifyBundle, GoodAuthority, AuthorityGood, CompleteBytes, CandidateBytes,
         Usable, TbsBytes, BundleShape, Shape, TbsGood, Ascii, Uuid, NonZero, GoodTbs;
    AuthorityMeans(expected);
    UsableMeans(c, privateBundle, expected, true);
    if AuthorityGood(expected) && Usable(c, privateBundle, expected, true) {
      UsableIsActive(c, privateBundle, expected);
      var p := DecodePrivate(privateBundle).value;
      var t := Requested(p, accountId, generation, kind, reason, previousGeneration);
      ConditionsMean(t, kind == Rotation);
      if accountId == expected.accountId && generation == expected.generation && Shape(t, kind == Rotation) {
        RequestedIsGood(privateBundle, t, expected, kind == Rotation);
        if Made(SelfMade(c, p, t)) {
          CreatedParses(c, t, SelfMade(c, p, t).value);
        }
      }
    }
  }

  lemma RequestedIsGood(privateBundle: Bytes, t: Tbs, expected: Authority, signed: bool)
    requires DecodePrivate(privateBundle).Ok? && AuthorityGood(expected) && Shape(t, signed)
    requires t.accountId == expected.accountId && t.generation == expected.generation
    requires t.hpkeKey == DecodePrivate(privateBundle).value.hpkePublic && t.signatureKey == DecodePrivate(privateBundle).value.signaturePublic
    ensures TbsGood(t)
  {
    hide DecodePrivate, Uuid, NonZero, LiesAt;
    PrivateAcceptedExactly(privateBundle, DecodePrivate(privateBundle).value);
  }

  lemma CreatedParses(c: Crypto, t: Tbs, signature: Signature)
    requires TbsGood(t) && Shape(t, t.kind == Rotation)
    ensures var b := PublicBundle(t, TbsBytes(t), signature, None);
            && (t.kind == Rotation ==> ParseCandidate(CandidateBytes(b.tbsBytes, signature)) == Ok(b))
            && (t.kind != Rotation ==> ParseComplete(CompleteBytes(b.tbsBytes, signature, None)) == Ok(b))
            && (t.kind != Rotation ==> (VerifyBundle(c, CompleteBytes(b.tbsBytes, signature, None)).Ok? <==>
                  c.verify(Ascii("openmls_dart/account-envelope/bundle-self-signature/v1") + [0] + TbsBytes(t), t.signatureKey, signature)))
  {
    hide ParseCandidate, ParseComplete, VerifyBundle, GoodTbs, BundleShape, TbsBytes, CompleteBytes, CandidateBytes, TbsGood, Shape, Ascii;
    var b := PublicBundle(t, TbsBytes(t), signature, None);
    ConditionsMean(t, t.kind == Rotation);
    EnvelopeRoundTrip.CandidateParsesExactly(CandidateBytes(b.tbsBytes, signature), b);
    EnvelopeRoundTrip.CompleteParsesExactly(CompleteBytes(b.tbsBytes, signature, None), b);
    VerifiedMeans(c, CompleteBytes(b.tbsBytes, signature, None));
  }
}
