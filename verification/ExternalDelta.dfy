/** The one-leaf replacement an external Commit makes, as the private and the public validator check it. */
module ExternalDelta {
  import opened Foundation
  import opened MlsTypes
  import opened Transcripts
  import opened RosterDelta
  import Errors
  import ExternalErrors

  type PrivateError = Errors.MlsError
  type PublicError = ExternalErrors.ExternalError

  const MAX_LEAVES := 256

  predicate Bounded(l: Leaf) {
    l.index < MAX_LEAVES && |l.identity| == 45 && |l.signatureKey| == 32
  }

  /** No previous leaf holds the new key, and none but the replaced one holds the new identity. */
  predicate Collides(previous: seq<Leaf>, outgoing: Leaf, identity: Bytes, signatureKey: Bytes) {
    exists l :: l in previous && (l.signatureKey == signatureKey || (l != outgoing && l.identity == identity))
  }

  // ---------------------------------------------------------------- private validator

  function ValidateDelta(sha: Hash, previous: Roster, resulting: Roster, outgoing: Leaf, incoming: Leaf): Result<(), PrivateError> {
    var _ :- Need(Bounded(outgoing), Errors.LimitExceeded);
    var _ :- Need(Bounded(incoming), Errors.LimitExceeded);
    if || outgoing !in previous.leaves
       || Collides(previous.leaves, outgoing, incoming.identity, incoming.signatureKey)
       || |previous.leaves| != |resulting.leaves|
       || previous.groupId != resulting.groupId
       || previous.epoch + 1 != resulting.epoch
       || (exists l :: l in previous.leaves && l != outgoing && l !in resulting.leaves)
       || outgoing in resulting.leaves
       || multiset(resulting.leaves)[incoming] != 1
       || !Canonical(resulting.leaves)
    then Err(Errors.ExternalDeltaMismatch) else
    match DigestOf(sha, resulting.groupId, resulting.epoch, resulting.leaves)
    case Err(_) => Err(Errors.ExternalDeltaMismatch)
    case Ok(digest) => Need(digest == resulting.digest, Errors.ResultingRosterMismatch)
  }

  /** The next epoch's roster is the previous one with exactly one leaf exchanged for a fresh one. */
  predicate Replaces(previous: Roster, resulting: Roster, outgoing: Leaf, incoming: Leaf) {
    && outgoing in previous.leaves
    && !Collides(previous.leaves, outgoing, incoming.identity, incoming.signatureKey)
    && resulting.groupId == previous.groupId
    && resulting.epoch == previous.epoch + 1
    && Canonical(resulting.leaves)
    && LeafSet(resulting.leaves) == LeafSet(previous.leaves) - {outgoing} + {incoming}
  }

  lemma CanonicalCount(leaves: seq<Leaf>)
    requires Canonical(leaves)
    ensures |LeafSet(leaves)| == |leaves|
  {
    DistinctCount(leaves);
  }

  lemma {:induction false} CanonicalOnce(leaves: seq<Leaf>, l: Leaf)
    requires Canonical(leaves)
    ensures multiset(leaves)[l] == if l in leaves then 1 else 0
  {
    if leaves != [] {
      var n := |leaves| - 1;
      CanonicalOnce(leaves[..n], l);
      assert leaves == leaves[..n] + [leaves[n]];
    }
  }

  /** The private check accepts exactly the replacements whose digest is right: counting forces set equality. */
  lemma AcceptsExactlyReplacements(sha: Hash, previous: Roster, resulting: Roster, outgoing: Leaf, incoming: Leaf)
    requires Canonical(previous.leaves)
    ensures ValidateDelta(sha, previous, resulting, outgoing, incoming).Ok? <==>
              && Bounded(outgoing) && Bounded(incoming) && Replaces(previous, resulting, outgoing, incoming)
              && DigestOf(sha, resulting.groupId, resulting.epoch, resulting.leaves) == Ok(resulting.digest)
  {
    hide Canonical, DigestOf, Collides;
    var (p, r) := (LeafSet(previous.leaves), LeafSet(resulting.leaves));
    var wanted := p - {outgoing} + {incoming};
    CanonicalCount(previous.leaves);
    if outgoing in previous.leaves && !Collides(previous.leaves, outgoing, incoming.identity, incoming.signatureKey)
       && Canonical(resulting.leaves) {
      CanonicalCount(resulting.leaves);
      CanonicalOnce(resulting.leaves, incoming);
      FreshLeafIsNew(previous.leaves, outgoing, incoming);
      assert |wanted| == |p|;
      if ValidateDelta(sha, previous, resulting, outgoing, incoming).Ok? {
        assert wanted <= r;
        SubsetCount(wanted, r);
      }
      if r == wanted {
        assert |previous.leaves| == |resulting.leaves|;
        assert forall l :: l in previous.leaves && l != outgoing ==> l in r;
        assert outgoing !in r && incoming in r;
      }
    }
  }

  lemma FreshLeafIsNew(previous: seq<Leaf>, outgoing: Leaf, incoming: Leaf)
    requires !Collides(previous, outgoing, incoming.identity, incoming.signatureKey)
    ensures incoming !in previous
  {
  }

  /** A run of accepted replacements. */
  predicate Chain(sha: Hash, rosters: seq<Roster>, outs: seq<Leaf>, ins: seq<Leaf>) {
    && |rosters| == |outs| + 1 == |ins| + 1
    && forall i :: 0 <= i < |outs| ==> ValidateDelta(sha, rosters[i], rosters[i + 1], outs[i], ins[i]).Ok?
  }

  /** Along every run the rosters stay canonical, keep their size and group, and count epochs one by one. */
  lemma {:induction false} ChainKeepsRosters(sha: Hash, rosters: seq<Roster>, outs: seq<Leaf>, ins: seq<Leaf>, i: nat)
    requires Chain(sha, rosters, outs, ins) && i < |rosters| && Canonical(rosters[0].leaves)
    ensures && Canonical(rosters[i].leaves) && |rosters[i].leaves| == |rosters[0].leaves|
            && rosters[i].groupId == rosters[0].groupId && rosters[i].epoch == rosters[0].epoch + i
    ensures i > 0 ==> LeafSet(rosters[i].leaves) == LeafSet(rosters[i - 1].leaves) - {outs[i - 1]} + {ins[i - 1]}
  {
    hide Canonical, DigestOf, Collides, LeafSet;
    if i > 0 {
      ChainKeepsRosters(sha, rosters, outs, ins, i - 1);
      assert ValidateDelta(sha, rosters[i - 1], rosters[i - 1 + 1], outs[i - 1], ins[i - 1]).Ok?;
      AcceptsExactlyReplacements(sha, rosters[i - 1], rosters[i], outs[i - 1], ins[i - 1]);
    }
  }

  // ---------------------------------------------------------------- public validator

  function InsertLeaf(l: Leaf, leaves: seq<Leaf>): (r: seq<Leaf>)
    ensures multiset(r) == multiset{l} + multiset(leaves)
  {
    if leaves == [] || l.index <= leaves[0].index then [l] + leaves
    else
      assert leaves == [leaves[0]] + leaves[1..];
      [leaves[0]] + InsertLeaf(l, leaves[1..])
  }

  /** The library's stable sort by leaf index. */
  function SortLeaves(leaves: seq<Leaf>): (r: seq<Leaf>)
    ensures multiset(r) == multiset(leaves)
  {
    if leaves == [] then [] else
      assert leaves == [leaves[0]] + leaves[1..];
      InsertLeaf(leaves[0], SortLeaves(leaves[1..]))
  }

  predicate Ascending(leaves: seq<Leaf>) {
    forall i, j :: 0 <= i < j < |leaves| ==> leaves[i].index <= leaves[j].index
  }

  lemma {:induction false} InsertAscends(l: Leaf, leaves: seq<Leaf>)
    requires Ascending(leaves)
    ensures Ascending(InsertLeaf(l, leaves))
  {
    if leaves == [] || l.index <= leaves[0].index {
    } else {
      InsertAscends(l, leaves[1..]);
      var t := InsertLeaf(l, leaves[1..]);
      forall j | 0 <= j < |t| ensures leaves[0].index <= t[j].index {
        assert t[j] in multiset(t);
        assert t[j] != l ==> t[j] in multiset(leaves[1..]);
      }
    }
  }

  lemma {:induction false} SortAscends(leaves: seq<Leaf>)
    ensures Ascending(SortLeaves(leaves))
  {
    if leaves != [] {
      SortAscends(leaves[1..]);
      InsertAscends(leaves[0], SortLeaves(leaves[1..]));
    }
  }

  /** What the public group's members must be for a roster to be derived from them. */
  predicate Derivable(members: seq<Leaf>) {
    && |members| <= 256
    && (forall l :: l in members ==> l.index <= 255 && |l.identity| == 45 && |l.signatureKey| == 32)
    && forall i, j :: 0 <= i < j < |members| ==>
         members[i].identity != members[j].identity && members[i].signatureKey != members[j].signatureKey
  }

  function CheckMember(before: seq<Leaf>, l: Leaf): Result<(), PublicError> {
    if |before| >= MAX_LEAVES then Err(ExternalErrors.LimitExceeded)
    else if !Bounded(l) then Err(ExternalErrors.LimitExceeded)
    else if HasIdentity(before, l.identity) || HasSignatureKey(before, l.signatureKey) then Err(ExternalErrors.IdentityMismatch)
    else Ok(())
  }

  /** The first member that cannot be taken decides, its bounds looked at before its parts. */
  function CheckMembers(members: seq<Leaf>): Result<(), PublicError> {
    if members == [] then Ok(()) else
    var n := |members| - 1;
    var _ :- CheckMembers(members[..n]);
    CheckMember(members[..n], members[n])
  }

  lemma {:induction false} FirstBadMemberDecides(members: seq<Leaf>, n: nat)
    requires n <= |members|
    ensures CheckMembers(members[..n]).Err? ==> CheckMembers(members) == CheckMembers(members[..n])
    decreases |members| - n
  {
    hide CheckMember;
    if n == |members| {
      assert members[..n] == members;
    } else {
      FirstBadMemberDecides(members, n + 1);
      assert members[..n + 1][..n] == members[..n];
    }
  }

  lemma {:induction false} MembersDerivable(members: seq<Leaf>)
    ensures CheckMembers(members).Ok? <==> Derivable(members)
  {
    hide Bounded;
    if members != [] {
      var n := |members| - 1;
      MembersDerivable(members[..n]);
      DerivableGrows(members[..n], members[n]);
      assert members == members[..n] + [members[n]];
    }
  }

  lemma DerivableGrows(before: seq<Leaf>, l: Leaf)
    ensures Derivable(before + [l]) <==> Derivable(before) && CheckMember(before, l).Ok?
  {
    var (n, all) := (|before|, before + [l]);
    assert all[n] == l && forall i :: 0 <= i < n ==> all[i] == before[i] && before[i] in before;
    if Derivable(all) {
      forall i, j | 0 <= i < j < n ensures before[i].identity != before[j].identity && before[i].signatureKey != before[j].signatureKey {
        assert all[i].identity != all[j].identity && all[i].signatureKey != all[j].signatureKey;
      }
      forall m | m in before ensures m.identity != l.identity && m.signatureKey != l.signatureKey {
        var i :| 0 <= i < n && before[i] == m;
        assert all[i].identity != all[n].identity;
      }
    }
  }

  method PublicRoster(sha: Hash, groupId: Bytes, epoch: u64, members: seq<Leaf>) returns (r: Result<Roster, PublicError>)
    ensures r == match CheckMembers(members)
                 case Err(e) => Err(e)
                 case Ok(_) => var leaves := SortLeaves(members);
                               Ok(Roster(groupId, epoch, leaves, sha(RosterTranscript(groupId, epoch, leaves))))
  {
    hide Bounded, HasIdentity, HasSignatureKey, SortLeaves, RosterTranscript;
    var leaves: seq<Leaf> := [];
    var identities: set<Bytes>, keys: set<Bytes> := {}, {};
    assert members[..0] == [];
    NoParts();
    for n := 0 to |members|
      invariant leaves == members[..n] && CheckMembers(leaves) == Ok(())
      invariant forall b :: b in identities <==> HasIdentity(members[..n], b)
      invariant forall b :: b in keys <==> HasSignatureKey(members[..n], b)
    {
      var l := members[n];
      FirstBadMemberDecides(members, n + 1);
      assert members[..n + 1][..n] == members[..n] && members[..n + 1] == members[..n] + [l];
      PartsGrow(members, n);
      if |leaves| >= MAX_LEAVES {
        return Err(ExternalErrors.LimitExceeded);
      }
      if !Bounded(l) {
        return Err(ExternalErrors.LimitExceeded);
      }
      if l.identity in identities || l.signatureKey in keys {
        return Err(ExternalErrors.IdentityMismatch);
      }
      identities, keys := identities + {l.identity}, keys + {l.signatureKey};
      leaves := leaves + [l];
    }
    assert members[..|members|] == members;
    leaves := SortLeaves(leaves);
    var digest := PublicRosterDigest(sha, groupId, epoch, leaves);
    return Ok(Roster(groupId, epoch, leaves, digest));
  }

  /** The roster checks of the successor validation, in the order of the code; the result is the new leaf. */
  function SuccessorChecks(previous: Roster, derived: Roster, outgoing: Leaf, identity: Bytes, signatureKey: Bytes): Result<Leaf, PublicError> {
    var _ :- Need(|identity| == 45 && |signatureKey| == 32, ExternalErrors.LimitExceeded);
    var _ :- Need(Bounded(outgoing), ExternalErrors.LimitExceeded);
    var _ :- Need(outgoing in previous.leaves, ExternalErrors.IdentityMismatch);
    var _ :- Need(!Collides(previous.leaves, outgoing, identity, signatureKey), ExternalErrors.IdentityMismatch);
    var _ :- Need(derived.epoch == previous.epoch + 1, ExternalErrors.EpochMismatch);
    var _ :- Need(|derived.leaves| == |previous.leaves|
                  && (forall l :: l in previous.leaves && l != outgoing ==> l in derived.leaves)
                  && outgoing !in derived.leaves, ExternalErrors.DeltaMismatch);
    FindLeaf(derived.leaves, identity, signatureKey)
  }

  function FindLeaf(leaves: seq<Leaf>, identity: Bytes, signatureKey: Bytes): (r: Result<Leaf, PublicError>)
    ensures r.Ok? ==> r.value in leaves && r.value.identity == identity && r.value.signatureKey == signatureKey
    ensures r.Err? ==> forall l :: l in leaves ==> l.identity != identity || l.signatureKey != signatureKey
  {
    if leaves == [] then Err(ExternalErrors.DeltaMismatch)
    else if leaves[0].identity == identity && leaves[0].signatureKey == signatureKey then Ok(leaves[0])
    else FindLeaf(leaves[1..], identity, signatureKey)
  }

  /** No two leaves share any part. */
  predicate Apart(leaves: seq<Leaf>) {
    forall i, j :: 0 <= i < j < |leaves| ==> Disjoint(leaves[i], leaves[j])
  }

  predicate Disjoint(a: Leaf, b: Leaf) {
    a.index != b.index && a.identity != b.identity && a.signatureKey != b.signatureKey
  }

  lemma {:induction false} InsertKeepsApart(l: Leaf, leaves: seq<Leaf>)
    requires Apart(leaves) && forall m :: m in leaves ==> Disjoint(l, m)
    ensures Apart(InsertLeaf(l, leaves))
  {
    if leaves != [] && l.index > leaves[0].index {
      InsertKeepsApart(l, leaves[1..]);
      var t := InsertLeaf(l, leaves[1..]);
      forall j | 0 <= j < |t| ensures Disjoint(leaves[0], t[j]) {
        assert t[j] in multiset(t);
        if t[j] == l {
          assert Disjoint(l, leaves[0]);
        } else {
          assert t[j] in multiset(leaves[1..]);
          var k :| 0 <= k < |leaves[1..]| && leaves[1..][k] == t[j];
          assert Disjoint(leaves[0], leaves[k + 1]);
        }
      }
    }
  }

  lemma {:induction false} SortKeepsApart(leaves: seq<Leaf>)
    requires Apart(leaves)
    ensures Apart(SortLeaves(leaves))
  {
    hide Disjoint;
    if leaves != [] {
      SortKeepsApart(leaves[1..]);
      var t := SortLeaves(leaves[1..]);
      forall m | m in t ensures Disjoint(leaves[0], m) {
        assert m in multiset(t);
        assert m in multiset(leaves[1..]);
      }
      InsertKeepsApart(leaves[0], t);
    }
  }

  lemma DerivedIsCanonical(members: seq<Leaf>)
    requires Derivable(members) && forall i, j :: 0 <= i < j < |members| ==> members[i].index != members[j].index
    ensures var leaves := SortLeaves(members);
            Canonical(leaves) && |leaves| <= MAX_LEAVES && forall l :: l in leaves ==> Bounded(l)
  {
    hide SortLeaves;
    var leaves := SortLeaves(members);
    SortAscends(members);
    SortKeepsApart(members);
    assert |multiset(leaves)| == |leaves| && |multiset(members)| == |members|;
    forall l | l in leaves ensures Bounded(l) {
      assert l in multiset(leaves);
      assert l in members;
    }
  }

  lemma AgreesOnCanonical(sha: Hash, previous: Roster, derived: Roster, outgoing: Leaf, identity: Bytes, signatureKey: Bytes)
    requires SuccessorChecks(previous, derived, outgoing, identity, signatureKey).Ok?
    requires previous.groupId == derived.groupId && Canonical(derived.leaves) && RosterBounded(derived.groupId, derived.leaves)
    requires derived.digest == sha(RosterTranscript(derived.groupId, derived.epoch, derived.leaves))
    requires forall l :: l in derived.leaves ==> Bounded(l)
    ensures ValidateDelta(sha, previous, derived, outgoing, SuccessorChecks(previous, derived, outgoing, identity, signatureKey).value).Ok?
  {
    hide Canonical, RosterTranscript, Collides, RosterBounded, Bounded;
    CanonicalOnce(derived.leaves, SuccessorChecks(previous, derived, outgoing, identity, signatureKey).value);
  }

  /**
   * Whenever the public validator's roster checks pass, for one group and distinct leaf indexes, the private
   * validator accepts the same replacement: it never reports a delta mismatch the public one overlooked.
   */
  lemma PublicAgreesWithPrivate(sha: Hash, previous: Roster, derived: Roster, members: seq<Leaf>,
                                outgoing: Leaf, identity: Bytes, signatureKey: Bytes)
    requires SuccessorChecks(previous, derived, outgoing, identity, signatureKey).Ok?
    requires previous.groupId == derived.groupId && |derived.groupId| < LIMIT
    requires Derivable(members) && forall i, j :: 0 <= i < j < |members| ==> members[i].index != members[j].index
    requires derived.leaves == SortLeaves(members)
    requires derived.digest == sha(RosterTranscript(derived.groupId, derived.epoch, derived.leaves))
    ensures ValidateDelta(sha, previous, derived, outgoing, SuccessorChecks(previous, derived, outgoing, identity, signatureKey).value).Ok?
  {
    hide SuccessorChecks, ValidateDelta, Canonical, RosterTranscript, SortLeaves;
    DerivedIsCanonical(members);
    AgreesOnCanonical(sha, previous, derived, outgoing, identity, signatureKey);
  }
}
