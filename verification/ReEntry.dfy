/** What a re-entry through an external Commit may change, spelled out for both validators of its roster. */
module ReEntry {
  import opened Foundation
  import opened MlsTypes
  import opened Transcripts
  import opened RosterDelta
  import opened ExternalDelta

  /**
   * The new leaf's key is on no previous leaf, and its identity on none but the one it replaces: the same participant
   * may come back, with a fresh key.
   */
  predicate Fresh(previous: seq<Leaf>, outgoing: Leaf, identity: Bytes, signatureKey: Bytes) {
    && (forall l :: l in previous ==> l.signatureKey != signatureKey)
    && forall l :: l in previous && l.identity == identity ==> l == outgoing
  }

  /** Indexes ascend and no two leaves share an identity or a key. */
  predicate Ordered(leaves: seq<Leaf>) {
    forall i, j :: 0 <= i < j < |leaves| ==>
      leaves[i].index < leaves[j].index && leaves[i].identity != leaves[j].identity && leaves[i].signatureKey != leaves[j].signatureKey
  }

  /** Leaf for leaf, only the outgoing one went and only the incoming one came. */
  ghost predicate Exchanged(previous: seq<Leaf>, resulting: seq<Leaf>, outgoing: Leaf, incoming: Leaf) {
    outgoing in previous && forall l :: l in resulting <==> l == incoming || (l in previous && l != outgoing)
  }

  /** The lengths a digest can record. */
  predicate Recordable(r: Roster) {
    && |r.groupId| < 0x1_0000_0000 && |r.leaves| < 0x1_0000_0000
    && forall l :: l in r.leaves ==> |l.identity| < 0x1_0000_0000 && |l.signatureKey| < 0x1_0000_0000
  }

  lemma OrderedIsCanonical(leaves: seq<Leaf>)
    ensures Canonical(leaves) <==> Ordered(leaves)
  {
  }

  lemma FreshMeans(previous: seq<Leaf>, outgoing: Leaf, identity: Bytes, signatureKey: Bytes)
    ensures Collides(previous, outgoing, identity, signatureKey) <==> !Fresh(previous, outgoing, identity, signatureKey)
  {
  }

  /** The private validator accepts exactly the exchange of one bounded leaf for a fresh one, an epoch on, under its own digest. */
  lemma ReEntryAcceptedExactly(sha: Hash, previous: Roster, resulting: Roster, outgoing: Leaf, incoming: Leaf)
    requires Ordered(previous.leaves)
    ensures ValidateDelta(sha, previous, resulting, outgoing, incoming).Ok? <==>
              && outgoing.index <= 255 && |outgoing.identity| == 45 && |outgoing.signatureKey| == 32
              && incoming.index <= 255 && |incoming.identity| == 45 && |incoming.signatureKey| == 32
              && Fresh(previous.leaves, outgoing, incoming.identity, incoming.signatureKey)
              && Exchanged(previous.leaves, resulting.leaves, outgoing, incoming) && Ordered(resulting.leaves)
              && resulting.groupId == previous.groupId && resulting.epoch == previous.epoch + 1
              && Recordable(resulting) && resulting.digest == sha(RosterTranscript(resulting.groupId, resulting.epoch, resulting.leaves))
  {
    hide Canonical, Collides, Fresh, Ordered, RosterTranscript, ValidateDelta;
    OrderedIsCanonical(previous.leaves);
    OrderedIsCanonical(resulting.leaves);
    FreshMeans(previous.leaves, outgoing, incoming.identity, incoming.signatureKey);
    AcceptsExactlyReplacements(sha, previous, resulting, outgoing, incoming);
    assert RosterBounded(resulting.groupId, resulting.leaves) <==> Recordable(resulting);
    if outgoing in previous.leaves {
      ExchangedMeans(previous.leaves, resulting.leaves, outgoing, incoming);
    }
  }

  lemma ExchangedMeans(previous: seq<Leaf>, resulting: seq<Leaf>, outgoing: Leaf, incoming: Leaf)
    requires outgoing in previous
    ensures LeafSet(resulting) == LeafSet(previous) - {outgoing} + {incoming} <==> Exchanged(previous, resulting, outgoing, incoming)
  {
    var (p, r) := (LeafSet(previous), LeafSet(resulting));
    assert forall l :: (l in p <==> l in previous) && (l in r <==> l in resulting);
    if Exchanged(previous, resulting, outgoing, incoming) {
      assert forall l :: l in r <==> l in p - {outgoing} + {incoming};
    }
  }

  /** The usual case: the same participant may be back under a fresh key. */
  lemma SameIdentityMayReturn(previous: seq<Leaf>, outgoing: Leaf, signatureKey: Bytes)
    requires Ordered(previous) && outgoing in previous && forall l :: l in previous ==> l.signatureKey != signatureKey
    ensures Fresh(previous, outgoing, outgoing.identity, signatureKey)
  {
    forall l | l in previous && l.identity == outgoing.identity ensures l == outgoing {
      var i :| 0 <= i < |previous| && previous[i] == l;
      var j :| 0 <= j < |previous| && previous[j] == outgoing;
      assert i < j || j < i || i == j;
    }
  }

  /** Counting: with as many leaves as before, keeping all others and gaining the new one leaves no room for more. */
  lemma ExchangeCounts(previous: seq<Leaf>, derived: seq<Leaf>, outgoing: Leaf, incoming: Leaf)
    requires Canonical(previous) && Canonical(derived) && outgoing in previous && incoming !in previous
    ensures Exchanged(previous, derived, outgoing, incoming) <==>
              && |derived| == |previous| && incoming in derived && outgoing !in derived
              && forall l :: l in previous && l != outgoing ==> l in derived
  {
    hide Canonical;
    var (p, r) := (LeafSet(previous), LeafSet(derived));
    var wanted := p - {outgoing} + {incoming};
    CanonicalCount(previous);
    CanonicalCount(derived);
    ExchangedMeans(previous, derived, outgoing, incoming);
    assert |wanted| == |p|;
    if |derived| == |previous| && incoming in derived && forall l :: l in previous && l != outgoing ==> l in derived {
      assert wanted <= r;
      SubsetCount(wanted, r);
    }
  }

  /** The public validator's roster checks pass, with that new leaf, exactly for the same exchanges. */
  lemma SuccessorAcceptedExactly(previous: Roster, derived: Roster, outgoing: Leaf, identity: Bytes, signatureKey: Bytes, incoming: Leaf)
    requires Ordered(previous.leaves) && Ordered(derived.leaves)
    ensures SuccessorChecks(previous, derived, outgoing, identity, signatureKey) == Ok(incoming) <==>
              && outgoing.index <= 255 && |outgoing.identity| == 45 && |outgoing.signatureKey| == 32
              && |identity| == 45 && |signatureKey| == 32 && incoming.identity == identity && incoming.signatureKey == signatureKey
              && Fresh(previous.leaves, outgoing, identity, signatureKey)
              && Exchanged(previous.leaves, derived.leaves, outgoing, incoming)
              && derived.epoch == previous.epoch + 1
  {
    hide Canonical, Collides, Ordered, LeafSet, Exchanged;
    FreshMeans(previous.leaves, outgoing, identity, signatureKey);
    OrderedIsCanonical(previous.leaves);
    OrderedIsCanonical(derived.leaves);
    if outgoing in previous.leaves && Fresh(previous.leaves, outgoing, identity, signatureKey)
       && incoming.identity == identity && incoming.signatureKey == signatureKey {
      ExchangeCounts(previous.leaves, derived.leaves, outgoing, incoming);
      if incoming in derived.leaves {
        OnlyLeaf(derived.leaves, incoming);
      }
    }
    ExchangedHasOutgoing(previous.leaves, derived.leaves, outgoing, incoming);
  }

  lemma ExchangedHasOutgoing(previous: seq<Leaf>, derived: seq<Leaf>, outgoing: Leaf, incoming: Leaf)
    ensures Exchanged(previous, derived, outgoing, incoming) ==> outgoing in previous
  {
  }

  lemma OnlyLeaf(leaves: seq<Leaf>, l: Leaf)
    requires Ordered(leaves) && l in leaves
    ensures forall m :: m in leaves && m.identity == l.identity ==> m == l
  {
    var i :| 0 <= i < |leaves| && leaves[i] == l;
    forall m | m in leaves && m.identity == l.identity ensures m == l {
      var j :| 0 <= j < |leaves| && leaves[j] == m;
      assert i < j || j < i || i == j;
    }
  }

  /** Whatever the previous roster was, an accepted exchange shows the outgoing leaf before and not after, the incoming one once after. */
  lemma AcceptedInAnyCase(sha: Hash, previous: Roster, resulting: Roster, outgoing: Leaf, incoming: Leaf)
    requires ValidateDelta(sha, previous, resulting, outgoing, incoming).Ok?
    ensures outgoing in previous.leaves && outgoing !in resulting.leaves && multiset(resulting.leaves)[incoming] == 1
    ensures |resulting.leaves| == |previous.leaves| && Ordered(resulting.leaves)
    ensures forall l :: l in previous.leaves && l != outgoing ==> l in resulting.leaves
  {
    hide Collides, Canonical;
    OrderedIsCanonical(resulting.leaves);
  }
}
