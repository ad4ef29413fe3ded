/** Canonical rosters, and what the check of an authorised roster Commit accepts. */
module RosterDelta {
  import opened Foundation
  import opened MlsTypes

  /** Strictly ascending indexes; no identity and no signature key twice. */
  predicate Canonical(leaves: seq<Leaf>) {
    forall i, j :: 0 <= i < j < |leaves| ==>
      leaves[i].index < leaves[j].index && leaves[i].identity != leaves[j].identity && leaves[i].signatureKey != leaves[j].signatureKey
  }

  datatype RosterError = IndexesNotAscending | DuplicateIdentity | DuplicateSignatureKey

  predicate HasIdentity(leaves: seq<Leaf>, b: Bytes) {
    exists l :: l in leaves && l.identity == b
  }

  predicate HasSignatureKey(leaves: seq<Leaf>, b: Bytes) {
    exists l :: l in leaves && l.signatureKey == b
  }

  lemma PartsGrow(leaves: seq<Leaf>, n: nat)
    requires n < |leaves|
    ensures forall b :: HasIdentity(leaves[..n + 1], b) <==> HasIdentity(leaves[..n], b) || b == leaves[n].identity
    ensures forall b :: HasSignatureKey(leaves[..n + 1], b) <==> HasSignatureKey(leaves[..n], b) || b == leaves[n].signatureKey
  {
    var (before, after, last) := (leaves[..n], leaves[..n + 1], leaves[n]);
    assert last in after && forall l :: l in after <==> l in before || l == last;
    forall b ensures HasIdentity(after, b) <==> HasIdentity(before, b) || b == last.identity {
    }
    forall b ensures HasSignatureKey(after, b) <==> HasSignatureKey(before, b) || b == last.signatureKey {
    }
  }

  lemma NoParts()
    ensures forall b :: !HasIdentity([], b) && !HasSignatureKey([], b)
  {
  }

  function CheckLeafAfter(before: seq<Leaf>, l: Leaf): Result<(), RosterError> {
    if before != [] && l.index <= before[|before| - 1].index then Err(IndexesNotAscending)
    else if HasIdentity(before, l.identity) then Err(DuplicateIdentity)
    else if HasSignatureKey(before, l.signatureKey) then Err(DuplicateSignatureKey)
    else Ok(())
  }

  /** The first leaf that breaks a rule decides, its index looked at before its identity and its key. */
  function CheckCanonical(leaves: seq<Leaf>): Result<(), RosterError> {
    if leaves == [] then Ok(()) else
    var n := |leaves| - 1;
    var _ :- CheckCanonical(leaves[..n]);
    CheckLeafAfter(leaves[..n], leaves[n])
  }

  lemma {:induction false} FirstBadLeafDecides(leaves: seq<Leaf>, n: nat)
    requires n <= |leaves|
    ensures CheckCanonical(leaves[..n]).Err? ==> CheckCanonical(leaves) == CheckCanonical(leaves[..n])
    decreases |leaves| - n
  {
    hide CheckLeafAfter;
    if n == |leaves| {
      assert leaves[..n] == leaves;
    } else {
      FirstBadLeafDecides(leaves, n + 1);
      assert leaves[..n + 1][..n] == leaves[..n];
    }
  }

  method ValidateCanonicalLeaves(leaves: seq<Leaf>) returns (r: Result<(), RosterError>)
    ensures r == CheckCanonical(leaves)
  {
    hide HasIdentity, HasSignatureKey;
    var previous: Option<nat> := None;
    var identities: set<Bytes>, keys: set<Bytes> := {}, {};
    NoParts();
    for n := 0 to |leaves|
      invariant CheckCanonical(leaves[..n]) == Ok(())
      invariant previous == if n == 0 then None else Some(leaves[n - 1].index)
      invariant forall b :: b in identities <==> HasIdentity(leaves[..n], b)
      invariant forall b :: b in keys <==> HasSignatureKey(leaves[..n], b)
    {
      var l := leaves[n];
      FirstBadLeafDecides(leaves, n + 1);
      assert leaves[..n + 1][..n] == leaves[..n];
      PartsGrow(leaves, n);
      if previous.Some? && l.index <= previous.value {
        return Err(IndexesNotAscending);
      }
      previous := Some(l.index);
      if l.identity in identities {
        return Err(DuplicateIdentity);
      }
      identities := identities + {l.identity};
      if l.signatureKey in keys {
        return Err(DuplicateSignatureKey);
      }
      keys := keys + {l.signatureKey};
    }
    assert leaves[..|leaves|] == leaves;
    return Ok(());
  }

  /** No rule is broken exactly when the whole list is canonical: comparing each index with the one before is enough. */
  lemma {:induction false} CanonicalExactly(leaves: seq<Leaf>)
    ensures CheckCanonical(leaves).Ok? <==> Canonical(leaves)
  {
    if leaves != [] {
      var n := |leaves| - 1;
      CanonicalExactly(leaves[..n]);
      CanonicalGrows(leaves[..n], leaves[n]);
      assert leaves == leaves[..n] + [leaves[n]];
    }
  }

  lemma CanonicalGrows(before: seq<Leaf>, l: Leaf)
    ensures Canonical(before + [l]) <==> Canonical(before) && CheckLeafAfter(before, l).Ok?
  {
    var (n, all) := (|before|, before + [l]);
    assert all[n] == l && forall i :: 0 <= i < n ==> all[i] == before[i] && before[i] in before;
    if Canonical(all) {
      forall i, j | 0 <= i < j < n
        ensures before[i].index < before[j].index && before[i].identity != before[j].identity && before[i].signatureKey != before[j].signatureKey
      {
        assert all[i].index < all[j].index && all[i].identity != all[j].identity && all[i].signatureKey != all[j].signatureKey;
      }
      forall m | m in before ensures m.index < l.index && m.identity != l.identity && m.signatureKey != l.signatureKey {
        var i :| 0 <= i < n && before[i] == m;
        assert all[i].index < all[n].index;
      }
    }
  }

  /** In a canonical list a leaf is found by any one of its parts. */
  lemma CanonicalParts(leaves: seq<Leaf>, a: Leaf, b: Leaf)
    requires Canonical(leaves) && a in leaves && b in leaves
    requires a.index == b.index || a.identity == b.identity || a.signatureKey == b.signatureKey
    ensures a == b
  {
    var i :| 0 <= i < |leaves| && leaves[i] == a;
    var j :| 0 <= j < |leaves| && leaves[j] == b;
    assert i == j;
  }

  function LeafSet(leaves: seq<Leaf>): set<Leaf> {
    set l | l in leaves
  }

  lemma {:induction false} DistinctCount<T>(s: seq<T>)
    requires forall i, j :: 0 <= i < j < |s| ==> s[i] != s[j]
    ensures |set x | x in s| == |s|
  {
    if s != [] {
      var n := |s| - 1;
      DistinctCount(s[..n]);
      assert s == s[..n] + [s[n]];
      assert (set x | x in s) == (set x | x in s[..n]) + {s[n]};
    }
  }

  lemma SubsetCount<T>(a: set<T>, b: set<T>)
    requires a <= b
    ensures |a| <= |b| && (|a| == |b| ==> a == b)
  {
    assert b == a + (b - a);
    assert |b| == |a| + |b - a|;
  }

  // ================================================================ the exact delta of a roster Commit

  type Authority = (Bytes, Bytes)

  function AuthorityOf(l: Leaf): Authority {
    (l.identity, l.signatureKey)
  }

  /** The indexes that previous leaves keep after the removals. */
  function RetainedIndexes(previous: seq<Leaf>, removals: set<u32>): set<u32> {
    set l | l in previous && l.index !in removals :: l.index
  }

  /** The authorities of the leaves at indexes no retained leaf holds, in roster order. */
  function Fresh(leaves: seq<Leaf>, kept: set<u32>): seq<Authority> {
    if leaves == [] then [] else
      var n := |leaves| - 1;
      Fresh(leaves[..n], kept) + if leaves[n].index in kept then [] else [(leaves[n].identity, leaves[n].signatureKey)]
  }

  /**
   * The authorised change: the same group one epoch later; every retained leaf unchanged; and the remaining
   * leaves carry exactly the requested authorities, each as often as it was requested.
   */
  predicate ExactDelta(previous: Roster, resulting: Roster, removals: set<u32>, additions: seq<Authority>) {
    && resulting.groupId == previous.groupId
    && resulting.epoch == previous.epoch + 1
    && (forall l :: l in previous.leaves && l.index !in removals ==> l in resulting.leaves)
    && multiset(Fresh(resulting.leaves, RetainedIndexes(previous.leaves, removals))) == multiset(additions)
  }

  datatype DeltaError = EpochOverflow | UnexpectedGroupOrEpoch | RetainedLeafChanged | UnauthorizedLeaf | NotExact

  function Matches(a: Authority, additions: seq<Authority>): (m: seq<nat>)
    ensures forall i :: 0 <= i < |m| ==> m[i] < |additions| && additions[m[i]] == a
    ensures forall j :: 0 <= j < |additions| && additions[j] == a ==> j in m
  {
    if additions == [] then [] else
      var n := |additions| - 1;
      Matches(a, additions[..n]) + if additions[n] == a then [n] else []
  }

  /** The leaves that stay, by index; of two at one index the later one. */
  function Retained(previous: seq<Leaf>, removals: set<u32>): map<u32, Leaf> {
    if previous == [] then map[] else
      var n := |previous| - 1;
      var before := Retained(previous[..n], removals);
      if previous[n].index in removals then before else before[previous[n].index := previous[n]]
  }

  lemma {:induction false} RetainedMeans(previous: seq<Leaf>, removals: set<u32>)
    ensures var retained := Retained(previous, removals);
            && retained.Keys == RetainedIndexes(previous, removals)
            && forall i :: i in retained ==> retained[i].index == i && retained[i] in previous
  {
    if previous != [] {
      var n := |previous| - 1;
      RetainedMeans(previous[..n], removals);
      assert previous == previous[..n] + [previous[n]];
    }
  }

  method RetainedLeaves(previous: seq<Leaf>, removals: set<u32>) returns (retained: map<u32, Leaf>)
    ensures retained == Retained(previous, removals)
  {
    retained := map[];
    for n := 0 to |previous|
      invariant retained == Retained(previous[..n], removals)
    {
      assert previous[..n + 1][..n] == previous[..n];
      if previous[n].index !in removals {
        retained := retained[previous[n].index := previous[n]];
      }
    }
    assert previous[..|previous|] == previous;
  }

  // ---------------------------------------------------------------- the check, refusal by refusal

  /** One resulting leaf: unchanged if retained, else the one request it answers, which must still be open. */
  function WalkLeaf(retained: map<u32, Leaf>, additions: seq<Authority>, matched: seq<bool>, leaf: Leaf): (r: Result<seq<bool>, DeltaError>)
    requires |matched| == |additions|
    ensures r.Ok? ==> |r.value| == |additions|
  {
    if leaf.index in retained then
      if retained[leaf.index] != leaf then Err(RetainedLeafChanged) else Ok(matched)
    else
      var matches := Matches(AuthorityOf(leaf), additions);
      if |matches| != 1 || matched[matches[0]] then Err(UnauthorizedLeaf) else Ok(matched[matches[0] := true])
  }

  /** The requests taken by these leaves in order, or the first refusal. */
  function Walk(retained: map<u32, Leaf>, additions: seq<Authority>, leaves: seq<Leaf>): (r: Result<seq<bool>, DeltaError>)
    ensures r.Ok? ==> |r.value| == |additions|
  {
    if leaves == [] then Ok(seq(|additions|, _ => false)) else
    var n := |leaves| - 1;
    var matched :- Walk(retained, additions, leaves[..n]);
    WalkLeaf(retained, additions, matched, leaves[n])
  }

  predicate AllTaken(matched: seq<bool>) {
    forall j :: 0 <= j < |matched| ==> matched[j]
  }

  function CheckExactDelta(previous: Roster, resulting: Roster, removals: set<u32>, additions: seq<Authority>): Result<(), DeltaError> {
    var _ :- Need(previous.epoch + 1 < 0x1_0000_0000_0000_0000, EpochOverflow);
    var _ :- Need(resulting.groupId == previous.groupId && resulting.epoch == previous.epoch + 1, UnexpectedGroupOrEpoch);
    var retained := Retained(previous.leaves, removals);
    var matched :- Walk(retained, additions, resulting.leaves);
    Need(|resulting.leaves| == |retained| + |additions| && AllTaken(matched), NotExact)
  }

  lemma {:induction false} FirstRefusalStands(retained: map<u32, Leaf>, additions: seq<Authority>, leaves: seq<Leaf>, n: nat)
    requires n <= |leaves|
    ensures var front := Walk(retained, additions, leaves[..n]); front.Err? ==> Walk(retained, additions, leaves) == front
    decreases |leaves| - n
  {
    hide WalkLeaf;
    if n == |leaves| {
      assert leaves[..n] == leaves;
    } else {
      FirstRefusalStands(retained, additions, leaves, n + 1);
      assert leaves[..n + 1][..n] == leaves[..n];
    }
  }

  /** The loop over the resulting leaves with its list of matched additions. */
  method ValidateExactDelta(previous: Roster, resulting: Roster, removals: set<u32>, additions: seq<Authority>)
    returns (r: Result<(), DeltaError>)
    ensures r == CheckExactDelta(previous, resulting, removals, additions)
  {
    hide Retained, Matches, AllTaken;
    if previous.epoch + 1 == 0x1_0000_0000_0000_0000 {
      return Err(EpochOverflow);
    }
    if resulting.groupId != previous.groupId || resulting.epoch != previous.epoch + 1 {
      return Err(UnexpectedGroupOrEpoch);
    }
    var retained := RetainedLeaves(previous.leaves, removals);
    var matched := seq(|additions|, _ => false);
    var leaves := resulting.leaves;
    for n := 0 to |leaves|
      invariant Walk(retained, additions, leaves[..n]) == Ok(matched)
    {
      var leaf := leaves[n];
      FirstRefusalStands(retained, additions, leaves, n + 1);
      assert leaves[..n + 1][..n] == leaves[..n];
      if leaf.index in retained {
        if retained[leaf.index] != leaf {
          return Err(RetainedLeafChanged);
        }
        continue;
      }
      var matches := Matches(AuthorityOf(leaf), additions);
      if |matches| != 1 || matched[matches[0]] {
        return Err(UnauthorizedLeaf);
      }
      matched := matched[matches[0] := true];
    }
    assert leaves[..|leaves|] == leaves;
    return if |leaves| == |retained| + |additions| && AllTaken(matched) then Ok(()) else Err(NotExact);
  }

  // ---------------------------------------------------------------- what acceptance means

  /** The loop's ledger: which requests are taken, and that each taken one is requested once and used once. */
  predicate Accounted(added: seq<Authority>, additions: seq<Authority>, matched: seq<bool>) {
    && |matched| == |additions|
    && (forall j :: 0 <= j < |matched| ==> (matched[j] <==> additions[j] in added))
    && (forall a :: a in added ==> multiset(added)[a] == 1 && multiset(additions)[a] == 1)
  }

  function HeldIndexes(leaves: seq<Leaf>, kept: set<u32>): set<u32> {
    set l | l in leaves && l.index in kept :: l.index
  }

  /** While no leaf is refused the ledger balances and retained leaves are unchanged. */
  lemma {:induction false} WalkBalances(retained: map<u32, Leaf>, additions: seq<Authority>, leaves: seq<Leaf>)
    requires Walk(retained, additions, leaves).Ok?
    ensures Accounted(Fresh(leaves, retained.Keys), additions, Walk(retained, additions, leaves).value)
    ensures forall l :: l in leaves && l.index in retained ==> retained[l.index] == l
  {
    hide Accounted, Fresh, Matches;
    if leaves == [] {
      NothingAccounted(additions, seq(|additions|, _ => false), retained.Keys);
    } else {
      var n := |leaves| - 1;
      var leaf := leaves[n];
      WalkBalances(retained, additions, leaves[..n]);
      assert leaves == leaves[..n] + [leaf];
      FreshStep(leaves[..n], leaf, retained.Keys);
      if leaf.index !in retained {
        AccountedStep(Fresh(leaves[..n], retained.Keys), additions, Walk(retained, additions, leaves[..n]).value,
                      AuthorityOf(leaf), Matches(AuthorityOf(leaf), additions));
      }
    }
  }

  /** A refused leaf rules the exact delta out. */
  lemma {:induction false} RefusalIsInexact(previous: Roster, resulting: Roster, removals: set<u32>, additions: seq<Authority>, n: nat)
    requires Canonical(resulting.leaves) && n <= |resulting.leaves|
    requires Walk(Retained(previous.leaves, removals), additions, resulting.leaves[..n]).Err?
    ensures !ExactDelta(previous, resulting, removals, additions)
  {
    hide Canonical, Accounted, Fresh, Matches, Retained;
    var (retained, leaves) := (Retained(previous.leaves, removals), resulting.leaves);
    var (leaf, front) := (leaves[n - 1], leaves[..n - 1]);
    assert leaves[..n][..n - 1] == front && leaf in leaves;
    RetainedMeans(previous.leaves, removals);
    if Walk(retained, additions, front).Err? {
      RefusalIsInexact(previous, resulting, removals, additions, n - 1);
    } else if leaf.index in retained {
      if ExactDelta(previous, resulting, removals, additions) {
        RetainedStays(previous.leaves, removals, leaf.index);
        CanonicalParts(leaves, leaf, retained[leaf.index]);
      }
    } else {
      WalkBalances(retained, additions, front);
      UnauthorizedIsInexact(leaves, n - 1, retained.Keys, additions, Walk(retained, additions, front).value, Matches(AuthorityOf(leaf), additions));
    }
  }

  lemma {:induction false} RetainedStays(previous: seq<Leaf>, removals: set<u32>, i: u32)
    requires i in Retained(previous, removals)
    ensures Retained(previous, removals)[i] in previous && i !in removals && Retained(previous, removals)[i].index == i
  {
    var n := |previous| - 1;
    if previous[n].index in removals || previous[n].index != i {
      RetainedStays(previous[..n], removals, i);
    }
  }

  /** For canonical rosters, acceptance is the exact delta, whatever the loop's order. */
  lemma AcceptsExactlyTheDelta(previous: Roster, resulting: Roster, removals: set<u32>, additions: seq<Authority>)
    requires Canonical(previous.leaves) && Canonical(resulting.leaves)
    ensures CheckExactDelta(previous, resulting, removals, additions).Ok? <==>
              ExactDelta(previous, resulting, removals, additions)
  {
    hide Canonical, Accounted, Fresh, Retained, Walk, ExactDelta;
    var (retained, leaves) := (Retained(previous.leaves, removals), resulting.leaves);
    if resulting.groupId != previous.groupId || resulting.epoch != previous.epoch + 1 {
      WrongPlaceIsInexact(previous, resulting, removals, additions);
    } else if Walk(retained, additions, leaves).Err? {
      assert leaves[..|leaves|] == leaves;
      RefusalIsInexact(previous, resulting, removals, additions, |leaves|);
    } else {
      RetainedMeans(previous.leaves, removals);
      WalkBalances(retained, additions, leaves);
      TallyDecides(previous, resulting, removals, additions, retained, Walk(retained, additions, leaves).value);
    }
  }

  lemma WrongPlaceIsInexact(previous: Roster, resulting: Roster, removals: set<u32>, additions: seq<Authority>)
    requires resulting.groupId != previous.groupId || resulting.epoch != previous.epoch + 1
    ensures !ExactDelta(previous, resulting, removals, additions)
  {
  }

  lemma NothingAccounted(additions: seq<Authority>, matched: seq<bool>, kept: set<u32>)
    requires |matched| == |additions| && forall j :: 0 <= j < |matched| ==> !matched[j]
    ensures Accounted(Fresh([], kept), additions, matched)
  {
  }

  lemma FreshStep(leaves: seq<Leaf>, leaf: Leaf, kept: set<u32>)
    ensures Fresh(leaves + [leaf], kept) == if leaf.index in kept then Fresh(leaves, kept) else Fresh(leaves, kept) + [AuthorityOf(leaf)]
  {
    assert (leaves + [leaf])[..|leaves|] == leaves;
  }

  lemma {:induction false} MatchesCount(a: Authority, additions: seq<Authority>)
    ensures |Matches(a, additions)| == multiset(additions)[a]
  {
    if additions != [] {
      var n := |additions| - 1;
      MatchesCount(a, additions[..n]);
      assert additions == additions[..n] + [additions[n]];
    }
  }

  lemma AccountedStep(added: seq<Authority>, additions: seq<Authority>, matched: seq<bool>, a: Authority, matches: seq<nat>)
    requires Accounted(added, additions, matched)
    requires matches == Matches(a, additions) && |matches| == 1 && !matched[matches[0]]
    ensures Accounted(added + [a], additions, matched[matches[0] := true])
  {
    MatchesCount(a, additions);
    var j0 := matches[0];
    assert a !in added;
    forall j | 0 <= j < |matched| && additions[j] == a ensures j == j0 {
      assert j in matches;
    }
  }

  /** An added leaf's authority occurs exactly once among the added authorities of a canonical list. */
  lemma {:induction false} FreshOnce(leaves: seq<Leaf>, kept: set<u32>, leaf: Leaf)
    requires Canonical(leaves) && leaf in leaves && leaf.index !in kept
    ensures multiset(Fresh(leaves, kept))[AuthorityOf(leaf)] == 1
  {
    var n := |leaves| - 1;
    var last := leaves[n];
    assert leaves == leaves[..n] + [last];
    if leaf == last {
      FreshAvoids(leaves[..n], kept, AuthorityOf(leaf));
    } else {
      FreshOnce(leaves[..n], kept, leaf);
      assert AuthorityOf(last) != AuthorityOf(leaf);
    }
  }

  lemma {:induction false} FreshAvoids(leaves: seq<Leaf>, kept: set<u32>, a: Authority)
    requires forall l :: l in leaves ==> AuthorityOf(l) != a
    ensures a !in Fresh(leaves, kept)
  {
    if leaves != [] {
      FreshAvoids(leaves[..|leaves| - 1], kept, a);
      assert AuthorityOf(leaves[|leaves| - 1]) != a;
    }
  }

  lemma UnauthorizedIsInexact(leaves: seq<Leaf>, n: nat, kept: set<u32>, additions: seq<Authority>, matched: seq<bool>, matches: seq<nat>)
    requires Canonical(leaves) && n < |leaves| && leaves[n].index !in kept
    requires Accounted(Fresh(leaves[..n], kept), additions, matched)
    requires matches == Matches(AuthorityOf(leaves[n]), additions)
    requires |matches| != 1 || matched[matches[0]]
    ensures multiset(Fresh(leaves, kept)) != multiset(additions)
  {
    var a := AuthorityOf(leaves[n]);
    MatchesCount(a, additions);
    FreshOnce(leaves, kept, leaves[n]);
    assert forall i :: 0 <= i < n ==> leaves[i].identity != leaves[n].identity;
    FreshAvoids(leaves[..n], kept, a);
  }

  lemma {:induction false} HeldAndFresh(leaves: seq<Leaf>, kept: set<u32>)
    requires Canonical(leaves)
    ensures |leaves| == |HeldIndexes(leaves, kept)| + |Fresh(leaves, kept)|
  {
    hide Canonical, HeldIndexes;
    if leaves == [] {
      NoneHeld(kept);
    } else {
      var n := |leaves| - 1;
      HeldGrows(leaves, kept);
      HeldAndFresh(leaves[..n], kept);
    }
  }

  lemma NoneHeld(kept: set<u32>)
    ensures HeldIndexes([], kept) == {}
  {
  }

  lemma HeldGrows(leaves: seq<Leaf>, kept: set<u32>)
    requires Canonical(leaves) && leaves != []
    ensures var n := |leaves| - 1;
            && Canonical(leaves[..n]) && leaves[n].index !in HeldIndexes(leaves[..n], kept)
            && HeldIndexes(leaves, kept) == HeldIndexes(leaves[..n], kept) + if leaves[n].index in kept then {leaves[n].index} else {}
  {
    var n := |leaves| - 1;
    assert leaves == leaves[..n] + [leaves[n]];
    forall l | l in leaves[..n] ensures l.index != leaves[n].index {
      var i :| 0 <= i < n && leaves[..n][i] == l;
      assert leaves[i].index < leaves[n].index;
    }
  }

  lemma AllMatched(added: seq<Authority>, additions: seq<Authority>, matched: seq<bool>)
    requires Accounted(added, additions, matched)
    ensures (forall j :: 0 <= j < |matched| ==> matched[j]) <==> multiset(added) == multiset(additions)
  {
    if forall j :: 0 <= j < |matched| ==> matched[j] {
      forall a ensures multiset(added)[a] == multiset(additions)[a] {
        if a in additions {
          var j :| 0 <= j < |additions| && additions[j] == a;
          assert matched[j];
        } else {
          assert a !in multiset(additions);
          assert a !in added;
        }
      }
    } else {
      var j :| 0 <= j < |matched| && !matched[j];
      assert additions[j] in multiset(additions) && additions[j] !in added;
    }
  }

  /** Counting decides: with every request taken, the list is as long as it should be exactly when no retained leaf is missing. */
  lemma TallyDecides(previous: Roster, resulting: Roster, removals: set<u32>, additions: seq<Authority>,
                     retained: map<u32, Leaf>, matched: seq<bool>)
    requires Canonical(previous.leaves) && Canonical(resulting.leaves)
    requires resulting.groupId == previous.groupId && resulting.epoch == previous.epoch + 1
    requires retained.Keys == RetainedIndexes(previous.leaves, removals)
    requires forall i :: i in retained ==> retained[i].index == i && retained[i] in previous.leaves
    requires Accounted(Fresh(resulting.leaves, retained.Keys), additions, matched)
    requires forall l :: l in resulting.leaves && l.index in retained ==> retained[l.index] == l
    ensures ExactDelta(previous, resulting, removals, additions) <==>
              |resulting.leaves| == |retained| + |additions| && forall j :: 0 <= j < |matched| ==> matched[j]
  {
    hide Fresh, Canonical, Accounted;
    var leaves, kept := resulting.leaves, retained.Keys;
    var added, held := Fresh(leaves, kept), HeldIndexes(leaves, kept);
    AllMatched(added, additions, matched);
    HeldAndFresh(leaves, kept);
    SubsetCount(held, kept);
    if multiset(added) == multiset(additions) {
      assert |multiset(added)| == |added| && |multiset(additions)| == |additions|;
      if |held| == |kept| {
        forall l | l in previous.leaves && l.index !in removals ensures l in leaves {
          assert l.index in held;
          CanonicalParts(previous.leaves, l, retained[l.index]);
        }
      }
      if ExactDelta(previous, resulting, removals, additions) {
        forall i | i in kept ensures i in held {
          assert retained[i] in leaves;
        }
        assert held == kept;
      }
    }
  }

  // ---------------------------------------------------------------- removals

  datatype Removal = Removal(index: u32, identity: Bytes, signatureKey: Bytes)

  /** Every removal names one active leaf exactly, and no index twice. */
  predicate RemovalsMatch(previous: seq<Leaf>, removals: seq<Removal>) {
    && (forall i :: 0 <= i < |removals| ==> Leaf(removals[i].index, removals[i].identity, removals[i].signatureKey) in previous)
    && (forall i, j :: 0 <= i < j < |removals| ==> removals[i].index != removals[j].index)
  }

  datatype RemovalError = RepeatedRemoval | NotActive | AnotherAuthority

  function CheckRemoval(active: map<u32, Leaf>, indices: set<u32>, x: Removal): Result<set<u32>, RemovalError> {
    if x.index in indices then Err(RepeatedRemoval)
    else if x.index !in active then Err(NotActive)
    else if active[x.index].identity != x.identity || active[x.index].signatureKey != x.signatureKey then Err(AnotherAuthority)
    else Ok(indices + {x.index})
  }

  /** The indexes removed, or the first refusal. */
  function CheckRemovals(active: map<u32, Leaf>, removals: seq<Removal>): Result<set<u32>, RemovalError> {
    if removals == [] then Ok({}) else
    var n := |removals| - 1;
    var indices :- CheckRemovals(active, removals[..n]);
    CheckRemoval(active, indices, removals[n])
  }

  lemma {:induction false} FirstRemovalRefusedStands(active: map<u32, Leaf>, removals: seq<Removal>, n: nat)
    requires n <= |removals|
    ensures var front := CheckRemovals(active, removals[..n]); front.Err? ==> CheckRemovals(active, removals) == front
    decreases |removals| - n
  {
    hide CheckRemoval;
    if n == |removals| {
      assert removals[..n] == removals;
    } else {
      FirstRemovalRefusedStands(active, removals, n + 1);
      assert removals[..n + 1][..n] == removals[..n];
    }
  }

  method ValidateRemovals(previous: seq<Leaf>, removals: seq<Removal>) returns (r: Result<set<u32>, RemovalError>)
    ensures r == CheckRemovals(Retained(previous, {}), removals)
  {
    hide Retained;
    var byIndex := RetainedLeaves(previous, {});
    var indices: set<u32> := {};
    for n := 0 to |removals|
      invariant CheckRemovals(byIndex, removals[..n]) == Ok(indices)
    {
      var x := removals[n];
      FirstRemovalRefusedStands(byIndex, removals, n + 1);
      assert removals[..n + 1][..n] == removals[..n];
      if x.index in indices {
        return Err(RepeatedRemoval);
      }
      indices := indices + {x.index};
      if x.index !in byIndex {
        return Err(NotActive);
      }
      if byIndex[x.index].identity != x.identity || byIndex[x.index].signatureKey != x.signatureKey {
        return Err(AnotherAuthority);
      }
    }
    assert removals[..|removals|] == removals;
    return Ok(indices);
  }

  /** For a canonical roster, accepted are exactly removals that each name one active leaf in all three parts. */
  lemma {:induction false} RemovalsAcceptExactly(previous: seq<Leaf>, removals: seq<Removal>)
    requires Canonical(previous)
    ensures var r := CheckRemovals(Retained(previous, {}), removals);
            && (r.Ok? <==> RemovalsMatch(previous, removals))
            && (r.Ok? ==> r.value == (set x | x in removals :: x.index) && |r.value| == |removals|)
  {
    hide Canonical, Retained, RemovalsMatch;
    if removals == [] {
      NothingRemoved(previous);
    } else {
      var n := |removals| - 1;
      var (front, x) := (removals[..n], removals[n]);
      var active := Retained(previous, {});
      RemovalsAcceptExactly(previous, front);
      RetainedMeans(previous, {});
      assert removals == front + [x];
      var wanted := Leaf(x.index, x.identity, x.signatureKey);
      assert wanted in previous ==> wanted.index in RetainedIndexes(previous, {});
      if wanted in previous {
        CanonicalParts(previous, wanted, active[x.index]);
      }
      RemovalsGrow(previous, front, x);
    }
  }

  lemma NothingRemoved(previous: seq<Leaf>)
    ensures RemovalsMatch(previous, [])
  {
  }

  lemma RemovalsGrow(previous: seq<Leaf>, front: seq<Removal>, x: Removal)
    ensures RemovalsMatch(previous, front + [x]) <==>
              && RemovalsMatch(previous, front) && Leaf(x.index, x.identity, x.signatureKey) in previous
              && x.index !in (set y | y in front :: y.index)
  {
    var all := front + [x];
    assert all[|front|] == x && forall i :: 0 <= i < |front| ==> all[i] == front[i];
    if RemovalsMatch(previous, all) {
      forall i, j | 0 <= i < j < |front| ensures front[i].index != front[j].index {
        assert all[i].index != all[j].index;
      }
      forall i | 0 <= i < |front| ensures Leaf(front[i].index, front[i].identity, front[i].signatureKey) in previous {
        assert Leaf(all[i].index, all[i].identity, all[i].signatureKey) in previous;
      }
      forall y | y in front ensures y.index != x.index {
        var i :| 0 <= i < |front| && front[i] == y;
        assert all[i].index != all[|front|].index;
      }
    }
  }

  /** No epoch follows the last one, whatever the resulting roster says. */
  lemma LastEpochOverflows(previous: Roster, resulting: Roster, removals: set<u32>, additions: seq<Authority>)
    ensures previous.epoch == 0xFFFF_FFFF_FFFF_FFFF ==> CheckExactDelta(previous, resulting, removals, additions) == Err(EpochOverflow)
  {
    hide Retained, Walk;
  }
}
