/** The byte strings that are hashed: the roster transcript and the group-state transcript. */
module Transcripts {
  import opened Foundation
  import opened Order
  import opened MlsTypes

  const LIMIT: nat := 0x1_0000_0000

  const ROSTER_DOMAIN: Bytes := Ascii("openmls_dart/roster-summary/v1") + [0]
  const GROUP_DOMAIN: Bytes := Ascii("openmls_dart/group-state/v1") + [0]

  /** A four-byte length and the bytes themselves. */
  function Prefixed(b: Bytes): Bytes {
    BE(4, |b|) + b
  }

  function LeafPart(l: Leaf): Bytes {
    BE(4, l.index) + Prefixed(l.identity) + Prefixed(l.signatureKey)
  }

  function LeafParts(leaves: seq<Leaf>): Bytes {
    if leaves == [] then [] else LeafParts(leaves[..|leaves| - 1]) + LeafPart(leaves[|leaves| - 1])
  }

  function RosterTranscript(groupId: Bytes, epoch: u64, leaves: seq<Leaf>): Bytes {
    ROSTER_DOMAIN + Prefixed(groupId) + BE(8, epoch) + BE(4, |leaves|) + LeafParts(leaves)
  }

  function RowPart(e: StorageEntry): Bytes {
    Prefixed(e.key) + Prefixed(e.value)
  }

  function RowParts(rows: seq<StorageEntry>): Bytes {
    if rows == [] then [] else RowParts(rows[..|rows| - 1]) + RowPart(rows[|rows| - 1])
  }

  function GroupTranscript(version: u32, groupId: Bytes, rows: seq<StorageEntry>): Bytes {
    GROUP_DOMAIN + BE(4, version) + Prefixed(groupId) + BE(4, |rows|) + RowParts(rows)
  }

  /** Every length the transcript records fits its four bytes. */
  predicate LeafBounded(l: Leaf) {
    |l.identity| < LIMIT && |l.signatureKey| < LIMIT
  }

  predicate RosterBounded(groupId: Bytes, leaves: seq<Leaf>) {
    |groupId| < LIMIT && |leaves| < LIMIT && forall l :: l in leaves ==> LeafBounded(l)
  }

  predicate RowBounded(e: StorageEntry) {
    |e.key| < LIMIT && |e.value| < LIMIT
  }

  predicate RowsBounded(groupId: Bytes, rows: seq<StorageEntry>) {
    |groupId| < LIMIT && |rows| < LIMIT && forall e :: e in rows ==> RowBounded(e)
  }

  // ---------------------------------------------------------------- injectivity

  lemma FixedSplits(w: nat, m: nat, n: nat, x: Bytes, y: Bytes)
    requires m < Pow256(w) && n < Pow256(w) && BE(w, m) + x == BE(w, n) + y
    ensures m == n && x == y
  {
    SplitEqual(BE(w, m), BE(w, n), x, y);
    FromBEInvertsBE(w, m);
    FromBEInvertsBE(w, n);
  }

  lemma PrefixedSplits(a: Bytes, b: Bytes, x: Bytes, y: Bytes)
    requires |a| < LIMIT && |b| < LIMIT && Prefixed(a) + x == Prefixed(b) + y
    ensures a == b && x == y
  {
    hide BE;
    PowValues();
    Regroup(BE(4, |a|), a, x);
    Regroup(BE(4, |b|), b, y);
    FixedSplits(4, |a|, |b|, a + x, b + y);
    SplitEqual(a, b, x, y);
  }

  /** Two appended tails of equal shape split from the right just as heads do from the left. */
  lemma LeafSplits(l: Leaf, m: Leaf, x: Bytes, y: Bytes)
    requires LeafBounded(l) && LeafBounded(m) && LeafPart(l) + x == LeafPart(m) + y
    ensures l == m && x == y
  {
    hide BE, Prefixed;
    PowValues();
    var lk, mk := Prefixed(l.signatureKey) + x, Prefixed(m.signatureKey) + y;
    Regroup(BE(4, l.index) + Prefixed(l.identity), Prefixed(l.signatureKey), x);
    Regroup(BE(4, m.index) + Prefixed(m.identity), Prefixed(m.signatureKey), y);
    Regroup(BE(4, l.index), Prefixed(l.identity), lk);
    Regroup(BE(4, m.index), Prefixed(m.identity), mk);
    FixedSplits(4, l.index, m.index, Prefixed(l.identity) + lk, Prefixed(m.identity) + mk);
    PrefixedSplits(l.identity, m.identity, lk, mk);
    PrefixedSplits(l.signatureKey, m.signatureKey, x, y);
  }

  lemma {:induction false} LeafPartsSplit(a: seq<Leaf>, b: seq<Leaf>, x: Bytes, y: Bytes)
    requires |a| == |b| && (forall l :: l in a ==> LeafBounded(l)) && (forall l :: l in b ==> LeafBounded(l))
    requires LeafParts(a) + x == LeafParts(b) + y
    ensures a == b && x == y
  {
    hide LeafPart, LeafBounded;
    if a == [] {
      assert [] + x == x && [] + y == y;
    } else {
      var n := |a| - 1;
      var p, q := LeafPart(a[n]) + x, LeafPart(b[n]) + y;
      Regroup(LeafParts(a[..n]), LeafPart(a[n]), x);
      Regroup(LeafParts(b[..n]), LeafPart(b[n]), y);
      LeafPartsSplit(a[..n], b[..n], p, q);
      LeafSplits(a[n], b[n], x, y);
      assert a == a[..n] + [a[n]] && b == b[..n] + [b[n]];
    }
  }

  /** Equal roster transcripts come from equal rosters. */
  lemma RosterTranscriptInjective(g: Bytes, e: u64, a: seq<Leaf>, h: Bytes, f: u64, b: seq<Leaf>)
    requires RosterBounded(g, a) && RosterBounded(h, b)
    requires RosterTranscript(g, e, a) == RosterTranscript(h, f, b)
    ensures g == h && e == f && a == b
  {
    hide BE, Prefixed, LeafParts, LeafBounded, Ascii;
    PowValues();
    var d := ROSTER_DOMAIN;
    var (la, lb) := (BE(4, |a|) + LeafParts(a), BE(4, |b|) + LeafParts(b));
    var (ea, eb) := (BE(8, e) + la, BE(8, f) + lb);
    assert RosterTranscript(g, e, a) == d + (Prefixed(g) + ea) by {
      Regroup(d + Prefixed(g) + BE(8, e), BE(4, |a|), LeafParts(a));
      Regroup(d + Prefixed(g), BE(8, e), la);
      Regroup(d, Prefixed(g), ea);
    }
    assert RosterTranscript(h, f, b) == d + (Prefixed(h) + eb) by {
      Regroup(d + Prefixed(h) + BE(8, f), BE(4, |b|), LeafParts(b));
      Regroup(d + Prefixed(h), BE(8, f), lb);
      Regroup(d, Prefixed(h), eb);
    }
    SplitEqual(d, d, Prefixed(g) + ea, Prefixed(h) + eb);
    PrefixedSplits(g, h, ea, eb);
    FixedSplits(8, e, f, la, lb);
    FixedSplits(4, |a|, |b|, LeafParts(a), LeafParts(b));
    assert LeafParts(a) + [] == LeafParts(a) && LeafParts(b) + [] == LeafParts(b);
    LeafPartsSplit(a, b, [], []);
  }

  lemma RowSplits(l: StorageEntry, m: StorageEntry, x: Bytes, y: Bytes)
    requires RowBounded(l) && RowBounded(m) && RowPart(l) + x == RowPart(m) + y
    ensures l.key == m.key && l.value == m.value && x == y
  {
    hide Prefixed;
    Regroup(Prefixed(l.key), Prefixed(l.value), x);
    Regroup(Prefixed(m.key), Prefixed(m.value), y);
    PrefixedSplits(l.key, m.key, Prefixed(l.value) + x, Prefixed(m.value) + y);
    PrefixedSplits(l.value, m.value, x, y);
  }

  /** Rows compare by key and value: the group id is recorded once, in front. */
  predicate SameRows(a: seq<StorageEntry>, b: seq<StorageEntry>) {
    |a| == |b| && forall i :: 0 <= i < |a| ==> a[i].key == b[i].key && a[i].value == b[i].value
  }

  lemma {:induction false} RowPartsSplit(a: seq<StorageEntry>, b: seq<StorageEntry>, x: Bytes, y: Bytes)
    requires |a| == |b| && (forall e :: e in a ==> RowBounded(e)) && (forall e :: e in b ==> RowBounded(e))
    requires RowParts(a) + x == RowParts(b) + y
    ensures SameRows(a, b) && x == y
  {
    hide RowPart, RowBounded, Prefixed, BE;
    if a == [] {
      assert [] + x == x && [] + y == y;
    } else {
      var n := |a| - 1;
      var p, q := RowPart(a[n]) + x, RowPart(b[n]) + y;
      Regroup(RowParts(a[..n]), RowPart(a[n]), x);
      Regroup(RowParts(b[..n]), RowPart(b[n]), y);
      RowPartsSplit(a[..n], b[..n], p, q);
      RowSplits(a[n], b[n], x, y);
      forall i | 0 <= i < |a| ensures a[i].key == b[i].key && a[i].value == b[i].value {
        assert i < n ==> a[..n][i] == a[i] && b[..n][i] == b[i];
      }
    }
  }

  lemma {:induction false} SameRowsSameParts(a: seq<StorageEntry>, b: seq<StorageEntry>)
    requires SameRows(a, b)
    ensures RowParts(a) == RowParts(b)
  {
    if a != [] {
      SameRowsSameParts(a[..|a| - 1], b[..|b| - 1]);
    }
  }

  lemma SameRowsSameLength(a: seq<StorageEntry>, b: seq<StorageEntry>)
    requires SameRows(a, b)
    ensures |a| == |b|
  {
  }

  /** Group-state transcripts are equal exactly when version, group id and listed rows are. */
  lemma GroupTranscriptInjective(v: u32, g: Bytes, a: seq<StorageEntry>, w: u32, h: Bytes, b: seq<StorageEntry>)
    requires RowsBounded(g, a) && RowsBounded(h, b)
    ensures GroupTranscript(v, g, a) == GroupTranscript(w, h, b) <==> v == w && g == h && SameRows(a, b)
  {
    hide BE, Prefixed, RowParts, RowBounded, Ascii, SameRows;
    PowValues();
    if v == w && g == h && SameRows(a, b) {
      assert |a| == |b| by { SameRowsSameLength(a, b); }
      SameRowsSameParts(a, b);
    }
    if GroupTranscript(v, g, a) == GroupTranscript(w, h, b) {
      var d := GROUP_DOMAIN;
      var (la, lb) := (BE(4, |a|) + RowParts(a), BE(4, |b|) + RowParts(b));
      var (ga, gb) := (Prefixed(g) + la, Prefixed(h) + lb);
      assert GroupTranscript(v, g, a) == d + (BE(4, v) + ga) by {
        Regroup(d + BE(4, v) + Prefixed(g), BE(4, |a|), RowParts(a));
        Regroup(d + BE(4, v), Prefixed(g), la);
        Regroup(d, BE(4, v), ga);
      }
      assert GroupTranscript(w, h, b) == d + (BE(4, w) + gb) by {
        Regroup(d + BE(4, w) + Prefixed(h), BE(4, |b|), RowParts(b));
        Regroup(d + BE(4, w), Prefixed(h), lb);
        Regroup(d, BE(4, w), gb);
      }
      SplitEqual(d, d, BE(4, v) + ga, BE(4, w) + gb);
      FixedSplits(4, v, w, ga, gb);
      PrefixedSplits(g, h, la, lb);
      FixedSplits(4, |a|, |b|, RowParts(a), RowParts(b));
      assert RowParts(a) + [] == RowParts(a) && RowParts(b) + [] == RowParts(b);
      RowPartsSplit(a, b, [], []);
    }
  }

  /** Each transcript begins with the name of what is hashed and a zero byte. */
  lemma TranscriptsBegin(g: Bytes, e: u64, a: seq<Leaf>, v: u32, h: Bytes, b: seq<StorageEntry>)
    ensures LiesAt(RosterTranscript(g, e, a), 0, Ascii("openmls_dart/roster-summary/v1") + [0])
    ensures LiesAt(GroupTranscript(v, h, b), 0, Ascii("openmls_dart/group-state/v1") + [0])
  {
    hide BE, Prefixed, LeafParts, RowParts, Ascii;
  }

  /** What is hashed for a roster is never what is hashed for a group's rows. */
  lemma TranscriptsNeverMeet(g: Bytes, e: u64, a: seq<Leaf>, v: u32, h: Bytes, b: seq<StorageEntry>)
    ensures RosterTranscript(g, e, a) != GroupTranscript(v, h, b)
  {
    hide BE, Prefixed, LeafParts, RowParts;
    var (r, t) := ("openmls_dart/roster-summary/v1", "openmls_dart/group-state/v1");
    assert r[13] == 'r' && t[13] == 'g';
    assert RosterTranscript(g, e, a)[13] == Ascii(r)[13] && GroupTranscript(v, h, b)[13] == Ascii(t)[13];
  }

  // ---------------------------------------------------------------- the hashers as written

  /** An incremental hasher: what it has been fed is what it will hash. */
  class Hasher {
    var fed: Bytes

    constructor ()
      ensures fed == []
    {
      fed := [];
    }

    method Update(b: Bytes)
      modifies this
      ensures fed == old(fed) + b
    {
      fed := fed + b;
    }

    /** Fails, feeding nothing, when the length does not fit four bytes. */
    method UpdatePrefixed(b: Bytes) returns (r: Result<(), ()>)
      modifies this
      ensures r == if |b| < LIMIT then Ok(()) else Err(())
      ensures fed == old(fed) + if r.Ok? then Prefixed(b) else []
    {
      if |b| >= LIMIT {
        return Err(());
      }
      Regroup(fed, BE(4, |b|), b);
      Update(BE(4, |b|));
      Update(b);
      return Ok(());
    }

    method UpdateLeaf(l: Leaf) returns (r: Result<(), ()>)
      modifies this
      ensures r == if LeafBounded(l) then Ok(()) else Err(())
      ensures r.Ok? ==> fed == old(fed) + LeafPart(l)
    {
      hide BE, Prefixed;
      ghost var start := fed;
      Update(BE(4, l.index));
      var _ :- UpdatePrefixed(l.identity);
      var _ :- UpdatePrefixed(l.signatureKey);
      assert start + [] == start && [] + LeafPart(l) == LeafPart(l);
      FeedLeaf(start, [], l);
      return Ok(());
    }
  }

  /** The checked digest: the hash of the roster transcript, or a failure when some length does not fit. */
  method RosterDigest(sha: Hash, groupId: Bytes, epoch: u64, leaves: seq<Leaf>) returns (r: Result<Bytes, ()>)
    ensures r == DigestOf(sha, groupId, epoch, leaves)
  {
    hide BE, Prefixed, LeafPart, LeafBounded;
    var h := new Hasher();
    h.Update(ROSTER_DOMAIN);
    assert h.fed == ROSTER_DOMAIN;
    var _ :- h.UpdatePrefixed(groupId);
    h.Update(BE(8, epoch));
    if |leaves| >= LIMIT {
      return Err(());
    }
    h.Update(BE(4, |leaves|));
    ghost var start := h.fed;
    for i := 0 to |leaves|
      invariant h.fed == start + LeafParts(leaves[..i])
      invariant forall l :: l in leaves[..i] ==> LeafBounded(l)
    {
      var l := leaves[i];
      assert l in leaves && leaves[..i + 1] == leaves[..i] + [l] && leaves[..i + 1][..i] == leaves[..i];
      ghost var before := LeafParts(leaves[..i]);
      var _ :- h.UpdateLeaf(l);
      Regroup(start, before, LeafPart(l));
    }
    assert leaves[..|leaves|] == leaves;
    return Ok(sha(h.fed));
  }

  function DigestOf(sha: Hash, groupId: Bytes, epoch: u64, leaves: seq<Leaf>): Result<Bytes, ()> {
    if RosterBounded(groupId, leaves) then Ok(sha(RosterTranscript(groupId, epoch, leaves))) else Err(())
  }

  lemma FeedLeaf(start: Bytes, before: Bytes, l: Leaf)
    ensures start + before + BE(4, l.index) + Prefixed(l.identity) + Prefixed(l.signatureKey) == start + (before + LeafPart(l))
  {
    hide BE, Prefixed;
    var (a, b, c) := (BE(4, l.index), Prefixed(l.identity), Prefixed(l.signatureKey));
    Regroup(start, before, LeafPart(l));
    Regroup(start + before, a + b, c);
    Regroup(start + before, a, b);
  }

  /** The public validator's own digest, which casts lengths to four bytes unchecked. */
  method PublicRosterDigest(sha: Hash, groupId: Bytes, epoch: u64, leaves: seq<Leaf>) returns (digest: Bytes)
    ensures digest == sha(RosterTranscript(groupId, epoch, leaves))
  {
    var fed := ROSTER_DOMAIN;
    fed := fed + (BE(4, |groupId|) + groupId);
    fed := fed + BE(8, epoch);
    fed := fed + BE(4, |leaves|);
    ghost var start := fed;
    for i := 0 to |leaves|
      invariant fed == start + LeafParts(leaves[..i])
    {
      var l := leaves[i];
      assert leaves[..i + 1][..i] == leaves[..i];
      fed := fed + BE(4, l.index);
      fed := fed + (BE(4, |l.identity|) + l.identity);
      fed := fed + (BE(4, |l.signatureKey|) + l.signatureKey);
      FeedLeaf(start, LeafParts(leaves[..i]), l);
    }
    assert leaves[..|leaves|] == leaves;
    digest := sha(fed);
  }
}
