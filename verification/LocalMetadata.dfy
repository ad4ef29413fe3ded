/** The metadata codec as written: a decoder moved item by item, loops over leaves and rosters, a buffer appended to. */
module LocalMetadata {
  import opened Foundation
  import opened Errors
  import opened MlsTypes
  import opened Cbor
  import opened LocalGroup
  import opened LocalCodec

  // ---------------------------------------------------------------- decoder

  class Decoder {
    var rest: Bytes

    constructor (bytes: Bytes)
      ensures rest == bytes
    {
      rest := bytes;
    }

    method Count(maximum: nat) returns (r: Result<nat, MlsError>)
      modifies this
      ensures Follows(GetCount(old(rest), maximum), r, rest)
    {
      hide ReadLength;
      var length := ReadLength(ARRAY, rest);
      if length.None? {
        return Err(InvalidStorageSnapshot);
      }
      if length.value.0.None? {
        return Err(NoncanonicalEncoding);
      }
      if length.value.0.value > maximum {
        return Err(LimitExceeded);
      }
      rest := length.value.1;
      return Ok(length.value.0.value);
    }

    method Array(n: nat) returns (r: Result<(), MlsError>)
      modifies this
      ensures Skips(GetArray(old(rest), n), r, rest)
    {
      hide GetCount;
      var count :- Count(n);
      return if count == n then Ok(()) else Err(InvalidStorageSnapshot);
    }

    method Bytes(minimum: nat, maximum: nat) returns (r: Result<Bytes, MlsError>)
      modifies this
      ensures Follows(GetBytes(old(rest), minimum, maximum), r, rest)
    {
      hide ReadBlob;
      var v := ReadBlob(rest);
      if v.None? {
        return Err(InvalidStorageSnapshot);
      }
      if |v.value.0| < minimum || |v.value.0| > maximum {
        return Err(LimitExceeded);
      }
      rest := v.value.1;
      return Ok(v.value.0);
    }

    method Number(limit: nat) returns (r: Result<nat, MlsError>)
      modifies this
      ensures Follows(GetNumber(old(rest), limit), r, rest)
      ensures r.Ok? ==> r.value < limit
    {
      hide ReadUint;
      var n := ReadUint(rest, limit);
      if n.None? {
        return Err(InvalidStorageSnapshot);
      }
      rest := n.value.1;
      return Ok(n.value.0);
    }

    /** Whether a null comes next; if so it is consumed. */
    method Null() returns (r: Result<bool, MlsError>)
      modifies this
      ensures match Peek(old(rest))
              case None => r == Err(InvalidStorageSnapshot)
              case Some(NullKind) => r == Ok(true) && old(rest) != [] && rest == old(rest)[1..]
              case Some(_) => r == Ok(false) && rest == old(rest)
    {
      var kind := Peek(rest);
      if kind.None? {
        return Err(InvalidStorageSnapshot);
      }
      if kind.value == NullKind {
        rest := rest[1..];
        return Ok(true);
      }
      return Ok(false);
    }
  }

  method LeafDecode(d: Decoder) returns (r: Result<Leaf, MlsError>)
    modifies d
    ensures Follows(GetLeaf(old(d.rest)), r, d.rest)
  {
    hide GetArray, GetNumber, GetBytes;
    var _ :- d.Array(3);
    var index :- d.Number(U32);
    var identity :- d.Bytes(45, 45);
    var signatureKey :- d.Bytes(32, 32);
    return Ok(Leaf(index, identity, signatureKey));
  }

  method ExpectedDecode(d: Decoder) returns (r: Result<ExpectedState, MlsError>)
    modifies d
    ensures Follows(GetState(old(d.rest)), r, d.rest)
  {
    hide GetArray, GetNumber, GetBytes;
    var _ :- d.Array(3);
    var groupId :- d.Bytes(16, 16);
    var epoch :- d.Number(U64);
    var digest :- d.Bytes(32, 32);
    return Ok(ExpectedState(groupId, epoch, digest));
  }

  method LeavesDecode(d: Decoder, n: nat) returns (r: Result<seq<Leaf>, MlsError>)
    modifies d
    ensures Follows(GetLeaves(n, old(d.rest)), r, d.rest)
  {
    hide GetLeaf;
    var leaves: seq<Leaf> := [];
    ghost var whole := GetLeaves(n, d.rest);
    AfterNothing(whole);
    for i := 0 to n
      invariant whole == After(leaves, GetLeaves(n - i, d.rest))
    {
      var leaf :- LeafDecode(d);
      AfterOneMore(leaves, leaf, GetLeaves(n - i - 1, d.rest));
      leaves := leaves + [leaf];
    }
    assert leaves + [] == leaves;
    return Ok(leaves);
  }

  method RosterDecode(d: Decoder) returns (r: Result<Roster, MlsError>)
    modifies d
    ensures Follows(GetRoster(old(d.rest)), r, d.rest)
  {
    hide GetArray, GetNumber, GetBytes, GetCount, GetLeaves;
    var _ :- d.Array(4);
    var groupId :- d.Bytes(16, 16);
    var epoch :- d.Number(U64);
    var n :- d.Count(MAX_ROSTER_LEAVES);
    if n == 0 {
      return Err(LimitExceeded);
    }
    var leaves :- LeavesDecode(d, n);
    var digest :- d.Bytes(32, 32);
    return Ok(Roster(groupId, epoch, leaves, digest));
  }

  method HistoryDecode(d: Decoder, count: nat) returns (r: Result<seq<Roster>, MlsError>)
    modifies d
    ensures Follows(GetRosters(count, old(d.rest)), r, d.rest)
  {
    hide GetRoster;
    var history: seq<Roster> := [];
    ghost var whole := GetRosters(count, d.rest);
    AfterNothing(whole);
    for i := 0 to count
      invariant whole == After(history, GetRosters(count - i, d.rest))
    {
      var roster :- RosterDecode(d);
      AfterOneMore(history, roster, GetRosters(count - i - 1, d.rest));
      history := history + [roster];
    }
    assert history + [] == history;
    return Ok(history);
  }

  method OptionalHashDecode(d: Decoder) returns (r: Result<Option<Bytes>, MlsError>)
    modifies d
    ensures Follows(GetOptionalHash(old(d.rest)), r, d.rest)
  {
    hide GetBytes, Peek;
    var isNull :- d.Null();
    if isNull {
      return Ok(None);
    }
    var hash :- d.Bytes(32, 32);
    return Ok(Some(hash));
  }

  method PendingDecode(d: Decoder) returns (r: Result<PendingRecord, MlsError>)
    modifies d
    ensures Follows(GetRecord(old(d.rest)), r, d.rest)
  {
    hide GetArray, GetBytes, GetLeaf, GetState, GetOptionalHash, GetRoster;
    var _ :- d.Array(13);
    var groupId :- d.Bytes(16, 16);
    var incarnationId :- d.Bytes(1, 128);
    var commandId :- d.Bytes(1, 128);
    var context :- d.Bytes(32, 32);
    var author :- LeafDecode(d);
    var previous :- ExpectedDecode(d);
    var commit :- d.Bytes(32, 32);
    var aad :- d.Bytes(32, 32);
    var welcome :- OptionalHashDecode(d);
    var info :- OptionalHashDecode(d);
    var proposed :- RosterDecode(d);
    var base :- d.Bytes(32, 32);
    var upstream :- d.Bytes(32, 32);
    var binding := PendingBinding(groupId, incarnationId, Transition(commandId, context), author, previous, commit, aad, welcome, info);
    return Ok(PendingRecord(binding, proposed, base, upstream));
  }

  method GroupDecode(d: Decoder) returns (r: Result<GroupState, MlsError>)
    modifies d
    ensures Follows(GetGroup(old(d.rest)), r, d.rest)
  {
    hide GetArray, GetBytes, GetNumber, GetCount, GetRoster, GetRosters, GetRecord, Peek;
    var _ :- d.Array(9);
    var schema :- d.Number(U16);
    if schema != SCHEMA {
      return Err(UnsupportedLocalMetadataVersion);
    }
    var profile :- d.Number(U16);
    if profile != PROFILE {
      return Err(UnsupportedProfile);
    }
    var groupId :- d.Bytes(16, 16);
    var incarnationId :- d.Bytes(1, 128);
    var retention :- d.Number(U32);
    if !RetentionSupported(retention) {
      return Err(UnsupportedRetention);
    }
    var joinEpoch :- d.Number(U64);
    var current :- RosterDecode(d);
    var count :- d.Count(retention);
    var history :- HistoryDecode(d, count);
    var isNull :- d.Null();
    var pending := None;
    if !isNull {
      var p :- PendingDecode(d);
      pending := Some(p);
    }
    return Ok(GroupState(groupId, incarnationId, retention, joinEpoch, current, history, pending));
  }

  // ---------------------------------------------------------------- encoder

  class Encoder {
    var out: Bytes

    constructor ()
      ensures out == []
    {
      out := [];
    }

    method Put(bytes: Bytes)
      modifies this
      ensures out == old(out) + bytes
    {
      out := out + bytes;
    }

    /** Puts one scalar item in front of those still to come. */
    method Item(t: Tree, ghost more: seq<Tree>)
      modifies this
      ensures out + EncItems(more) == old(out) + EncItems([t] + more)
    {
      hide Enc;
      assert ([t] + more)[1..] == more;
      Regroup(out, Enc(t), EncItems(more));
      Put(Enc(t));
    }

    /** Opens an array whose items come next. */
    method Open(ghost ts: seq<Tree>, n: nat)
      requires n == |ts|
      modifies this
      ensures out + EncItems(ts) == old(out) + Enc(List(ts))
    {
      hide EncItems, Head;
      Regroup(out, Head(ARRAY, n), EncItems(ts));
      Put(Head(ARRAY, n));
    }
  }

  lemma NoMore(out: Bytes)
    ensures out + EncItems([]) == out
  {
  }

  lemma ItemIsPut(before: Bytes, t: Tree, more: seq<Tree>)
    ensures before + Enc(t) + EncItems(more) == before + EncItems([t] + more)
  {
    hide Enc;
    assert ([t] + more)[1..] == more;
    Regroup(before, Enc(t), EncItems(more));
  }

  method LeafEncode(e: Encoder, l: Leaf)
    modifies e
    ensures e.out == old(e.out) + Enc(LeafTree(l))
  {
    hide Enc, EncItems;
    ghost var t2 := [Text(l.signatureKey)];
    ghost var t1 := [Text(l.identity)] + t2;
    e.Open([Number(l.index)] + t1, 3);
    e.Item(Number(l.index), t1);
    e.Item(Text(l.identity), t2);
    assert t2 == t2 + [];
    e.Item(Text(l.signatureKey), []);
    NoMore(e.out);
  }

  method ExpectedEncode(e: Encoder, s: ExpectedState)
    modifies e
    ensures e.out == old(e.out) + Enc(StateTree(s))
  {
    hide Enc, EncItems;
    ghost var t2 := [Text(s.digest)];
    ghost var t1 := [Number(s.epoch)] + t2;
    e.Open([Text(s.groupId)] + t1, 3);
    e.Item(Text(s.groupId), t1);
    e.Item(Number(s.epoch), t2);
    assert t2 == t2 + [];
    e.Item(Text(s.digest), []);
    NoMore(e.out);
  }

  method LeavesEncode(e: Encoder, leaves: seq<Leaf>)
    modifies e
    ensures e.out == old(e.out) + Enc(List(LeafTrees(leaves)))
  {
    hide Enc, EncItems, LeafTree;
    ghost var start := e.out;
    e.Open(LeafTrees(leaves), |leaves|);
    for i := 0 to |leaves|
      invariant e.out + EncItems(LeafTrees(leaves[i..])) == start + Enc(List(LeafTrees(leaves)))
    {
      ghost var more := LeafTrees(leaves[i + 1..]);
      assert leaves[i..][1..] == leaves[i + 1..];
      ItemIsPut(e.out, LeafTree(leaves[i]), more);
      LeafEncode(e, leaves[i]);
    }
    assert leaves[|leaves|..] == [];
    NoMore(e.out);
  }

  method RosterEncode(e: Encoder, r: Roster)
    modifies e
    ensures e.out == old(e.out) + Enc(RosterTree(r))
  {
    hide Enc, EncItems, LeafTrees;
    ghost var t3 := [Text(r.digest)];
    ghost var t2 := [List(LeafTrees(r.leaves))] + t3;
    ghost var t1 := [Number(r.epoch)] + t2;
    e.Open([Text(r.groupId)] + t1, 4);
    e.Item(Text(r.groupId), t1);
    e.Item(Number(r.epoch), t2);
    ItemIsPut(e.out, List(LeafTrees(r.leaves)), t3);
    LeavesEncode(e, r.leaves);
    assert t3 == t3 + [];
    e.Item(Text(r.digest), []);
    NoMore(e.out);
  }

  method HistoryEncode(e: Encoder, history: seq<Roster>)
    modifies e
    ensures e.out == old(e.out) + Enc(List(RosterTrees(history)))
  {
    hide Enc, EncItems, RosterTree;
    ghost var start := e.out;
    e.Open(RosterTrees(history), |history|);
    for i := 0 to |history|
      invariant e.out + EncItems(RosterTrees(history[i..])) == start + Enc(List(RosterTrees(history)))
    {
      ghost var more := RosterTrees(history[i + 1..]);
      assert history[i..][1..] == history[i + 1..];
      ItemIsPut(e.out, RosterTree(history[i]), more);
      RosterEncode(e, history[i]);
    }
    assert history[|history|..] == [];
    NoMore(e.out);
  }

  method PendingEncode(e: Encoder, p: PendingRecord)
    modifies e
    ensures e.out == old(e.out) + Enc(List(RecordItems(p)))
  {
    hide Enc, EncItems, LeafTree, StateTree, RosterTree, OptionalTree;
    ghost var start := e.out;
    var b := p.binding;
    ghost var t12 := [Text(p.upstreamPendingSha256)];
    ghost var t11 := [Text(p.preparationBaseSha256)] + t12;
    ghost var t10 := [RosterTree(p.proposed)] + t11;
    ghost var t9 := [OptionalTree(b.groupInfoSha256)] + t10;
    ghost var t8 := [OptionalTree(b.welcomeSha256)] + t9;
    ghost var t7 := [Text(b.aadSha256)] + t8;
    ghost var t6 := [Text(b.commitSha256)] + t7;
    ghost var t5 := [StateTree(b.previousState)] + t6;
    ghost var t4 := [LeafTree(b.author)] + t5;
    ghost var t3 := [Text(b.transition.contextSha256)] + t4;
    ghost var t2 := [Text(b.transition.commandId)] + t3;
    ghost var t1 := [Text(b.incarnationId)] + t2;
    e.Open([Text(b.groupId)] + t1, 13);
    e.Item(Text(b.groupId), t1);
    e.Item(Text(b.incarnationId), t2);
    e.Item(Text(b.transition.commandId), t3);
    e.Item(Text(b.transition.contextSha256), t4);
    ItemIsPut(e.out, LeafTree(b.author), t5);
    LeafEncode(e, b.author);
    ItemIsPut(e.out, StateTree(b.previousState), t6);
    ExpectedEncode(e, b.previousState);
    e.Item(Text(b.commitSha256), t7);
    e.Item(Text(b.aadSha256), t8);
    e.Item(OptionalTree(b.welcomeSha256), t9);
    e.Item(OptionalTree(b.groupInfoSha256), t10);
    ItemIsPut(e.out, RosterTree(p.proposed), t11);
    RosterEncode(e, p.proposed);
    e.Item(Text(p.preparationBaseSha256), t12);
    assert t12 == t12 + [];
    e.Item(Text(p.upstreamPendingSha256), []);
    NoMore(e.out);
  }

  method EncodeState(sha: Hash, s: GroupState) returns (r: Result<Bytes, MlsError>)
    ensures r == Encode(sha, s)
  {
    hide Validate, Enc, EncItems, RosterTree, RosterTrees, RecordItems;
    var _ :- CheckGroup(sha, s);
    var e := new Encoder();
    ghost var t8 := [RecordTree(s.pending)];
    ghost var t7 := [List(RosterTrees(s.history))] + t8;
    ghost var t6 := [RosterTree(s.current)] + t7;
    ghost var t5 := [Number(s.joinEpoch)] + t6;
    ghost var t4 := [Number(s.retention)] + t5;
    ghost var t3 := [Text(s.incarnationId)] + t4;
    ghost var t2 := [Text(s.groupId)] + t3;
    ghost var t1 := [Number(PROFILE)] + t2;
    assert [] + Enc(List(GroupItems(s))) == Enc(List(GroupItems(s)));
    e.Open([Number(SCHEMA)] + t1, 9);
    e.Item(Number(SCHEMA), t1);
    e.Item(Number(PROFILE), t2);
    e.Item(Text(s.groupId), t3);
    e.Item(Text(s.incarnationId), t4);
    e.Item(Number(s.retention), t5);
    e.Item(Number(s.joinEpoch), t6);
    ItemIsPut(e.out, RosterTree(s.current), t7);
    RosterEncode(e, s.current);
    ItemIsPut(e.out, List(RosterTrees(s.history)), t8);
    HistoryEncode(e, s.history);
    assert t8 == t8 + [];
    ItemIsPut(e.out, RecordTree(s.pending), []);
    if s.pending.Some? {
      PendingEncode(e, s.pending.value);
    } else {
      e.Put(Enc(Null));
    }
    NoMore(e.out);
    if |e.out| > MAX_VALUE {
      return Err(LimitExceeded);
    }
    return Ok(e.out);
  }

  method DecodeState(sha: Hash, input: Bytes) returns (r: Result<GroupState, MlsError>)
    ensures r == Decode(sha, input)
  {
    hide GetGroup, Validate, Encode;
    if |input| > MAX_VALUE {
      return Err(LimitExceeded);
    }
    var d := new Decoder(input);
    var state :- GroupDecode(d);
    if d.rest != [] {
      return Err(NoncanonicalEncoding);
    }
    var _ :- CheckGroup(sha, state);
    var again :- EncodeState(sha, state);
    if again != input {
      return Err(NoncanonicalEncoding);
    }
    return Ok(state);
  }
}
