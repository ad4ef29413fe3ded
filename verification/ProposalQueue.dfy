/** The proposal queue: one row per proposal and, per group, a list of the references queued. */
module ProposalQueue {
  import opened Foundation

  type Ref = Bytes
  type Group = Bytes
  type Proposal = Bytes

  /** What the two kinds of rows the queue uses mean: a proposal per group and reference, and a list per group. */
  datatype Queue = Queue(rows: map<(Group, Ref), Proposal>, lists: map<Group, seq<Ref>>)

  const Empty := Queue(map[], map[])

  /** The listed references; a missing list reads as an empty one. */
  function Listed(q: Queue, g: Group): seq<Ref> {
    if g in q.lists then q.lists[g] else []
  }

  function Queued(q: Queue, g: Group, r: Ref, p: Proposal): Queue {
    Queue(q.rows[(g, r) := p], q.lists[g := Listed(q, g) + [r]])
  }

  function RemoveFirst(refs: seq<Ref>, r: Ref): seq<Ref> {
    if refs == [] then [] else if refs[0] == r then refs[1..] else [refs[0]] + RemoveFirst(refs[1..], r)
  }

  function Removed(q: Queue, g: Group, r: Ref): Queue {
    Queue(q.rows - {(g, r)}, if g in q.lists then q.lists[g := RemoveFirst(q.lists[g], r)] else q.lists)
  }

  function Cleared(q: Queue, g: Group): Queue {
    Queue(map k | k in q.rows && !(k.0 == g && k.1 in Listed(q, g)) :: q.rows[k], q.lists - {g})
  }

  /** The listed references that have a row, each with its row, in list order. */
  function Visible(rows: map<(Group, Ref), Proposal>, g: Group, refs: seq<Ref>): seq<(Ref, Proposal)> {
    if refs == [] then [] else
      (if (g, refs[0]) in rows then [(refs[0], rows[(g, refs[0])])] else []) + Visible(rows, g, refs[1..])
  }

  function Proposals(q: Queue, g: Group): seq<(Ref, Proposal)> {
    Visible(q.rows, g, Listed(q, g))
  }

  method WithoutFirst(list: seq<Ref>, r: Ref) returns (out: seq<Ref>)
    ensures out == RemoveFirst(list, r)
  {
    var at := 0;
    while at < |list| && list[at] != r
      invariant 0 <= at <= |list|
      invariant RemoveFirst(list, r) == list[..at] + RemoveFirst(list[at..], r)
    {
      var rest := list[at..];
      assert rest[1..] == list[at + 1..] && list[..at + 1] == list[..at] + [list[at]];
      Rejoin(list[..at], [list[at]], RemoveFirst(list[at + 1..], r));
      at := at + 1;
    }
    if at < |list| {
      assert list[at..][1..] == list[at + 1..];
      return list[..at] + list[at + 1..];
    }
    assert list[..at] == list;
    return list;
  }

  lemma Rejoin(a: seq<Ref>, b: seq<Ref>, c: seq<Ref>)
    ensures (a + b) + c == a + (b + c)
  {
  }

  // ---------------------------------------------------------------- every run from an empty queue

  datatype Op = QueueOp(g: Group, r: Ref, p: Proposal) | RemoveOp(g: Group, r: Ref) | ClearOp(g: Group)

  function Step(q: Queue, op: Op): Queue {
    match op
    case QueueOp(g, r, p) => Queued(q, g, r, p)
    case RemoveOp(g, r) => Removed(q, g, r)
    case ClearOp(g) => Cleared(q, g)
  }

  function Ran(ops: seq<Op>): Queue {
    if ops == [] then Empty else Step(Ran(ops[..|ops| - 1]), ops[|ops| - 1])
  }

  /** No proposal row is out of reach of its group's list. */
  predicate Tracked(q: Queue) {
    forall k :: k in q.rows ==> k.1 in Listed(q, k.0)
  }

  lemma {:induction false} RemoveFirstKeepsOthers(refs: seq<Ref>, r: Ref, other: Ref)
    requires other in refs && other != r
    ensures other in RemoveFirst(refs, r)
  {
    if refs[0] != r && other != refs[0] {
      RemoveFirstKeepsOthers(refs[1..], r, other);
    }
  }

  lemma {:induction false} RunsStayTracked(ops: seq<Op>)
    ensures Tracked(Ran(ops))
  {
    hide RemoveFirst;
    if ops != [] {
      var n := |ops| - 1;
      var (before, after) := (Ran(ops[..n]), Ran(ops));
      RunsStayTracked(ops[..n]);
      forall k | k in after.rows ensures k.1 in Listed(after, k.0) {
        if ops[n].RemoveOp? && k.0 == ops[n].g {
          RemoveFirstKeepsOthers(before.lists[k.0], ops[n].r, k.1);
        }
        assert k in before.rows || (ops[n].QueueOp? && k == (ops[n].g, ops[n].r));
      }
    }
  }

  /** Clearing, after any run, leaves no row and no list of the group, and everything of every other group. */
  lemma ClearLeavesNothingOfTheGroup(ops: seq<Op>, g: Group)
    ensures var (before, after) := (Ran(ops), Ran(ops + [ClearOp(g)]));
            && (forall k :: k in after.rows <==> k in before.rows && k.0 != g)
            && (forall k :: k in after.rows ==> after.rows[k] == before.rows[k])
            && after.lists == before.lists - {g}
  {
    RunsStayTracked(ops);
    assert (ops + [ClearOp(g)])[..|ops|] == ops;
  }

  // ---------------------------------------------------------------- one step on the visible queue

  function DropRef(s: seq<(Ref, Proposal)>, r: Ref): seq<(Ref, Proposal)> {
    if s == [] then [] else (if s[0].0 == r then [] else [s[0]]) + DropRef(s[1..], r)
  }

  lemma {:induction false} VisibleAppends(rows: map<(Group, Ref), Proposal>, g: Group, a: seq<Ref>, b: seq<Ref>)
    ensures Visible(rows, g, a + b) == Visible(rows, g, a) + Visible(rows, g, b)
  {
    if a == [] {
      assert a + b == b;
    } else {
      VisibleAppends(rows, g, a[1..], b);
      assert (a + b)[1..] == a[1..] + b;
    }
  }

  lemma {:induction false} VisibleIgnores(rows: map<(Group, Ref), Proposal>, other: map<(Group, Ref), Proposal>, g: Group, refs: seq<Ref>)
    requires forall r :: r in refs ==> ((g, r) in rows <==> (g, r) in other) && ((g, r) in rows ==> rows[(g, r)] == other[(g, r)])
    ensures Visible(rows, g, refs) == Visible(other, g, refs)
  {
    if refs != [] {
      assert refs[0] in refs && forall r :: r in refs[1..] ==> r in refs;
      VisibleIgnores(rows, other, g, refs[1..]);
    }
  }

  /** Writing a row for `r` leaves the visible part of a list alone only if `r` is not listed or had that very row. */
  lemma {:induction false} RewritingShows(rows: map<(Group, Ref), Proposal>, g: Group, refs: seq<Ref>, r: Ref, p: Proposal)
    requires r in refs && !((g, r) in rows && rows[(g, r)] == p)
    ensures Visible(rows[(g, r) := p], g, refs) != Visible(rows, g, refs)
    ensures |Visible(rows[(g, r) := p], g, refs)| >= |Visible(rows, g, refs)|
    ensures (g, r) !in rows ==> |Visible(rows[(g, r) := p], g, refs)| > |Visible(rows, g, refs)|
  {
    var changed := rows[(g, r) := p];
    var (rest, after) := (Visible(rows, g, refs[1..]), Visible(changed, g, refs[1..]));
    var (v, w) := (Visible(rows, g, refs), Visible(changed, g, refs));
    if r in refs[1..] {
      RewritingShows(rows, g, refs[1..], r, p);
    } else {
      VisibleIgnores(rows, changed, g, refs[1..]);
    }
    if (g, refs[0]) in rows {
      assert v[0] == (refs[0], rows[(g, refs[0])]) && v[1..] == rest;
      assert w[0] == (refs[0], changed[(g, refs[0])]) && w[1..] == after;
    } else {
      assert v == rest;
      assert |w| == |after| + if refs[0] == r then 1 else 0;
      assert refs[0] != r ==> w == after;
    }
  }

  /**
   * Queueing shows the new proposal after those visible before exactly when its reference is not listed already, or
   * is listed with this very proposal as its row.
   */
  lemma QueueingAppendsExactly(q: Queue, g: Group, r: Ref, p: Proposal)
    ensures Proposals(Queued(q, g, r, p), g) == Proposals(q, g) + [(r, p)] <==>
              r !in Listed(q, g) || ((g, r) in q.rows && q.rows[(g, r)] == p)
  {
    var refs := Listed(q, g);
    var rows := q.rows[(g, r) := p];
    VisibleAppends(rows, g, refs, [r]);
    assert Visible(rows, g, [r]) == [(r, p)] + Visible(rows, g, []);
    var (before, after) := (Visible(q.rows, g, refs), Visible(rows, g, refs));
    assert Proposals(Queued(q, g, r, p), g) == after + [(r, p)];
    if r !in refs || ((g, r) in q.rows && q.rows[(g, r)] == p) {
      VisibleIgnores(q.rows, rows, g, refs);
    } else {
      RewritingShows(q.rows, g, refs, r, p);
      SameEnd(before, after, (r, p));
    }
  }

  lemma SameEnd(a: seq<(Ref, Proposal)>, b: seq<(Ref, Proposal)>, x: (Ref, Proposal))
    ensures a + [x] == b + [x] ==> a == b
  {
    assert a == (a + [x])[..|a + [x]| - 1] && b == (b + [x])[..|b + [x]| - 1];
  }

  /** A concrete failure: the same reference queued twice shows the later proposal in both places. */
  lemma QueueingTwiceReplaces(g: Group, r: Ref, p: Proposal, later: Proposal)
    requires p != later
    ensures Proposals(Ran([QueueOp(g, r, p), QueueOp(g, r, later)]), g) == [(r, later), (r, later)]
  {
    var (a, b) := (QueueOp(g, r, p), QueueOp(g, r, later));
    assert [a, b][..1] == [a] && [a][..0] == [];
    var rows: map<(Group, Ref), Proposal> := map[(g, r) := later];
    assert Ran([]) == Empty && Listed(Empty, g) + [r] == [r];
    assert Ran([a]).rows == map[(g, r) := p];
    assert Ran([a]) == Queue(map[(g, r) := p], map[g := [r]]);
    assert Listed(Ran([a]), g) + [r] == [r, r];
    assert Ran([a, b]).rows == rows;
    assert Ran([a, b]) == Queue(rows, map[g := [r, r]]);
    assert [r, r][1..] == [r] && [r][1..] == [];
    assert Visible(rows, g, [r]) == [(r, later)];
  }

  lemma {:induction false} HidingDrops(rows: map<(Group, Ref), Proposal>, g: Group, refs: seq<Ref>, r: Ref)
    ensures Visible(rows - {(g, r)}, g, refs) == DropRef(Visible(rows, g, refs), r)
  {
    if refs != [] {
      HidingDrops(rows, g, refs[1..], r);
      if (g, refs[0]) in rows {
        assert Visible(rows, g, refs)[1..] == Visible(rows, g, refs[1..]);
      } else {
        assert Visible(rows, g, refs) == Visible(rows, g, refs[1..]);
      }
    }
  }

  lemma {:induction false} UnlistingDrops(rows: map<(Group, Ref), Proposal>, g: Group, refs: seq<Ref>, r: Ref)
    requires (g, r) !in rows
    ensures Visible(rows, g, RemoveFirst(refs, r)) == Visible(rows, g, refs)
  {
    if refs != [] && refs[0] != r {
      UnlistingDrops(rows, g, refs[1..], r);
      var t := [refs[0]] + RemoveFirst(refs[1..], r);
      assert t[1..] == RemoveFirst(refs[1..], r);
    }
  }

  /** Removing takes every visible proposal with the reference and nothing else, whatever was queued before. */
  lemma RemovingDropsExactly(q: Queue, g: Group, r: Ref)
    ensures Proposals(Removed(q, g, r), g) == DropRef(Proposals(q, g), r)
  {
    HidingDrops(q.rows, g, Listed(q, g), r);
    if g in q.lists {
      UnlistingDrops(q.rows - {(g, r)}, g, q.lists[g], r);
    }
  }

  /** Nothing an operation does to one group shows in another. */
  lemma OtherGroupsAreUnaffected(q: Queue, op: Op, g: Group)
    requires op.g != g
    ensures Proposals(Step(q, op), g) == Proposals(q, g) && Listed(Step(q, op), g) == Listed(q, g)
  {
    VisibleIgnores(q.rows, Step(q, op).rows, g, Listed(q, g));
  }

  // ---------------------------------------------------------------- the live queue

  /** What a caller who never looks at storage would say is queued. */
  function Live(ops: seq<Op>, g: Group): seq<(Ref, Proposal)> {
    if ops == [] then [] else
      var before := Live(ops[..|ops| - 1], g);
      var op := ops[|ops| - 1];
      if op.g != g then before
      else match op
        case QueueOp(_, r, p) => before + [(r, p)]
        case RemoveOp(_, r) => DropRef(before, r)
        case ClearOp(_) => []
  }

  predicate HasRef(s: seq<(Ref, Proposal)>, r: Ref) {
    exists i :: 0 <= i < |s| && s[i].0 == r
  }

  /** No reference is queued while it is still live. */
  predicate QueuedOnce(ops: seq<Op>) {
    forall i :: 0 <= i < |ops| && ops[i].QueueOp? ==> !HasRef(Live(ops[..i], ops[i].g), ops[i].r)
  }

  function Refs(s: seq<(Ref, Proposal)>): seq<Ref> {
    seq(|s|, i requires 0 <= i < |s| => s[i].0)
  }

  predicate NoRepeats(refs: seq<Ref>) {
    forall i, j :: 0 <= i < j < |refs| ==> refs[i] != refs[j]
  }

  lemma {:induction false} DropIsPart(s: seq<(Ref, Proposal)>, r: Ref)
    ensures forall x :: x in DropRef(s, r) ==> x in s
  {
    if s != [] {
      DropIsPart(s[1..], r);
    }
  }

  lemma FirstIsAlone(s: seq<(Ref, Proposal)>)
    requires s != [] && NoRepeats(Refs(s))
    ensures NoRepeats(Refs(s[1..])) && forall x :: x in s[1..] ==> x.0 != s[0].0
  {
    assert Refs(s)[1..] == Refs(s[1..]);
    forall x | x in s[1..] ensures x.0 != s[0].0 {
      var i :| 0 <= i < |s[1..]| && s[1..][i] == x;
      assert Refs(s)[0] != Refs(s)[i + 1];
    }
  }

  lemma FirstStaysAlone(x: (Ref, Proposal), rest: seq<(Ref, Proposal)>)
    requires NoRepeats(Refs(rest)) && forall y :: y in rest ==> y.0 != x.0
    ensures Refs([x] + rest) == [x.0] + Refs(rest) && NoRepeats(Refs([x] + rest))
  {
    forall j | 0 <= j < |rest| ensures rest[j].0 != x.0 {
      assert rest[j] in rest;
    }
  }

  lemma {:induction false} DropIsRemoveFirst(s: seq<(Ref, Proposal)>, r: Ref)
    requires NoRepeats(Refs(s))
    ensures Refs(DropRef(s, r)) == RemoveFirst(Refs(s), r) && NoRepeats(Refs(DropRef(s, r)))
  {
    hide NoRepeats;
    if s != [] {
      FirstIsAlone(s);
      assert Refs(s)[1..] == Refs(s[1..]) && Refs(s)[0] == s[0].0;
      DropIsRemoveFirst(s[1..], r);
      if s[0].0 == r {
        DropMissing(s[1..], r);
      } else {
        DropIsPart(s[1..], r);
        FirstStaysAlone(s[0], DropRef(s[1..], r));
      }
    }
  }

  lemma {:induction false} DropMissing(s: seq<(Ref, Proposal)>, r: Ref)
    requires forall x :: x in s ==> x.0 != r
    ensures DropRef(s, r) == s
  {
    if s != [] {
      DropMissing(s[1..], r);
    }
  }

  lemma NothingQueued(g: Group)
    ensures Proposals(Empty, g) == [] && NoRepeats(Refs([]))
  {
  }

  /** When nothing is queued twice at once, the stored queue is the live queue, in order. */
  lemma {:induction false} StoredQueueIsLive(ops: seq<Op>, g: Group)
    requires QueuedOnce(ops)
    ensures Proposals(Ran(ops), g) == Live(ops, g)
    ensures Listed(Ran(ops), g) == Refs(Live(ops, g)) && NoRepeats(Refs(Live(ops, g)))
  {
    hide Visible, DropRef, RemoveFirst, Queued, Removed, Cleared, NoRepeats, HasRef;
    if ops == [] {
      NothingQueued(g);
    } else {
      var n := |ops| - 1;
      var (before, op) := (Ran(ops[..n]), ops[n]);
      forall i | 0 <= i < n && ops[..n][i].QueueOp? ensures !HasRef(Live(ops[..n][..i], ops[i].g), ops[i].r) {
        assert ops[..n][..i] == ops[..i];
      }
      StoredQueueIsLive(ops[..n], g);
      var live := Live(ops[..n], g);
      if op.g != g {
        OtherGroupsAreUnaffected(before, op, g);
      } else {
        LiveStep(before, op, live);
      }
    }
  }

  lemma LiveStep(q: Queue, op: Op, live: seq<(Ref, Proposal)>)
    requires Proposals(q, op.g) == live && Listed(q, op.g) == Refs(live) && NoRepeats(Refs(live))
    requires op.QueueOp? ==> !HasRef(live, op.r)
    ensures var after := match op case QueueOp(_, r, p) => live + [(r, p)] case RemoveOp(_, r) => DropRef(live, r) case ClearOp(_) => [];
            Proposals(Step(q, op), op.g) == after && Listed(Step(q, op), op.g) == Refs(after) && NoRepeats(Refs(after))
  {
    match op
    case QueueOp(g, r, p) =>
      assert r !in Refs(live);
      QueueingAppendsExactly(q, g, r, p);
      assert Refs(live + [(r, p)]) == Refs(live) + [r];
    case RemoveOp(g, r) =>
      RemovingDropsExactly(q, g, r);
      DropIsRemoveFirst(live, r);
    case ClearOp(g) =>
  }
}
