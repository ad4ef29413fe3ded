/** The proposal queue as rows of the snapshot: its keys, its operations as edits, and its life across batches. */
module QueueStorage {
  import opened Foundation
  import opened MlsTypes
  import opened SnapshotStorage
  import opened StorageBatch
  import opened ProposalQueue
  import GroupLife
  import RetryRows

  const ROW_LABEL: Bytes := Ascii("QueuedProposal")
  const REFS_LABEL: Bytes := Ascii("ProposalQueueRefs")

  /** How keys and lists are serialised, and the version every key ends in. */
  datatype Format = Format(
    version: u16, group: Group -> Bytes, pair: (Group, Ref) -> Bytes, list: seq<Ref> -> Bytes, readList: Bytes -> Option<seq<Ref>>)

  /** The one assumption on the serialisation: it loses nothing. */
  ghost predicate Faithful(f: Format) {
    && (forall g, h :: f.group(g) == f.group(h) ==> g == h)
    && (forall g, r, h, s :: f.pair(g, r) == f.pair(h, s) ==> g == h && r == s)
    && forall l :: f.readList(f.list(l)) == Some(l)
  }

  datatype QueueError = Unreadable

  function BuildKey(f: Format, prefix: Bytes, key: Bytes): Bytes {
    prefix + key + BE(2, f.version)
  }

  function RowKey(f: Format, g: Group, r: Ref): Bytes {
    BuildKey(f, ROW_LABEL, f.pair(g, r))
  }

  function RefsKey(f: Format, g: Group): Bytes {
    BuildKey(f, REFS_LABEL, f.group(g))
  }

  // ---------------------------------------------------------------- the operations as edits of the rows

  function StoredList(f: Format, m: Rows, g: Group): Result<Option<seq<Ref>>, QueueError> {
    if RefsKey(f, g) !in m then Ok(None) else
    match f.readList(m[RefsKey(f, g)])
    case Some(l) => Ok(Some(l))
    case None => Err(Unreadable)
  }

  function OrEmpty(l: Option<seq<Ref>>): seq<Ref> {
    if l.Some? then l.value else []
  }

  function DeleteRows(f: Format, g: Group, refs: seq<Ref>): seq<Edit> {
    if refs == [] then [] else DeleteRows(f, g, refs[..|refs| - 1]) + [Delete(RowKey(f, g, refs[|refs| - 1]))]
  }

  function EditsOf(f: Format, m: Rows, op: Op): Result<seq<Edit>, QueueError> {
    var l :- StoredList(f, m, op.g);
    match op
    case QueueOp(g, r, p) => Ok([Write(RowKey(f, g, r), p), Write(RefsKey(f, g), f.list(OrEmpty(l) + [r]))])
    case RemoveOp(g, r) =>
      if l.None? then Ok([Delete(RowKey(f, g, r))])
      else Ok([Delete(RowKey(f, g, r)), Write(RefsKey(f, g), f.list(RemoveFirst(l.value, r)))])
    case ClearOp(g) => Ok(DeleteRows(f, g, OrEmpty(l)) + [Delete(RefsKey(f, g))])
  }

  function VisibleRows(f: Format, m: Rows, g: Group, refs: seq<Ref>): seq<(Ref, Proposal)> {
    if refs == [] then [] else
      (if RowKey(f, g, refs[0]) in m then [(refs[0], m[RowKey(f, g, refs[0])])] else []) + VisibleRows(f, m, g, refs[1..])
  }

  function QueuedRows(f: Format, m: Rows, g: Group): Result<seq<(Ref, Proposal)>, QueueError> {
    var l :- StoredList(f, m, g);
    Ok(VisibleRows(f, m, g, OrEmpty(l)))
  }

  // ---------------------------------------------------------------- the operations as written

  /** Items are popped off the stored list's end and the result is turned round. */
  method ReadList(f: Format, storage: SnapshotStorageProvider, g: Group) returns (r: Result<seq<Ref>, QueueError>)
    ensures match StoredList(f, storage.current, g) case Ok(l) => r == Ok(OrEmpty(l)) case Err(e) => r == Err(e)
  {
    hide RefsKey;
    var bytes := storage.ReadOpaque(RefsKey(f, g));
    if bytes.None? {
      return Ok([]);
    }
    var stored := f.readList(bytes.value);
    if stored.None? {
      return Err(Unreadable);
    }
    var raw := stored.value;
    var popped: seq<Ref> := [];
    while raw != []
      invariant raw <= stored.value && |popped| == |stored.value| - |raw|
      invariant forall i :: 0 <= i < |popped| ==> popped[i] == stored.value[|stored.value| - 1 - i]
      decreases |raw|
    {
      popped := popped + [raw[|raw| - 1]];
      raw := raw[..|raw| - 1];
    }
    var refs: seq<Ref> := [];
    for i := 0 to |popped|
      invariant |refs| == i && forall j :: 0 <= j < i ==> refs[j] == popped[|popped| - 1 - j]
    {
      refs := refs + [popped[|popped| - 1 - i]];
    }
    assert refs == stored.value;
    return Ok(refs);
  }

  /** The row goes first; the list is read after it, written back whole, and may turn out unreadable. */
  method QueueProposal(f: Format, storage: SnapshotStorageProvider, g: Group, ref: Ref, p: Proposal) returns (r: Result<(), QueueError>)
    modifies storage`current
    ensures match EditsOf(f, old(storage.current), QueueOp(g, ref, p))
            case Ok(edits) => r.Ok? && storage.current == Edited(old(storage.current), edits)
            case Err(e) => r == Err(e)
  {
    hide RowKey, RefsKey;
    KeysApart(f, g, ref, g);
    storage.WriteOpaque(RowKey(f, g, ref), p);
    var bytes := storage.ReadOpaque(RefsKey(f, g));
    var list: seq<Ref> := [];
    if bytes.Some? {
      var stored := f.readList(bytes.value);
      if stored.None? {
        return Err(Unreadable);
      }
      list := stored.value;
    }
    list := list + [ref];
    storage.WriteOpaque(RefsKey(f, g), f.list(list));
    EditedPair(old(storage.current), Write(RowKey(f, g, ref), p), Write(RefsKey(f, g), f.list(list)));
    return Ok(());
  }

  method RemoveProposal(f: Format, storage: SnapshotStorageProvider, g: Group, ref: Ref) returns (r: Result<(), QueueError>)
    modifies storage`current
    ensures match EditsOf(f, old(storage.current), RemoveOp(g, ref))
            case Ok(edits) => r.Ok? && storage.current == Edited(old(storage.current), edits)
            case Err(e) => r == Err(e)
  {
    hide RowKey, RefsKey;
    KeysApart(f, g, ref, g);
    storage.DeleteOpaque(RowKey(f, g, ref));
    var bytes := storage.ReadOpaque(RefsKey(f, g));
    if bytes.None? {
      EditedOnce(old(storage.current), Delete(RowKey(f, g, ref)));
      return Ok(());
    }
    var stored := f.readList(bytes.value);
    if stored.None? {
      return Err(Unreadable);
    }
    var list := WithoutFirst(stored.value, ref);
    storage.WriteOpaque(RefsKey(f, g), f.list(list));
    EditedPair(old(storage.current), Delete(RowKey(f, g, ref)), Write(RefsKey(f, g), f.list(list)));
    return Ok(());
  }

  method ClearProposalQueue(f: Format, storage: SnapshotStorageProvider, g: Group) returns (r: Result<(), QueueError>)
    modifies storage`current
    ensures match EditsOf(f, old(storage.current), ClearOp(g))
            case Ok(edits) => r.Ok? && storage.current == Edited(old(storage.current), edits)
            case Err(e) => r == Err(e)
  {
    hide RowKey, RefsKey;
    var refs :- ReadList(f, storage, g);
    for i := 0 to |refs|
      invariant storage.current == Edited(old(storage.current), DeleteRows(f, g, refs[..i]))
    {
      assert refs[..i + 1][..i] == refs[..i];
      EditedTwice(old(storage.current), DeleteRows(f, g, refs[..i]), [Delete(RowKey(f, g, refs[i]))]);
      EditedOnce(storage.current, Delete(RowKey(f, g, refs[i])));
      storage.DeleteOpaque(RowKey(f, g, refs[i]));
    }
    assert refs[..|refs|] == refs;
    EditedTwice(old(storage.current), DeleteRows(f, g, refs), [Delete(RefsKey(f, g))]);
    EditedOnce(storage.current, Delete(RefsKey(f, g)));
    storage.DeleteOpaque(RefsKey(f, g));
    return Ok(());
  }

  method QueuedProposals(f: Format, storage: SnapshotStorageProvider, g: Group) returns (r: Result<seq<(Ref, Proposal)>, QueueError>)
    ensures r == QueuedRows(f, storage.current, g)
  {
    hide RowKey, RefsKey, StoredList, VisibleRows;
    var refs :- ReadList(f, storage, g);
    var result: seq<(Ref, Proposal)> := [];
    assert refs[0..] == refs;
    for i := 0 to |refs|
      invariant VisibleRows(f, storage.current, g, refs) == result + VisibleRows(f, storage.current, g, refs[i..])
    {
      FirstVisible(f, storage.current, g, refs, i);
      var proposal := storage.ReadOpaque(RowKey(f, g, refs[i]));
      if proposal.Some? {
        result := result + [(refs[i], proposal.value)];
      }
    }
    NothingVisible(f, storage.current, g);
    assert refs[|refs|..] == [] && result + [] == result;
    return Ok(result);
  }

  lemma FirstVisible(f: Format, m: Rows, g: Group, refs: seq<Ref>, i: nat)
    requires i < |refs|
    ensures var key := RowKey(f, g, refs[i]);
            VisibleRows(f, m, g, refs[i..]) == (if key in m then [(refs[i], m[key])] else []) + VisibleRows(f, m, g, refs[i + 1..])
  {
    hide RowKey;
    assert refs[i..][1..] == refs[i + 1..];
  }

  lemma NothingVisible(f: Format, m: Rows, g: Group)
    ensures VisibleRows(f, m, g, []) == []
  {
  }

  // ---------------------------------------------------------------- keys

  /** No proposal row is under a list's key: the labels differ in their first byte. */
  lemma KeysApart(f: Format, g: Group, r: Ref, h: Group)
    ensures RowKey(f, g, r) != RefsKey(f, h)
  {
    assert "QueuedProposal"[0] == 'Q' && "ProposalQueueRefs"[0] == 'P';
    assert RowKey(f, g, r)[0] == ROW_LABEL[0] && RefsKey(f, h)[0] == REFS_LABEL[0];
  }

  lemma BuildKeyInjective(f: Format, prefix: Bytes, a: Bytes, b: Bytes)
    ensures BuildKey(f, prefix, a) == BuildKey(f, prefix, b) ==> a == b
  {
    var (x, y) := (BuildKey(f, prefix, a), BuildKey(f, prefix, b));
    assert |BE(2, f.version)| == 2;
    assert a == x[|prefix|..|x| - 2] && b == y[|prefix|..|y| - 2];
  }

  lemma KeysInjective(f: Format, g: Group, r: Ref, h: Group, t: Ref)
    requires Faithful(f)
    ensures RowKey(f, g, r) == RowKey(f, h, t) ==> g == h && r == t
    ensures RefsKey(f, g) == RefsKey(f, h) ==> g == h
    ensures RowKey(f, g, r) != RefsKey(f, h)
  {
    hide BuildKey;
    BuildKeyInjective(f, ROW_LABEL, f.pair(g, r), f.pair(h, t));
    BuildKeyInjective(f, REFS_LABEL, f.group(g), f.group(h));
    KeysApart(f, g, r, h);
  }

  /** Both kinds of keys, in full. */
  lemma KeysInFull(f: Format, g: Group, r: Ref)
    ensures RowKey(f, g, r) == Ascii("QueuedProposal") + f.pair(g, r) + BE(2, f.version)
    ensures RefsKey(f, g) == Ascii("ProposalQueueRefs") + f.group(g) + BE(2, f.version)
  {
    hide Ascii, BE;
  }

  /** The queue's rows belong to the group, and carry none of the package's own keys. */
  predicate QueueKey(k: Bytes) {
    ROW_LABEL <= k || REFS_LABEL <= k
  }

  lemma QueueKeysAreTheGroups(k: Bytes)
    requires QueueKey(k)
    ensures !IsGlobalKey(k) && !(RetryRows.RESERVED <= k)
  {
    assert "QueuedProposal"[0] == 'Q' && "ProposalQueueRefs"[0] == 'P' && "ProposalQueueRefs"[1] == 'r';
    assert "KeyPackage"[0] == 'K' && "Psk"[0] == 'P' && "Psk"[1] == 's' && "EncryptionKeyPair"[0] == 'E' && "SignatureKeyPair"[0] == 'S';
    assert "OpenMlsDart/"[0] == 'O' && RetryRows.RESERVED[0] == Ascii("OpenMlsDart/")[0];
    assert ROW_LABEL <= k ==> k[0] == ROW_LABEL[0];
    assert REFS_LABEL <= k ==> k[0] == REFS_LABEL[0] && k[1] == REFS_LABEL[1];
  }

  // ---------------------------------------------------------------- edits one by one

  function Made(m: Rows, e: Edit): Rows {
    match e
    case Write(key, value) => m[key := value]
    case Delete(key) => m - {key}
  }

  lemma EditedOnce(m: Rows, e: Edit)
    ensures Edited(m, [e]) == Made(m, e)
  {
    assert [e][..0] == [];
  }

  lemma EditedPair(m: Rows, a: Edit, b: Edit)
    ensures Edited(m, [a, b]) == Made(Made(m, a), b)
  {
    assert [a] + [b] == [a, b];
    EditedTwice(m, [a], [b]);
    EditedOnce(m, a);
    EditedOnce(Edited(m, [a]), b);
  }

  // ---------------------------------------------------------------- the rows represent the queue

  predicate RowFits(f: Format, m: Rows, q: Queue, g: Group, r: Ref) {
    if (g, r) in q.rows then RowKey(f, g, r) in m && m[RowKey(f, g, r)] == q.rows[(g, r)] else RowKey(f, g, r) !in m
  }

  predicate ListFits(f: Format, m: Rows, q: Queue, g: Group) {
    if g in q.lists then RefsKey(f, g) in m && m[RefsKey(f, g)] == f.list(q.lists[g]) else RefsKey(f, g) !in m
  }

  ghost predicate Represents(f: Format, m: Rows, q: Queue) {
    (forall g, r :: RowFits(f, m, q, g, r)) && forall g :: ListFits(f, m, q, g)
  }

  lemma ListIsStored(f: Format, m: Rows, q: Queue, g: Group)
    requires Faithful(f) && Represents(f, m, q)
    ensures StoredList(f, m, g) == Ok(if g in q.lists then Some(q.lists[g]) else None)
    ensures OrEmpty(StoredList(f, m, g).value) == Listed(q, g)
  {
    hide RowKey, RefsKey;
    assert ListFits(f, m, q, g);
  }

  lemma RowIsWritten(f: Format, m: Rows, q: Queue, g: Group, r: Ref, p: Proposal)
    requires Faithful(f) && Represents(f, m, q)
    ensures Represents(f, m[RowKey(f, g, r) := p], Queue(q.rows[(g, r) := p], q.lists))
  {
    hide RowKey, RefsKey, Faithful;
    var (after, next) := (m[RowKey(f, g, r) := p], Queue(q.rows[(g, r) := p], q.lists));
    forall h, t ensures RowFits(f, after, next, h, t) {
      assert RowFits(f, m, q, h, t);
      KeysInjective(f, g, r, h, t);
    }
    forall h ensures ListFits(f, after, next, h) {
      assert ListFits(f, m, q, h);
      KeysInjective(f, g, r, h, r);
    }
  }

  lemma RowIsDeleted(f: Format, m: Rows, q: Queue, g: Group, r: Ref)
    requires Faithful(f) && Represents(f, m, q)
    ensures Represents(f, m - {RowKey(f, g, r)}, Queue(q.rows - {(g, r)}, q.lists))
  {
    hide RowKey, RefsKey, Faithful;
    var (after, next) := (m - {RowKey(f, g, r)}, Queue(q.rows - {(g, r)}, q.lists));
    forall h, t ensures RowFits(f, after, next, h, t) {
      assert RowFits(f, m, q, h, t);
      KeysInjective(f, g, r, h, t);
    }
    forall h ensures ListFits(f, after, next, h) {
      assert ListFits(f, m, q, h);
      KeysInjective(f, g, r, h, r);
    }
  }

  lemma ListIsWritten(f: Format, m: Rows, q: Queue, g: Group, l: seq<Ref>)
    requires Faithful(f) && Represents(f, m, q)
    ensures Represents(f, m[RefsKey(f, g) := f.list(l)], Queue(q.rows, q.lists[g := l]))
  {
    hide RowKey, RefsKey, Faithful;
    var (after, next) := (m[RefsKey(f, g) := f.list(l)], Queue(q.rows, q.lists[g := l]));
    forall h, t ensures RowFits(f, after, next, h, t) {
      assert RowFits(f, m, q, h, t);
      KeysInjective(f, h, t, g, t);
    }
    forall h ensures ListFits(f, after, next, h) {
      assert ListFits(f, m, q, h);
      KeysInjective(f, h, [], g, []);
    }
  }

  lemma ListIsDeleted(f: Format, m: Rows, q: Queue, g: Group)
    requires Faithful(f) && Represents(f, m, q)
    ensures Represents(f, m - {RefsKey(f, g)}, Queue(q.rows, q.lists - {g}))
  {
    hide RowKey, RefsKey, Faithful;
    var (after, next) := (m - {RefsKey(f, g)}, Queue(q.rows, q.lists - {g}));
    forall h, t ensures RowFits(f, after, next, h, t) {
      assert RowFits(f, m, q, h, t);
      KeysInjective(f, h, t, g, t);
    }
    forall h ensures ListFits(f, after, next, h) {
      assert ListFits(f, m, q, h);
      KeysInjective(f, h, [], g, []);
    }
  }

  function Dropped(rows: map<(Group, Ref), Proposal>, g: Group, refs: seq<Ref>): map<(Group, Ref), Proposal> {
    map k | k in rows && !(k.0 == g && k.1 in refs) :: rows[k]
  }

  lemma DroppedOneMore(rows: map<(Group, Ref), Proposal>, g: Group, refs: seq<Ref>)
    requires refs != []
    ensures Dropped(rows, g, refs) == Dropped(rows, g, refs[..|refs| - 1]) - {(g, refs[|refs| - 1])}
  {
    var n := |refs| - 1;
    assert forall r :: r in refs <==> r in refs[..n] || r == refs[n];
  }

  lemma {:induction false} RowsAreDeleted(f: Format, m: Rows, q: Queue, g: Group, refs: seq<Ref>)
    requires Faithful(f) && Represents(f, m, q)
    ensures Represents(f, Edited(m, DeleteRows(f, g, refs)), Queue(Dropped(q.rows, g, refs), q.lists))
  {
    hide RowKey, RefsKey, Faithful, Represents;
    if refs == [] {
      assert Dropped(q.rows, g, refs) == q.rows;
    } else {
      hide Dropped, Edited;
      var n := |refs| - 1;
      var before := Edited(m, DeleteRows(f, g, refs[..n]));
      RowsAreDeleted(f, m, q, g, refs[..n]);
      EditedTwice(m, DeleteRows(f, g, refs[..n]), [Delete(RowKey(f, g, refs[n]))]);
      EditedOnce(before, Delete(RowKey(f, g, refs[n])));
      RowIsDeleted(f, before, Queue(Dropped(q.rows, g, refs[..n]), q.lists), g, refs[n]);
      DroppedOneMore(q.rows, g, refs);
    }
  }

  /** Each operation's edits turn rows that represent a queue into rows that represent the queue after the operation. */
  lemma StepRepresented(f: Format, m: Rows, q: Queue, op: Op)
    requires Faithful(f) && Represents(f, m, q)
    ensures EditsOf(f, m, op).Ok? && Represents(f, Edited(m, EditsOf(f, m, op).value), Step(q, op))
  {
    hide RowKey, RefsKey, Edited, RemoveFirst, StoredList, Faithful, Represents, DeleteRows;
    ListIsStored(f, m, q, op.g);
    match op
    case QueueOp(g, r, p) =>
      var l := Listed(q, g) + [r];
      EditedPair(m, Write(RowKey(f, g, r), p), Write(RefsKey(f, g), f.list(l)));
      RowIsWritten(f, m, q, g, r, p);
      ListIsWritten(f, m[RowKey(f, g, r) := p], Queue(q.rows[(g, r) := p], q.lists), g, l);
    case RemoveOp(g, r) =>
      RowIsDeleted(f, m, q, g, r);
      if g in q.lists {
        var l := RemoveFirst(q.lists[g], r);
        EditedPair(m, Delete(RowKey(f, g, r)), Write(RefsKey(f, g), f.list(l)));
        ListIsWritten(f, m - {RowKey(f, g, r)}, Queue(q.rows - {(g, r)}, q.lists), g, l);
      } else {
        EditedOnce(m, Delete(RowKey(f, g, r)));
      }
    case ClearOp(g) =>
      var refs := Listed(q, g);
      EditedTwice(m, DeleteRows(f, g, refs), [Delete(RefsKey(f, g))]);
      EditedOnce(Edited(m, DeleteRows(f, g, refs)), Delete(RefsKey(f, g)));
      RowsAreDeleted(f, m, q, g, refs);
      ListIsDeleted(f, Edited(m, DeleteRows(f, g, refs)),
                    Queue(Dropped(q.rows, g, refs), q.lists), g);
  }

  lemma {:induction false} VisibleRepresented(f: Format, m: Rows, q: Queue, g: Group, refs: seq<Ref>)
    requires Represents(f, m, q)
    ensures VisibleRows(f, m, g, refs) == Visible(q.rows, g, refs)
  {
    hide RowKey, RefsKey;
    if refs != [] {
      VisibleRepresented(f, m, q, g, refs[1..]);
      assert RowFits(f, m, q, g, refs[0]);
    }
  }

  /** Reading the queue from such rows gives the queue's visible proposals. */
  lemma QueuedRepresented(f: Format, m: Rows, q: Queue, g: Group)
    requires Faithful(f) && Represents(f, m, q)
    ensures QueuedRows(f, m, g) == Ok(Proposals(q, g))
  {
    hide StoredList, Faithful, Represents, Visible, VisibleRows;
    ListIsStored(f, m, q, g);
    VisibleRepresented(f, m, q, g, Listed(q, g));
  }

  // ---------------------------------------------------------------- across operations and their batches

  /** What an operation does to the rows: to the queue, or to rows that are none of the queue's. */
  datatype Action = OnQueue(op: Op) | Elsewhere(edit: Edit)

  predicate Apart(actions: seq<Action>) {
    forall i :: 0 <= i < |actions| && actions[i].Elsewhere? ==> !QueueKey(actions[i].edit.key)
  }

  function ActionEdit(f: Format, m: Rows, a: Action): Result<seq<Edit>, QueueError> {
    match a
    case OnQueue(op) => EditsOf(f, m, op)
    case Elsewhere(e) => Ok([e])
  }

  /** The edits of one operation, each action on the rows the ones before it left. */
  function ActionEdits(f: Format, m: Rows, actions: seq<Action>): Result<seq<Edit>, QueueError> {
    if actions == [] then Ok([]) else
    var n := |actions| - 1;
    var before :- ActionEdits(f, m, actions[..n]);
    var last :- ActionEdit(f, Edited(m, before), actions[n]);
    Ok(before + last)
  }

  /** The edits of every operation of a run, each operation starting from the rows the batches before it left. */
  function EditLists(f: Format, m: Rows, operations: seq<seq<Action>>): Result<seq<seq<Edit>>, QueueError> {
    if operations == [] then Ok([]) else
    var n := |operations| - 1;
    var before :- EditLists(f, m, operations[..n]);
    var last :- ActionEdits(f, Edited(m, Flat(before)), operations[n]);
    Ok(before + [last])
  }

  function OpOf(a: Action): seq<Op> {
    if a.OnQueue? then [a.op] else []
  }

  function OpsOf(actions: seq<Action>): seq<Op> {
    if actions == [] then [] else OpsOf(actions[..|actions| - 1]) + OpOf(actions[|actions| - 1])
  }

  /** The queue operations of a run, wherever the run is cut into operations on the storage. */
  function AllOps(operations: seq<seq<Action>>): seq<Op> {
    if operations == [] then [] else AllOps(operations[..|operations| - 1]) + OpsOf(operations[|operations| - 1])
  }

  lemma OwnKeys(f: Format, g: Group, r: Ref)
    ensures QueueKey(RowKey(f, g, r)) && QueueKey(RefsKey(f, g))
  {
    hide Ascii, BE;
  }

  /** The queue's edits are among those the group's own metadata survives. */
  lemma QueueEditsAreOutside(f: Format, m: Rows, op: Op)
    requires EditsOf(f, m, op).Ok?
    ensures GroupLife.Outside(EditsOf(f, m, op).value)
  {
    hide RowKey, RefsKey, QueueKey;
    forall e | e in EditsOf(f, m, op).value ensures !(RetryRows.RESERVED <= e.key) {
      if op.ClearOp? {
        DeletedKeys(f, op.g, OrEmpty(StoredList(f, m, op.g).value));
      }
      OwnKeys(f, op.g, if op.ClearOp? then [] else op.r);
      QueueKeysAreTheGroups(e.key);
    }
  }

  lemma {:induction false} DeletedKeys(f: Format, g: Group, refs: seq<Ref>)
    ensures forall e :: e in DeleteRows(f, g, refs) ==> QueueKey(e.key)
  {
    hide RowKey, QueueKey;
    if refs != [] {
      DeletedKeys(f, g, refs[..|refs| - 1]);
      OwnKeys(f, g, refs[|refs| - 1]);
    }
  }

  lemma ElsewhereKeeps(f: Format, m: Rows, q: Queue, e: Edit)
    requires Represents(f, m, q) && !QueueKey(e.key)
    ensures Represents(f, Edited(m, [e]), q)
  {
    hide RowKey, RefsKey, QueueKey, Edited;
    EditedOnce(m, e);
    forall g, r ensures RowFits(f, Made(m, e), q, g, r) {
      assert RowFits(f, m, q, g, r);
      OwnKeys(f, g, r);
    }
    forall g ensures ListFits(f, Made(m, e), q, g) {
      assert ListFits(f, m, q, g);
      OwnKeys(f, g, []);
    }
  }

  lemma ActionRepresented(f: Format, m: Rows, past: seq<Op>, a: Action)
    requires Faithful(f) && Represents(f, m, Ran(past)) && (a.Elsewhere? ==> !QueueKey(a.edit.key))
    ensures ActionEdit(f, m, a).Ok? && Represents(f, Edited(m, ActionEdit(f, m, a).value), Ran(past + OpOf(a)))
  {
    hide Faithful, Represents, QueueKey, EditsOf, Edited, ProposalQueue.Step;
    match a
    case OnQueue(op) =>
      assert (past + [op])[..|past|] == past;
      StepRepresented(f, m, Ran(past), op);
    case Elsewhere(e) =>
      assert past + [] == past;
      ElsewhereKeeps(f, m, Ran(past), e);
  }

  lemma {:induction false} ActionsRepresented(f: Format, m: Rows, past: seq<Op>, actions: seq<Action>)
    requires Faithful(f) && Represents(f, m, Ran(past)) && Apart(actions)
    ensures ActionEdits(f, m, actions).Ok?
    ensures Represents(f, Edited(m, ActionEdits(f, m, actions).value), Ran(past + OpsOf(actions)))
  {
    hide Faithful, Represents, QueueKey, ActionEdit, Edited, Ran, OpOf;
    if actions == [] {
      NothingEdited(m);
      assert past + [] == past;
    } else {
      var n := |actions| - 1;
      ActionsRepresented(f, m, past, actions[..n]);
      var before := ActionEdits(f, m, actions[..n]).value;
      ActionRepresented(f, Edited(m, before), past + OpsOf(actions[..n]), actions[n]);
      EditedTwice(m, before, ActionEdit(f, Edited(m, before), actions[n]).value);
      assert past + OpsOf(actions[..n]) + OpOf(actions[n]) == past + OpsOf(actions);
    }
  }

  lemma NothingFlat()
    ensures Flat([]) == []
  {
  }

  lemma FlatGrows(before: seq<seq<Edit>>, last: seq<Edit>)
    ensures Flat(before + [last]) == Flat(before) + last
  {
    assert (before + [last])[..|before|] == before;
  }

  lemma {:induction false} OperationsRepresented(f: Format, m: Rows, operations: seq<seq<Action>>)
    requires Faithful(f) && Represents(f, m, Empty) && forall o :: o in operations ==> Apart(o)
    ensures EditLists(f, m, operations).Ok?
    ensures Represents(f, Edited(m, Flat(EditLists(f, m, operations).value)), Ran(AllOps(operations)))
  {
    hide Faithful, Represents, Apart, ActionEdits, Edited, Flat;
    if operations == [] {
      NothingEdited(m);
      NothingFlat();
    } else {
      hide Ran;
      var n := |operations| - 1;
      assert operations[n] in operations && forall o :: o in operations[..n] ==> o in operations;
      OperationsRepresented(f, m, operations[..n]);
      var before := EditLists(f, m, operations[..n]).value;
      ActionsRepresented(f, Edited(m, Flat(before)), AllOps(operations[..n]), operations[n]);
      var last := ActionEdits(f, Edited(m, Flat(before)), operations[n]).value;
      EditedTwice(m, Flat(before), last);
      FlatGrows(before, last);
    }
  }

  /**
   * A run that starts without queue rows may be cut into storage operations anywhere, and do anything to other rows:
   * no operation is refused, and the queue read from the rows the caller kept is the queue all the operations together
   * make. It is the live queue when no reference is queued while it is live.
   */
  lemma QueueSurvivesBatches(f: Format, entries: seq<StorageEntry>, group: Bytes, operations: seq<seq<Action>>, g: Group)
    requires Faithful(f) && ValidateEntries(entries, FORMAT_VERSION, Some(group)).Ok?
    requires Represents(f, Collect(entries), Empty) && forall o :: o in operations ==> Apart(o)
    ensures EditLists(f, Collect(entries), operations).Ok?
    ensures var kept := Folded(entries, group, EditLists(f, Collect(entries), operations).value);
            && kept.Ok?
            && QueuedRows(f, Collect(kept.value), g) == Ok(Proposals(Ran(AllOps(operations)), g))
            && (QueuedOnce(AllOps(operations)) ==> QueuedRows(f, Collect(kept.value), g) == Ok(Live(AllOps(operations), g)))
  {
    hide Faithful, Represents, Apart, EditLists, Edited, Folded, ValidateEntries, Collect, QueuedRows, Proposals, Ran, Live, AllOps, QueuedOnce;
    OperationsRepresented(f, Collect(entries), operations);
    RunLosesNothing(entries, group, EditLists(f, Collect(entries), operations).value);
    var kept := Folded(entries, group, EditLists(f, Collect(entries), operations).value).value;
    QueuedRepresented(f, Collect(kept), Ran(AllOps(operations)), g);
    if QueuedOnce(AllOps(operations)) {
      StoredQueueIsLive(AllOps(operations), g);
    }
  }
}
