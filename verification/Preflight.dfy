/** The structural scan that runs before any request is decoded: a recogniser for one canonical CBOR subset. */
module Preflight {
  import opened Foundation
  import opened Errors
  import opened Cbor

  const MAX_DEPTH := 6
  const MAX_ITEMS := 32768
  const MAX_MAP_ENTRIES := 32
  const MAX_ARRAY := 4096
  const MAX_BLOB := 6 * MIB

  // ---------------------------------------------------------------- the profile

  /** Which trees the profile admits, apart from the depth and size budgets. */
  predicate Shaped(t: Tree)
    decreases t, 1
  {
    match t
    case Number(n) => n < 0x1_0000_0000_0000_0000
    case Text(data) => |data| <= 6291456
    case List(items) => |items| <= 4096 && ShapedItems(items)
    case Dict(entries) => Count(entries) <= 32 && ShapedEntries(entries, None)
    case Simple(_) => true
  }

  predicate ShapedItems(ts: seq<Tree>)
    decreases ts, 0
  {
    ts == [] || (Shaped(ts[0]) && ShapedItems(ts[1..]))
  }

  predicate ShapedEntries(es: Fields, previous: Option<nat>)
    decreases es, 0
  {
    es.End? || (
      && es.key < 0x1_0000_0000_0000_0000
      && (previous.Some? ==> previous.value < es.key)
      && Shaped(es.value)
      && ShapedEntries(es.more, Some(es.key)))
  }

  function Max(a: nat, b: nat): nat {
    if a < b then b else a
  }

  /** How many levels of containers lie above the deepest node. */
  function Height(t: Tree): nat
    decreases t, 1
  {
    match t
    case List(items) => HeightItems(items)
    case Dict(entries) => HeightEntries(entries)
    case _ => 0
  }

  function HeightItems(ts: seq<Tree>): nat
    decreases ts, 0
  {
    if ts == [] then 0 else Max(1 + Height(ts[0]), HeightItems(ts[1..]))
  }

  function HeightEntries(es: Fields): nat
    decreases es, 0
  {
    if es.End? then 0 else Max(1 + Height(es.value), HeightEntries(es.more))
  }

  /** Nodes plus map keys. */
  function Nodes(t: Tree): nat
    decreases t, 1
  {
    match t
    case List(items) => 1 + NodesItems(items)
    case Dict(entries) => 1 + NodesEntries(entries)
    case _ => 1
  }

  function NodesItems(ts: seq<Tree>): nat
    decreases ts, 0
  {
    if ts == [] then 0 else Nodes(ts[0]) + NodesItems(ts[1..])
  }

  function NodesEntries(es: Fields): nat
    decreases es, 0
  {
    if es.End? then 0 else 1 + Nodes(es.value) + NodesEntries(es.more)
  }

  predicate InProfile(t: Tree) {
    Shaped(t) && Height(t) <= 6 && Nodes(t) <= 32768
  }

  /** A run of map entries that follows key `previous` and stays within the given budgets. */
  predicate Fits(es: Fields, previous: Option<nat>, count: nat, height: nat, nodes: nat) {
    ShapedEntries(es, previous) && Count(es) == count && HeightEntries(es) <= height && NodesEntries(es) <= nodes
  }

  lemma NothingFits(previous: Option<nat>, height: nat)
    ensures Fits(End, previous, 0, height, 0)
  {
  }

  lemma FieldFits(key: nat, value: Tree, more: Fields, previous: Option<nat>, count: nat, height: nat, nodes: nat, size: nat)
    requires Shaped(value) && Height(value) < height && Nodes(value) <= size && key < 0x100
    requires (previous.Some? ==> previous.value < key) && Fits(more, Some(key), count, height, nodes)
    ensures Fits(Field(key, value, more), previous, count + 1, height, nodes + 1 + size)
  {
    hide Shaped, Height, Nodes;
  }

  lemma DictFits(es: Fields, count: nat, height: nat, nodes: nat)
    requires Fits(es, None, count, height, nodes) && count <= MAX_MAP_ENTRIES
    ensures Shaped(Dict(es)) && Height(Dict(es)) <= height && Nodes(Dict(es)) <= 1 + nodes
  {
    hide ShapedEntries, HeightEntries, NodesEntries;
  }

  // ---------------------------------------------------------------- the scan as a function of the remaining bytes

  /** What the scan has built, the bytes after it, and the running item count. */
  datatype Scanned<+T> = Scanned(found: T, rest: Bytes, items: nat)

  function Byte(s: Bytes): Result<(byte, Bytes), MlsError> {
    if s == [] then Err(InvalidFrame) else Ok((s[0], s[1..]))
  }

  function Fixed(w: nat, s: Bytes): Result<(nat, Bytes), MlsError> {
    if |s| < w then Err(InvalidFrame) else Ok((FromBE(s[..w]), s[w..]))
  }

  /** The least value that needs this width. */
  function Least(info: nat): nat {
    if info == 24 then 24 else if info == 25 then 0x100 else if info == 26 then 0x1_0000 else 0x1_0000_0000
  }

  /** A minimal argument: a width is refused when a shorter one would have held the value. */
  function MinimalArgument(info: nat, s: Bytes): (r: Result<(nat, Bytes), MlsError>)
    ensures r.Ok? ==> |r.value.1| <= |s|
  {
    if info < 24 then Ok((info, s))
    else if info > 27 then Err(NoncanonicalEncoding) else
    var (n, k) :- Fixed(Width(info), s);
    if n < Least(info) then Err(NoncanonicalEncoding) else Ok((n, k))
  }

  function Value(s: Bytes, depth: nat, items: nat): (r: Result<Scanned<Tree>, MlsError>)
    ensures r.Ok? ==> |r.value.rest| < |s|
    decreases |s|, 0, 0
  {
    if depth > MAX_DEPTH || items + 1 > MAX_ITEMS then Err(LimitExceeded) else
    var (initial, s1) :- Byte(s);
    var major, info := initial / 32, initial % 32;
    if major == 0 || major == 2 || major == 4 || major == 5 then
      var (n, k) :- MinimalArgument(info, s1);
      Body(major, n, k, depth, items + 1)
    else if major == 7 && 20 <= info <= 22 then Ok(Scanned(Simple(info), s1, items + 1))
    else Err(NoncanonicalEncoding)
  }

  /** What follows a head of major type 0, 2, 4 or 5 with argument `n`. */
  function Body(major: nat, n: nat, k: Bytes, depth: nat, items: nat): (r: Result<Scanned<Tree>, MlsError>)
    ensures r.Ok? ==> |r.value.rest| <= |k|
    decreases |k|, 2, 0
  {
    if major == 0 then Ok(Scanned(Number(n), k, items))
    else if major == 2 then
      if n > MAX_BLOB then Err(LimitExceeded)
      else if n > |k| then Err(InvalidFrame)
      else Ok(Scanned(Text(k[..n]), k[n..], items))
    else if major == 4 then
      if n > MAX_ARRAY then Err(LimitExceeded) else
      var v :- Items(n, k, depth + 1, items);
      Ok(Scanned(List(v.found), v.rest, v.items))
    else
      if n > MAX_MAP_ENTRIES then Err(LimitExceeded) else
      var v :- Entries(n, k, None, depth + 1, items);
      Ok(Scanned(Dict(v.found), v.rest, v.items))
  }

  function Items(n: nat, s: Bytes, depth: nat, items: nat): (r: Result<Scanned<seq<Tree>>, MlsError>)
    ensures r.Ok? ==> |r.value.rest| <= |s|
    decreases |s|, 1, n
  {
    if n == 0 then Ok(Scanned([], s, items)) else
    var v :- Value(s, depth, items);
    var w :- Items(n - 1, v.rest, depth, v.items);
    Ok(Scanned([v.found] + w.found, w.rest, w.items))
  }

  function Key(s: Bytes, previous: Option<nat>, items: nat): (r: Result<Scanned<nat>, MlsError>)
    ensures r.Ok? ==> |r.value.rest| < |s|
  {
    var (initial, s1) :- Byte(s);
    if initial / 32 != 0 then Err(NoncanonicalEncoding) else
    var (key, k) :- MinimalArgument(initial % 32, s1);
    if previous.Some? && key <= previous.value then Err(NoncanonicalEncoding)
    else if items + 1 > MAX_ITEMS then Err(LimitExceeded)
    else Ok(Scanned(key, k, items + 1))
  }

  function Entries(n: nat, s: Bytes, previous: Option<nat>, depth: nat, items: nat)
    : (r: Result<Scanned<Fields>, MlsError>)
    ensures r.Ok? ==> |r.value.rest| <= |s|
    decreases |s|, 1, n
  {
    if n == 0 then Ok(Scanned(End, s, items)) else
    var key :- Key(s, previous, items);
    AfterKey(n - 1, key, depth)
  }

  /** The value of a key just read, then `n` more entries. */
  function AfterKey(n: nat, key: Scanned<nat>, depth: nat): (r: Result<Scanned<Fields>, MlsError>)
    ensures r.Ok? ==> |r.value.rest| <= |key.rest|
    decreases |key.rest|, 2, n
  {
    var v :- Value(key.rest, depth, key.items);
    var w :- Entries(n, v.rest, Some(key.found), depth, v.items);
    Ok(Scanned(Field(key.found, v.found, w.found), w.rest, w.items))
  }

  function Recognise(input: Bytes): Result<(), MlsError> {
    var v :- Value(input, 0, 0);
    if v.rest != [] then Err(NoncanonicalEncoding) else Ok(())
  }

  // ---------------------------------------------------------------- completeness: every profile tree is accepted

  lemma FixedReadsBack(w: nat, n: nat, k: Bytes)
    requires n < Pow256(w)
    ensures Fixed(w, BE(w, n) + k) == Ok((n, k))
  {
    WideReadsBack(w, n, k);
  }

  lemma ArgumentComplete(major: nat, n: nat, k: Bytes)
    requires major < 8 && n < 0x1_0000_0000_0000_0000
    ensures var s := Head(major, n) + k;
            s[0] / 32 == major && MinimalArgument(s[0] % 32, s[1..]) == Ok((n, k))
  {
    HeadParts(major, n, k);
    if n < 24 {
      assert Tail(n) + k == k;
    } else {
      TailFits(n);
      FixedReadsBack(Width(Info(n)), n, k);
    }
  }

  /** An item whose head is minimal is what its body is. */
  lemma HeadComplete(major: nat, n: nat, k: Bytes, depth: nat, items: nat)
    requires major == 0 || major == 2 || major == 4 || major == 5
    requires n < 0x1_0000_0000_0000_0000 && depth <= MAX_DEPTH && items < MAX_ITEMS
    ensures Value(Head(major, n) + k, depth, items) == Body(major, n, k, depth, items + 1)
  {
    ArgumentComplete(major, n, k);
  }

  lemma BlobComplete(data: Bytes, k: Bytes, depth: nat, items: nat)
    requires |data| <= MAX_BLOB && depth <= MAX_DEPTH && items < MAX_ITEMS
    ensures Value(Blob(data) + k, depth, items) == Ok(Scanned(Text(data), k, items + 1))
  {
    HeadComplete(BYTES, |data|, data + k, depth, items);
    Regroup(Head(BYTES, |data|), data, k);
    assert (data + k)[..|data|] == data && (data + k)[|data|..] == k;
  }

  lemma LeafComplete(t: Tree, k: Bytes, depth: nat, items: nat)
    requires (t.Number? || t.Text? || t.Simple?) && Shaped(t) && depth <= MAX_DEPTH && items < MAX_ITEMS
    ensures Value(Enc(t) + k, depth, items) == Ok(Scanned(t, k, items + 1))
  {
    match t {
      case Number(n) => HeadComplete(UINT, n, k, depth, items);
      case Text(data) => BlobComplete(data, k, depth, items);
      case Simple(kind) =>
        assert ([0xe0 + kind] + k)[1..] == k;
    }
  }

  lemma KeyComplete(key: nat, previous: Option<nat>, k: Bytes, items: nat)
    requires key < 0x1_0000_0000_0000_0000 && (previous.Some? ==> previous.value < key) && items < MAX_ITEMS
    ensures Key(Uint(key) + k, previous, items) == Ok(Scanned(key, k, items + 1))
  {
    ArgumentComplete(UINT, key, k);
  }

  lemma FieldStep(n: nat, s: Bytes, previous: Option<nat>, depth: nat, items: nat,
                  key: Scanned<nat>, v: Scanned<Tree>, w: Scanned<Fields>)
    requires Key(s, previous, items) == Ok(key) && Value(key.rest, depth, key.items) == Ok(v)
    requires Entries(n, v.rest, Some(key.found), depth, v.items) == Ok(w)
    ensures Entries(n + 1, s, previous, depth, items) == Ok(Scanned(Field(key.found, v.found, w.found), w.rest, w.items))
  {
    hide Value, Key;
    assert AfterKey(n, key, depth) == Ok(Scanned(Field(key.found, v.found, w.found), w.rest, w.items));
  }

  lemma ListComplete(ts: seq<Tree>, k: Bytes, depth: nat, items: nat)
    requires |ts| <= MAX_ARRAY && depth <= MAX_DEPTH && items < MAX_ITEMS
    requires Items(|ts|, EncItems(ts) + k, depth + 1, items + 1) == Ok(Scanned(ts, k, items + 1 + NodesItems(ts)))
    ensures Value(Enc(List(ts)) + k, depth, items) == Ok(Scanned(List(ts), k, items + 1 + NodesItems(ts)))
  {
    hide Value, Items, Entries, Head, EncItems, NodesItems;
    HeadComplete(ARRAY, |ts|, EncItems(ts) + k, depth, items);
    Regroup(Head(ARRAY, |ts|), EncItems(ts), k);
  }

  lemma DictComplete(es: Fields, k: Bytes, depth: nat, items: nat)
    requires Count(es) <= MAX_MAP_ENTRIES && depth <= MAX_DEPTH && items < MAX_ITEMS
    requires Entries(Count(es), EncEntries(es) + k, None, depth + 1, items + 1) == Ok(Scanned(es, k, items + 1 + NodesEntries(es)))
    ensures Value(Enc(Dict(es)) + k, depth, items) == Ok(Scanned(Dict(es), k, items + 1 + NodesEntries(es)))
  {
    hide Value, Items, Entries, Head, EncEntries, NodesEntries, Count;
    HeadComplete(MAP, Count(es), EncEntries(es) + k, depth, items);
    Regroup(Head(MAP, Count(es)), EncEntries(es), k);
  }

  lemma {:induction false} ValueComplete(t: Tree, k: Bytes, depth: nat, items: nat)
    requires Shaped(t) && depth + Height(t) <= MAX_DEPTH && items + Nodes(t) <= MAX_ITEMS
    ensures Value(Enc(t) + k, depth, items) == Ok(Scanned(t, k, items + Nodes(t)))
    decreases t, 1
  {
    hide Value, Items, Entries, Head, Enc;
    match t {
      case List(ts) =>
        ItemsComplete(ts, k, depth + 1, items + 1);
        ListComplete(ts, k, depth, items);
      case Dict(es) =>
        EntriesComplete(es, None, k, depth + 1, items + 1);
        DictComplete(es, k, depth, items);
      case _ => LeafComplete(t, k, depth, items);
    }
  }

  lemma {:induction false} ItemsComplete(ts: seq<Tree>, k: Bytes, depth: nat, items: nat)
    requires ShapedItems(ts) && depth + HeightItems(ts) <= MAX_DEPTH + 1 && items + NodesItems(ts) <= MAX_ITEMS
    ensures Items(|ts|, EncItems(ts) + k, depth, items) == Ok(Scanned(ts, k, items + NodesItems(ts)))
    decreases ts, 0
  {
    hide Value, Enc;
    if ts == [] {
      assert EncItems(ts) + k == k;
    } else {
      Regroup(Enc(ts[0]), EncItems(ts[1..]), k);
      ValueComplete(ts[0], EncItems(ts[1..]) + k, depth, items);
      ItemsComplete(ts[1..], k, depth, items + Nodes(ts[0]));
      assert ts == [ts[0]] + ts[1..];
    }
  }

  lemma {:induction false} EntriesComplete(es: Fields, previous: Option<nat>, k: Bytes, depth: nat, items: nat)
    requires ShapedEntries(es, previous)
    requires depth + HeightEntries(es) <= MAX_DEPTH + 1 && items + NodesEntries(es) <= MAX_ITEMS
    ensures Entries(Count(es), EncEntries(es) + k, previous, depth, items) == Ok(Scanned(es, k, items + NodesEntries(es)))
    decreases es, 0
  {
    hide Value, Key, AfterKey, Enc, Uint;
    match es {
      case End =>
        assert EncEntries(es) + k == k;
      case Field(key, value, more) =>
        var tail, middle := EncEntries(more) + k, items + 1 + Nodes(value);
        Regroup(Uint(key) + Enc(value), EncEntries(more), k);
        Regroup(Uint(key), Enc(value), tail);
        KeyComplete(key, previous, Enc(value) + tail, items);
        ValueComplete(value, tail, depth, items + 1);
        EntriesComplete(more, Some(key), k, depth, middle);
        FieldStep(Count(more), Uint(key) + (Enc(value) + tail), previous, depth, items,
                  Scanned(key, Enc(value) + tail, items + 1), Scanned(value, tail, middle),
                  Scanned(more, k, middle + NodesEntries(more)));
    }
  }

  // ---------------------------------------------------------------- soundness: whatever is accepted is a profile tree

  lemma ArgumentSound(major: nat, s: Bytes)
    requires major < 8 && s != [] && s[0] / 32 == major && MinimalArgument(s[0] % 32, s[1..]).Ok?
    ensures var (n, k) := MinimalArgument(s[0] % 32, s[1..]).value;
            n < 0x1_0000_0000_0000_0000 && s == Head(major, n) + k
  {
    PowValues();
    var t, info := s[1..], s[0] % 32;
    assert s == [32 * major + info] + t;
    if info < 24 {
      assert Tail(info) == [];
    } else {
      var w := Width(info);
      BEInvertsFromBE(t[..w]);
      assert Info(FromBE(t[..w])) == info;
      assert t == t[..w] + t[w..];
    }
  }

  lemma KeySound(s: Bytes, previous: Option<nat>, items: nat)
    requires Key(s, previous, items).Ok?
    ensures var v := Key(s, previous, items).value;
            && s == Uint(v.found) + v.rest && v.found < 0x1_0000_0000_0000_0000
            && (previous.Some? ==> previous.value < v.found) && v.items == items + 1 <= MAX_ITEMS
  {
    ArgumentSound(UINT, s);
  }

  lemma ValueParts(s: Bytes, depth: nat, items: nat)
    requires Value(s, depth, items).Ok?
    ensures depth <= MAX_DEPTH && items < MAX_ITEMS && s != []
    ensures s[0] / 32 == 7 ==> 0xf4 <= s[0] <= 0xf6 && Value(s, depth, items).value == Scanned(Simple(s[0] - 0xe0), s[1..], items + 1)
    ensures s[0] / 32 != 7 ==>
              && (s[0] / 32 == 0 || s[0] / 32 == 2 || s[0] / 32 == 4 || s[0] / 32 == 5)
              && MinimalArgument(s[0] % 32, s[1..]).Ok?
              && var (n, k) := MinimalArgument(s[0] % 32, s[1..]).value;
                 Value(s, depth, items) == Body(s[0] / 32, n, k, depth, items + 1)
  {
  }

  lemma {:induction false} ValueSound(s: Bytes, depth: nat, items: nat)
    requires Value(s, depth, items).Ok?
    ensures var v := Value(s, depth, items).value;
            && s == Enc(v.found) + v.rest && Shaped(v.found)
            && depth + Height(v.found) <= MAX_DEPTH && v.items == items + Nodes(v.found) <= MAX_ITEMS
    decreases |s|, 0, 0
  {
    ValueParts(s, depth, items);
    if s[0] / 32 == 7 {
      assert s == [s[0]] + s[1..];
    } else {
      ArgumentSound(s[0] / 32, s);
      var (n, k) := MinimalArgument(s[0] % 32, s[1..]).value;
      BodySound(s[0] / 32, n, k, depth, items + 1);
    }
  }

  lemma {:induction false} BodySound(major: nat, n: nat, k: Bytes, depth: nat, items: nat)
    requires major == 0 || major == 2 || major == 4 || major == 5
    requires Body(major, n, k, depth, items).Ok?
    requires n < 0x1_0000_0000_0000_0000 && depth <= MAX_DEPTH && 1 <= items <= MAX_ITEMS
    ensures var v := Body(major, n, k, depth, items).value;
            && Head(major, n) + k == Enc(v.found) + v.rest && Shaped(v.found)
            && depth + Height(v.found) <= MAX_DEPTH && v.items == items - 1 + Nodes(v.found) <= MAX_ITEMS
    decreases |k|, 2, 0
  {
    if major == 2 {
      assert k == k[..n] + k[n..];
      Regroup(Head(BYTES, n), k[..n], k[n..]);
    } else if major == 4 {
      ItemsSound(n, k, depth + 1, items);
      var v := Items(n, k, depth + 1, items).value;
      Regroup(Head(ARRAY, n), EncItems(v.found), v.rest);
    } else if major == 5 {
      EntriesSound(n, k, None, depth + 1, items);
      var v := Entries(n, k, None, depth + 1, items).value;
      Regroup(Head(MAP, n), EncEntries(v.found), v.rest);
    }
  }

  lemma {:induction false} ItemsSound(n: nat, s: Bytes, depth: nat, items: nat)
    requires Items(n, s, depth, items).Ok? && items <= MAX_ITEMS && depth <= MAX_DEPTH + 1
    ensures var v := Items(n, s, depth, items).value;
            && |v.found| == n && s == EncItems(v.found) + v.rest && ShapedItems(v.found)
            && depth + HeightItems(v.found) <= MAX_DEPTH + 1 && v.items == items + NodesItems(v.found) <= MAX_ITEMS
    decreases |s|, 1, n
  {
    if n > 0 {
      ValueSound(s, depth, items);
      var v := Value(s, depth, items).value;
      ItemsSound(n - 1, v.rest, depth, v.items);
      var w := Items(n - 1, v.rest, depth, v.items).value;
      assert ([v.found] + w.found)[1..] == w.found;
      Regroup(Enc(v.found), EncItems(w.found), w.rest);
    } else {
      assert s == EncItems([]) + s;
    }
  }

  lemma {:induction false} EntriesSound(n: nat, s: Bytes, previous: Option<nat>, depth: nat, items: nat)
    requires Entries(n, s, previous, depth, items).Ok? && items <= MAX_ITEMS && depth <= MAX_DEPTH + 1
    ensures var v := Entries(n, s, previous, depth, items).value;
            && Count(v.found) == n && s == EncEntries(v.found) + v.rest && ShapedEntries(v.found, previous)
            && depth + HeightEntries(v.found) <= MAX_DEPTH + 1 && v.items == items + NodesEntries(v.found) <= MAX_ITEMS
    decreases |s|, 1, n
  {
    if n > 0 {
      var key := Key(s, previous, items).value;
      KeySound(s, previous, items);
      ValueSound(key.rest, depth, key.items);
      var v := Value(key.rest, depth, key.items).value;
      EntriesSound(n - 1, v.rest, Some(key.found), depth, v.items);
      var w := Entries(n - 1, v.rest, Some(key.found), depth, v.items).value;
      Regroup(Uint(key.found) + Enc(v.found), EncEntries(w.found), w.rest);
      Regroup(Uint(key.found), Enc(v.found), EncEntries(w.found) + w.rest);
    } else {
      assert s == EncEntries(End) + s;
    }
  }

  // ---------------------------------------------------------------- main results

  /** A byte string is accepted exactly when it is the encoding of a tree in the profile. */
  lemma AcceptsExactlyTheProfile(input: Bytes)
    ensures Recognise(input).Ok? <==> exists t :: InProfile(t) && Enc(t) == input
  {
    if Recognise(input).Ok? {
      ValueSound(input, 0, 0);
      var t := Value(input, 0, 0).value.found;
      assert Enc(t) + [] == Enc(t);
      assert InProfile(t) && Enc(t) == input;
    }
    forall t | InProfile(t) && Enc(t) == input
      ensures Recognise(input).Ok?
    {
      ValueComplete(t, [], 0, 0);
      assert Enc(t) + [] == Enc(t);
    }
  }

  /** ... and of only one, even when other bytes follow it: the encoding is prefix-free. */
  lemma EncodingIsPrefixFree(t: Tree, u: Tree, x: Bytes, y: Bytes)
    requires InProfile(t) && InProfile(u) && Enc(t) + x == Enc(u) + y
    ensures t == u && x == y
  {
    ValueComplete(t, x, 0, 0);
    ValueComplete(u, y, 0, 0);
  }

  // ---------------------------------------------------------------- the scanner as written

  /** The part of a scan outcome the scanner keeps: where it stopped and how many items it has counted. */
  function Progress<T>(r: Result<Scanned<T>, MlsError>): Result<(Bytes, nat), MlsError> {
    match r
    case Ok(v) => Ok((v.rest, v.items))
    case Err(e) => Err(e)
  }

  class CborPreflight {
    const input: Bytes
    var position: nat
    var items: nat

    ghost predicate Valid()
      reads this
    {
      position <= |input|
    }

    ghost function Rest(): Bytes
      requires Valid()
      reads this
    {
      input[position..]
    }

    /** Where the scanner now stands, to compare with the specification's progress. */
    ghost function Here(): Result<(Bytes, nat), MlsError>
      requires Valid()
      reads this
    {
      Ok((Rest(), items))
    }

    constructor (input: Bytes)
      ensures this.input == input && Valid() && Rest() == input && items == 0
    {
      this.input := input;
      position := 0;
      items := 0;
    }

    method NextByte() returns (r: Result<byte, MlsError>)
      requires Valid()
      modifies this`position
      ensures Valid()
      ensures match Byte(old(Rest()))
              case Ok((b, k)) => r == Ok(b) && Rest() == k && position == old(position) + 1
              case Err(e) => r == Err(e) && position == old(position)
    {
      if position >= |input| {
        return Err(InvalidFrame);
      }
      r := Ok(input[position]);
      position := position + 1;
    }

    method NextFixed(w: nat) returns (r: Result<nat, MlsError>)
      requires Valid()
      modifies this`position
      ensures Valid() && position >= old(position)
      ensures match Fixed(w, old(Rest()))
              case Ok((n, k)) => r == Ok(n) && Rest() == k
              case Err(e) => r == Err(e)
    {
      var end := position + w;
      if end > |input| {
        return Err(InvalidFrame);
      }
      assert input[position..][..w] == input[position..end] && input[position..][w..] == input[end..];
      r := Ok(FromBE(input[position..end]));
      position := end;
    }

    method NextArgument(info: nat) returns (r: Result<nat, MlsError>)
      requires Valid()
      modifies this`position
      ensures Valid() && position >= old(position)
      ensures match MinimalArgument(info, old(Rest()))
              case Ok((n, k)) => r == Ok(n) && Rest() == k
              case Err(e) => r == Err(e)
    {
      var n: nat;
      if info < 24 {
        return Ok(info);
      } else if info == 24 {
        n :- NextFixed(1);
        return if n < 24 then Err(NoncanonicalEncoding) else Ok(n);
      } else if info == 25 {
        n :- NextFixed(2);
        return if n <= 0xff then Err(NoncanonicalEncoding) else Ok(n);
      } else if info == 26 {
        n :- NextFixed(4);
        return if n <= 0xffff then Err(NoncanonicalEncoding) else Ok(n);
      } else if info == 27 {
        n :- NextFixed(8);
        return if n <= 0xffff_ffff then Err(NoncanonicalEncoding) else Ok(n);
      }
      return Err(NoncanonicalEncoding);
    }

    method NextKey(previous: Option<nat>) returns (r: Result<nat, MlsError>)
      requires Valid()
      modifies this
      ensures Valid()
      ensures match Key(old(Rest()), previous, old(items))
              case Ok(v) => r == Ok(v.found) && Rest() == v.rest && items == v.items && position > old(position)
              case Err(e) => r == Err(e)
    {
      var initial :- NextByte();
      if initial / 32 != 0 {
        return Err(NoncanonicalEncoding);
      }
      var key :- NextArgument(initial % 32);
      if previous.Some? && key <= previous.value {
        return Err(NoncanonicalEncoding);
      }
      items := items + 1;
      if items > MAX_ITEMS {
        return Err(LimitExceeded);
      }
      return Ok(key);
    }

    method ScanItems(length: nat, depth: nat) returns (r: Result<(), MlsError>)
      requires Valid()
      modifies this
      ensures Valid() && (r.Ok? ==> position >= old(position))
      ensures match Items(length, old(Rest()), depth, old(items))
              case Ok(v) => r == Ok(()) && Rest() == v.rest && items == v.items
              case Err(e) => r == Err(e)
      decreases |input| - position, 1
    {
      ghost var whole := Progress(Items(length, Rest(), depth, items));
      for i := 0 to length
        invariant Valid() && position >= old(position)
        invariant whole == Progress(Items(length - i, Rest(), depth, items))
      {
        var _ :- Scan(depth);
      }
      return Ok(());
    }

    method ScanEntries(length: nat, depth: nat) returns (r: Result<(), MlsError>)
      requires Valid()
      modifies this
      ensures Valid() && (r.Ok? ==> position >= old(position))
      ensures match Entries(length, old(Rest()), None, depth, old(items))
              case Ok(v) => r == Ok(()) && Rest() == v.rest && items == v.items
              case Err(e) => r == Err(e)
      decreases |input| - position, 1
    {
      ghost var whole := Progress(Entries(length, Rest(), None, depth, items));
      var previous := None;
      for i := 0 to length
        invariant Valid() && position >= old(position)
        invariant whole == Progress(Entries(length - i, Rest(), previous, depth, items))
      {
        var key :- NextKey(previous);
        previous := Some(key);
        var _ :- Scan(depth);
      }
      return Ok(());
    }

    method Scan(depth: nat) returns (r: Result<(), MlsError>)
      requires Valid()
      modifies this
      ensures Valid() && (r.Ok? ==> position > old(position))
      ensures match Value(old(Rest()), depth, old(items))
              case Ok(v) => r == Ok(()) && Rest() == v.rest && items == v.items
              case Err(e) => r == Err(e)
      decreases |input| - position, 0
    {
      if depth > MAX_DEPTH {
        return Err(LimitExceeded);
      }
      items := items + 1;
      if items > MAX_ITEMS {
        return Err(LimitExceeded);
      }
      var initial :- NextByte();
      var major, info := initial / 32, initial % 32;
      if major == 0 || major == 2 || major == 4 || major == 5 {
        var argument :- NextArgument(info);
        r := ScanBody(major, argument, depth);
        return;
      }
      return if major == 7 && 20 <= info <= 22 then Ok(()) else Err(NoncanonicalEncoding);
    }

    method ScanBody(major: nat, argument: nat, depth: nat) returns (r: Result<(), MlsError>)
      requires Valid() && (major == 0 || major == 2 || major == 4 || major == 5)
      modifies this
      ensures Valid() && (r.Ok? ==> position >= old(position))
      ensures match Body(major, argument, old(Rest()), depth, old(items))
              case Ok(v) => r == Ok(()) && Rest() == v.rest && items == v.items
              case Err(e) => r == Err(e)
      decreases |input| - position, 2
    {
      if major == 2 {
        if argument > MAX_BLOB {
          return Err(LimitExceeded);
        }
        if position + argument > |input| {
          return Err(InvalidFrame);
        }
        assert Rest()[argument..] == input[position + argument..];
        position := position + argument;
      } else if major == 4 {
        if argument > MAX_ARRAY {
          return Err(LimitExceeded);
        }
        r := ScanItems(argument, depth + 1);
        return;
      } else if major == 5 {
        if argument > MAX_MAP_ENTRIES {
          return Err(LimitExceeded);
        }
        r := ScanEntries(argument, depth + 1);
        return;
      }
      return Ok(());
    }
  }

  method PreflightCbor(input: Bytes) returns (r: Result<(), MlsError>)
    ensures r == Recognise(input)
    ensures r.Ok? <==> exists t :: InProfile(t) && Enc(t) == input
  {
    AcceptsExactlyTheProfile(input);
    var scanner := new CborPreflight(input);
    var _ :- scanner.Scan(0);
    if scanner.position != |input| {
      return Err(NoncanonicalEncoding);
    }
    return Ok(());
  }
}
