/** The CBOR item heads the package writes and the lenient reader it reads them back with. */
module Cbor {
  import opened Foundation

  const UINT := 0
  const BYTES := 2
  const ARRAY := 4
  const MAP := 5
  const NULL: byte := 0xf6

  /** The low five bits of an item's first byte, for its shortest argument. */
  function Info(n: nat): (info: nat)
    ensures info < 28
  {
    if n < 24 then n
    else if n < 0x100 then 24
    else if n < 0x1_0000 then 25
    else if n < 0x1_0000_0000 then 26
    else 27
  }

  /** How many bytes follow a first byte with this low part. */
  function Width(info: nat): (w: nat)
    ensures w <= 8
  {
    if info == 24 then 1 else if info == 25 then 2 else if info == 26 then 4 else if info == 27 then 8 else 0
  }

  function Tail(n: nat): Bytes {
    BE(Width(Info(n)), n)
  }

  /** The head of an item in its shortest form: all the writer ever emits. */
  function Head(major: nat, n: nat): Bytes
    requires major < 8
  {
    [32 * major + Info(n)] + Tail(n)
  }

  function Blob(data: Bytes): Bytes {
    Head(BYTES, |data|) + data
  }

  function Uint(n: nat): Bytes {
    Head(UINT, n)
  }

  // ---------------------------------------------------------------- value trees and their one encoding

  datatype Tree =
    | Number(n: nat)
    | Text(data: Bytes)
    | List(items: seq<Tree>)
    | Dict(entries: Fields)
    | Simple(kind: Flag)
  /** The low bits of false, true and null. */
  type Flag = n: nat | 20 <= n <= 22 witness 20
  datatype Fields = End | Field(key: nat, value: Tree, more: Fields)

  function Count(es: Fields): nat {
    if es.End? then 0 else 1 + Count(es.more)
  }

  function Enc(t: Tree): Bytes
    decreases t, 1
  {
    match t
    case Number(n) => Uint(n)
    case Text(data) => Blob(data)
    case List(items) => Head(ARRAY, |items|) + EncItems(items)
    case Dict(entries) => Head(MAP, Count(entries)) + EncEntries(entries)
    case Simple(kind) => [0xe0 + kind]
  }

  function EncItems(ts: seq<Tree>): Bytes
    decreases ts, 0
  {
    if ts == [] then [] else Enc(ts[0]) + EncItems(ts[1..])
  }

  function EncEntries(es: Fields): Bytes
    decreases es, 0
  {
    if es.End? then [] else Uint(es.key) + Enc(es.value) + EncEntries(es.more)
  }

  // ---------------------------------------------------------------- lenient reader

  /** An argument of any width; `None` when the input ends or the width is reserved. */
  function Argument(info: nat, s: Bytes): Option<(nat, Bytes)> {
    if info < 24 then Some((info, s))
    else if info > 27 then None
    else Wide(Width(info), s)
  }

  function Wide(w: nat, s: Bytes): Option<(nat, Bytes)> {
    if |s| < w then None else Some((FromBE(s[..w]), s[w..]))
  }

  /** A head of the given major type; an indefinite length is not read here. */
  function ReadHead(major: nat, s: Bytes): (r: Option<(nat, Bytes)>)
    ensures r.Some? ==> |r.value.1| < |s|
  {
    if s == [] || s[0] / 32 != major then None else Argument(s[0] % 32, s[1..])
  }

  function ReadUint(s: Bytes, limit: nat): (r: Option<(nat, Bytes)>)
    ensures r.Some? ==> |r.value.1| < |s| && r.value.0 < limit
  {
    match ReadHead(UINT, s)
    case Some((n, rest)) => if n < limit then Some((n, rest)) else None
    case None => None
  }

  function ReadBlob(s: Bytes): (r: Option<(Bytes, Bytes)>)
    ensures r.Some? ==> |r.value.1| < |s|
  {
    match ReadHead(BYTES, s)
    case Some((n, rest)) => if n <= |rest| then Some((rest[..n], rest[n..])) else None
    case None => None
  }

  /** An array or map length; the inner `None` is an indefinite-length container. */
  function ReadLength(major: nat, s: Bytes): Option<(Option<nat>, Bytes)> {
    if s != [] && s[0] / 32 == major && s[0] % 32 == 31 then Some((None, s[1..])) else
    match ReadHead(major, s)
    case Some((n, rest)) => Some((Some(n), rest))
    case None => None
  }

  /** What the reader's type peek answers, as far as its callers tell answers apart. */
  datatype Kind = NullKind | BytesKind | OtherKind

  function Peek(s: Bytes): Option<Kind> {
    if s == [] then None
    else if s[0] == NULL then Some(NullKind)
    else if 0x40 <= s[0] <= 0x5b then Some(BytesKind)
    else Some(OtherKind)
  }

  // ---------------------------------------------------------------- reading back what was written

  lemma WideReadsBack(w: nat, n: nat, k: Bytes)
    requires n < Pow256(w)
    ensures Wide(w, BE(w, n) + k) == Some((n, k))
  {
    FromBEInvertsBE(w, n);
    assert (BE(w, n) + k)[..w] == BE(w, n) && (BE(w, n) + k)[w..] == k;
  }

  lemma FirstByte(major: nat, info: nat)
    requires info < 32
    ensures (32 * major + info) / 32 == major && (32 * major + info) % 32 == info
  {
  }

  lemma HeadParts(major: nat, n: nat, k: Bytes)
    requires major < 8
    ensures var s := Head(major, n) + k;
            s[0] / 32 == major && s[0] % 32 == Info(n) && s[1..] == Tail(n) + k
  {
    FirstByte(major, Info(n));
    Cons(32 * major + Info(n), Tail(n), k);
  }

  lemma Cons(b: byte, t: Bytes, k: Bytes)
    ensures var s := [b] + t + k; s[0] == b && s[1..] == t + k
  {
  }

  lemma ArgumentReadsBack(n: nat, k: Bytes)
    requires n < 0x1_0000_0000_0000_0000
    ensures Argument(Info(n), Tail(n) + k) == Some((n, k))
  {
    if n < 24 {
      assert Tail(n) + k == k;
    } else {
      TailFits(n);
      WideReadsBack(Width(Info(n)), n, k);
    }
  }

  lemma TailFits(n: nat)
    requires 24 <= n < 0x1_0000_0000_0000_0000
    ensures n < Pow256(Width(Info(n)))
  {
    PowValues();
  }

  lemma HeadReadsBack(major: nat, n: nat, k: Bytes)
    requires major < 8 && n < 0x1_0000_0000_0000_0000
    ensures ReadHead(major, Head(major, n) + k) == Some((n, k))
  {
    HeadParts(major, n, k);
    ArgumentReadsBack(n, k);
  }

  /** Every reader inverts its writer and leaves exactly what follows. */
  lemma ReadsBack()
    ensures forall n: nat, limit: nat, k: Bytes ::
              n < limit <= 0x1_0000_0000_0000_0000 ==> ReadUint(Uint(n) + k, limit) == Some((n, k))
    ensures forall d: Bytes, k: Bytes ::
              |d| < 0x1_0000_0000_0000_0000 ==> ReadBlob(Blob(d) + k) == Some((d, k)) && Peek(Blob(d) + k) == Some(BytesKind)
    ensures forall m: nat, n: nat, k: Bytes ::
              m < 8 && n < 0x1_0000_0000_0000_0000 ==> ReadLength(m, Head(m, n) + k) == Some((Some(n), k))
    ensures forall k: Bytes :: Peek([NULL] + k) == Some(NullKind) && ([NULL] + k)[1..] == k
  {
    forall n: nat, limit: nat, k: Bytes | n < limit <= 0x1_0000_0000_0000_0000
      ensures ReadUint(Uint(n) + k, limit) == Some((n, k))
    {
      HeadReadsBack(UINT, n, k);
    }
    forall d: Bytes, k: Bytes | |d| < 0x1_0000_0000_0000_0000
      ensures ReadBlob(Blob(d) + k) == Some((d, k)) && Peek(Blob(d) + k) == Some(BytesKind)
    {
      HeadReadsBack(BYTES, |d|, d + k);
      assert Blob(d) + k == Head(BYTES, |d|) + (d + k);
      assert (d + k)[..|d|] == d && (d + k)[|d|..] == k;
    }
    forall m: nat, n: nat, k: Bytes | m < 8 && n < 0x1_0000_0000_0000_0000
      ensures ReadLength(m, Head(m, n) + k) == Some((Some(n), k))
    {
      HeadReadsBack(m, n, k);
    }
  }

  /** One map entry is its key, its value and the entries after it. */
  lemma FieldBytes(key: nat, value: Tree, more: Fields, k: Bytes)
    ensures EncEntries(Field(key, value, more)) + k == Uint(key) + (Enc(value) + (EncEntries(more) + k))
  {
    hide Enc, Uint;
    Regroup(Uint(key) + Enc(value), EncEntries(more), k);
    Regroup(Uint(key), Enc(value), EncEntries(more) + k);
  }

  lemma ItemBytes(t: Tree, ts: seq<Tree>, k: Bytes)
    ensures EncItems([t] + ts) + k == Enc(t) + (EncItems(ts) + k)
  {
    hide Enc;
    assert ([t] + ts)[1..] == ts;
    Regroup(Enc(t), EncItems(ts), k);
  }

  lemma DictBytes(es: Fields, k: Bytes)
    ensures Enc(Dict(es)) + k == Head(MAP, Count(es)) + (EncEntries(es) + k)
  {
    hide EncEntries, Head;
    Regroup(Head(MAP, Count(es)), EncEntries(es), k);
  }

  lemma ListBytes(ts: seq<Tree>, k: Bytes)
    ensures Enc(List(ts)) + k == Head(ARRAY, |ts|) + (EncItems(ts) + k)
  {
    hide EncItems, Head;
    Regroup(Head(ARRAY, |ts|), EncItems(ts), k);
  }
}
