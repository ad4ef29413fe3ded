/** Byte strings, big-endian integers and the byte-string order shared by every codec. */
module Foundation {

  datatype Option<+T> = None | Some(value: T)

  /** The outcome of a fallible operation; `:-` returns the first failure. */
  datatype Result<+T, +E> = Ok(value: T) | Err(error: E) {
    predicate IsFailure() {
      Err?
    }

    function PropagateFailure<U>(): Result<U, E>
      requires Err?
    {
      Err(error)
    }

    function Extract(): T
      requires Ok?
    {
      value
    }
  }

  type byte = n: nat | n < 0x100
  type u16 = n: nat | n < 0x1_0000
  type u32 = n: nat | n < 0x1_0000_0000
  type u64 = n: nat | n < 0x1_0000_0000_0000_0000
  type Bytes = seq<byte>

  const MIB: nat := 0x10_0000

  /** SHA-256 is a parameter of every operation that hashes: nothing but its being a function is used. */
  type Hash = Bytes -> Bytes

  function Need<E>(condition: bool, error: E): Result<(), E> {
    if condition then Ok(()) else Err(error)
  }

  lemma Regroup(a: Bytes, b: Bytes, c: Bytes)
    ensures (a + b) + c == a + (b + c)
  {
  }

  // ---------------------------------------------------------------- cursors and their readers

  /** What a reader says of the bytes before is what was returned and what is left. */
  ghost predicate Follows<T, E>(spec: Result<(T, Bytes), E>, r: Result<T, E>, left: Bytes) {
    match spec
    case Ok((v, k)) => r == Ok(v) && left == k
    case Err(e) => r == Err(e)
  }

  /** The same for a reader that answers only with what is left. */
  ghost predicate Skips<E>(spec: Result<Bytes, E>, r: Result<(), E>, left: Bytes) {
    match spec
    case Ok(k) => r == Ok(()) && left == k
    case Err(e) => r == Err(e)
  }

  /** What a loop that keeps the items it reads will have, given what it makes of the rest. */
  ghost function After<T, E>(kept: seq<T>, more: Result<(seq<T>, Bytes), E>): Result<(seq<T>, Bytes), E> {
    match more
    case Ok((items, k)) => Ok((kept + items, k))
    case Err(e) => Err(e)
  }

  lemma AfterOneMore<T, E>(kept: seq<T>, x: T, more: Result<(seq<T>, Bytes), E>)
    ensures After(kept, After([x], more)) == After(kept + [x], more)
  {
    if more.Ok? {
      var items := more.value.0;
      assert kept + ([x] + items) == (kept + [x]) + items;
    }
  }

  lemma AfterNothing<T, E>(more: Result<(seq<T>, Bytes), E>)
    ensures After([], more) == more
  {
    if more.Ok? {
      assert [] + more.value.0 == more.value.0;
    }
  }

  // ---------------------------------------------------------------- big-endian integers

  function Pow256(w: nat): (p: nat)
    ensures p > 0
  {
    if w == 0 then 1 else 256 * Pow256(w - 1)
  }

  /** The low `w` bytes of `v`, most significant first: `as uN` followed by `to_be_bytes`. */
  function BE(w: nat, v: nat): (s: Bytes)
    ensures |s| == w
    decreases w
  {
    if w == 0 then [] else BE(w - 1, v / 256) + [v % 256]
  }

  function FromBE(s: Bytes): (v: nat)
    ensures v < Pow256(|s|)
  {
    if s == [] then 0 else
      var high := FromBE(s[..|s| - 1]);
      assert high + 1 <= Pow256(|s| - 1);
      high * 256 + s[|s| - 1]
  }

  lemma PowValues()
    ensures Pow256(1) == 0x100 && Pow256(2) == 0x1_0000
    ensures Pow256(4) == 0x1_0000_0000 && Pow256(8) == 0x1_0000_0000_0000_0000
  {
    assert Pow256(3) == 0x100_0000;
    assert Pow256(5) == 0x100_0000_0000;
    assert Pow256(6) == 0x1_0000_0000_0000;
    assert Pow256(7) == 0x100_0000_0000_0000;
  }

  /** The `i`-th byte of a number, counted from the least significant. */
  function ByteOf(v: nat, i: nat): byte {
    if i == 0 then v % 256 else ByteOf(v / 256, i - 1)
  }

  /** The least significant byte comes last. */
  lemma {:induction false} BigEndian(w: nat, v: nat, i: nat)
    requires i < w
    ensures BE(w, v)[w - 1 - i] == ByteOf(v, i)
  {
    if i > 0 {
      BigEndian(w - 1, v / 256, i - 1);
    }
  }

  lemma {:induction false} FromBEInvertsBE(w: nat, v: nat)
    requires v < Pow256(w)
    ensures FromBE(BE(w, v)) == v
  {
    if w > 0 {
      FromBEInvertsBE(w - 1, v / 256);
      assert BE(w, v)[..w - 1] == BE(w - 1, v / 256);
    }
  }

  lemma {:induction false} BEInvertsFromBE(s: Bytes)
    ensures BE(|s|, FromBE(s)) == s
  {
    if s != [] {
      BEInvertsFromBE(s[..|s| - 1]);
      assert s == s[..|s| - 1] + [s[|s| - 1]];
    }
  }

  /** Equal-width prefixes of equal strings are equal, and so are the remainders. */
  lemma SplitEqual(a: Bytes, b: Bytes, x: Bytes, y: Bytes)
    requires |a| == |b| && a + x == b + y
    ensures a == b && x == y
  {
    assert a == (a + x)[..|a|] && b == (b + y)[..|b|];
    assert x == (a + x)[|a|..] && y == (b + y)[|b|..];
  }

  // ---------------------------------------------------------------- fields by offset

  /** The bytes `x` lie in `b` from offset `i` on. */
  predicate LiesAt(b: Bytes, i: nat, x: Bytes) {
    i + |x| <= |b| && b[i..i + |x|] == x
  }

  predicate RunsFrom(b: Bytes, i: nat, s: Bytes) {
    i <= |b| && b[i..] == s
  }

  /** Peeling one field off what lies from `i` on. */
  lemma Peel(b: Bytes, i: nat, x: Bytes, rest: Bytes)
    ensures RunsFrom(b, i, x + rest) <==> LiesAt(b, i, x) && RunsFrom(b, i + |x|, rest)
  {
    if i + |x| <= |b| {
      assert b[i..] == b[i..i + |x|] + b[i + |x|..];
      if b[i..] == x + rest {
        SplitEqual(x, b[i..i + |x|], rest, b[i + |x|..]);
      }
    }
  }

  lemma FromEnds(b: Bytes, s: Bytes)
    ensures RunsFrom(b, 0, s) <==> b == s
    ensures RunsFrom(b, |b|, [])
  {
    assert b[0..] == b;
  }
}
