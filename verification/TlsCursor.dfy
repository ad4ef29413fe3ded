/** The cursor the TLS shape scanner moves, and the variable-size vector it reads (section 2.1.2 of RFC 9420). */
module TlsCursor {
  import opened Foundation
  import opened ExternalErrors

  type Read<T> = Result<(T, Bytes), ExternalError>

  const VECTOR_LIMIT := 0x4000_0000

  // ---------------------------------------------------------------- readers on values

  function GetBytes(n: nat, s: Bytes): (r: Read<Bytes>)
    ensures r.Ok? ==> |r.value.1| == |s| - n
  {
    if n <= |s| then Ok((s[..n], s[n..])) else Err(DecodeRejected)
  }

  function GetNumber(w: nat, s: Bytes): (r: Read<nat>)
    ensures r.Ok? ==> |r.value.1| == |s| - w
  {
    var (b, k) :- GetBytes(w, s);
    Ok((FromBE(b), k))
  }

  function Width(tag: nat): (w: nat)
    ensures w >= 1
  {
    if tag == 0 then 1 else if tag == 1 then 2 else 4
  }

  /** A length in one, two or four bytes, the top two bits saying which, and never in more bytes than needed. */
  function GetLength(s: Bytes): Read<nat> {
    var (first, k) :- GetBytes(1, s);
    var tag := first[0] / 64;
    if tag == 3 then Err(DecodeRejected) else
    var (rest, k) :- GetBytes(Width(tag) - 1, k);
    var n := FromBE([first[0] % 64] + rest);
    if (tag == 1 && n < 64) || (tag == 2 && n < 16384) then Err(NoncanonicalEncoding) else Ok((n, k))
  }

  function GetVector(max: nat, s: Bytes): (r: Read<Bytes>)
    ensures r.Ok? ==> |r.value.1| < |s|
  {
    var (n, k) :- GetLength(s);
    if n > max then Err(LimitExceeded) else GetBytes(n, k)
  }

  function GetExact(n: nat, s: Bytes): (r: Read<Bytes>)
    ensures r.Ok? ==> |r.value.1| < |s|
  {
    var (b, k) :- GetVector(n, s);
    if |b| != n then Err(DecodeRejected) else Ok((b, k))
  }

  /** A number that must have one value. */
  function GetConstant(w: nat, n: nat, error: ExternalError, s: Bytes): (r: Result<Bytes, ExternalError>)
    ensures r.Ok? ==> |r.value| == |s| - w
  {
    var (m, k) :- GetNumber(w, s);
    if m != n then Err(error) else Ok(k)
  }

  // ---------------------------------------------------------------- the printed form

  function Header(n: nat): (h: Bytes)
    requires n < VECTOR_LIMIT
    ensures h != []
  {
    if n < 64 then [n]
    else if n < 16384 then [64 + n / 256, n % 256]
    else [128 + n / 0x100_0000, n / 0x1_0000 % 256, n / 256 % 256, n % 256]
  }

  /** The shortest length header and the bytes; longer strings have no printed form. */
  function Vec(b: Bytes): Bytes {
    (if |b| < VECTOR_LIMIT then Header(|b|) else []) + b
  }

  lemma TwoBytes(a: byte, b: byte)
    ensures FromBE([a]) == a && FromBE([a, b]) == a * 256 + b
  {
    assert [a][..0] == [] && [a, b][..1] == [a];
    assert FromBE([]) == 0;
    assert FromBE([a]) == a;
  }

  lemma FourBytes(a: byte, b: byte, c: byte, d: byte)
    ensures FromBE([a, b, c, d]) == a * 0x100_0000 + b * 0x1_0000 + c * 256 + d
  {
    TwoBytes(a, b);
    assert [a, b, c][..2] == [a, b] && [a, b, c, d][..3] == [a, b, c];
    assert FromBE([a, b, c]) == (a * 256 + b) * 256 + c;
  }

  /** The bytes of a header, apart from what they mean. */
  function LengthOf(first: byte, rest: Bytes): nat {
    FromBE([first % 64] + rest)
  }

  predicate Shortest(tag: nat, n: nat) {
    !(tag == 1 && n < 64) && !(tag == 2 && n < 16384)
  }

  lemma LengthReads(first: byte, rest: Bytes, k: Bytes)
    requires first / 64 != 3 && |rest| == Width(first / 64) - 1 && Shortest(first / 64, LengthOf(first, rest))
    ensures GetLength([first] + rest + k) == Ok((LengthOf(first, rest), k))
  {
    hide FromBE;
    var s := [first] + rest + k;
    assert s[..1] == [first] && s[1..] == rest + k;
    assert (rest + k)[..|rest|] == rest && (rest + k)[|rest|..] == k;
  }

  lemma LengthIsRead(s: Bytes)
    requires GetLength(s).Ok?
    ensures var (n, k) := GetLength(s).value;
            var tag := s[0] / 64;
            && s != [] && tag != 3 && Width(tag) <= |s|
            && n == LengthOf(s[0], s[1..Width(tag)]) && Shortest(tag, n) && s == [s[0]] + s[1..Width(tag)] + k
  {
    hide FromBE;
    assert s[..1][0] == s[0] && s[1..][..Width(s[0] / 64) - 1] == s[1..Width(s[0] / 64)];
  }

  lemma Digits(a: byte, b: byte, c: byte, d: byte)
    ensures var n := a * 0x100_0000 + b * 0x1_0000 + c * 256 + d;
            n / 0x100_0000 == a && n / 0x1_0000 % 256 == b && n / 256 % 256 == c && n % 256 == d
  {
    var n := a * 0x100_0000 + b * 0x1_0000 + c * 256 + d;
    assert n / 0x1_0000 == a * 256 + b;
    assert n / 256 == (a * 256 + b) * 256 + c;
  }

  /** A shortest header is determined by the length it stands for. */
  lemma HeaderIsShortest(first: byte, rest: Bytes)
    requires first / 64 != 3 && |rest| == Width(first / 64) - 1 && Shortest(first / 64, LengthOf(first, rest))
    ensures LengthOf(first, rest) < VECTOR_LIMIT && Header(LengthOf(first, rest)) == [first] + rest
  {
    hide FromBE;
    var (tag, a) := (first / 64, first % 64);
    assert first == 64 * tag + a;
    if tag == 0 {
      TwoBytes(a, 0);
      assert [a] + rest == [a];
    } else if tag == 1 {
      TwoBytes(a, rest[0]);
      assert [a] + rest == [a, rest[0]] && [first] + rest == [first, rest[0]];
    } else {
      var (b, c, d) := (rest[0], rest[1], rest[2]);
      FourBytes(a, b, c, d);
      Digits(a, b, c, d);
      assert [a] + rest == [a, b, c, d] && [first] + rest == [first, b, c, d];
    }
  }

  /** Every length below the limit has a shortest header. */
  lemma HeaderExists(n: nat)
    requires n < VECTOR_LIMIT
    ensures var (first, rest) := (Header(n)[0], Header(n)[1..]);
            first / 64 != 3 && |rest| == Width(first / 64) - 1 && LengthOf(first, rest) == n && Shortest(first / 64, n)
  {
    hide FromBE;
    var (first, rest) := (Header(n)[0], Header(n)[1..]);
    if n < 64 {
      TwoBytes(n, 0);
      assert [first % 64] + rest == [n];
    } else if n < 16384 {
      var (a, b) := (n / 256, n % 256);
      TwoBytes(a, b);
      assert first / 64 == 1 && first % 64 == a;
      assert [first % 64] + rest == [a, b];
    } else {
      var (a, b, c, d) := (n / 0x100_0000, n / 0x1_0000 % 256, n / 256 % 256, n % 256);
      FourBytes(a, b, c, d);
      assert first / 64 == 2 && first % 64 == a;
      assert [first % 64] + rest == [a, b, c, d];
      assert n / 0x1_0000 == (n / 256) / 256 && n / 0x100_0000 == (n / 0x1_0000) / 256;
    }
  }

  lemma HeaderReads(n: nat, k: Bytes)
    requires n < VECTOR_LIMIT
    ensures GetLength(Header(n) + k) == Ok((n, k))
  {
    hide GetLength, Header, LengthOf, Shortest;
    HeaderExists(n);
    var (first, rest) := (Header(n)[0], Header(n)[1..]);
    LengthReads(first, rest, k);
    assert Header(n) == [first] + rest;
  }

  lemma HeaderIsRead(s: Bytes)
    requires GetLength(s).Ok?
    ensures var (n, k) := GetLength(s).value;
            n < VECTOR_LIMIT && s == Header(n) + k
  {
    hide GetLength, Header, LengthOf, Shortest;
    LengthIsRead(s);
    HeaderIsShortest(s[0], s[1..Width(s[0] / 64)]);
  }

  // ---------------------------------------------------------------- reading inverts printing, both ways

  lemma TakeReads(b: Bytes, k: Bytes)
    ensures GetBytes(|b|, b + k) == Ok((b, k))
  {
  }

  lemma NumberReads(w: nat, n: nat, k: Bytes)
    requires n < Pow256(w)
    ensures GetNumber(w, BE(w, n) + k) == Ok((n, k))
  {
    TakeReads(BE(w, n), k);
    FromBEInvertsBE(w, n);
  }

  lemma VectorReads(b: Bytes, max: nat, k: Bytes)
    requires |b| <= max && |b| < VECTOR_LIMIT
    ensures GetVector(max, Vec(b) + k) == Ok((b, k))
  {
    hide Header, GetLength;
    Regroup(Header(|b|), b, k);
    HeaderReads(|b|, b + k);
    TakeReads(b, k);
  }

  lemma ExactReads(b: Bytes, n: nat, k: Bytes)
    requires |b| == n < VECTOR_LIMIT
    ensures GetExact(n, Vec(b) + k) == Ok((b, k))
  {
    hide Vec, GetVector;
    VectorReads(b, n, k);
  }

  lemma TakeIsRead(n: nat, s: Bytes)
    requires GetBytes(n, s).Ok?
    ensures var (b, k) := GetBytes(n, s).value; s == b + k && |b| == n
  {
  }

  lemma NumberIsRead(w: nat, s: Bytes)
    requires GetNumber(w, s).Ok?
    ensures var (n, k) := GetNumber(w, s).value; n < Pow256(w) && s == BE(w, n) + k
  {
    hide BE, FromBE;
    BEInvertsFromBE(s[..w]);
  }

  lemma VectorIsRead(max: nat, s: Bytes)
    requires GetVector(max, s).Ok?
    ensures var (b, k) := GetVector(max, s).value; |b| <= max && |b| < VECTOR_LIMIT && s == Vec(b) + k
  {
    hide Header, GetLength;
    HeaderIsRead(s);
    var (n, rest) := GetLength(s).value;
    var (b, k) := GetVector(max, s).value;
    Regroup(Header(n), b, k);
  }

  lemma ExactIsRead(n: nat, s: Bytes)
    requires GetExact(n, s).Ok?
    ensures var (b, k) := GetExact(n, s).value; |b| == n && |b| < VECTOR_LIMIT && s == Vec(b) + k
  {
    hide Vec, GetVector;
    VectorIsRead(n, s);
  }

  lemma ConstantReads(w: nat, n: nat, error: ExternalError, k: Bytes)
    requires n < Pow256(w)
    ensures GetConstant(w, n, error, BE(w, n) + k) == Ok(k)
  {
    hide GetNumber;
    NumberReads(w, n, k);
  }

  lemma ConstantIsRead(w: nat, n: nat, error: ExternalError, s: Bytes)
    requires GetConstant(w, n, error, s).Ok?
    ensures s == BE(w, n) + GetConstant(w, n, error, s).value
  {
    hide GetNumber;
    NumberIsRead(w, s);
  }

  /**
   * The vector reader accepts exactly the shortest header followed by that many bytes, and leaves what comes after.
   */
  lemma VectorInvertsHeader(max: nat, s: Bytes, b: Bytes, k: Bytes)
    ensures GetVector(max, s) == Ok((b, k)) <==> |b| <= max && |b| < VECTOR_LIMIT && s == Vec(b) + k
  {
    hide Vec, GetVector;
    if GetVector(max, s).Ok? {
      VectorIsRead(max, s);
    }
    if |b| <= max && |b| < VECTOR_LIMIT {
      VectorReads(b, max, k);
    }
  }

  // ---------------------------------------------------------------- the cursor as written

  /** A scan moves as the reader does and keeps no value. */
  ghost predicate Scans<T>(spec: Read<T>, r: Result<(), ExternalError>, left: Bytes) {
    match spec
    case Ok((_, k)) => r == Ok(()) && left == k
    case Err(e) => r == Err(e)
  }

  class Cursor {
    var bytes: Bytes

    constructor (bytes: Bytes)
      ensures this.bytes == bytes
    {
      this.bytes := bytes;
    }

    method Take(n: nat) returns (r: Result<Bytes, ExternalError>)
      modifies this
      ensures Follows(GetBytes(n, old(bytes)), r, bytes)
    {
      if n > |bytes| {
        return Err(DecodeRejected);
      }
      r := Ok(bytes[..n]);
      bytes := bytes[n..];
    }

    method Byte() returns (r: Result<byte, ExternalError>)
      modifies this
      ensures Follows(GetNumber(1, old(bytes)), r, bytes)
    {
      var b :- Take(1);
      TwoBytes(b[0], 0);
      assert b == [b[0]];
      return Ok(b[0]);
    }

    method U16() returns (r: Result<u16, ExternalError>)
      modifies this
      ensures Follows(GetNumber(2, old(bytes)), r, bytes)
    {
      var b :- Take(2);
      TwoBytes(b[0], b[1]);
      assert b == [b[0], b[1]];
      var high: nat := b[0];
      return Ok(256 * high + b[1]);
    }

    method Vector(max: nat) returns (r: Result<Bytes, ExternalError>)
      modifies this
      ensures Follows(GetVector(max, old(bytes)), r, bytes)
    {
      ghost var start := bytes;
      var first :- Byte();
      assert start[..1] == [first] by { TwoBytes(start[0], 0); assert start[..1] == [start[0]]; }
      var tag := first / 64;
      if tag == 3 {
        return Err(DecodeRejected);
      }
      var width := if tag == 0 then 1 else if tag == 1 then 2 else 4;
      var n: nat := first % 64;
      var rest :- Take(width - 1);
      TwoBytes(first % 64, 0);
      assert [first % 64] + rest[..0] == [first % 64];
      for i := 0 to |rest|
        invariant n == FromBE([first % 64] + rest[..i])
      {
        ghost var grown := [first % 64] + rest[..i + 1];
        assert grown[..|grown| - 1] == [first % 64] + rest[..i] && grown[|grown| - 1] == rest[i];
        n := n * 256 + rest[i];
      }
      assert rest[..|rest|] == rest;
      if (width == 2 && n < 64) || (width == 4 && n < 16384) {
        return Err(NoncanonicalEncoding);
      }
      if n > max {
        return Err(LimitExceeded);
      }
      r := Take(n);
    }

    method Exact(n: nat) returns (r: Result<(), ExternalError>)
      modifies this
      ensures Scans(GetExact(n, old(bytes)), r, bytes)
    {
      hide GetVector;
      var b :- Vector(n);
      if |b| != n {
        return Err(DecodeRejected);
      }
      return Ok(());
    }

    method Finish() returns (r: Result<(), ExternalError>)
      ensures r == if bytes == [] then Ok(()) else Err(DecodeRejected)
    {
      return if bytes == [] then Ok(()) else Err(DecodeRejected);
    }
  }
}
