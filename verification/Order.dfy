/** The order of byte strings, and the library sort by a byte-string key. */
module Order {
  import opened Foundation

  /** Lexicographic order, a proper prefix first. */
  predicate LexLe(a: Bytes, b: Bytes) {
    a == [] || (b != [] && (a[0] < b[0] || (a[0] == b[0] && LexLe(a[1..], b[1..]))))
  }

  lemma {:induction false} LexTotal(a: Bytes, b: Bytes)
    ensures LexLe(a, b) || LexLe(b, a)
    ensures LexLe(a, b) && LexLe(b, a) <==> a == b
  {
    if a != [] && b != [] {
      LexTotal(a[1..], b[1..]);
      assert a == [a[0]] + a[1..] && b == [b[0]] + b[1..];
    }
  }

  lemma {:induction false} LexTransitive(a: Bytes, b: Bytes, c: Bytes)
    requires LexLe(a, b) && LexLe(b, c)
    ensures LexLe(a, c)
  {
    if a != [] && a[0] == b[0] == c[0] {
      LexTransitive(a[1..], b[1..], c[1..]);
    }
  }

  /** `a` comes first: at the first place where they differ its byte is smaller, or it ends there. */
  predicate Before(a: Bytes, b: Bytes, i: nat) {
    i <= |a| && i < |b| && a[..i] == b[..i] && (i == |a| || a[i] < b[i])
  }

  lemma FirstsAgree(a: Bytes, b: Bytes, i: nat)
    requires Before(a, b, i)
    ensures i > 0 ==> a[0] == b[0]
  {
    if i > 0 {
      assert a[..i][0] == a[0] && b[..i][0] == b[0];
    }
  }

  lemma {:induction false} LexLeMeans(a: Bytes, b: Bytes)
    ensures LexLe(a, b) <==> a == b || exists i: nat :: Before(a, b, i)
  {
    if a == [] {
      assert b != [] ==> Before(a, b, 0);
    } else if b != [] && a[0] == b[0] {
      LexLeMeans(a[1..], b[1..]);
      assert a == [a[0]] + a[1..] && b == [b[0]] + b[1..];
      if exists i: nat :: Before(a[1..], b[1..], i) {
        var i: nat :| Before(a[1..], b[1..], i);
        assert a[..i + 1] == [a[0]] + a[1..][..i] && b[..i + 1] == [b[0]] + b[1..][..i];
        assert Before(a, b, i + 1);
      }
      if exists i: nat :: Before(a, b, i) {
        var i: nat :| Before(a, b, i);
        assert a[1..][..i - 1] == a[..i][1..] && b[1..][..i - 1] == b[..i][1..];
        assert Before(a[1..], b[1..], i - 1);
      }
    } else if b != [] {
      assert a[0] < b[0] ==> Before(a, b, 0);
      forall i: nat | Before(a, b, i) ensures i == 0 {
        FirstsAgree(a, b, i);
      }
    }
  }

  predicate SortedBy<T>(key: T -> Bytes, s: seq<T>) {
    forall i, j :: 0 <= i < j < |s| ==> LexLe(key(s[i]), key(s[j]))
  }

  predicate DistinctBy<T>(key: T -> Bytes, s: seq<T>) {
    forall i, j :: 0 <= i < j < |s| ==> key(s[i]) != key(s[j])
  }

  lemma DistinctGrows<T>(key: T -> Bytes, s: seq<T>, x: T)
    ensures DistinctBy(key, s + [x]) <==> DistinctBy(key, s) && forall y :: y in s ==> key(y) != key(x)
  {
    var t := s + [x];
    assert t[|s|] == x && forall i :: 0 <= i < |s| ==> t[i] == s[i];
    if DistinctBy(key, t) {
      forall i, j | 0 <= i < j < |s| ensures key(s[i]) != key(s[j]) {
        assert key(t[i]) != key(t[j]);
      }
      forall y | y in s ensures key(y) != key(x) {
        var i :| 0 <= i < |s| && s[i] == y;
        assert key(t[i]) != key(t[|s|]);
      }
    }
    if DistinctBy(key, s) && forall y :: y in s ==> key(y) != key(x) {
      forall i, j | 0 <= i < j < |t| ensures key(t[i]) != key(t[j]) {
        assert t[i] in s;
      }
    }
  }

  predicate HasAdjacentTwins<T>(key: T -> Bytes, s: seq<T>) {
    exists i :: 0 <= i < |s| - 1 && key(s[i]) == key(s[i + 1])
  }

  /** Puts `x` before the first element not below it, so equal keys keep their order. */
  function Insert<T>(key: T -> Bytes, x: T, s: seq<T>): (r: seq<T>)
    ensures multiset(r) == multiset{x} + multiset(s) && |r| == |s| + 1
  {
    if s == [] || LexLe(key(x), key(s[0])) then [x] + s
    else
      assert s == [s[0]] + s[1..];
      [s[0]] + Insert(key, x, s[1..])
  }

  /** The stable library sort. */
  function SortBy<T>(key: T -> Bytes, s: seq<T>): (r: seq<T>)
    ensures multiset(r) == multiset(s) && |r| == |s|
  {
    if s == [] then [] else
      assert s == [s[0]] + s[1..];
      Insert(key, s[0], SortBy(key, s[1..]))
  }

  lemma {:induction false} InsertSorts<T>(key: T -> Bytes, x: T, s: seq<T>)
    requires SortedBy(key, s)
    ensures SortedBy(key, Insert(key, x, s))
  {
    if s == [] {
    } else if LexLe(key(x), key(s[0])) {
      forall j | 0 <= j < |s| ensures LexLe(key(x), key(s[j])) {
        if j > 0 {
          LexTransitive(key(x), key(s[0]), key(s[j]));
        }
      }
    } else {
      LexTotal(key(x), key(s[0]));
      InsertSorts(key, x, s[1..]);
      var t := Insert(key, x, s[1..]);
      forall j | 0 <= j < |t| ensures LexLe(key(s[0]), key(t[j])) {
        assert t[j] in multiset(t);
        if t[j] != x {
          assert t[j] in multiset(s[1..]);
        }
      }
    }
  }

  lemma {:induction false} SortSorts<T>(key: T -> Bytes, s: seq<T>)
    ensures SortedBy(key, SortBy(key, s))
  {
    if s != [] {
      SortSorts(key, s[1..]);
      InsertSorts(key, s[0], SortBy(key, s[1..]));
    }
  }

  lemma {:induction false} SortOfSorted<T>(key: T -> Bytes, s: seq<T>)
    requires SortedBy(key, s)
    ensures SortBy(key, s) == s
  {
    if s != [] {
      SortOfSorted(key, s[1..]);
      assert s == [s[0]] + s[1..];
    }
  }

  /** Looking only at neighbours finds every repeated key of a sorted list. */
  lemma NoTwinsMeansDistinct<T>(key: T -> Bytes, s: seq<T>)
    requires SortedBy(key, s)
    ensures HasAdjacentTwins(key, s) <==> !DistinctBy(key, s)
  {
    if !HasAdjacentTwins(key, s) {
      forall i, j | 0 <= i < j < |s| ensures key(s[i]) != key(s[j]) {
        if i + 1 < j {
          LexTotal(key(s[i]), key(s[i + 1]));
        }
      }
    }
  }

  lemma {:induction false} InsertKeepsDistinct<T>(key: T -> Bytes, x: T, s: seq<T>)
    requires DistinctBy(key, s) && forall j :: 0 <= j < |s| ==> key(s[j]) != key(x)
    ensures DistinctBy(key, Insert(key, x, s))
  {
    if s != [] && !LexLe(key(x), key(s[0])) {
      InsertKeepsDistinct(key, x, s[1..]);
      var t := Insert(key, x, s[1..]);
      forall j | 0 <= j < |t| ensures key(t[j]) != key(s[0]) {
        assert t[j] in multiset(t);
        if t[j] != x {
          assert t[j] in multiset(s[1..]);
        }
      }
    }
  }

  lemma {:induction false} SortKeepsDistinct<T>(key: T -> Bytes, s: seq<T>)
    requires DistinctBy(key, s)
    ensures DistinctBy(key, SortBy(key, s))
  {
    if s != [] {
      SortKeepsDistinct(key, s[1..]);
      var t := SortBy(key, s[1..]);
      forall j | 0 <= j < |t| ensures key(t[j]) != key(s[0]) {
        assert t[j] in multiset(t);
        assert t[j] in multiset(s[1..]);
      }
      InsertKeepsDistinct(key, s[0], t);
    }
  }

  lemma {:induction false} SortKeepsRepeats<T>(key: T -> Bytes, s: seq<T>)
    requires !DistinctBy(key, s)
    ensures !DistinctBy(key, SortBy(key, s))
  {
    var rest := SortBy(key, s[1..]);
    if DistinctBy(key, s[1..]) {
      var j :| 1 <= j < |s| && key(s[j]) == key(s[0]);
      SortKeepsElements(key, s[1..]);
      assert s[j] == s[1..][j - 1];
      assert s[j] in s[1..] && s[j] in rest;
      var p :| 0 <= p < |rest| && rest[p] == s[j];
      InsertRepeats(key, s[0], rest, p);
    } else {
      SortKeepsRepeats(key, s[1..]);
      InsertKeepsRepeats(key, s[0], rest);
    }
  }

  lemma {:induction false} InsertRepeats<T>(key: T -> Bytes, x: T, s: seq<T>, p: nat)
    requires p < |s| && key(s[p]) == key(x)
    ensures !DistinctBy(key, Insert(key, x, s))
  {
    var t := Insert(key, x, s);
    if LexLe(key(x), key(s[0])) {
      assert key(t[0]) == key(t[p + 1]);
    } else {
      LexTotal(key(x), key(s[0]));
      InsertRepeats(key, x, s[1..], p - 1);
      assert t[1..] == Insert(key, x, s[1..]);
    }
  }

  lemma {:induction false} InsertKeepsRepeats<T>(key: T -> Bytes, x: T, s: seq<T>)
    requires !DistinctBy(key, s)
    ensures !DistinctBy(key, Insert(key, x, s))
  {
    var t := Insert(key, x, s);
    if LexLe(key(x), key(s[0])) {
      assert t[1..] == s;
    } else if DistinctBy(key, s[1..]) {
      var j :| 1 <= j < |s| && key(s[j]) == key(s[0]);
      assert s[j] == s[1..][j - 1];
      assert s[j] in multiset(Insert(key, x, s[1..]));
      var p :| 0 <= p < |t[1..]| && t[1..][p] == s[j];
      assert key(t[0]) == key(t[p + 1]);
    } else {
      InsertKeepsRepeats(key, x, s[1..]);
      assert t[1..] == Insert(key, x, s[1..]);
    }
  }

  lemma SortKeepsElements<T>(key: T -> Bytes, s: seq<T>)
    ensures forall x :: x in SortBy(key, s) <==> x in s
  {
    forall x ensures x in SortBy(key, s) <==> x in s {
      assert x in multiset(SortBy(key, s)) <==> x in multiset(s);
    }
  }

  /** A strictly sorted list is determined by its elements. */
  lemma {:induction false} SortedIsUnique<T>(key: T -> Bytes, a: seq<T>, b: seq<T>)
    requires SortedBy(key, a) && SortedBy(key, b) && DistinctBy(key, a) && DistinctBy(key, b)
    requires forall x :: x in a <==> x in b
    ensures a == b
  {
    assert (a == [] || a[0] in a) && (b == [] || b[0] in b);
    if a == [] || b == [] {
    } else {
      assert a[0] in b && b[0] in a;
      LexTotal(key(a[0]), key(b[0]));
      assert a[0] == b[0];
      forall x ensures x in a[1..] <==> x in b[1..] {
        assert x in a <==> x == a[0] || x in a[1..];
        assert x in b <==> x == b[0] || x in b[1..];
        assert a[0] !in a[1..] && b[0] !in b[1..];
      }
      SortedIsUnique(key, a[1..], b[1..]);
      assert a == [a[0]] + a[1..] && b == [b[0]] + b[1..];
    }
  }
}
