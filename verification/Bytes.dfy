/** Byte strings, their lexicographic order (`bytes.Compare`), and big-endian
    integers (`encoding/binary`). */
module Bytes {
  import opened Wrappers

  type byte = b: int | 0 <= b < 256

  /** The order in which Pebble keeps its keys: `bytes.Compare(a, b) < 0`. */
  predicate Less(a: seq<byte>, b: seq<byte>) {
    b != [] && (a == [] || a[0] < b[0] || (a[0] == b[0] && Less(a[1..], b[1..])))
  }

  predicate AtMost(a: seq<byte>, b: seq<byte>) {
    !Less(b, a)
  }

  lemma LessIrreflexive(a: seq<byte>)
    ensures !Less(a, a)
  {
  }

  lemma LessTotal(a: seq<byte>, b: seq<byte>)
    ensures Less(a, b) || Less(b, a) || a == b
  {
    if a != [] && b != [] && a[0] == b[0] {
      LessTotal(a[1..], b[1..]);
      assert a == [a[0]] + a[1..] && b == [b[0]] + b[1..];
    }
  }

  lemma LessTransitive(a: seq<byte>, b: seq<byte>, c: seq<byte>)
    requires Less(a, b) && Less(b, c)
    ensures Less(a, c)
  {
    if a != [] && a[0] == b[0] == c[0] {
      LessTransitive(a[1..], b[1..], c[1..]);
    }
  }

  /** Heads of equal length decide first, the tails only between equal heads. */
  lemma {:induction false} LessConcat(a: seq<byte>, b: seq<byte>, x: seq<byte>, y: seq<byte>)
    requires |a| == |b|
    ensures Less(a + x, b + y) <==> Less(a, b) || (a == b && Less(x, y))
  {
    if a == [] {
      assert a + x == x && b + y == y;
    } else {
      LessConcat(a[1..], b[1..], x, y);
      assert (a + x)[1..] == a[1..] + x && (b + y)[1..] == b[1..] + y;
      assert a == [a[0]] + a[1..] && b == [b[0]] + b[1..];
    }
  }

  // ---- sorted lists of byte strings

  predicate Sorted(ks: seq<seq<byte>>) {
    forall i, j :: 0 <= i < j < |ks| ==> Less(ks[i], ks[j])
  }

  lemma {:induction false} FirstKeyExists(ks: set<seq<byte>>)
    requires ks != {}
    ensures exists k :: k in ks && forall j :: j in ks ==> AtMost(k, j)
  {
    var k := SomeMember(ks);
    if ks == {k} {
      LessIrreflexive(k);
      assert forall j :: j in ks ==> AtMost(k, j);
    } else {
      FirstKeyExists(ks - {k});
      var m :| m in ks - {k} && forall j :: j in ks - {k} ==> AtMost(m, j);
      var first := if Less(k, m) then k else m;
      forall j | j in ks ensures AtMost(first, j) {
        LessIrreflexive(k);
        if j != k && first == k && Less(j, k) {
          LessTransitive(j, k, m);
        }
        assert j == k || j in ks - {k};
      }
    }
  }

  method SortKeys(keys: set<seq<byte>>) returns (ks: seq<seq<byte>>)
    ensures Sorted(ks)
    ensures forall k :: k in ks <==> k in keys
  {
    var rest := keys;
    ks := [];
    while rest != {}
      invariant Sorted(ks)
      invariant forall k :: k in keys <==> k in ks || k in rest
      invariant forall i, k :: 0 <= i < |ks| && k in rest ==> Less(ks[i], k)
      decreases |rest|
    {
      FirstKeyExists(rest);
      var first :| first in rest && forall k :: k in rest ==> AtMost(first, k);
      forall k | k in rest && k != first ensures Less(first, k) {
        LessTotal(first, k);
      }
      ks := ks + [first];
      rest := rest - {first};
    }
  }

  /** A set of byte strings in order. */
  ghost function SortedList(keys: set<seq<byte>>): (ks: seq<seq<byte>>)
    ensures Sorted(ks)
    ensures forall k :: k in ks <==> k in keys
  {
    if keys == {} then [] else
      FirstKeyExists(keys);
      var first :| first in keys && forall k :: k in keys ==> AtMost(first, k);
      var rest := SortedList(keys - {first});
      FirstIsLess(first, keys);
      assert forall k :: k in keys <==> k == first || k in rest;
      [first] + rest
  }

  lemma FirstIsLess(first: seq<byte>, keys: set<seq<byte>>)
    requires forall k :: k in keys ==> AtMost(first, k)
    ensures forall k :: k in keys && k != first ==> Less(first, k)
  {
    forall k | k in keys && k != first ensures Less(first, k) {
      LessTotal(first, k);
    }
  }

  /** There is only one sorted list of a given set. */
  lemma {:induction false} SortedUnique(a: seq<seq<byte>>, b: seq<seq<byte>>)
    requires Sorted(a) && Sorted(b) && forall k :: k in a <==> k in b
    ensures a == b
  {
    assert b != [] ==> b[0] in a;
    if a != [] {
      assert a[0] in b && b[0] in a;
      SortedHeads(a, b);
      SortedTail(a);
      SortedTail(b);
      SortedUnique(a[1..], b[1..]);
      assert a == [a[0]] + a[1..] && b == [b[0]] + b[1..];
    }
  }

  lemma SortedTail(a: seq<seq<byte>>)
    requires Sorted(a) && a != []
    ensures forall k :: k in a[1..] <==> k in a && k != a[0]
  {
    LessIrreflexive(a[0]);
    forall k ensures k in a[1..] <==> k in a && k != a[0] {
      if k in a {
        var i :| 0 <= i < |a| && a[i] == k;
        assert i > 0 ==> a[1..][i - 1] == k;
      }
    }
  }

  lemma SortedHeads(a: seq<seq<byte>>, b: seq<seq<byte>>)
    requires Sorted(a) && Sorted(b) && a != [] && b != [] && a[0] in b && b[0] in a
    ensures a[0] == b[0]
  {
    LessIrreflexive(a[0]);
    if a[0] != b[0] {
      assert Less(a[0], b[0]) && Less(b[0], a[0]);
      LessTransitive(a[0], b[0], a[0]);
    }
  }

  // ---- big-endian integers

  /** 256 to the n-th. */
  function Span(n: nat): nat {
    if n == 0 then 1 else Span(n - 1) * 256
  }

  /** The n low bytes of v, most significant first. */
  function BigEndian(n: nat, v: nat): (s: seq<byte>)
    ensures |s| == n
  {
    if n == 0 then [] else BigEndian(n - 1, v / 256) + [v % 256]
  }

  /** The number whose big-endian digits are s. */
  function Value(s: seq<byte>): nat {
    if s == [] then 0 else Value(s[..|s| - 1]) * 256 + s[|s| - 1]
  }

  lemma {:induction false} ValueOfBigEndian(n: nat, v: nat)
    requires v < Span(n)
    ensures Value(BigEndian(n, v)) == v
  {
    if n > 0 {
      ValueOfBigEndian(n - 1, v / 256);
      assert BigEndian(n, v)[..n - 1] == BigEndian(n - 1, v / 256);
    }
  }

  lemma {:induction false} BigEndianOfValue(s: seq<byte>)
    ensures Value(s) < Span(|s|)
    ensures BigEndian(|s|, Value(s)) == s
  {
    if s != [] {
      BigEndianOfValue(s[..|s| - 1]);
      assert Value(s) / 256 == Value(s[..|s| - 1]);
    }
  }

  /** Big-endian bytes sort as the numbers do. */
  lemma {:induction false} BigEndianOrder(n: nat, u: nat, v: nat)
    requires u < Span(n) && v < Span(n)
    ensures Less(BigEndian(n, u), BigEndian(n, v)) <==> u < v
  {
    if n > 0 {
      assert u == u / 256 * 256 + u % 256 && v == v / 256 * 256 + v % 256;
      assert Less([u % 256], [v % 256]) <==> u % 256 < v % 256;
      BigEndianOrder(n - 1, u / 256, v / 256);
      LessConcat(BigEndian(n - 1, u / 256), BigEndian(n - 1, v / 256), [u % 256], [v % 256]);
      ValueOfBigEndian(n - 1, u / 256);
      ValueOfBigEndian(n - 1, v / 256);
    }
  }
}
