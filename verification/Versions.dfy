/** Which versions of a card survive pruning: the theory of "the newest n". */
module Versions {
  import opened Wrappers

  ghost function Larger(vs: set<int>, v: int): set<int> {
    set w | w in vs && v < w
  }

  /** The n largest members: those with fewer than n members above them. */
  ghost function Newest(vs: set<int>, n: int): set<int> {
    set v | v in vs && |Larger(vs, v)| < n
  }

  predicate Ascending(s: seq<int>) {
    forall i, j :: 0 <= i < j < |s| ==> s[i] < s[j]
  }

  ghost function Elements(s: seq<int>): set<int> {
    set v | v in s
  }

  lemma {:induction false} ElementCount(s: seq<int>)
    requires Ascending(s)
    ensures |Elements(s)| == |s|
  {
    if s != [] {
      var front, last := s[..|s| - 1], s[|s| - 1];
      ElementCount(front);
      assert s == front + [last];
      assert last !in Elements(front);
      assert Elements(s) == Elements(front) + {last};
    }
  }

  /** Membership in the newest n is a comparison with one list element. */
  lemma NewestOfAscending(s: seq<int>, n: int)
    requires Ascending(s) && 1 <= n <= |s|
    ensures Newest(Elements(s), n) == Elements(s[|s| - n..])
    ensures forall v :: v in Newest(Elements(s), n) <==> v in Elements(s) && s[|s| - n] <= v
  {
    forall i | 0 <= i < |s|
      ensures |Larger(Elements(s), s[i])| == |s| - 1 - i
    {
      var above := s[i + 1..];
      forall w ensures w in Larger(Elements(s), s[i]) <==> w in Elements(above) {
        if w in Elements(s) {
          var j :| 0 <= j < |s| && s[j] == w;
          if i < j {
            assert above[j - i - 1] == w;
          }
        }
      }
      assert Larger(Elements(s), s[i]) == Elements(above);
      ElementCount(above);
    }
    forall v | v in Elements(s)
      ensures v in Newest(Elements(s), n) <==> s[|s| - n] <= v
      ensures v in Elements(s[|s| - n..]) <==> s[|s| - n] <= v
    {
      var i :| 0 <= i < |s| && s[i] == v;
      if |s| - n <= i {
        assert s[|s| - n..][i - (|s| - n)] == v;
      }
    }
  }

  // ---- a set listed in ascending order

  lemma {:induction false} LeastExists(vs: set<int>)
    requires vs != {}
    ensures exists m :: m in vs && forall v :: v in vs ==> m <= v
  {
    var m := SomeMember(vs);
    if vs != {m} {
      LeastExists(vs - {m});
      var k :| k in vs - {m} && forall v :: v in vs - {m} ==> k <= v;
      var least := if k < m then k else m;
      forall v | v in vs ensures least <= v {
        assert v == m || v in vs - {m};
      }
    }
  }

  ghost function Listed(vs: set<int>): (s: seq<int>)
    ensures Ascending(s) && Elements(s) == vs
  {
    if vs == {} then [] else
      LeastExists(vs);
      var m :| m in vs && forall v :: v in vs ==> m <= v;
      var rest := Listed(vs - {m});
      assert forall v :: v in vs <==> v == m || v in Elements(rest);
      [m] + rest
  }

  /** There is only one ascending list of a given set. */
  lemma {:induction false} ListedUnique(s: seq<int>)
    requires Ascending(s)
    ensures s == Listed(Elements(s))
  {
    AscendingEqual(s, Listed(Elements(s)));
  }

  lemma ListsSet(s: seq<int>, vs: set<int>)
    requires Ascending(s) && forall v :: v in s <==> v in vs
    ensures s == Listed(vs)
  {
    SameElements(s, vs);
    ListedUnique(s);
  }

  lemma SameElements(s: seq<int>, vs: set<int>)
    requires forall v :: v in s <==> v in vs
    ensures Elements(s) == vs
  {
    forall v ensures v in Elements(s) <==> v in vs {
      assert v in Elements(s) <==> v in s;
    }
  }

  lemma {:induction false} AscendingEqual(a: seq<int>, b: seq<int>)
    requires Ascending(a) && Ascending(b) && Elements(a) == Elements(b)
    ensures a == b
  {
    ElementCount(a);
    ElementCount(b);
    if a != [] {
      assert a[0] in Elements(b) && a[0] in b;
      assert b[0] in Elements(a) && b[0] in a;
      forall v ensures v in Elements(a[1..]) <==> v in Elements(a) && v != a[0] {
      }
      forall v ensures v in Elements(b[1..]) <==> v in Elements(b) && v != b[0] {
      }
      AscendingEqual(a[1..], b[1..]);
    }
  }

  lemma NewestCount(vs: set<int>, n: int)
    requires n >= 0
    ensures |Newest(vs, n)| == if |vs| <= n then |vs| else n
    ensures |vs| <= n ==> Newest(vs, n) == vs
  {
    var s := Listed(vs);
    ElementCount(s);
    if n == 0 {
      assert Newest(vs, n) == {};
    } else if n <= |vs| {
      NewestOfAscending(s, n);
      ElementCount(s[|s| - n..]);
      if n == |vs| {
        assert s[|s| - n..] == s;
      }
    } else {
      forall v | v in vs ensures v in Newest(vs, n) {
        assert Larger(vs, v) <= vs;
        SubsetCount(Larger(vs, v), vs);
      }
      assert Newest(vs, n) == vs;
    }
  }

  lemma SubsetCount(a: set<int>, b: set<int>)
    requires a <= b
    ensures |a| <= |b|
    ensures a < b ==> |a| < |b|
  {
    assert b == a + (b - a);
    if a < b {
      assert b - a != {};
    }
  }

  // ---- the two pruning policies

  /** pblob prunes to max - 1 and then adds; a known version prunes nothing. */
  ghost function PruneThenAdd(vs: set<int>, max: int, v: int): set<int> {
    if v in vs then vs else Newest(vs, max - 1) + {v}
  }

  /** sqlblob adds and then prunes to max. */
  ghost function AddThenPrune(vs: set<int>, max: int, v: int): set<int> {
    Newest(vs + {v}, max)
  }

  lemma LargerAfterAdd(vs: set<int>, v: int, x: int)
    requires v !in vs
    ensures |Larger(vs + {v}, x)| == |Larger(vs, x)| + if x < v then 1 else 0
  {
    if x < v {
      assert Larger(vs + {v}, x) == Larger(vs, x) + {v};
    } else {
      assert Larger(vs + {v}, x) == Larger(vs, x);
    }
  }

  /** From a full set, adding a version newer than the oldest held drops exactly
      that oldest one, whichever policy is used. */
  lemma PoliciesMeetWhenFull(vs: set<int>, max: int, v: int, oldest: int)
    requires |vs| == max && max >= 2 && v !in vs
    requires oldest in vs && oldest < v && forall w :: w in vs ==> oldest <= w
    ensures AddThenPrune(vs, max, v) == vs - {oldest} + {v}
    ensures PruneThenAdd(vs, max, v) == vs - {oldest} + {v}
  {
    forall x | x in vs || x == v
      ensures x in AddThenPrune(vs, max, v) <==> x != oldest
      ensures x in PruneThenAdd(vs, max, v) <==> x != oldest
    {
      AboveOldest(vs, oldest, x);
      LargerAfterAdd(vs, v, x);
    }
  }

  /** Everything is above the oldest version; above any other there is one less. */
  lemma AboveOldest(vs: set<int>, oldest: int, x: int)
    requires oldest in vs && oldest <= x && forall w :: w in vs ==> oldest <= w
    ensures x == oldest ==> |Larger(vs, x)| == |vs| - 1
    ensures x != oldest ==> |Larger(vs, x)| <= |vs| - 1 - if x in vs then 1 else 0
  {
    if x == oldest {
      assert Larger(vs, x) == vs - {oldest};
    } else {
      assert Larger(vs, x) <= vs - {oldest} - {x};
      SubsetCount(Larger(vs, x), vs - {oldest} - {x});
    }
  }

  /** Adding a version older than all of a full set drops that very version again. */
  lemma TooOldIsDropped(vs: set<int>, max: int, v: int)
    requires |vs| == max && max >= 1 && v !in vs
    requires forall w :: w in vs ==> v < w
    ensures AddThenPrune(vs, max, v) == vs
  {
    assert Larger(vs, v) == vs;
    LargerAfterAdd(vs, v, v);
    forall x | x in vs ensures x in AddThenPrune(vs, max, v) {
      LargerAfterAdd(vs, v, x);
      assert x !in Larger(vs, x);
      SubsetCount(Larger(vs, x), vs);
    }
  }

  /** Both backends keep the same versions exactly when the version was known, or
      there was room, or it is newer than the oldest one held. */
  lemma PoliciesAgree(vs: set<int>, max: int, v: int)
    requires |vs| <= max && max >= 2
    ensures PruneThenAdd(vs, max, v) == AddThenPrune(vs, max, v)
            <==> v in vs || |vs| < max || exists w :: w in vs && w < v
  {
    if v in vs {
      assert vs + {v} == vs;
      NewestCount(vs, max);
    } else if |vs| < max {
      NewestCount(vs, max - 1);
      NewestCount(vs + {v}, max);
    } else {
      LeastExists(vs);
      var oldest :| oldest in vs && forall w :: w in vs ==> oldest <= w;
      if oldest < v {
        PoliciesMeetWhenFull(vs, max, v, oldest);
      } else {
        TooOldIsDropped(vs, max, v);
        assert v in PruneThenAdd(vs, max, v);
      }
    }
  }

  /** A version just saved is still there under sqlblob's policy exactly when it
      is not older than everything in a full set. */
  lemma SavedVersionSurvives(vs: set<int>, max: int, v: int)
    requires |vs| <= max && max >= 1
    ensures v in AddThenPrune(vs, max, v) <==> v in vs || |vs| < max || exists w :: w in vs && w < v
  {
    if v in vs {
      assert vs + {v} == vs;
      NewestCount(vs, max);
    } else if |vs| < max {
      NewestCount(vs + {v}, max);
    } else {
      LargerAfterAdd(vs, v, v);
      if w :| w in vs && w < v {
        assert w !in Larger(vs, v);
        SubsetCount(Larger(vs, v), vs);
      } else {
        assert Larger(vs, v) == vs;
      }
    }
  }

  /** Neither policy ever lets a card hold more than max versions. */
  lemma PoliciesBounded(vs: set<int>, max: int, v: int)
    requires |vs| <= max && max >= 1
    ensures |PruneThenAdd(vs, max, v)| <= max
    ensures |AddThenPrune(vs, max, v)| <= max
    ensures AddThenPrune(vs, max, v) != {} && PruneThenAdd(vs, max, v) != {}
  {
    NewestCount(vs, max - 1);
    NewestCount(vs + {v}, max);
    if v !in vs {
      assert |Newest(vs, max - 1) + {v}| <= |Newest(vs, max - 1)| + 1;
      assert v in PruneThenAdd(vs, max, v);
    }
    assert v in vs + {v};
  }
}
