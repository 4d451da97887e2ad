/** The three stable sorts of the meld engine. `Collections.sort` is stable,
    and a stable sort is determined by its key: the result is the unique
    ordering that is sorted by the key and keeps the relative order of cards
    with equal keys. It is written here as insertion sort. */
module Sorting {
  import opened Cards
  import opened Hands

  /** The comparators of sortByCardID, sortBySeqGrpMarker and sortByFaceValue. */
  datatype Key = ById | ByMarker | ByFace

  function KeyOf(k: Key, c: Card): int {
    match k
    case ById => Id(c)
    case ByMarker => c.marker
    case ByFace => c.face
  }

  ghost predicate Sorted(k: Key, s: seq<Card>) {
    forall i, j | 0 <= i < j < |s| :: KeyOf(k, s[i]) <= KeyOf(k, s[j])
  }

  /** The cards of `s` whose key is `v`, in their order in `s`. A stable sort
      keeps every such subsequence as it was. */
  function KeyClass(k: Key, v: int, s: seq<Card>): seq<Card> {
    if |s| == 0 then []
    else (if KeyOf(k, s[0]) == v then [s[0]] else []) + KeyClass(k, v, s[1..])
  }

  /** Places `x` before the first card whose key is not below its own. */
  function Insert(k: Key, x: Card, s: seq<Card>): (r: seq<Card>)
    ensures |r| == |s| + 1
    ensures multiset(r) == multiset(s) + multiset{x}
    decreases |s|
  {
    if |s| == 0 then [x]
    else if KeyOf(k, x) <= KeyOf(k, s[0]) then [x] + s
    else
      assert s == [s[0]] + s[1..];
      [s[0]] + Insert(k, x, s[1..])
  }

  /** Stable sort of `s` by key `k`: sorted, and every class of equal keys
      keeps its order. */
  function SortBy(k: Key, s: seq<Card>): (r: seq<Card>)
    ensures |r| == |s|
    ensures multiset(r) == multiset(s)
    ensures Sorted(k, r)
    ensures forall v :: KeyClass(k, v, r) == KeyClass(k, v, s)
    decreases |s|
  {
    if |s| == 0 then []
    else
      var t := SortBy(k, s[1..]);
      assert s == [s[0]] + s[1..];
      InsertSorted(k, s[0], t);
      InsertKeyClass(k, s[0], t);
      KeyClassCons(k, s[0], s[1..]);
      Insert(k, s[0], t)
  }

  lemma KeyClassCons(k: Key, a: Card, t: seq<Card>)
    ensures forall v :: KeyClass(k, v, [a] + t) == (if KeyOf(k, a) == v then [a] else []) + KeyClass(k, v, t)
  {
    assert ([a] + t)[1..] == t;
  }

  lemma {:induction false} InsertSorted(k: Key, x: Card, s: seq<Card>)
    requires Sorted(k, s)
    ensures Sorted(k, Insert(k, x, s))
    decreases |s|
  {
    if |s| == 0 {
    } else if KeyOf(k, x) <= KeyOf(k, s[0]) {
      SortedTail(k, s);
      SortedCons(k, x, s);
    } else {
      SortedTail(k, s);
      InsertSorted(k, x, s[1..]);
      InsertBound(k, x, s[1..], KeyOf(k, s[0]));
      SortedCons(k, s[0], Insert(k, x, s[1..]));
    }
  }

  /** A card keyed no higher than every card of a sorted sequence can go in
      front of it. */
  lemma SortedCons(k: Key, a: Card, t: seq<Card>)
    requires Sorted(k, t)
    requires |t| == 0 || KeyOf(k, a) <= KeyOf(k, t[0])
    ensures Sorted(k, [a] + t)
  {
    var r := [a] + t;
    forall i, j | 0 <= i < j < |r|
      ensures KeyOf(k, r[i]) <= KeyOf(k, r[j])
    {
      if i == 0 {
        assert r[j] == t[j - 1];
        assert KeyOf(k, t[0]) <= KeyOf(k, t[j - 1]);
      } else {
        assert r[i] == t[i - 1] && r[j] == t[j - 1];
      }
    }
  }

  /** Insertion keeps a lower bound on the keys. */
  lemma {:induction false} InsertBound(k: Key, x: Card, s: seq<Card>, b: int)
    requires forall i | 0 <= i < |s| :: b <= KeyOf(k, s[i])
    requires b <= KeyOf(k, x)
    ensures forall i | 0 <= i < |Insert(k, x, s)| :: b <= KeyOf(k, Insert(k, x, s)[i])
    decreases |s|
  {
    if |s| > 0 && KeyOf(k, x) > KeyOf(k, s[0]) {
      InsertBound(k, x, s[1..], b);
      var t := Insert(k, x, s[1..]);
      assert Insert(k, x, s) == [s[0]] + t;
      forall i | 0 < i < |t| + 1
        ensures b <= KeyOf(k, ([s[0]] + t)[i])
      {
        assert ([s[0]] + t)[i] == t[i - 1];
      }
    }
  }

  /** `x` lands before every card of equal key already in `s`. */
  lemma {:induction false} InsertKeyClass(k: Key, x: Card, s: seq<Card>)
    ensures forall v :: KeyClass(k, v, Insert(k, x, s)) == (if KeyOf(k, x) == v then [x] else []) + KeyClass(k, v, s)
    decreases |s|
  {
    if |s| == 0 {
      KeyClassCons(k, x, []);
    } else if KeyOf(k, x) <= KeyOf(k, s[0]) {
      KeyClassCons(k, x, s);
      if KeyOf(k, x) < KeyOf(k, s[0]) {
      } else {
        KeyClassCons(k, s[0], s[1..]);
        assert s == [s[0]] + s[1..];
      }
    } else {
      InsertKeyClass(k, x, s[1..]);
      KeyClassCons(k, s[0], Insert(k, x, s[1..]));
      KeyClassCons(k, s[0], s[1..]);
      assert s == [s[0]] + s[1..];
    }
  }

  // ------------------------------------------------------------ lemmas

  /** Sorting what is already sorted changes nothing. */
  lemma {:induction false} SortSortedIsIdentity(k: Key, s: seq<Card>)
    requires Sorted(k, s)
    ensures SortBy(k, s) == s
    decreases |s|
  {
    if |s| > 0 {
      SortedTail(k, s);
      SortSortedIsIdentity(k, s[1..]);
      SortByCons(k, s);
      InsertFront(k, s[0], s[1..]);
      assert s == [s[0]] + s[1..];
    }
  }

  lemma {:induction false} InsertAfterSmaller(k: Key, x: Card, a: seq<Card>, b: seq<Card>)
    requires forall i | 0 <= i < |a| :: KeyOf(k, a[i]) < KeyOf(k, x)
    requires |b| == 0 || KeyOf(k, x) <= KeyOf(k, b[0])
    ensures Insert(k, x, a + b) == a + [x] + b
    decreases |a|
  {
    if |a| == 0 {
      InsertFront(k, x, b);
      assert a + b == b;
      assert a + [x] + b == [x] + b;
    } else {
      var t := a[1..];
      assert forall i | 0 <= i < |t| :: KeyOf(k, t[i]) < KeyOf(k, x) by {
        forall i | 0 <= i < |t|
          ensures KeyOf(k, t[i]) < KeyOf(k, x)
        {
          assert t[i] == a[i + 1];
        }
      }
      InsertAfterSmaller(k, x, t, b);
      InsertPast(k, x, a[0], t + b);
      ConsAppend(a, b, x);
    }
  }

  /** Sorting by marker moves the marked cards to the front in marker order
      and keeps the unmarked ones, in their order, behind them — provided the
      marked cards already carry increasing markers below the sentinel. */
  lemma {:induction false} SortByMarkerSplits(s: seq<Card>)
    requires MarkersIncreasing(s)
    ensures SortBy(ByMarker, s) == Marked(s) + Unmarked(s)
    decreases |s|
  {
    if |s| > 0 {
      MarkersIncreasingTail(s);
      SortByMarkerSplits(s[1..]);
      SortByCons(ByMarker, s);
      MarkedCons(s);
      MarkedBelowSentinel(s[1..]);
      if IsMarked(s[0]) {
        HeadBelowMarked(s);
        InsertMarked(s[0], Marked(s[1..]), Unmarked(s[1..]));
        assert Marked(s) == [s[0]] + Marked(s[1..]);
        assert Unmarked(s) == Unmarked(s[1..]);
      } else {
        InsertUnmarked(s[0], Marked(s[1..]), Unmarked(s[1..]));
        assert Marked(s) == Marked(s[1..]);
        assert Unmarked(s) == [s[0]] + Unmarked(s[1..]);
      }
    }
  }

  /** A marked card inserted by marker goes in front of later-marked and
      unmarked cards. */
  lemma InsertMarked(x: Card, m: seq<Card>, u: seq<Card>)
    requires x.marker < DefaultMarker
    requires forall i | 0 <= i < |m| :: x.marker < m[i].marker
    requires forall i | 0 <= i < |u| :: u[i].marker == DefaultMarker
    ensures Insert(ByMarker, x, m + u) == [x] + m + u
  {
    assert |m + u| == 0 || x.marker <= (m + u)[0].marker by {
      if |m| == 0 {
        assert m + u == u;
      }
    }
    InsertFront(ByMarker, x, m + u);
  }

  /** An unmarked card inserted by marker goes behind the marked cards and in
      front of the other unmarked ones. */
  lemma InsertUnmarked(x: Card, m: seq<Card>, u: seq<Card>)
    requires x.marker == DefaultMarker
    requires forall i | 0 <= i < |m| :: m[i].marker < DefaultMarker
    requires forall i | 0 <= i < |u| :: u[i].marker == DefaultMarker
    ensures Insert(ByMarker, x, m + u) == m + ([x] + u)
  {
    InsertAfterSmaller(ByMarker, x, m, u);
  }

  lemma InsertFront(k: Key, x: Card, s: seq<Card>)
    requires |s| == 0 || KeyOf(k, x) <= KeyOf(k, s[0])
    ensures Insert(k, x, s) == [x] + s
  {
  }

  lemma ConsAppend(a: seq<Card>, b: seq<Card>, x: Card)
    requires |a| > 0
    ensures a + b == [a[0]] + (a[1..] + b)
    ensures a + [x] + b == [a[0]] + (a[1..] + [x] + b)
  {
  }

  lemma InsertPast(k: Key, x: Card, y: Card, s: seq<Card>)
    requires KeyOf(k, y) < KeyOf(k, x)
    ensures Insert(k, x, [y] + s) == [y] + Insert(k, x, s)
  {
    assert ([y] + s)[1..] == s;
  }

  lemma SortByCons(k: Key, s: seq<Card>)
    requires |s| > 0
    ensures SortBy(k, s) == Insert(k, s[0], SortBy(k, s[1..]))
  {
  }

  lemma MarkersIncreasingTail(s: seq<Card>)
    requires |s| > 0 && MarkersIncreasing(s)
    ensures MarkersIncreasing(s[1..])
  {
    var tail := s[1..];
    forall i, j | 0 <= i < j < |tail| && IsMarked(tail[i]) && IsMarked(tail[j])
      ensures tail[i].marker < tail[j].marker
    {
      assert tail[i] == s[i + 1] && tail[j] == s[j + 1];
    }
  }

  /** A marked first card has a smaller marker than every later marked card. */
  lemma HeadBelowMarked(s: seq<Card>)
    requires |s| > 0 && MarkersIncreasing(s) && IsMarked(s[0])
    ensures forall i | 0 <= i < |Marked(s[1..])| :: s[0].marker < Marked(s[1..])[i].marker
  {
    var tail := s[1..];
    var m := Marked(tail);
    FilterKinds(tail);
    forall i | 0 <= i < |m|
      ensures s[0].marker < m[i].marker
    {
      FilterOrigin(tail, i);
      var j :| 0 <= j < |tail| && tail[j] == m[i];
      assert s[j + 1] == m[i];
    }
  }

  /** Every marked card lies below the sentinel; every unmarked card sits on it. */
  lemma MarkedBelowSentinel(s: seq<Card>)
    requires MarkersIncreasing(s)
    ensures forall i | 0 <= i < |Marked(s)| :: Marked(s)[i].marker < DefaultMarker
    ensures forall i | 0 <= i < |Unmarked(s)| :: Unmarked(s)[i].marker == DefaultMarker
  {
    var m := Marked(s);
    FilterKinds(s);
    forall i | 0 <= i < |m|
      ensures m[i].marker < DefaultMarker
    {
      FilterOrigin(s, i);
    }
  }

  /** Marked cards carry markers below the sentinel, increasing along `s`. */
  ghost predicate MarkersIncreasing(s: seq<Card>) {
    && (forall i | 0 <= i < |s| && IsMarked(s[i]) :: s[i].marker < DefaultMarker)
    && (forall i, j | 0 <= i < j < |s| && IsMarked(s[i]) && IsMarked(s[j]) :: s[i].marker < s[j].marker)
  }

  /** Two id-sorted orderings of the same reset valid cards are equal: the
      sorted order does not depend on the order the cards came in. */
  lemma {:induction false} IdSortedUnique(a: seq<Card>, b: seq<Card>)
    requires multiset(a) == multiset(b)
    requires Sorted(ById, a) && Sorted(ById, b)
    requires AllValid(a) && AllReset(a)
    ensures a == b
    decreases |a|
  {
    assert |b| == |multiset(b)| == |a|;
    if |a| > 0 {
      HeadsAgree(a, b);
      TailMultiset(a, b);
      TailFacts(a);
      SortedTail(ById, b);
      IdSortedUnique(a[1..], b[1..]);
      ConsEqual(a, b);
    }
  }

  lemma TailMultiset(a: seq<Card>, b: seq<Card>)
    requires multiset(a) == multiset(b) && |a| > 0 && |b| > 0 && a[0] == b[0]
    ensures multiset(a[1..]) == multiset(b[1..])
  {
    RemoveOne(a, 0);
    RemoveOne(b, 0);
    assert a[..0] + a[1..] == a[1..];
    assert b[..0] + b[1..] == b[1..];
  }

  lemma TailFacts(a: seq<Card>)
    requires |a| > 0 && Sorted(ById, a) && AllValid(a) && AllReset(a)
    ensures Sorted(ById, a[1..]) && AllValid(a[1..]) && AllReset(a[1..])
  {
    SortedTail(ById, a);
  }

  lemma ConsEqual(a: seq<Card>, b: seq<Card>)
    requires |a| > 0 && |b| > 0 && a[0] == b[0] && a[1..] == b[1..]
    ensures a == b
  {
    assert a == [a[0]] + a[1..];
    assert b == [b[0]] + b[1..];
  }

  lemma HeadsAgree(a: seq<Card>, b: seq<Card>)
    requires multiset(a) == multiset(b) && |a| > 0
    requires Sorted(ById, a) && Sorted(ById, b)
    requires AllValid(a) && AllReset(a)
    ensures a[0] == b[0]
  {
    assert a[0] in multiset(b);
    var j :| 0 <= j < |b| && b[j] == a[0];
    assert b[0] in multiset(a);
    var i :| 0 <= i < |a| && a[i] == b[0];
    assert KeyOf(ById, b[0]) <= KeyOf(ById, b[j]);
    assert KeyOf(ById, a[0]) <= KeyOf(ById, a[i]);
    IdInjective(a[0], b[0]);
  }

  lemma SortedTail(k: Key, s: seq<Card>)
    requires |s| > 0 && Sorted(k, s)
    ensures Sorted(k, s[1..])
  {
    forall i, j | 0 <= i < j < |s[1..]|
      ensures KeyOf(k, s[1..][i]) <= KeyOf(k, s[1..][j])
    {
      assert s[1..][i] == s[i + 1] && s[1..][j] == s[j + 1];
    }
  }
}
