/** Facts about hands as sequences of cards: the reset of every annotation,
    the split into marked and unmarked cards, and what a reordering of a
    hand keeps. */
module Hands {
  import opened Cards

  /** A card that some meld has claimed. */
  predicate IsMarked(c: Card) {
    c.marker != DefaultMarker
  }

  /** The opening loop of meld: every card back to marker 13, collate 0. */
  function ResetAll(h: seq<Card>): seq<Card> {
    seq(|h|, i requires 0 <= i < |h| => Reset(h[i]))
  }

  /** The marked cards of `h`, in hand order. */
  function Marked(h: seq<Card>): seq<Card> {
    if |h| == 0 then []
    else (if IsMarked(h[0]) then [h[0]] else []) + Marked(h[1..])
  }

  /** The unmarked cards of `h`, in hand order. */
  function Unmarked(h: seq<Card>): seq<Card> {
    if |h| == 0 then []
    else (if IsMarked(h[0]) then [] else [h[0]]) + Unmarked(h[1..])
  }

  predicate AllValid(h: seq<Card>) {
    forall i | 0 <= i < |h| :: Valid(h[i])
  }

  /** No two cards of the hand share an id: the hand holds distinct cards. */
  predicate DistinctIds(h: seq<Card>) {
    forall i, j | 0 <= i < j < |h| :: Id(h[i]) != Id(h[j])
  }

  /** The hand is in strictly ascending id order. */
  predicate IdAscending(h: seq<Card>) {
    forall i, j | 0 <= i < j < |h| :: Id(h[i]) < Id(h[j])
  }

  /** Every card carries no annotation. */
  predicate AllReset(h: seq<Card>) {
    forall i | 0 <= i < |h| :: h[i].marker == DefaultMarker && h[i].collate == 0
  }

  /** No card value occurs twice. */
  ghost predicate NoDup(h: seq<Card>) {
    forall c :: multiset(h)[c] <= 1
  }

  /** The same cards, up to annotations. */
  ghost predicate SameCards(a: seq<Card>, b: seq<Card>) {
    multiset(ResetAll(a)) == multiset(ResetAll(b))
  }

  // ------------------------------------------------------------ lemmas

  lemma ResetAllAppend(a: seq<Card>, b: seq<Card>)
    ensures ResetAll(a + b) == ResetAll(a) + ResetAll(b)
  {
  }

  lemma ResetAllOfReset(h: seq<Card>)
    requires AllReset(h)
    ensures ResetAll(h) == h
  {
  }

  lemma {:induction false} MarkedAppend(a: seq<Card>, b: seq<Card>)
    ensures Marked(a + b) == Marked(a) + Marked(b)
    decreases |a|
  {
    if |a| == 0 {
      assert a + b == b;
    } else {
      MarkedCons(a);
      MarkedCons(a + b);
      assert (a + b)[0] == a[0];
      assert (a + b)[1..] == a[1..] + b;
      MarkedAppend(a[1..], b);
    }
  }

  lemma {:induction false} UnmarkedAppend(a: seq<Card>, b: seq<Card>)
    ensures Unmarked(a + b) == Unmarked(a) + Unmarked(b)
    decreases |a|
  {
    if |a| == 0 {
      assert a + b == b;
    } else {
      MarkedCons(a);
      MarkedCons(a + b);
      assert (a + b)[0] == a[0];
      assert (a + b)[1..] == a[1..] + b;
      UnmarkedAppend(a[1..], b);
    }
  }

  lemma MarkedCons(s: seq<Card>)
    requires |s| > 0
    ensures Marked(s) == (if IsMarked(s[0]) then [s[0]] else []) + Marked(s[1..])
    ensures Unmarked(s) == (if IsMarked(s[0]) then [] else [s[0]]) + Unmarked(s[1..])
  {
  }

  /** The two filters keep exactly the marked, respectively unmarked, cards. */
  lemma {:induction false} MarkedMembers(h: seq<Card>)
    ensures forall c :: c in Marked(h) <==> c in h && IsMarked(c)
    ensures forall c :: c in Unmarked(h) <==> c in h && !IsMarked(c)
    decreases |h|
  {
    if |h| > 0 {
      MarkedMembers(h[1..]);
      assert forall c :: c in h <==> c == h[0] || c in h[1..];
    }
  }

  /** Together the two filters hold every card of the hand, once. */
  lemma {:induction false} FilterSplit(h: seq<Card>)
    ensures multiset(Marked(h)) + multiset(Unmarked(h)) == multiset(h)
    ensures |Marked(h)| + |Unmarked(h)| == |h|
    decreases |h|
  {
    if |h| > 0 {
      FilterSplit(h[1..]);
      assert h == [h[0]] + h[1..];
    }
  }

  lemma {:induction false} FilterKinds(h: seq<Card>)
    ensures forall i | 0 <= i < |Marked(h)| :: IsMarked(Marked(h)[i])
    ensures forall i | 0 <= i < |Unmarked(h)| :: !IsMarked(Unmarked(h)[i])
    decreases |h|
  {
    if |h| > 0 {
      FilterKinds(h[1..]);
    }
  }

  lemma FilterOrigin(h: seq<Card>, i: int)
    requires 0 <= i < |Marked(h)|
    ensures Marked(h)[i] in h
  {
    MarkedMembers(h);
    assert Marked(h)[i] in Marked(h);
  }

  lemma {:induction false} MarkedOfAllMarked(h: seq<Card>)
    requires forall i | 0 <= i < |h| :: IsMarked(h[i])
    ensures Marked(h) == h && Unmarked(h) == []
    decreases |h|
  {
    if |h| > 0 {
      MarkedOfAllMarked(h[1..]);
    }
  }

  lemma {:induction false} MarkedOfNoneMarked(h: seq<Card>)
    requires forall i | 0 <= i < |h| :: !IsMarked(h[i])
    ensures Marked(h) == [] && Unmarked(h) == h
    decreases |h|
  {
    if |h| > 0 {
      MarkedOfNoneMarked(h[1..]);
    }
  }

  /** Keeping a subsequence keeps strict id order. */
  lemma {:induction false} FilterIdAscending(h: seq<Card>)
    requires IdAscending(h)
    ensures IdAscending(Marked(h)) && IdAscending(Unmarked(h))
    decreases |h|
  {
    if |h| > 0 {
      IdAscendingTail(h);
      FilterIdAscending(h[1..]);
      FilterIdsAbove(h[1..], Id(h[0]));
      IdAscendingCons(h[0], Marked(h[1..]));
      IdAscendingCons(h[0], Unmarked(h[1..]));
    }
  }

  lemma IdAscendingTail(h: seq<Card>)
    requires |h| > 0 && IdAscending(h)
    ensures IdAscending(h[1..])
    ensures forall i | 0 <= i < |h[1..]| :: Id(h[0]) < Id(h[1..][i])
  {
  }

  lemma IdAscendingCons(a: Card, t: seq<Card>)
    requires IdAscending(t)
    requires forall i | 0 <= i < |t| :: Id(a) < Id(t[i])
    ensures IdAscending([a] + t)
  {
    var r := [a] + t;
    forall i, j | 0 <= i < j < |r|
      ensures Id(r[i]) < Id(r[j])
    {
      assert r[j] == t[j - 1];
      if i > 0 {
        assert r[i] == t[i - 1];
      }
    }
  }

  /** A lower bound on the ids of a hand bounds both filters. */
  lemma {:induction false} FilterIdsAbove(h: seq<Card>, b: int)
    requires forall i | 0 <= i < |h| :: b < Id(h[i])
    ensures forall i | 0 <= i < |Marked(h)| :: b < Id(Marked(h)[i])
    ensures forall i | 0 <= i < |Unmarked(h)| :: b < Id(Unmarked(h)[i])
    decreases |h|
  {
    if |h| > 0 {
      FilterIdsAbove(h[1..], b);
    }
  }

  lemma NoDupDistinct(h: seq<Card>, i: int, j: int)
    requires NoDup(h)
    requires 0 <= i < |h| && 0 <= j < |h| && i != j
    ensures h[i] != h[j]
  {
    var lo := if i < j then i else j;
    var hi := if i < j then j else i;
    var x := h[lo];
    assert h == h[..lo] + [x] + h[lo + 1..hi] + [h[hi]] + h[hi + 1..];
    assert multiset(h) == multiset(h[..lo]) + multiset{x} + multiset(h[lo + 1..hi]) + multiset{h[hi]} + multiset(h[hi + 1..]);
    assert multiset(h)[x] >= 1 + multiset{h[hi]}[x];
  }

  lemma {:induction false} IdAscendingNoDup(h: seq<Card>)
    requires IdAscending(h)
    ensures NoDup(h)
    decreases |h|
  {
    if |h| > 0 {
      IdAscendingNoDup(h[1..]);
      assert h == [h[0]] + h[1..];
      assert h[0] !in h[1..];
    }
  }

  /** A reordering of valid reset cards is valid and reset. */
  lemma PermFacts(a: seq<Card>, b: seq<Card>)
    requires multiset(a) == multiset(b) && AllValid(b) && AllReset(b)
    ensures AllValid(a) && AllReset(a)
  {
    forall i | 0 <= i < |a|
      ensures Valid(a[i]) && a[i].marker == DefaultMarker && a[i].collate == 0
    {
      assert a[i] in multiset(b);
      var j :| 0 <= j < |b| && b[j] == a[i];
    }
  }

  /** Pairwise distinct ids give pairwise distinct reset cards. */
  lemma {:induction false} DistinctIdsNoDup(h: seq<Card>)
    requires DistinctIds(h)
    ensures NoDup(ResetAll(h))
    decreases |h|
  {
    if |h| > 0 {
      DistinctIdsNoDup(h[1..]);
      var r := ResetAll(h);
      assert r == [r[0]] + ResetAll(h[1..]);
      forall j | 0 <= j < |h[1..]|
        ensures ResetAll(h[1..])[j] != r[0]
      {
        assert Id(h[j + 1]) != Id(h[0]);
      }
    }
  }

  /** A reordering keeps the reset cards. */
  lemma {:induction false} ResetPerm(a: seq<Card>, b: seq<Card>)
    requires multiset(a) == multiset(b)
    ensures multiset(ResetAll(a)) == multiset(ResetAll(b))
    decreases |a|
  {
    if |a| == 0 {
      assert |b| == |multiset(b)| == 0;
    } else {
      var j := SameHeadIndex(a, b);
      var rest := b[..j] + b[j + 1..];
      ResetPerm(a[1..], rest);
      RemoveOneReset(b, j);
      RemoveFirstReset(a);
    }
  }

  /** Where the first card of `a` sits in a reordering `b`, and what is left. */
  lemma SameHeadIndex(a: seq<Card>, b: seq<Card>) returns (j: int)
    requires multiset(a) == multiset(b) && |a| > 0
    ensures 0 <= j < |b| && b[j] == a[0]
    ensures multiset(a[1..]) == multiset(b[..j] + b[j + 1..])
  {
    assert a[0] in multiset(b);
    j :| 0 <= j < |b| && b[j] == a[0];
    RemoveOne(b, j);
    RemoveFirst(a);
  }

  lemma RemoveFirst(a: seq<Card>)
    requires |a| > 0
    ensures multiset(a[1..]) == multiset(a) - multiset{a[0]}
  {
    assert a == [a[0]] + a[1..];
  }

  lemma RemoveOne(b: seq<Card>, j: int)
    requires 0 <= j < |b|
    ensures multiset(b[..j] + b[j + 1..]) == multiset(b) - multiset{b[j]}
  {
    assert b == b[..j] + [b[j]] + b[j + 1..];
    assert multiset(b) == multiset(b[..j]) + multiset{b[j]} + multiset(b[j + 1..]);
  }

  lemma RemoveOneReset(b: seq<Card>, j: int)
    requires 0 <= j < |b|
    ensures multiset(ResetAll(b)) == multiset(ResetAll(b[..j] + b[j + 1..])) + multiset{Reset(b[j])}
  {
    assert b == b[..j] + [b[j]] + b[j + 1..];
    ResetAllAppend(b[..j], b[j + 1..]);
    ResetAllAppend(b[..j] + [b[j]], b[j + 1..]);
    ResetAllAppend(b[..j], [b[j]]);
    assert ResetAll([b[j]]) == [Reset(b[j])];
  }

  lemma RemoveFirstReset(a: seq<Card>)
    requires |a| > 0
    ensures multiset(ResetAll(a)) == multiset(ResetAll(a[1..])) + multiset{Reset(a[0])}
  {
    assert ResetAll(a) == [Reset(a[0])] + ResetAll(a[1..]);
  }

  lemma ResetMember(h: seq<Card>, c: Card)
    requires c in h
    ensures Reset(c) in ResetAll(h)
  {
    var i :| 0 <= i < |h| && h[i] == c;
    assert ResetAll(h)[i] == Reset(c);
  }

  /** Cards equal up to annotations give the same holding. */
  lemma SameCardsHolding(a: seq<Card>, b: seq<Card>)
    requires SameCards(a, b)
    ensures Holding(a) == Holding(b)
  {
    forall p | p in Holding(a)
      ensures p in Holding(b)
    {
      HoldingStep(a, b, p);
    }
    forall p | p in Holding(b)
      ensures p in Holding(a)
    {
      HoldingStep(b, a, p);
    }
  }

  lemma HoldingStep(a: seq<Card>, b: seq<Card>, p: (int, int))
    requires SameCards(a, b)
    requires p in Holding(a)
    ensures p in Holding(b)
  {
    var c :| c in a && (c.suit, c.face) == p;
    ResetMember(a, c);
    assert Reset(c) in multiset(ResetAll(b));
    var j :| 0 <= j < |b| && ResetAll(b)[j] == Reset(c);
    assert b[j] in b;
  }

  /** Two hands with pointwise equal reset forms hold the same cards. */
  lemma SameResetHolding(a: seq<Card>, b: seq<Card>)
    requires ResetAll(a) == ResetAll(b)
    ensures Holding(a) == Holding(b)
  {
    SameCardsHolding(a, b);
  }
}
