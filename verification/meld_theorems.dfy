/** What meld guarantees. On a hand of at most twelve distinct cards of the
    deck, meld lays the hand out exactly as the reference melding does:
    sequence melds, then group melds, then the deadwood. The properties of
    that layout are proved on the reference. */
module MeldTheorems {
  import opened Cards
  import opened Hands
  import opened Sorting
  import opened Scans
  import opened Blocks
  import opened Layout
  import opened PlayerHand

  /** A hand meld is meant for: distinct cards of the deck, few enough that
      the markers stay below the sentinel 13. */
  predicate WellFormed(hand: seq<Card>) {
    AllValid(hand) && DistinctIds(hand) && |hand| <= 12
  }

  /** The hand after the opening reset and id sort. */
  predicate Ready(h1: seq<Card>) {
    IdAscending(h1) && AllValid(h1) && AllReset(h1) && |h1| <= 12
  }

  // ------------------------------------------------------------ meld keeps the cards

  lemma SortKeepsCards(k: Key, s: seq<Card>)
    ensures SameCards(SortBy(k, s), s)
  {
    ResetPerm(SortBy(k, s), s);
  }

  lemma AppendKeepsCards(a1: seq<Card>, b1: seq<Card>, a2: seq<Card>, b2: seq<Card>)
    requires SameCards(a1, b1) && SameCards(a2, b2)
    ensures SameCards(a1 + a2, b1 + b2)
  {
    ResetAllAppend(a1, a2);
    ResetAllAppend(b1, b2);
  }

  lemma ResetKeepsCards(h: seq<Card>)
    ensures SameCards(ResetAll(h), h)
  {
    ResetAllOfReset(ResetAll(h));
  }

  lemma GroupStageKeepsCards(h2: seq<Card>, c: Counters)
    ensures SameCards(GroupStage(h2, c), h2)
  {
    var s := UnmarkedIndex(h2);
    if s >= 0 {
      var u := SortBy(ByFace, h2[s..]);
      FindGroupKeepsCards(u, c);
      SortKeepsCards(ByFace, h2[s..]);
      AppendKeepsCards(h2[..s], h2[..s], FindGroup(u, c).0, h2[s..]);
      assert h2[..s] + h2[s..] == h2;
    }
  }

  lemma DeadwoodStageKeepsCards(h4: seq<Card>)
    ensures SameCards(DeadwoodStage(h4), h4)
  {
    var s := UnmarkedIndex(h4);
    if s >= 0 {
      SortKeepsCards(ByFace, h4[s..]);
      AppendKeepsCards(h4[..s], h4[..s], SortBy(ByFace, h4[s..]), h4[s..]);
      assert h4[..s] + h4[s..] == h4;
    }
  }

  /** meld only reorders the hand and rewrites the annotations: up to
      annotations it holds the same cards, each as often as before. */
  lemma MeldKeepsCards(hand: seq<Card>)
    ensures SameCards(Meld(hand), hand)
  {
    var h0 := ResetAll(hand);
    var h1 := SortBy(ById, h0);
    ResetKeepsCards(hand);
    SortKeepsCards(ById, h0);
    var m := FindSequence(h1, 0, 2, false, Fresh);
    FindSequenceKeepsCards(h1, 0, 2, false, Fresh);
    var h2 := SortBy(ByMarker, m.0);
    SortKeepsCards(ByMarker, m.0);
    var h3 := GroupStage(h2, m.1);
    GroupStageKeepsCards(h2, m.1);
    SortKeepsCards(ByMarker, h3);
    DeadwoodStageKeepsCards(SortBy(ByMarker, h3));
  }

  // ------------------------------------------------------------ the sorted hand

  /** Cards with the same cards up to annotations as a hand of deck cards are
      deck cards. */
  lemma SameCardsValid(a: seq<Card>, b: seq<Card>)
    requires SameCards(a, b) && AllValid(b)
    ensures AllValid(a)
  {
    forall i | 0 <= i < |a|
      ensures Valid(a[i])
    {
      assert ResetAll(a)[i] == Reset(a[i]);
      assert Reset(a[i]) in multiset(ResetAll(b));
      var j :| 0 <= j < |b| && ResetAll(b)[j] == Reset(a[i]);
    }
  }

  /** Sorted by id, without repeated cards, the ids strictly ascend. */
  lemma StrictIds(h: seq<Card>)
    requires Sorted(ById, h) && AllValid(h) && AllReset(h) && NoDup(h)
    ensures IdAscending(h)
  {
    forall i, j | 0 <= i < j < |h|
      ensures Id(h[i]) < Id(h[j])
    {
      NoDupDistinct(h, i, j);
      if Id(h[i]) == Id(h[j]) {
        IdInjective(h[i], h[j]);
      }
    }
  }

  /** The opening reset and id sort of meld leave a hand ready for the scans. */
  lemma SortedHandReady(hand: seq<Card>)
    requires WellFormed(hand)
    ensures Ready(SortBy(ById, ResetAll(hand)))
    ensures SameCards(SortBy(ById, ResetAll(hand)), hand)
  {
    var h0 := ResetAll(hand);
    var h1 := SortBy(ById, h0);
    DistinctIdsNoDup(hand);
    assert AllValid(h0) && AllReset(h0);
    PermFacts(h1, h0);
    StrictIds(h1);
    ResetKeepsCards(hand);
    SortKeepsCards(ById, h0);
  }

  // ------------------------------------------------------------ the run stage

  lemma SameResetFacts(a: seq<Card>, b: seq<Card>)
    requires ResetAll(a) == ResetAll(b) && AllValid(b) && IdAscending(b)
    ensures AllValid(a) && IdAscending(a)
  {
    forall i | 0 <= i < |a|
      ensures a[i].suit == b[i].suit && a[i].face == b[i].face
    {
      assert ResetAll(a)[i] == ResetAll(b)[i];
    }
  }

  lemma FilterValid(h: seq<Card>)
    requires AllValid(h)
    ensures AllValid(Marked(h)) && AllValid(Unmarked(h))
  {
    MarkedMembers(h);
    forall i | 0 <= i < |Marked(h)|
      ensures Valid(Marked(h)[i])
    {
      assert Marked(h)[i] in Marked(h);
    }
    forall i | 0 <= i < |Unmarked(h)|
      ensures Valid(Unmarked(h)[i])
    {
      assert Unmarked(h)[i] in Unmarked(h);
    }
  }

  /** The in-place result of the run scan holds the sorted hand's cards,
      position by position. */
  lemma RunPlacedCards(h1: seq<Card>)
    requires Ready(h1)
    ensures ResetAll(Placed(Run, h1, 0, Fresh)) == h1
    ensures AllValid(Placed(Run, h1, 0, Fresh)) && IdAscending(Placed(Run, h1, 0, Fresh))
  {
    FindSequenceIsScan(h1, Fresh);
    FindSequenceKeepsCards(h1, 0, 2, false, Fresh);
    ResetAllOfReset(h1);
    SameResetFacts(Placed(Run, h1, 0, Fresh), h1);
  }

  /** findSequence followed by the sort by marker: the sequence melds first,
      then the cards they left, in id order. */
  lemma RunStage(h1: seq<Card>)
    requires Ready(h1)
    ensures FindSequence(h1, 0, 2, false, Fresh).1 == Scan(Run, h1, 0, Fresh).next
    ensures SortBy(ByMarker, FindSequence(h1, 0, 2, false, Fresh).0)
         == Flatten(Scan(Run, h1, 0, Fresh).melds) + Scan(Run, h1, 0, Fresh).rest
  {
    FindSequenceIsScan(h1, Fresh);
    ScanMarkers(Run, h1, 0, Fresh);
    SortByMarkerSplits(Placed(Run, h1, 0, Fresh));
    ScanSplits(Run, h1, 0, Fresh);
  }

  /** What the run stage leaves: valid, reset cards in strictly ascending id order. */
  lemma RunRest(h1: seq<Card>)
    requires Ready(h1)
    ensures AllValid(Scan(Run, h1, 0, Fresh).rest) && AllReset(Scan(Run, h1, 0, Fresh).rest)
    ensures IdAscending(Scan(Run, h1, 0, Fresh).rest)
  {
    var p := Placed(Run, h1, 0, Fresh);
    RunPlacedCards(h1);
    ScanSplits(Run, h1, 0, Fresh);
    FilterIdAscending(p);
    FilterValid(p);
    ScanRestReset(Run, h1, 0, Fresh);
  }

  /** The cards the group stage works on, sorted by face. */
  lemma GroupInput(h1: seq<Card>, s: ScanResult, u: seq<Card>)
    requires Ready(h1) && s == Scan(Run, h1, 0, Fresh) && u == SortBy(ByFace, s.rest)
    ensures AllValid(u) && AllReset(u) && NoDup(u) && Sorted(ByFace, u) && NoFiveAlike(u)
    ensures s.next.marker + |u| <= DefaultMarker
    ensures s.next.marker == 1 + |Flatten(s.melds)| && |Flatten(s.melds)| + |u| == |h1|
  {
    RunRest(h1);
    IdAscendingNoDup(s.rest);
    PermFacts(u, s.rest);
    FaceSortedNoFive(u);
  }

  // ------------------------------------------------------------ the group and deadwood stages

  /** A hand laid out as marked cards, then unmarked ones: its first unmarked
      card is the first of the second part. */
  lemma LaidOutIndex(m: seq<Card>, r: seq<Card>)
    requires forall k | 0 <= k < |m| :: IsMarked(m[k])
    requires forall k | 0 <= k < |r| :: !IsMarked(r[k])
    ensures UnmarkedIndex(m + r) == (if |r| == 0 then -1 else |m|)
  {
    if |r| == 0 {
      assert m + r == m;
    } else {
      assert (m + r)[|m|] == r[0];
      assert forall k | 0 <= k < |m| :: (m + r)[k] == m[k];
    }
  }

  /** Consecutive markers from 1 on at most twelve cards: all marked, below
      the sentinel, increasing. */
  lemma RunMarkers(f: seq<Card>)
    requires MarkersFrom(f, 1) && |f| <= 12
    ensures MarkersIncreasing(f)
    ensures forall k | 0 <= k < |f| :: IsMarked(f[k]) && f[k].marker < 1 + |f|
  {
  }

  /** The run melds laid out: marked, with the markers 1, 2, ... */
  lemma RunsMarked(h1: seq<Card>)
    requires Ready(h1)
    ensures MarkersFrom(Flatten(Scan(Run, h1, 0, Fresh).melds), 1)
    ensures MarkersIncreasing(Flatten(Scan(Run, h1, 0, Fresh).melds))
    ensures forall k | 0 <= k < |Flatten(Scan(Run, h1, 0, Fresh).melds)| ::
      IsMarked(Flatten(Scan(Run, h1, 0, Fresh).melds)[k])
      && Flatten(Scan(Run, h1, 0, Fresh).melds)[k].marker < 1 + |Flatten(Scan(Run, h1, 0, Fresh).melds)|
  {
    ScanMarkersFrom(Run, h1, 0, Fresh);
    RunMarkers(Flatten(Scan(Run, h1, 0, Fresh).melds));
  }

  /** The group stage and the sort by marker after it: the sequences stay in
      front, the groups follow, then what is left. */
  lemma GroupStageIsScan(h1: seq<Card>, s: ScanResult, u: seq<Card>, g: ScanResult)
    requires Ready(h1) && s == Scan(Run, h1, 0, Fresh) && u == SortBy(ByFace, s.rest)
    requires g == Scan(Set, u, 0, s.next)
    ensures SortBy(ByMarker, GroupStage(Flatten(s.melds) + s.rest, s.next))
         == Flatten(s.melds) + Flatten(g.melds) + g.rest
  {
    var f := Flatten(s.melds);
    RunsMarked(h1);
    RunRest(h1);
    LaidOutIndex(f, s.rest);
    if |s.rest| == 0 {
      assert f + s.rest == f;
      SortByMarkerSplits(f);
      MarkedOfAllMarked(f);
      assert g.melds == [] && g.rest == [];
      assert f + Flatten(g.melds) + g.rest == f;
    } else {
      GroupInput(h1, s, u);
      assert (f + s.rest)[..|f|] == f && (f + s.rest)[|f|..] == s.rest;
      FindGroupIsScan(u, s.next);
      GroupsPlaced(f, u, s.next, g);
    }
  }

  lemma GroupsPlaced(f: seq<Card>, u: seq<Card>, c: Counters, g: ScanResult)
    requires MarkersIncreasing(f) && forall k | 0 <= k < |f| :: IsMarked(f[k]) && f[k].marker < c.marker
    requires AllReset(u) && c.marker + |u| <= DefaultMarker && g == Scan(Set, u, 0, c)
    ensures SortBy(ByMarker, f + Placed(Set, u, 0, c)) == f + Flatten(g.melds) + g.rest
  {
    var p := Placed(Set, u, 0, c);
    var fg := Flatten(g.melds);
    assert MarkersIncreasing(f + p) by {
      ScanMarkers(Set, u, 0, c);
      MarkersAppend(f, p, c.marker);
    }
    SortByMarkerSplits(f + p);
    ScanSplits(Set, u, 0, c);
    MarkedOfAllMarked(f);
    assert Marked(f + p) == f + fg by {
      MarkedAppend(f, p);
    }
    assert Unmarked(f + p) == g.rest by {
      UnmarkedAppend(f, p);
    }
  }

  lemma MarkedConcat(a: seq<Card>, b: seq<Card>)
    requires forall k | 0 <= k < |a| :: IsMarked(a[k])
    requires forall k | 0 <= k < |b| :: IsMarked(b[k])
    ensures forall k | 0 <= k < |a + b| :: IsMarked((a + b)[k])
  {
  }

  /** A hand laid out as marked cards, then unmarked cards already sorted by
      face, passes the deadwood stage unchanged. */
  lemma SortedTailStays(m: seq<Card>, d: seq<Card>)
    requires forall k | 0 <= k < |m| :: IsMarked(m[k])
    requires forall k | 0 <= k < |d| :: !IsMarked(d[k])
    requires Sorted(ByFace, d)
    ensures DeadwoodStage(m + d) == m + d
  {
    LaidOutIndex(m, d);
    if |d| > 0 {
      SortSortedIsIdentity(ByFace, d);
      assert (m + d)[..|m|] == m;
      assert (m + d)[|m|..] == d;
    }
  }

  /** The deadwood sort changes nothing: what the group scan leaves is
      already sorted by face. */
  lemma DeadwoodStageIsScan(h1: seq<Card>, s: ScanResult, u: seq<Card>, g: ScanResult)
    requires Ready(h1) && s == Scan(Run, h1, 0, Fresh) && u == SortBy(ByFace, s.rest)
    requires g == Scan(Set, u, 0, s.next)
    ensures DeadwoodStage(Flatten(s.melds) + Flatten(g.melds) + g.rest)
         == Flatten(s.melds) + Flatten(g.melds) + g.rest
  {
    var f, fg := Flatten(s.melds), Flatten(g.melds);
    RunsMarked(h1);
    GroupInput(h1, s, u);
    assert forall k | 0 <= k < |fg| :: IsMarked(fg[k]) by {
      ScanSplits(Set, u, 0, s.next);
      FilterKinds(Placed(Set, u, 0, s.next));
    }
    MarkedConcat(f, fg);
    assert forall k | 0 <= k < |g.rest| :: !IsMarked(g.rest[k]) by {
      ScanRestReset(Set, u, 0, s.next);
    }
    SetScanRest(u, 0, s.next);
    SortedTailStays(f + fg, g.rest);
  }

  /** meld computes the reference melding: the sequence melds, then the group
      melds, then the deadwood. */
  lemma MeldIsReference(hand: seq<Card>)
    requires WellFormed(hand)
    ensures Meld(hand) == Spread(Reference(hand))
  {
    var h1 := SortBy(ById, ResetAll(hand));
    SortedHandReady(hand);
    var s := Scan(Run, h1, 0, Fresh);
    var u := SortBy(ByFace, s.rest);
    var g := Scan(Set, u, 0, s.next);
    RunStage(h1);
    GroupStageIsScan(h1, s, u, g);
    DeadwoodStageIsScan(h1, s, u, g);
  }

  // ------------------------------------------------------------ the reference melding

  /** Every sequence meld is three or more cards of one suit with
      consecutive faces; every group meld is three or four cards of one face. */
  lemma MeldShapes(hand: seq<Card>)
    requires WellFormed(hand)
    ensures forall j | 0 <= j < |Reference(hand).runs| :: RunMeld(Reference(hand).runs[j])
    ensures forall j | 0 <= j < |Reference(hand).groups| :: GroupMeld(Reference(hand).groups[j])
  {
    var h1 := SortBy(ById, ResetAll(hand));
    SortedHandReady(hand);
    var s := Scan(Run, h1, 0, Fresh);
    var u := SortBy(ByFace, s.rest);
    ScanRuns(h1, 0, Fresh);
    GroupInput(h1, s, u);
    ScanGroups(u, 0, s.next);
  }

  /** The melded cards carry the markers 1, 2, ... in layout order, all below
      the sentinel; the j-th meld carries collate id j + 1. */
  lemma MeldNumbering(hand: seq<Card>)
    requires WellFormed(hand)
    ensures MarkersFrom(Flatten(Reference(hand).runs) + Flatten(Reference(hand).groups), 1)
    ensures CollatesFrom(Reference(hand).runs + Reference(hand).groups, 0)
    ensures forall k | 0 <= k < |Flatten(Reference(hand).runs) + Flatten(Reference(hand).groups)| ::
      (Flatten(Reference(hand).runs) + Flatten(Reference(hand).groups))[k].marker < DefaultMarker
  {
    var h1 := SortBy(ById, ResetAll(hand));
    SortedHandReady(hand);
    var s := Scan(Run, h1, 0, Fresh);
    var u := SortBy(ByFace, s.rest);
    GroupInput(h1, s, u);
    ScanMarkersFrom(Run, h1, 0, Fresh);
    ScanMarkersFrom(Set, u, 0, s.next);
    MarkersFromAppend(Flatten(s.melds), Flatten(Scan(Set, u, 0, s.next).melds), 1);
    ScanCollates(Run, h1, 0, Fresh);
    ScanCollates(Set, u, 0, s.next);
    CollatesFromAppend(s.melds, Scan(Set, u, 0, s.next).melds, 0);
  }

  /** The deadwood is unmarked and sorted by face; it holds at most two cards
      of a face, and none of the face of any group: every face with three or
      more cards left after the sequences is grouped in full. */
  lemma MeldDeadwood(hand: seq<Card>)
    requires WellFormed(hand)
    ensures AllReset(Reference(hand).dead) && Sorted(ByFace, Reference(hand).dead)
    ensures forall k | 0 <= k && k + 2 < |Reference(hand).dead| ::
      Reference(hand).dead[k].face != Reference(hand).dead[k + 2].face
    ensures FacesApart(Reference(hand).groups, Reference(hand).dead)
  {
    var h1 := SortBy(ById, ResetAll(hand));
    SortedHandReady(hand);
    var s := Scan(Run, h1, 0, Fresh);
    var u := SortBy(ByFace, s.rest);
    GroupInput(h1, s, u);
    ScanRestReset(Set, u, 0, s.next);
    SetScanRest(u, 0, s.next);
  }

  /** No card of the hand extends a sequence meld at either end. */
  lemma RunsMaximal(hand: seq<Card>)
    requires WellFormed(hand)
    ensures AllUnextendable(Reference(hand).runs, Holding(hand))
  {
    var h1 := SortBy(ById, ResetAll(hand));
    SortedHandReady(hand);
    SameCardsHolding(h1, hand);
    ScanRunsMaximal(h1, 0, Fresh);
  }

  /** A card of the sequence melds, by position. */
  lemma FlattenIndex(ms: seq<seq<Card>>, x: Card) returns (j: int, k: int)
    requires x in Flatten(ms)
    ensures 0 <= j < |ms| && 0 <= k < |ms[j]| && ms[j][k] == x
    decreases |ms|
  {
    FlattenCons(ms[0], ms[1..]);
    assert [ms[0]] + ms[1..] == ms;
    if x in ms[0] {
      j := 0;
      k :| 0 <= k < |ms[0]| && ms[0][k] == x;
    } else {
      var j', k' := FlattenIndex(ms[1..], x);
      j, k := j' + 1, k';
    }
  }

  lemma FlattenHas(ms: seq<seq<Card>>, j: int, k: int)
    requires 0 <= j < |ms| && 0 <= k < |ms[j]|
    ensures ms[j][k] in Flatten(ms)
    decreases j
  {
    FlattenCons(ms[0], ms[1..]);
    assert [ms[0]] + ms[1..] == ms;
    if j > 0 {
      FlattenHas(ms[1..], j - 1, k);
    }
  }

  /** Every card of a sequence meld is a card of the sorted hand. */
  lemma RunCardHeld(h1: seq<Card>, y: Card)
    requires Ready(h1) && y in Flatten(Scan(Run, h1, 0, Fresh).melds)
    ensures (y.suit, y.face) in Holding(h1)
  {
    var p := Placed(Run, h1, 0, Fresh);
    RunPlacedCards(h1);
    ScanSplits(Run, h1, 0, Fresh);
    MarkedMembers(p);
    var i :| 0 <= i < |p| && p[i] == y;
    assert ResetAll(p)[i] == h1[i];
    assert h1[i] in h1;
  }

  /** A card of a sequence meld whose cards are all held lies in some
      three-card sequence of what is held. */
  lemma InRunMeld(m: seq<Card>, k: int, hold: set<(int, int)>)
    requires RunMeld(m) && 0 <= k < |m|
    requires forall i | 0 <= i < |m| :: (m[i].suit, m[i].face) in hold
    ensures InSomeRun(hold, m[k].suit, m[k].face)
  {
    if k + 2 < |m| {
      assert (m[k + 1].suit, m[k + 1].face) in hold && (m[k + 2].suit, m[k + 2].face) in hold;
    } else if k >= 1 && k + 1 < |m| {
      assert (m[k - 1].suit, m[k - 1].face) in hold && (m[k + 1].suit, m[k + 1].face) in hold;
    } else {
      assert (m[k - 2].suit, m[k - 2].face) in hold && (m[k - 1].suit, m[k - 1].face) in hold;
    }
  }

  /** The sequence melds take exactly the cards of the hand that lie in some
      three-card sequence of the hand. */
  lemma RunsComplete(hand: seq<Card>)
    requires WellFormed(hand)
    ensures forall x | x in hand && InSomeRun(Holding(hand), x.suit, x.face) ::
      Reset(x) in ResetAll(Flatten(Reference(hand).runs))
    ensures forall x | x in Flatten(Reference(hand).runs) :: InSomeRun(Holding(hand), x.suit, x.face)
  {
    var h1 := SortBy(ById, ResetAll(hand));
    SortedHandReady(hand);
    SameCardsHolding(h1, hand);
    var runs := Scan(Run, h1, 0, Fresh).melds;
    forall x | x in hand && InSomeRun(Holding(hand), x.suit, x.face)
      ensures Reset(x) in ResetAll(Flatten(runs))
    {
      ResetMember(hand, x);
      assert Reset(x) in multiset(h1);
      var k :| 0 <= k < |h1| && h1[k] == Reset(x);
      InSomeRunInThree(h1, k);
      InThreeClaimed(Run, h1, 0, Fresh, k);
    }
    ScanRuns(h1, 0, Fresh);
    forall x | x in Flatten(runs)
      ensures InSomeRun(Holding(hand), x.suit, x.face)
    {
      var j, k := FlattenIndex(runs, x);
      forall i | 0 <= i < |runs[j]|
        ensures (runs[j][i].suit, runs[j][i].face) in Holding(h1)
      {
        FlattenHas(runs, j, i);
        RunCardHeld(h1, runs[j][i]);
      }
      InRunMeld(runs[j], k, Holding(h1));
    }
  }

  // ------------------------------------------------------------ order and repetition

  /** meld does not depend on the order the cards come in, nor on their old
      annotations. */
  lemma MeldOrderIndependent(a: seq<Card>, b: seq<Card>)
    requires AllValid(a) && SameCards(a, b)
    ensures Meld(a) == Meld(b)
  {
    var ha, hb := SortBy(ById, ResetAll(a)), SortBy(ById, ResetAll(b));
    assert AllValid(ResetAll(a)) && AllReset(ResetAll(a));
    PermFacts(ha, ResetAll(a));
    IdSortedUnique(ha, hb);
  }

  /** Melding a melded hand changes nothing. */
  lemma MeldIdempotent(hand: seq<Card>)
    requires AllValid(hand)
    ensures Meld(Meld(hand)) == Meld(hand)
  {
    MeldKeepsCards(hand);
    SameCardsValid(Meld(hand), hand);
    MeldOrderIndependent(Meld(hand), hand);
  }

  // ------------------------------------------------------------ deadwood of a melded hand

  /** On a melded hand of ten or eleven cards, calculateDeadwood counts the
      deadwood cards among the first ten; on ten cards, all the deadwood. */
  lemma MeldedDeadwood(hand: seq<Card>)
    requires WellFormed(hand) && |hand| >= 10
    ensures Deadwood(Meld(hand)) == WeightSum(Unmarked(Meld(hand)[..10]))
    ensures |hand| == 10 ==> Deadwood(Meld(hand)) == WeightSum(Reference(hand).dead)
  {
    MeldIsReference(hand);
    MeldNumbering(hand);
    MeldDeadwood(hand);
    var r := Reference(hand);
    var m := Flatten(r.runs) + Flatten(r.groups);
    var h := Meld(hand);
    assert h == m + r.dead;
    assert forall k | 0 <= k < |m| :: IsMarked(m[k]);
    LaidOutIndex(m, r.dead);
    LaidOutDeadwood(m, r.dead);
  }

  lemma LaidOutDeadwood(m: seq<Card>, d: seq<Card>)
    requires forall k | 0 <= k < |m| :: IsMarked(m[k])
    requires forall k | 0 <= k < |d| :: !IsMarked(d[k])
    requires |m + d| >= 10
    ensures Deadwood(m + d) == WeightSum(Unmarked((m + d)[..10]))
    ensures |m + d| == 10 ==> Deadwood(m + d) == WeightSum(d)
  {
    LaidOutIndex(m, d);
    if |m| >= 10 {
      MarkedPrefix(m, d);
    } else {
      DeadPrefix(m, d);
      if |m + d| == 10 {
        assert (m + d)[|m|..10] == d;
      }
    }
  }

  lemma MarkedPrefix(m: seq<Card>, d: seq<Card>)
    requires forall k | 0 <= k < |m| :: IsMarked(m[k])
    requires |m| >= 10
    ensures Unmarked((m + d)[..10]) == []
  {
    assert (m + d)[..10] == m[..10];
    MarkedOfAllMarked(m[..10]);
  }

  lemma DeadPrefix(m: seq<Card>, d: seq<Card>)
    requires forall k | 0 <= k < |m| :: IsMarked(m[k])
    requires forall k | 0 <= k < |d| :: !IsMarked(d[k])
    requires |m| < 10 <= |m + d|
    ensures Unmarked((m + d)[..10]) == (m + d)[|m|..10]
  {
    var t := (m + d)[|m|..10];
    assert (m + d)[..10] == m + t;
    assert forall k | 0 <= k < |t| :: t[k] == d[k];
    MarkedOfAllMarked(m);
    MarkedOfNoneMarked(t);
    UnmarkedAppend(m, t);
  }
}
