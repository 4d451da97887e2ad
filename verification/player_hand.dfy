/** The player's hand: meld, which lays the hand out as sequences, then
    groups, then deadwood; the deadwood count; and the two removals. The
    hand's counters (next marker, last collate id) are reset at the start of
    every meld, so they are locals of `Meld` here. */
module PlayerHand {
  import opened Cards
  import opened Hands
  import opened Sorting
  import opened Scans
  import opened Blocks

  /** The counters as the constructor and the start of meld set them: the
      next marker is 1 and no collate id has been used. */
  const Fresh := Counters(1, 0)

  // ------------------------------------------------------------ meld

  /** The group stage: the cards from the first unmarked one on are sorted by
      face and scanned for groups; the cards before it stay where they are. */
  function GroupStage(h2: seq<Card>, c: Counters): (r: seq<Card>)
    ensures |r| == |h2|
    ensures UnmarkedIndex(h2) == -1 ==> r == h2
    ensures UnmarkedIndex(h2) != -1 ==> r[..UnmarkedIndex(h2)] == h2[..UnmarkedIndex(h2)]
  {
    var s := UnmarkedIndex(h2);
    if s >= 0 then h2[..s] + FindGroup(SortBy(ByFace, h2[s..]), c).0 else h2
  }

  /** The deadwood stage: the cards from the first unmarked one on are sorted
      by face; the cards before it stay where they are. */
  function DeadwoodStage(h4: seq<Card>): (r: seq<Card>)
    ensures |r| == |h4|
    ensures UnmarkedIndex(h4) == -1 ==> r == h4
    ensures UnmarkedIndex(h4) != -1 ==> r[..UnmarkedIndex(h4)] == h4[..UnmarkedIndex(h4)]
    ensures UnmarkedIndex(h4) != -1 ==> Sorted(ByFace, r[UnmarkedIndex(h4)..])
  {
    var s := UnmarkedIndex(h4);
    if s >= 0 then
      assert (h4[..s] + SortBy(ByFace, h4[s..]))[s..] == SortBy(ByFace, h4[s..]);
      h4[..s] + SortBy(ByFace, h4[s..])
    else h4
  }

  /** meld after its opening reset and id sort: mark sequences, sort by
      marker, group the rest, sort by marker, sort the deadwood. */
  function MeldSorted(h1: seq<Card>): (r: seq<Card>)
    ensures |r| == |h1|
  {
    var m := FindSequence(h1, 0, 2, false, Fresh);
    DeadwoodStage(SortBy(ByMarker, GroupStage(SortBy(ByMarker, m.0), m.1)))
  }

  /** meld: every card is reset, the hand is sorted by card id, and then
      melded. */
  function Meld(hand: seq<Card>): (r: seq<Card>)
    ensures |r| == |hand|
  {
    MeldSorted(SortBy(ById, ResetAll(hand)))
  }

  // ------------------------------------------------------------ the reference melding

  /** A hand laid out: its sequence melds, its group melds and its deadwood. */
  datatype Melding = Melding(runs: seq<seq<Card>>, groups: seq<seq<Card>>, dead: seq<Card>)

  /** What meld should produce, block by block: the maximal runs of three or
      more in id order become sequences; of the cards left, sorted by face,
      the blocks of three or more of one face become groups; the rest is the
      deadwood. */
  function Reference(hand: seq<Card>): (m: Melding)
    ensures |Flatten(m.runs)| + |Flatten(m.groups)| + |m.dead| == |hand|
  {
    var h1 := SortBy(ById, ResetAll(hand));
    var s := Scan(Run, h1, 0, Fresh);
    var g := Scan(Set, SortBy(ByFace, s.rest), 0, s.next);
    Melding(s.melds, g.melds, g.rest)
  }

  /** The hand a melding lays out: sequences, then groups, then deadwood. */
  function Spread(m: Melding): seq<Card> {
    Flatten(m.runs) + Flatten(m.groups) + m.dead
  }

  // ------------------------------------------------------------ deadwood

  /** Sum of the weights of the cards of `s`. */
  function WeightSum(s: seq<Card>): int {
    if |s| == 0 then 0 else WeightSum(s[..|s| - 1]) + Weight(s[|s| - 1])
  }

  /** calculateDeadwood reads positions up to 9 from the first unmarked card
      on; it can only do so when the hand has ten cards or that card lies at
      position 10 or later. */
  predicate DeadwoodDefined(h: seq<Card>) {
    UnmarkedIndex(h) == -1 || UnmarkedIndex(h) >= 10 || |h| >= 10
  }

  /** The value calculateDeadwood returns: the weights of the cards from the
      first unmarked one up to position 9; nothing when every card is marked. */
  function Deadwood(h: seq<Card>): int
    requires DeadwoodDefined(h)
  {
    var s := UnmarkedIndex(h);
    if s == -1 || s >= 10 then 0 else WeightSum(h[s..10])
  }

  /** calculateDeadwood as the source writes it, a loop over positions. */
  method CalculateDeadwood(h: seq<Card>) returns (d: int)
    requires DeadwoodDefined(h)
    ensures d == Deadwood(h)
  {
    d := 0;
    var start := UnmarkedIndex(h);
    if start != -1 {
      var i := start;
      while i < 10
        invariant start <= i <= |h|
        invariant i == start || i <= 10
        invariant d == WeightSum(h[start..i])
      {
        assert h[start..i + 1][..i - start] == h[start..i];
        d := d + Weight(h[i]);
        i := i + 1;
      }
    }
  }

  lemma {:induction false} WeightSumBounds(s: seq<Card>)
    requires AllValid(s)
    ensures |s| <= WeightSum(s) <= 10 * |s|
    decreases |s|
  {
    if |s| > 0 {
      WeightSumBounds(s[..|s| - 1]);
    }
  }

  /** The deadwood count of a hand of deck cards is never negative and at
      most ten cards' worth; a hand with every card melded counts nothing. */
  lemma DeadwoodRange(h: seq<Card>)
    requires DeadwoodDefined(h) && AllValid(h)
    ensures 0 <= Deadwood(h) <= 100
    ensures (forall k | 0 <= k < |h| :: IsMarked(h[k])) ==> Deadwood(h) == 0
  {
    var s := UnmarkedIndex(h);
    if s != -1 && s < 10 {
      WeightSumBounds(h[s..10]);
    }
  }

  /** Positions 10 and later never count: hands that agree on their first ten
      cards have the same deadwood count. */
  lemma DeadwoodIgnoresLater(h: seq<Card>, g: seq<Card>)
    requires |h| >= 10 && |g| >= 10 && h[..10] == g[..10]
    ensures Deadwood(h) == Deadwood(g)
  {
    var s, t := UnmarkedIndex(h), UnmarkedIndex(g);
    assert forall k | 0 <= k < 10 :: h[k] == g[k] by {
      forall k | 0 <= k < 10
        ensures h[k] == g[k]
      {
        assert h[..10][k] == g[..10][k];
      }
    }
    if s != -1 && s < 10 {
      assert t == s;
      assert h[s..10] == g[s..10];
    }
  }

  // ------------------------------------------------------------ removals

  /** The same card of the deck: same suit and face. Among the distinct cards
      of a hand this is the identity the source's reference comparison uses. */
  predicate SameCard(a: Card, b: Card) {
    a.suit == b.suit && a.face == b.face
  }

  /** removeCardFromHand: the first card that is `x` leaves the hand; a hand
      without it is left as it is. */
  function RemoveCard(h: seq<Card>, x: Card): (r: seq<Card>)
    ensures (forall k | 0 <= k < |h| :: !SameCard(h[k], x)) ==> r == h
    ensures (exists k | 0 <= k < |h| :: SameCard(h[k], x)) ==> |r| == |h| - 1
    ensures multiset(r) <= multiset(h)
    decreases |h|
  {
    if |h| == 0 then []
    else
      assert h == [h[0]] + h[1..];
      if SameCard(h[0], x) then h[1..]
      else [h[0]] + RemoveCard(h[1..], x)
  }

  /** Removal from a hand of distinct cards takes out exactly the card `x`:
      it is gone afterwards and every other card stays. */
  lemma {:induction false} RemoveCardExact(h: seq<Card>, x: Card)
    requires AllValid(h) && DistinctIds(h)
    ensures forall k | 0 <= k < |RemoveCard(h, x)| :: !SameCard(RemoveCard(h, x)[k], x)
    ensures forall y | y in h && !SameCard(y, x) :: y in RemoveCard(h, x)
    decreases |h|
  {
    if |h| > 0 {
      assert AllValid(h[1..]) && DistinctIds(h[1..]);
      RemoveCardExact(h[1..], x);
      if SameCard(h[0], x) {
        forall k | 0 <= k < |h[1..]|
          ensures !SameCard(h[1..][k], x)
        {
          assert Id(h[0]) != Id(h[k + 1]);
        }
      }
      assert forall y | y in h :: y == h[0] || y in h[1..];
    }
  }

  /** removeSecondToLastCard: the card before the last one leaves the hand
      and is returned; the last card moves up one place. */
  function RemoveSecondToLast(h: seq<Card>): (r: (Card, seq<Card>))
    requires |h| >= 2
    ensures |r.1| == |h| - 1
    ensures r.1[..|h| - 2] == h[..|h| - 2] && r.1[|h| - 2] == h[|h| - 1]
    ensures multiset(r.1) + multiset{r.0} == multiset(h)
  {
    assert h == h[..|h| - 2] + [h[|h| - 2]] + [h[|h| - 1]];
    (h[|h| - 2], h[..|h| - 2] + [h[|h| - 1]])
  }

  /** Putting the removed card back in its place restores the hand. */
  lemma RemoveSecondToLastPutBack(h: seq<Card>)
    requires |h| >= 2
    ensures var r := RemoveSecondToLast(h);
            r.1[..|h| - 2] + [r.0] + r.1[|h| - 2..] == h
  {
    var r := RemoveSecondToLast(h);
    assert r.1[|h| - 2..] == [h[|h| - 1]];
    assert h == h[..|h| - 2] + [h[|h| - 2]] + [h[|h| - 1]];
  }
}
