/** The closed deck: built as the 52 cards of the deck in suit and face
    order, then shuffled by swaps. The random numbers the shuffle draws are
    parameters here. */
module ClosedDeck {
  import opened Cards
  import opened Hands
  import opened Decks

  // ------------------------------------------------------------ construction

  /** The 52 cards in the order the constructor adds them: suit by suit,
      Ace to King within each suit. */
  predicate IsOrderedDeck(s: seq<Card>) {
    |s| == 52 && forall i | 0 <= i < 52 :: s[i] == NewCard(i / 13, i % 13 + 1)
  }

  /** The two loops of the constructor, before the shuffle. */
  method NewOrderedDeck() returns (d: Deck)
    ensures IsOrderedDeck(d.cards)
  {
    var cards: seq<Card> := [];
    var suit := 0;
    while suit <= 3
      invariant 0 <= suit <= 4
      invariant |cards| == 13 * suit
      invariant forall i | 0 <= i < |cards| :: cards[i] == NewCard(i / 13, i % 13 + 1)
    {
      var face := Ace;
      while face <= King
        invariant Ace <= face <= King + 1
        invariant |cards| == 13 * suit + face - 1
        invariant forall i | 0 <= i < |cards| :: cards[i] == NewCard(i / 13, i % 13 + 1)
      {
        PositionOf(suit, face);
        cards := cards + [NewCard(suit, face)];
        face := face + 1;
      }
      suit := suit + 1;
    }
    d := Deck(cards);
  }

  /** Where the constructor puts the card of a suit and face. */
  lemma PositionOf(suit: int, face: int)
    requires 0 <= suit <= 3 && Ace <= face <= King
    ensures (13 * suit + face - 1) / 13 == suit && (13 * suit + face - 1) % 13 + 1 == face
  {
  }

  /** Before the shuffle the ids run 1, 2, ..., 52: every card is a card of
      the deck, none is repeated, and all are unannotated. */
  lemma OrderedDeckIds(s: seq<Card>)
    requires IsOrderedDeck(s)
    ensures forall i | 0 <= i < |s| :: Id(s[i]) == i + 1
    ensures AllValid(s) && AllReset(s) && IdAscending(s) && DistinctIds(s)
  {
  }

  /** Every card of the deck is in the ordered deck, at the position its id
      names. */
  lemma OrderedDeckComplete(s: seq<Card>)
    requires IsOrderedDeck(s)
    ensures forall suit, face | 0 <= suit <= 3 && Ace <= face <= King ::
      s[13 * suit + face - 1] == NewCard(suit, face)
  {
    forall suit, face | 0 <= suit <= 3 && Ace <= face <= King
      ensures s[13 * suit + face - 1] == NewCard(suit, face)
    {
      PositionOf(suit, face);
    }
  }

  // ------------------------------------------------------------ swap and shuffle

  /** swap: the cards at positions i and j change places. */
  function Swap(s: seq<Card>, i: int, j: int): (r: seq<Card>)
    requires 0 <= i < |s| && 0 <= j < |s|
    ensures |r| == |s| && r[i] == s[j] && r[j] == s[i]
    ensures forall k | 0 <= k < |s| && k != i && k != j :: r[k] == s[k]
  {
    s[i := s[j]][j := s[i]]
  }

  /** A swap keeps the cards, and a second swap of the same positions undoes it. */
  lemma SwapFacts(s: seq<Card>, i: int, j: int)
    requires 0 <= i < |s| && 0 <= j < |s|
    ensures multiset(Swap(s, i, j)) == multiset(s)
    ensures Swap(Swap(s, i, j), i, j) == s
    ensures Swap(s, i, j) == Swap(s, j, i)
  {
  }

  /** shuffle, with the index the source draws for position i given as
      picks[i]. Positions run down from the last one to 2. */
  method Shuffle(s: seq<Card>, picks: seq<int>) returns (r: seq<Card>)
    requires |picks| == |s|
    requires forall i | 2 <= i < |s| :: 0 <= picks[i] < |s|
    ensures |r| == |s| && multiset(r) == multiset(s)
    ensures |s| <= 2 ==> r == s
  {
    r := s;
    var i := |s| - 1;
    while i > 1
      invariant i < |s|
      invariant |r| == |s| && multiset(r) == multiset(s)
      invariant |s| <= 2 ==> r == s
    {
      SwapFacts(r, i, picks[i]);
      r := Swap(r, i, picks[i]);
      i := i - 1;
    }
  }

  /** Java's (int) cast of a double: truncation toward zero. */
  function IntCast(x: real): int {
    if x >= 0.0 then x.Floor else -((-x).Floor)
  }

  /** The index shuffle draws for position i from a Math.random() value r,
      as the source writes it: (int)(r * i - 1). */
  function ShuffleIndexAsWritten(r: real, i: int): int {
    IntCast(r * i as real - 1.0)
  }

  /** Math.random() may return 0.0, and then the index drawn as written is
      -1: the swap reads outside the deck. */
  lemma AsWrittenLeavesDeck(i: int)
    requires i >= 2
    ensures ShuffleIndexAsWritten(0.0, i) == -1
  {
  }

  /** For every other value the index drawn as written lies in 0 .. i - 2. */
  lemma AsWrittenRangeOtherwise(r: real, i: int)
    requires 0.0 < r < 1.0 && i >= 2
    ensures 0 <= ShuffleIndexAsWritten(r, i) <= i - 2
  {
    var y := i as real;
    MulPositive(r, y);
    MulPositive(1.0 - r, y);
    assert (1.0 - r) * y == y - r * y;
  }

  /** The product of two positive reals is positive. */
  lemma MulPositive(a: real, b: real)
    requires a > 0.0 && b > 0.0
    ensures a * b > 0.0
  {
  }

  /** The index the shuffle is meant to draw: (int)(r * i), which lies in
      0 .. i - 1 for every r in [0, 1). */
  function ShuffleIndex(r: real, i: int): (j: int)
    requires 0.0 <= r < 1.0 && i >= 1
    ensures 0 <= j < i
  {
    assert 0.0 <= r * i as real < i as real by {
      assert r * i as real < 1.0 * i as real;
    }
    IntCast(r * i as real)
  }

  /** Math.random() values in [0, 1). */
  predicate Draws(draws: seq<real>) {
    forall i | 0 <= i < |draws| :: 0.0 <= draws[i] < 1.0
  }

  /** shuffle driven by Math.random() values, one per position, through the
      corrected index. */
  method ShuffleDraws(s: seq<Card>, draws: seq<real>) returns (r: seq<Card>)
    requires |draws| == |s| && Draws(draws)
    ensures |r| == |s| && multiset(r) == multiset(s)
  {
    var picks := seq(|s|, i requires 0 <= i < |s| => if i >= 1 then ShuffleIndex(draws[i], i) else 0);
    r := Shuffle(s, picks);
  }

  /** The constructor: the ordered deck, shuffled through the corrected
      index. The result holds each of the 52 cards of the deck exactly once,
      unannotated. */
  method NewClosedDeck(draws: seq<real>) returns (d: Deck)
    requires |draws| == 52 && Draws(draws)
    ensures |d.cards| == 52
    ensures AllValid(d.cards) && AllReset(d.cards) && DistinctIds(d.cards)
    ensures forall suit, face | 0 <= suit <= 3 && Ace <= face <= King :: NewCard(suit, face) in d.cards
  {
    var ordered := NewOrderedDeck();
    var cards := ShuffleDraws(ordered.cards, draws);
    ShuffledDeckFacts(cards, ordered.cards);
    d := Deck(cards);
  }

  /** The constructor with the index as the source writes it,
      (int)(r * i - 1). Whenever no draw is 0.0 every index lies in the deck,
      and the result again holds each of the 52 cards exactly once,
      unannotated. */
  method NewClosedDeckAsWritten(draws: seq<real>) returns (d: Deck)
    requires |draws| == 52 && forall i | 0 <= i < 52 :: 0.0 < draws[i] < 1.0
    ensures |d.cards| == 52
    ensures AllValid(d.cards) && AllReset(d.cards) && DistinctIds(d.cards)
    ensures forall suit, face | 0 <= suit <= 3 && Ace <= face <= King :: NewCard(suit, face) in d.cards
  {
    var ordered := NewOrderedDeck();
    var picks := seq(52, i requires 0 <= i < 52 => if i >= 2 then ShuffleIndexAsWritten(draws[i], i) else 0);
    forall i | 2 <= i < 52
      ensures 0 <= picks[i] < 52
    {
      AsWrittenRangeOtherwise(draws[i], i);
    }
    var cards := Shuffle(ordered.cards, picks);
    ShuffledDeckFacts(cards, ordered.cards);
    d := Deck(cards);
  }

  /** Any reordering of the ordered deck holds each of the 52 cards of the
      deck exactly once, unannotated. */
  lemma ShuffledDeckFacts(cards: seq<Card>, ordered: seq<Card>)
    requires IsOrderedDeck(ordered) && multiset(cards) == multiset(ordered)
    ensures |cards| == 52
    ensures AllValid(cards) && AllReset(cards) && DistinctIds(cards)
    ensures forall suit, face | 0 <= suit <= 3 && Ace <= face <= King :: NewCard(suit, face) in cards
  {
    OrderedDeckIds(ordered);
    OrderedDeckComplete(ordered);
    assert |cards| == |multiset(cards)| == |ordered|;
    PermDistinct(cards, ordered);
    forall suit, face | 0 <= suit <= 3 && Ace <= face <= King
      ensures NewCard(suit, face) in cards
    {
      assert ordered[13 * suit + face - 1] == NewCard(suit, face);
      assert NewCard(suit, face) in multiset(ordered);
    }
  }

  /** A reordering of distinct unannotated cards of the deck is again made
      of distinct unannotated cards of the deck. */
  lemma PermDistinct(a: seq<Card>, b: seq<Card>)
    requires multiset(a) == multiset(b) && AllValid(b) && AllReset(b) && DistinctIds(b)
    ensures AllValid(a) && AllReset(a) && DistinctIds(a)
  {
    PermFacts(a, b);
    DistinctIdsNoDup(b);
    ResetAllOfReset(b);
    assert NoDup(a);
    forall i, j | 0 <= i < j < |a|
      ensures Id(a[i]) != Id(a[j])
    {
      NoDupDistinct(a, i, j);
      if Id(a[i]) == Id(a[j]) {
        IdInjective(a[i], a[j]);
      }
    }
  }
}
