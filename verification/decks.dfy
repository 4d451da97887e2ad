/** The generic deck: an ordered pile of cards that grows at the back and
    gives up cards at either end. */
module Decks {
  import opened Optional
  import opened Cards

  /** A deck; its first card is the front, its last card the back. */
  datatype Deck = Deck(cards: seq<Card>)

  /** The empty deck the constructor starts from. */
  const Empty := Deck([])

  /** addCard: the card goes to the back; the cards already there keep
      their places. */
  function AddCard(d: Deck, c: Card): (r: Deck)
    ensures |r.cards| == |d.cards| + 1
    ensures r.cards[..|d.cards|] == d.cards && r.cards[|d.cards|] == c
  {
    Deck(d.cards + [c])
  }

  /** removeFirstCard: the front card is taken off and returned; the other
      cards keep their order. The source throws on an empty deck. */
  function RemoveFirstCard(d: Deck): (r: (Card, Deck))
    requires |d.cards| > 0
    ensures [r.0] + r.1.cards == d.cards
  {
    (d.cards[0], Deck(d.cards[1..]))
  }

  /** removeLastCard: the back card is taken off and returned. The source
      throws on an empty deck. */
  function RemoveLastCard(d: Deck): (r: (Card, Deck))
    requires |d.cards| > 0
    ensures r.1.cards + [r.0] == d.cards
  {
    (d.cards[|d.cards| - 1], Deck(d.cards[..|d.cards| - 1]))
  }

  /** getLastCard: the back card, or nothing (the source's null) when the
      deck is empty. */
  function GetLastCard(d: Deck): (r: Option<Card>)
    ensures r.None? <==> |d.cards| == 0
    ensures r.Some? ==> r.value == d.cards[|d.cards| - 1]
  {
    if |d.cards| > 0 then Some(d.cards[|d.cards| - 1]) else None
  }

  /** length: the number of cards. */
  function Length(d: Deck): nat {
    |d.cards|
  }

  /** Adding a card and removing the last one gives the card back and
      restores the deck. */
  lemma AddThenRemoveLast(d: Deck, c: Card)
    ensures RemoveLastCard(AddCard(d, c)) == (c, d)
  {
    assert AddCard(d, c).cards[..|d.cards|] == d.cards;
  }

  /** Removing the last card and adding it again restores the deck. */
  lemma RemoveLastThenAdd(d: Deck)
    requires |d.cards| > 0
    ensures AddCard(RemoveLastCard(d).1, RemoveLastCard(d).0) == d
  {
  }

  /** Removing the front card and putting it back in front restores the
      deck. */
  lemma RemoveFirstThenPutBack(d: Deck)
    requires |d.cards| > 0
    ensures Deck([RemoveFirstCard(d).0] + RemoveFirstCard(d).1.cards) == d
  {
  }

  /** getLastCard names exactly the card removeLastCard would take. */
  lemma GetLastAgrees(d: Deck)
    ensures GetLastCard(d) == if |d.cards| == 0 then None else Some(RemoveLastCard(d).0)
  {
  }

  /** The length counts the additions and removals. */
  lemma LengthCounts(d: Deck, c: Card)
    ensures Length(AddCard(d, c)) == Length(d) + 1
    ensures Length(d) > 0 ==> Length(RemoveLastCard(d).1) == Length(d) - 1
    ensures Length(d) > 0 ==> Length(RemoveFirstCard(d).1) == Length(d) - 1
    ensures Length(Empty) == 0
  {
  }

  /** Dealing the front card of a deck to a pile: between the two, the cards
      are the same as before. */
  lemma DealKeepsCards(d: Deck, pile: Deck)
    requires |d.cards| > 0
    ensures multiset(RemoveFirstCard(d).1.cards) + multiset(AddCard(pile, RemoveFirstCard(d).0).cards)
         == multiset(d.cards) + multiset(pile.cards)
  {
    assert d.cards == [d.cards[0]] + d.cards[1..];
  }
}
